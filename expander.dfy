/** The URLs `download_all_urls` asks for: a template URL with the placeholder `%s` stands
    for six cube faces, and for each face the image itself plus 29 processed variants of
    it (an info record, a 256-pixel thumbnail, and 27 tiles). */
module Expander {
  import opened Text

  /** The cube faces, in the order they are expanded. */
  const DIRECTIONAL_SUFFIXES: seq<string> := ["f", "b", "l", "r", "u", "d"]

  const PLACEHOLDER := "%s"

  /** A tile coordinate of the 3 × 3 grid. */
  type Tile = i: nat | i < 3

  /** The width the image is resized to before cutting tiles. */
  datatype Resolution = Native | W512 | W1024

  /** One processed variant of a face image. */
  datatype Derivative = Info | Resize256 | Crop(res: Resolution, x: Tile, y: Tile)

  const OSS := "x-oss-process="
  const TAIL := "|image/quality,q_100|image/format,webp/quality,q_100"

  const INFO := "image/info"
  const THUMB := "image/resize,w_256"
  const RESIZE_512 := "image/resize,w_512|"
  const RESIZE_1024 := "image/resize,w_1024|"
  const CROP_X := "image/indexcrop,x_512,i_"
  const CROP_Y := "|image/indexcrop,y_512,i_"

  function ResizePrefix(res: Resolution): string
  {
    match res
    case Native => ""
    case W512 => RESIZE_512
    case W1024 => RESIZE_1024
  }

  function Digit(i: Tile): (c: char)
    ensures IsDigit(c)
  {
    if i == 0 then '0' else if i == 1 then '1' else '2'
  }

  /** The query string that selects a variant. */
  function Query(d: Derivative): string
  {
    match d
    case Info => OSS + INFO
    case Resize256 => OSS + THUMB + TAIL
    case Crop(res, x, y) =>
      OSS + ResizePrefix(res) + CROP_X + [Digit(x)] + CROP_Y + [Digit(y)] + TAIL
  }

  /** The `k`-th variant requested for a face: the info record, the thumbnail, then for
      each row `y` and column `x` the native tile, the 512 tile and the 1024 tile. */
  function PlanItem(k: nat): (d: Derivative)
    requires k < 29
    ensures k == 0 <==> d == Info
    ensures k == 1 <==> d == Resize256
  {
    if k == 0 then Info
    else if k == 1 then Resize256
    else
      var j := k - 2;
      Crop(ResolutionAt(j % 3), (j / 3) % 3, j / 9)
  }

  function ResolutionAt(r: nat): Resolution
    requires r < 3
  {
    if r == 0 then Native else if r == 1 then W512 else W1024
  }

  function ResolutionIndex(res: Resolution): (r: nat)
    ensures r < 3 && ResolutionAt(r) == res
  {
    match res
    case Native => 0
    case W512 => 1
    case W1024 => 2
  }

  /** The position of a variant in the request order. */
  function PlanIndex(d: Derivative): (k: nat)
    ensures k < 29
  {
    match d
    case Info => 0
    case Resize256 => 1
    case Crop(res, x, y) => 2 + 9 * y + 3 * x + ResolutionIndex(res)
  }

  /** The 29 variants of one face, in the order `download_all_urls` requests them. */
  function Plan(): (p: seq<Derivative>)
    ensures |p| == 29 && forall k :: 0 <= k < 29 ==> p[k] == PlanItem(k)
  {
    seq(29, k requires 0 <= k < 29 => PlanItem(k))
  }

  /** The text before the first `?`, then the variant's query. */
  function DerivedUrl(expanded: string, d: Derivative): (r: string)
    ensures |r| > |Before(expanded, '?')| && r[..|Before(expanded, '?')|] == Before(expanded, '?')
    ensures r[|Before(expanded, '?')|] == '?' && '?' !in r[..|Before(expanded, '?')|]
  {
    Before(expanded, '?') + "?" + Query(d)
  }

  /** The first `n` variants of the plan, as URLs. */
  function Derive(expanded: string, n: nat): (r: seq<string>)
    requires n <= 29
    ensures |r| == n
  {
    seq(n, k requires 0 <= k < n => DerivedUrl(expanded, PlanItem(k)))
  }

  /** The 30 requests for one face. */
  function FaceCalls(expanded: string): seq<string>
  {
    [expanded] + Derive(expanded, 29)
  }

  /** The template with every placeholder replaced by a face letter. */
  function Expanded(url: string, suffix: string): string
  {
    ReplaceAll(url, PLACEHOLDER, suffix)
  }

  /** The requests for the first `n` faces. */
  function Faces(url: string, n: nat): seq<string>
    requires n <= |DIRECTIONAL_SUFFIXES|
  {
    if n == 0 then [] else Faces(url, n - 1) + FaceCalls(Expanded(url, DIRECTIONAL_SUFFIXES[n - 1]))
  }

  /** The requests for one URL of the set: all faces for a template, the URL itself for
      anything else. */
  function ExpandUrl(url: string): seq<string>
  {
    if Contains(url, PLACEHOLDER) then Faces(url, |DIRECTIONAL_SUFFIXES|) else [url]
  }

  /** The requests for the URLs in iteration order. */
  function ExpandAll(urls: seq<string>): seq<string>
  {
    if urls == [] then [] else ExpandAll(urls[..|urls| - 1]) + ExpandUrl(urls[|urls| - 1])
  }

  // ---------------------------------------------------------------------------------
  // Lemmas

  /** One more URL of the set adds its own requests at the end. */
  lemma ExpandAllStep(urls: seq<string>, i: nat)
    requires i < |urls|
    ensures ExpandAll(urls[..i + 1]) == ExpandAll(urls[..i]) + ExpandUrl(urls[i])
  {
    assert urls[..i + 1][..i] == urls[..i];
  }

  /** `PlanIndex` and `PlanItem` are inverse: the plan is a numbering of the variants. */
  lemma PlanNumbering(d: Derivative, k: nat)
    requires k < 29
    ensures PlanItem(PlanIndex(d)) == d
    ensures PlanIndex(PlanItem(k)) == k
  {
    if d.Crop? {
      var j := 9 * d.y + 3 * d.x + ResolutionIndex(d.res);
      assert j % 3 == ResolutionIndex(d.res) && (j / 3) % 3 == d.x && j / 9 == d.y;
    }
    if k >= 2 {
      var j := k - 2;
      assert j == 9 * (j / 9) + 3 * ((j / 3) % 3) + j % 3;
      assert ResolutionIndex(ResolutionAt(j % 3)) == j % 3;
    }
  }

  /** Different variants have different queries. */
  lemma QueryInjective(d1: Derivative, d2: Derivative)
    requires Query(d1) == Query(d2)
    ensures d1 == d2
  {
    var q1, q2 := Query(d1), Query(d2);
    assert |Query(Info)| == 24 && |Query(Resize256)| == 84;
    if d1.Crop? && d2.Crop? {
      var p1, p2 := |ResizePrefix(d1.res)|, |ResizePrefix(d2.res)|;
      assert |q1| == 117 + p1 && |q2| == 117 + p2;
      assert p1 == p2;
      assert d1.res == d2.res by {
        assert p1 == 0 <==> d1.res == Native;
        assert p1 == 19 <==> d1.res == W512;
      }
      assert q1[38 + p1] == Digit(d1.x) && q2[38 + p1] == Digit(d2.x);
      assert q1[64 + p1] == Digit(d1.y) && q2[64 + p1] == Digit(d2.y);
    }
  }

  /** The plan requests each variant exactly once, so its 29 queries are pairwise
      distinct. */
  lemma PlanDistinct()
    ensures |Plan()| == 29
    ensures forall i, j :: 0 <= i < j < 29 ==> Query(Plan()[i]) != Query(Plan()[j])
  {
    forall i, j | 0 <= i < j < 29 ensures Query(Plan()[i]) != Query(Plan()[j]) {
      if Query(Plan()[i]) == Query(Plan()[j]) {
        QueryInjective(Plan()[i], Plan()[j]);
        PlanNumbering(Info, i);
        PlanNumbering(Info, j);
      }
    }
  }

  /** Every variant is requested: the info record, the thumbnail, and every tile of the
      grid at every resolution. */
  lemma PlanCovers(d: Derivative)
    ensures d in Plan()
  {
    PlanNumbering(d, 0);
    assert Plan()[PlanIndex(d)] == d;
  }

  /** The request order: info, thumbnail, then rows, columns, resolutions. */
  lemma PlanOrder()
    ensures Plan()[0] == Info && Plan()[1] == Resize256
    ensures forall y: Tile, x: Tile, r :: 0 <= r < 3 ==>
              Plan()[2 + 9 * y + 3 * x + r] == Crop(ResolutionAt(r), x, y)
  {
    forall y: Tile, x: Tile, r | 0 <= r < 3
      ensures Plan()[2 + 9 * y + 3 * x + r] == Crop(ResolutionAt(r), x, y)
    {
      var d := Crop(ResolutionAt(r), x, y);
      assert ResolutionIndex(ResolutionAt(r)) == r;
      assert PlanIndex(d) == 2 + 9 * y + 3 * x + r;
      PlanNumbering(d, 0);
    }
  }

  /** Tile `(x, y)` at resolution `r` is variant `2 + 9y + 3x + r` of the plan. */
  lemma CropInPlan(x: Tile, y: Tile, r: nat, k: nat)
    requires r < 3 && k == 2 + 9 * y + 3 * x + r
    ensures k < 29 && PlanItem(k) == Crop(ResolutionAt(r), x, y)
  {
    PlanNumbering(Crop(ResolutionAt(r), x, y), 0);
    assert ResolutionIndex(ResolutionAt(r)) == r;
  }

  /** The plan is requested one variant after another. */
  lemma DeriveNext(expanded: string, n: nat, m: nat, d: Derivative)
    requires n < 29 && m == n + 1 && PlanItem(n) == d
    ensures Derive(expanded, m) == Derive(expanded, n) + [DerivedUrl(expanded, d)]
  {
    var a := Derive(expanded, m);
    DerivePrefix(expanded, n, m);
    assert a[n] == DerivedUrl(expanded, d);
    ExtendByLast(a, Derive(expanded, n), DerivedUrl(expanded, d));
  }

  /** A shorter run of the plan is a prefix of a longer one. */
  lemma DerivePrefix(expanded: string, n: nat, m: nat)
    requires n <= m <= 29
    ensures Derive(expanded, m)[..n] == Derive(expanded, n)
  {
    var a, b := Derive(expanded, m)[..n], Derive(expanded, n);
    forall i | 0 <= i < n
      ensures a[i] == b[i]
    {
    }
  }

  lemma ExtendByLast<T>(a: seq<T>, b: seq<T>, x: T)
    requires |a| == |b| + 1 && a[..|b|] == b && a[|b|] == x
    ensures a == b + [x]
  {
    assert a == a[..|b|] + [a[|b|]];
  }

  lemma {:induction false} FacesLength(url: string, n: nat)
    requires n <= |DIRECTIONAL_SUFFIXES|
    ensures |Faces(url, n)| == 30 * n
  {
    if n > 0 {
      FacesLength(url, n - 1);
    }
  }

  /** The calls for face `k` of the first `n` occupy positions `30k` to `30k + 29`: the
      expanded URL, then its 29 variants. */
  lemma {:induction false} FacesAt(url: string, n: nat, k: nat, j: nat)
    requires k < n <= |DIRECTIONAL_SUFFIXES| && j < 30
    ensures 30 * k + j < |Faces(url, n)|
    ensures Faces(url, n)[30 * k + j] == FaceCalls(Expanded(url, DIRECTIONAL_SUFFIXES[k]))[j]
  {
    FacesLength(url, n);
    FacesLength(url, n - 1);
    if k < n - 1 {
      FacesAt(url, n - 1, k, j);
    }
  }

  /** The 30 calls for one face: the expanded URL itself, then its 29 variants. */
  lemma FaceCallsShape(expanded: string)
    ensures |FaceCalls(expanded)| == 30 && FaceCalls(expanded)[0] == expanded
    ensures forall j :: 0 <= j < 29 ==> FaceCalls(expanded)[j + 1] == DerivedUrl(expanded, PlanItem(j))
  {
    var r := Derive(expanded, 29);
    assert FaceCalls(expanded) == [expanded] + r;
    forall j | 0 <= j < 29
      ensures FaceCalls(expanded)[j + 1] == DerivedUrl(expanded, PlanItem(j))
    {
      assert FaceCalls(expanded)[j + 1] == r[j];
    }
  }

  /** A template yields 180 calls, 30 per face in the order f, b, l, r, u, d. Any other URL
      yields one call with the URL unchanged. */
  lemma ExpandUrlShape(url: string)
    ensures Contains(url, PLACEHOLDER) ==> |ExpandUrl(url)| == 180
    ensures Contains(url, PLACEHOLDER) ==>
              forall k, j :: 0 <= k < 6 && 0 <= j < 30 ==>
                ExpandUrl(url)[30 * k + j] == FaceCalls(Expanded(url, DIRECTIONAL_SUFFIXES[k]))[j]
    ensures !Contains(url, PLACEHOLDER) ==> ExpandUrl(url) == [url]
  {
    if Contains(url, PLACEHOLDER) {
      FacesLength(url, 6);
      forall k, j | 0 <= k < 6 && 0 <= j < 30
        ensures ExpandUrl(url)[30 * k + j] == FaceCalls(Expanded(url, DIRECTIONAL_SUFFIXES[k]))[j]
      {
        FacesAt(url, 6, k, j);
      }
    }
  }

  /** Replacing the placeholder leaves a prefix free of `%` untouched. */
  lemma {:induction false} ReplacePrefix(a: string, c: string, rep: string)
    requires '%' !in a
    ensures ReplaceAll(a + c, PLACEHOLDER, rep) == a + ReplaceAll(c, PLACEHOLDER, rep)
    decreases |a|
  {
    if a == [] {
      assert a + c == c;
    } else {
      var s := a + c;
      assert s[0] == a[0] && s[1..] == a[1..] + c;
      assert !StartsWith(s, PLACEHOLDER) by {
        assert s[0] == a[0] && a[0] in a;
      }
      ReplacePrefix(a[1..], c, rep);
      assert a == [a[0]] + a[1..];
    }
  }

  /** When the placeholder occurs only after the `?`, every face has the same text before
      the `?`, so each face's 29 variant requests are the same URLs: the expansion asks
      for each of them six times. */
  lemma PlaceholderInQueryRepeats(base: string, query: string, k: nat, j: nat)
    requires '%' !in base && '?' !in base && Contains(query, PLACEHOLDER)
    requires k < 6 && j < 29
    ensures var calls := ExpandUrl(base + "?" + query);
            30 * k + 1 + j < |calls| && calls[30 * k + 1 + j] == base + "?" + Query(PlanItem(j))
  {
    var url := base + "?" + query;
    assert url == (base + "?") + query;
    ContainsSuffix(base + "?", query);
    ExpandUrlShape(url);
    var sfx := DIRECTIONAL_SUFFIXES[k];
    var e := Expanded(url, sfx);
    FaceCallsShape(e);
    ExpandedBase(base, query, sfx);
    assert 30 * k + 1 + j == 30 * k + (j + 1);
  }

  /** Expanding a template whose placeholders all follow the `?` keeps the text before it. */
  lemma ExpandedBase(base: string, query: string, sfx: string)
    requires '%' !in base && '?' !in base
    ensures Before(Expanded(base + "?" + query, sfx), '?') == base
  {
    var q := ReplaceAll(query, PLACEHOLDER, sfx);
    assert base + "?" + query == base + ("?" + query);
    ReplacePrefix(base, "?" + query, sfx);
    assert ReplaceAll("?" + query, PLACEHOLDER, sfx) == "?" + q by {
      assert ("?" + query)[1..] == query;
      assert !StartsWith("?" + query, PLACEHOLDER);
    }
    assert Expanded(base + "?" + query, sfx) == base + ['?'] + q;
    IndexOfAt(base, '?', q);
  }

  lemma {:induction false} ContainsSuffix(a: string, t: string)
    requires Contains(t, PLACEHOLDER)
    ensures Contains(a + t, PLACEHOLDER)
    decreases |a|
  {
    if a == [] {
      assert a + t == t;
    } else {
      ContainsSuffix(a[1..], t);
      assert (a + t)[1..] == a[1..] + t;
    }
  }
}
