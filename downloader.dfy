/** post_process.py's downloader: where a URL is stored, when a fetch is skipped, and the
    sequence of requests `download_all_urls` makes. The file system is the set of paths
    that exist; each attempted fetch is recorded, and whether it leaves a file behind is
    decided by an oracle standing for the network. */
module Downloader {
  import opened Text
  import opened PyUrl
  import opened Paths
  import opened Domains
  import opened Expander

  /** `BASE_DIR = Path('./webroot')`, as `pathlib` parts. */
  const BASE_PARTS: seq<string> := ["webroot"]

  /** `normalize_path`: `BASE_DIR / netloc / path`, where `path` is the unquoted URL path
      without its leading slashes, followed by the query suffix. */
  function NormalizePath(u: ParsedUrl): (parts: seq<string>)
    ensures |parts| >= 1 && parts[0] == "webroot"
    ensures forall k :: 0 <= k < |parts| ==> parts[k] != "" && parts[k] != "."
  {
    var path := LStrip(Unquote(u.path), '/') + QuerySuffix(u.query);
    StoredParts(u.netloc, path);
    BASE_PARTS + (PyParts(u.netloc) + PyParts(path))
  }

  /** Below the base directory, the parts of two relative paths are never empty or `.`. */
  lemma StoredParts(a: string, b: string)
    ensures var parts := BASE_PARTS + (PyParts(a) + PyParts(b));
      forall k :: 0 <= k < |parts| ==> parts[k] != "" && parts[k] != "."
  {
    var x, y := PyParts(a), PyParts(b);
    assert forall k :: 0 <= k < |x + y| ==> (x + y)[k] in x || (x + y)[k] in y;
  }

  /** One attempted download: the URL and the file it was to be stored in. */
  datatype Fetch = Fetch(url: string, path: seq<string>)

  /** The paths that exist (files and directories) and the fetches attempted so far. A path
      is its unresolved `pathlib` part list: `a/../b` and `b` are two paths here. */
  datatype Disk = Disk(existing: set<seq<string>>, fetches: seq<Fetch>)

  /** The directories `os.makedirs(local_path.parent)` creates. */
  function Ancestors(path: seq<string>): (r: set<seq<string>>)
    ensures forall k :: 1 <= k < |path| ==> path[..k] in r
    ensures path !in r
  {
    set k | 1 <= k < |path| :: path[..k]
  }

  /** `download_file(url, local_path)`: nothing happens when the path exists or the URL
      path starts with `/download`; otherwise the parent directories are created, the URL
      is fetched, and the file exists afterwards when `saved(url)` (the request succeeded).
      A failed request is absorbed. */
  function DownloadFile(disk: Disk, url: string, path: seq<string>, saved: string -> bool): (d: Disk)
    ensures path in disk.existing ==> d == disk
    ensures StartsWith(UrlParse(url).path, "/download") ==> d == disk
    ensures path !in disk.existing && !StartsWith(UrlParse(url).path, "/download") ==>
              d.fetches == disk.fetches + [Fetch(url, path)]
              && d.existing == disk.existing + Ancestors(path) + (if saved(url) then {path} else {})
  {
    if path in disk.existing then disk
    else if StartsWith(UrlParse(url).path, "/download") then disk
    else
      Disk(disk.existing + Ancestors(path) + (if saved(url) then {path} else {}),
           disk.fetches + [Fetch(url, path)])
  }

  /** `handle_url`: an ineligible host is ignored; otherwise the URL is downloaded to its
      normalised path. */
  function HandleUrl(disk: Disk, url: string, saved: string -> bool): (d: Disk)
    ensures !ShouldProcessDomain(UrlParse(WithScheme(url)).netloc) ==> d == disk
  {
    var u := WithScheme(url);
    var parsed := UrlParse(u);
    if !ShouldProcessDomain(parsed.netloc) then disk
    else DownloadFile(disk, u, NormalizePath(parsed), saved)
  }

  /** `handle_url` with the network's answers fixed, as a function value. */
  function Handler(saved: string -> bool): (Disk, string) -> Disk
  {
    (disk: Disk, url: string) => HandleUrl(disk, url, saved)
  }

  /** The disk after `handle` has been called on each of `calls`, in order. */
  function Replay(disk: Disk, calls: seq<string>, handle: (Disk, string) -> Disk): Disk
  {
    if calls == [] then disk
    else handle(Replay(disk, calls[..|calls| - 1], handle), calls[|calls| - 1])
  }

  /** The disk after a sequence of `handle_url` calls. */
  function HandleAll(disk: Disk, calls: seq<string>, saved: string -> bool): Disk
  {
    Replay(disk, calls, Handler(saved))
  }

  /** `download_all_urls(urls)`, with the set's iteration order given as a sequence. The
      result is the sequence of `handle_url` calls made and the disk afterwards. */
  method DownloadAllUrls(urls: seq<string>, disk: Disk, saved: string -> bool)
      returns (calls: seq<string>, d: Disk)
    ensures calls == ExpandAll(urls)
    ensures d == HandleAll(disk, calls, saved)
  {
    calls, d := RequestAll(urls, disk, Handler(saved));
  }

  /** The loops of `download_all_urls`, for any handler of a single URL. */
  method RequestAll(urls: seq<string>, disk: Disk, handle: (Disk, string) -> Disk)
      returns (calls: seq<string>, d: Disk)
    ensures calls == ExpandAll(urls)
    ensures d == Replay(disk, calls, handle)
  {
    calls, d := [], disk;
    var i := 0;
    while i < |urls|
      invariant 0 <= i <= |urls|
      invariant calls == ExpandAll(urls[..i])
      invariant d == Replay(disk, calls, handle)
    {
      calls, d := VisitUrl(disk, calls, d, urls[i], handle);
      ExpandAllStep(urls, i);
      i := i + 1;
    }
    assert urls[..i] == urls;
  }

  /** The body of the outer loop: a template is expanded, any other URL requested as is. */
  method VisitUrl(disk: Disk, calls: seq<string>, d: Disk, url: string, handle: (Disk, string) -> Disk)
      returns (calls': seq<string>, d': Disk)
    requires d == Replay(disk, calls, handle)
    ensures calls' == calls + ExpandUrl(url)
    ensures d' == Replay(disk, calls', handle)
  {
    if Contains(url, PLACEHOLDER) {
      calls', d' := VisitTemplate(disk, calls, d, url, handle);
    } else {
      calls', d' := Visit(disk, calls, d, url, handle);
    }
  }

  /** A template URL: the requests for each face, in the order of the suffixes. */
  method VisitTemplate(disk: Disk, calls: seq<string>, d: Disk, url: string, handle: (Disk, string) -> Disk)
      returns (calls': seq<string>, d': Disk)
    requires d == Replay(disk, calls, handle)
    ensures calls' == calls + Faces(url, |DIRECTIONAL_SUFFIXES|)
    ensures d' == Replay(disk, calls', handle)
  {
    calls', d' := calls, d;
    var k := 0;
    while k < |DIRECTIONAL_SUFFIXES|
      invariant 0 <= k <= |DIRECTIONAL_SUFFIXES|
      invariant calls' == calls + Faces(url, k)
      invariant d' == Replay(disk, calls', handle)
    {
      var expanded := ReplaceAll(url, PLACEHOLDER, DIRECTIONAL_SUFFIXES[k]);
      ghost var before := calls';
      calls', d' := VisitFace(disk, calls', d', expanded, handle);
      FacesStep(url, k, expanded);
      AppendStep(calls, Faces(url, k), Faces(url, k + 1), FaceCalls(expanded), before, calls');
      k := k + 1;
    }
  }

  /** The body of the loop over the suffixes: the expanded URL, its info record, its
      thumbnail, then the tiles row by row. */
  method VisitFace(disk: Disk, calls: seq<string>, d: Disk, expanded: string, handle: (Disk, string) -> Disk)
      returns (calls': seq<string>, d': Disk)
    requires d == Replay(disk, calls, handle)
    ensures calls' == calls + FaceCalls(expanded)
    ensures d' == Replay(disk, calls', handle)
  {
    ghost var pre := calls + [expanded];
    calls', d' := Visit(disk, calls, d, expanded, handle);
    assert calls' == pre + Derive(expanded, 0);
    ghost var k0: nat := 0;
    ghost var k1 := k0 + 1;
    calls', d' := VisitVariant(disk, calls', d', expanded, Info, pre, k0, handle);
    calls', d' := VisitVariant(disk, calls', d', expanded, Resize256, pre, k1, handle);
    calls', d' := VisitTiles(disk, calls', d', expanded, pre, k1 + 1, handle);
    ConsAssoc(calls, expanded, Derive(expanded, 29));
  }

  lemma ConsAssoc<T>(a: seq<T>, x: T, b: seq<T>)
    ensures (a + [x]) + b == a + ([x] + b)
  {
  }

  /** The loops over the rows and columns of the grid: variants 2 to 28 of the plan. */
  method VisitTiles(disk: Disk, calls: seq<string>, d: Disk, expanded: string,
                    ghost pre: seq<string>, ghost n: nat, handle: (Disk, string) -> Disk)
      returns (calls': seq<string>, d': Disk)
    requires n == 2 && calls == pre + Derive(expanded, n)
    requires d == Replay(disk, calls, handle)
    ensures calls' == pre + Derive(expanded, 29)
    ensures d' == Replay(disk, calls', handle)
  {
    calls', d' := calls, d;
    var y := 0;
    while y < 3
      invariant 0 <= y <= 3
      invariant calls' == pre + Derive(expanded, 2 + 9 * y)
      invariant d' == Replay(disk, calls', handle)
    {
      calls', d' := VisitRow(disk, calls', d', expanded, y, pre, 2 + 9 * y, 11 + 9 * y, handle);
      y := y + 1;
    }
  }

  /** The tiles of row `y`: for each column the native, 512 and 1024 tile. The row's
      requests are variants `n` up to `m` of the plan. */
  method VisitRow(disk: Disk, calls: seq<string>, d: Disk, expanded: string, y: Tile,
                  ghost pre: seq<string>, ghost n: nat, ghost m: nat, handle: (Disk, string) -> Disk)
      returns (calls': seq<string>, d': Disk)
    requires n == 2 + 9 * y && m == n + 9
    requires calls == pre + Derive(expanded, n)
    requires d == Replay(disk, calls, handle)
    ensures calls' == pre + Derive(expanded, m)
    ensures d' == Replay(disk, calls', handle)
  {
    calls', d' := calls, d;
    ghost var k := n;
    var x := 0;
    while x < 3
      invariant 0 <= x <= 3 && k == n + 3 * x
      invariant calls' == pre + Derive(expanded, k)
      invariant d' == Replay(disk, calls', handle)
    {
      calls', d' := VisitTile(disk, calls', d', expanded, x, y, pre, k, k + 3, handle);
      k := k + 3;
      x := x + 1;
    }
    assert k == m;
  }

  /** Tile `(x, y)` at the three resolutions: variants `n` up to `m` of the plan. */
  method VisitTile(disk: Disk, calls: seq<string>, d: Disk, expanded: string, x: Tile, y: Tile,
                   ghost pre: seq<string>, ghost n: nat, ghost m: nat, handle: (Disk, string) -> Disk)
      returns (calls': seq<string>, d': Disk)
    requires n == 2 + 9 * y + 3 * x && m == n + 3
    requires calls == pre + Derive(expanded, n)
    requires d == Replay(disk, calls, handle)
    ensures calls' == pre + Derive(expanded, m)
    ensures d' == Replay(disk, calls', handle)
  {
    ghost var n1 := n + 1;
    ghost var n2 := n1 + 1;
    CropInPlan(x, y, 0, n);
    CropInPlan(x, y, 1, n1);
    CropInPlan(x, y, 2, n2);
    calls', d' := VisitVariant(disk, calls, d, expanded, Crop(Native, x, y), pre, n, handle);
    calls', d' := VisitVariant(disk, calls', d', expanded, Crop(W512, x, y), pre, n1, handle);
    calls', d' := VisitVariant(disk, calls', d', expanded, Crop(W1024, x, y), pre, n2, handle);
    assert n2 + 1 == m;
  }

  /** The request for variant `k` of the plan. */
  method VisitVariant(disk: Disk, calls: seq<string>, d: Disk, expanded: string, v: Derivative,
                      ghost pre: seq<string>, ghost k: nat, handle: (Disk, string) -> Disk)
      returns (calls': seq<string>, d': Disk)
    requires k < 29 && PlanItem(k) == v
    requires calls == pre + Derive(expanded, k)
    requires d == Replay(disk, calls, handle)
    ensures calls' == pre + Derive(expanded, k + 1)
    ensures d' == Replay(disk, calls', handle)
  {
    DeriveNext(expanded, k, k + 1, v);
    calls', d' := Visit(disk, calls, d, DerivedUrl(expanded, v), handle);
    AppendStep(pre, Derive(expanded, k), Derive(expanded, k + 1), [DerivedUrl(expanded, v)], calls, calls');
  }

  /** Appending to a record that extends `pre` by `s`. */
  lemma AppendStep<T>(pre: seq<T>, s: seq<T>, t: seq<T>, u: seq<T>, before: seq<T>, after: seq<T>)
    requires t == s + u && before == pre + s && after == before + u
    ensures after == pre + t
  {
  }

  /** The faces up to `k + 1` are those up to `k` and then face `k`. */
  lemma FacesStep(url: string, k: nat, expanded: string)
    requires k < |DIRECTIONAL_SUFFIXES| && expanded == ReplaceAll(url, PLACEHOLDER, DIRECTIONAL_SUFFIXES[k])
    ensures Faces(url, k + 1) == Faces(url, k) + FaceCalls(expanded)
  {
  }

  /** One call of the handler, appended to the record of calls. */
  method Visit(disk: Disk, calls: seq<string>, d: Disk, url: string, handle: (Disk, string) -> Disk)
      returns (calls': seq<string>, d': Disk)
    requires d == Replay(disk, calls, handle)
    ensures calls' == calls + [url]
    ensures d' == Replay(disk, calls', handle)
  {
    calls' := calls + [url];
    d' := handle(d, url);
    assert calls'[..|calls'| - 1] == calls;
  }

  // ---------------------------------------------------------------------------------
  // Lemmas

  /** After a download that stored its file (or was skipped), asking again does nothing. */
  lemma DownloadIdempotent(disk: Disk, url: string, path: seq<string>, saved: string -> bool)
    requires saved(url) || path in disk.existing || StartsWith(UrlParse(url).path, "/download")
    ensures var d := DownloadFile(disk, url, path, saved);
            DownloadFile(d, url, path, saved) == d
  {
  }

  /** What the downloader keeps true of the disk: every fetch was for an eligible host,
      into the URL's normalised path, outside `/download`; a fetch that stored its file left
      that path existing; and no stored file is fetched a second time. */
  ghost predicate Consistent(disk: Disk, saved: string -> bool)
  {
    AllAllowed(disk.fetches) && StoredExist(disk, saved) && NoRefetch(disk.fetches, saved)
  }

  predicate FetchAllowed(f: Fetch)
  {
    var parsed := UrlParse(f.url);
    ShouldProcessDomain(parsed.netloc) && f.path == NormalizePath(parsed)
    && !StartsWith(parsed.path, "/download")
  }

  predicate AllAllowed(fetches: seq<Fetch>)
  {
    fetches == [] || (AllAllowed(fetches[..|fetches| - 1]) && FetchAllowed(fetches[|fetches| - 1]))
  }

  ghost predicate StoredExist(disk: Disk, saved: string -> bool)
  {
    forall k :: 0 <= k < |disk.fetches| && saved(disk.fetches[k].url) ==> disk.fetches[k].path in disk.existing
  }

  /** No part list that a successful fetch stored is fetched again. */
  ghost predicate NoRefetch(fetches: seq<Fetch>, saved: string -> bool)
  {
    forall k, j :: 0 <= k < j < |fetches| && fetches[k].path == fetches[j].path ==> !saved(fetches[k].url)
  }

  lemma HandleUrlConsistent(disk: Disk, url: string, saved: string -> bool)
    requires Consistent(disk, saved)
    ensures Consistent(HandleUrl(disk, url, saved), saved)
    ensures disk.existing <= HandleUrl(disk, url, saved).existing
    ensures disk.fetches <= HandleUrl(disk, url, saved).fetches
  {
    var u := WithScheme(url);
    var parsed := UrlParse(u);
    if ShouldProcessDomain(parsed.netloc) {
      var path := NormalizePath(parsed);
      if path !in disk.existing && !StartsWith(parsed.path, "/download") {
        assert FetchAllowed(Fetch(u, path));
        DownloadFileConsistent(disk, Fetch(u, path), saved);
      }
    }
  }

  /** A fetch the guards let through keeps the disk consistent. */
  lemma DownloadFileConsistent(disk: Disk, f: Fetch, saved: string -> bool)
    requires Consistent(disk, saved)
    requires FetchAllowed(f) && f.path !in disk.existing
    ensures Consistent(DownloadFile(disk, f.url, f.path, saved), saved)
    ensures disk.existing <= DownloadFile(disk, f.url, f.path, saved).existing
    ensures disk.fetches <= DownloadFile(disk, f.url, f.path, saved).fetches
  {
    var d := DownloadFile(disk, f.url, f.path, saved);
    assert d.fetches == disk.fetches + [f];
    AppendFetchConsistent(disk, d, f, saved);
  }

  /** Recording one more fetch, for a path that did not exist and that exists afterwards
      when the fetch stored a file, keeps the disk consistent. */
  lemma AppendFetchConsistent(disk: Disk, d: Disk, f: Fetch, saved: string -> bool)
    requires Consistent(disk, saved)
    requires FetchAllowed(f) && f.path !in disk.existing
    requires d.fetches == disk.fetches + [f] && disk.existing <= d.existing
    requires saved(f.url) ==> f.path in d.existing
    ensures Consistent(d, saved)
  {
    assert d.fetches[..|disk.fetches|] == disk.fetches;
    AppendStored(disk, d, f, saved);
    AppendNoRefetch(disk, d, f, saved);
  }

  lemma AppendStored(disk: Disk, d: Disk, f: Fetch, saved: string -> bool)
    requires StoredExist(disk, saved)
    requires d.fetches == disk.fetches + [f] && disk.existing <= d.existing
    requires saved(f.url) ==> f.path in d.existing
    ensures StoredExist(d, saved)
  {
    var n := |disk.fetches|;
    forall k | 0 <= k < |d.fetches| && saved(d.fetches[k].url)
      ensures d.fetches[k].path in d.existing
    {
      if k < n {
        assert d.fetches[k] == disk.fetches[k];
      }
    }
  }

  lemma AppendNoRefetch(disk: Disk, d: Disk, f: Fetch, saved: string -> bool)
    requires StoredExist(disk, saved) && NoRefetch(disk.fetches, saved)
    requires f.path !in disk.existing && d.fetches == disk.fetches + [f]
    ensures NoRefetch(d.fetches, saved)
  {
    var n := |disk.fetches|;
    forall k, j | 0 <= k < j < |d.fetches| && d.fetches[k].path == d.fetches[j].path
      ensures !saved(d.fetches[k].url)
    {
      assert d.fetches[k] == disk.fetches[k];
      if j < n {
        assert d.fetches[j] == disk.fetches[j];
      }
    }
  }

  /** Any sequence of `handle_url` calls keeps the disk consistent, only adds paths, and
      only appends fetches. */
  lemma {:induction false} HandleAllConsistent(disk: Disk, calls: seq<string>, saved: string -> bool)
    requires Consistent(disk, saved)
    ensures Consistent(HandleAll(disk, calls, saved), saved)
    ensures disk.existing <= HandleAll(disk, calls, saved).existing
    ensures disk.fetches <= HandleAll(disk, calls, saved).fetches
  {
    if calls != [] {
      var init := calls[..|calls| - 1];
      HandleAllConsistent(disk, init, saved);
      HandleUrlConsistent(HandleAll(disk, init, saved), calls[|calls| - 1], saved);
      assert HandleAll(disk, calls, saved) == HandleUrl(HandleAll(disk, init, saved), calls[|calls| - 1], saved);
    }
  }

  /** `handle_url` treats `//host/...` as `https://host/...`. */
  lemma ProtocolRelativeIsHttps(disk: Disk, rest: string, saved: string -> bool)
    ensures HandleUrl(disk, "//" + rest, saved) == HandleUrl(disk, "https://" + rest, saved)
  {
    assert ("//" + rest)[..2] == "//";
    assert "https:" + ("//" + rest) == "https://" + rest;
    assert !StartsWith("https://" + rest, "//") by {
      assert ("https://" + rest)[0] == 'h';
    }
  }

  /** With no query, the stored path is the host directory followed by the components of
      the unquoted path. */
  lemma NormalizeNoQuery(u: ParsedUrl)
    requires u.query == []
    ensures NormalizePath(u) == BASE_PARTS + PyParts(u.netloc) + PyParts(Unquote(u.path))
  {
    PyPartsLStrip(Unquote(u.path), []);
    assert LStrip(Unquote(u.path), '/') + [] == LStrip(Unquote(u.path), '/');
    assert Unquote(u.path) + [] == Unquote(u.path);
  }

  /** With a query, the file name ends with `"__"` and the sanitised query, which holds no
      `/`, `:` or `?`. */
  lemma NormalizeQuery(u: ParsedUrl)
    requires u.query != []
    ensures var parts := NormalizePath(u);
            EndsWith(parts[|parts| - 1], "__" + SanitizeQuery(u.query))
            && forall c :: c in SanitizeQuery(u.query) ==> !IsQueryReserved(c)
  {
    var t := QuerySuffix(u.query);
    var path := LStrip(Unquote(u.path), '/');
    var last := PyPartsAppend(path, t);
    NormalizeShape(u);
  }

  lemma NormalizeShape(u: ParsedUrl)
    ensures NormalizePath(u)
            == BASE_PARTS + (PyParts(u.netloc) + PyParts(LStrip(Unquote(u.path), '/') + QuerySuffix(u.query)))
  {
  }

  /** Text without `/` appended to a path extends its last component. */
  lemma PyPartsAppend(path: string, t: string) returns (last: string)
    requires '/' !in t && |t| >= 2
    ensures PyParts(path + t) != [] && PyParts(path + t)[|PyParts(path + t)| - 1] == last
    ensures EndsWith(last, t)
  {
    SplitAppend(path, t, '/');
    var ps := Split(path, '/');
    last := ps[|ps| - 1] + t;
    assert Split(path + t, '/') == ps[..|ps| - 1] + [last];
    KeepConcat(ps[..|ps| - 1], [last]);
    assert Keep([last]) == [last];
    assert last[|last| - |t|..] == t;
  }
}
