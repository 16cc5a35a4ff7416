/** How post_process.py finds kujiale references in a mirrored file, queues the render
    images among them for download, and rewrites absolute and protocol-relative links to
    root-relative ones. The three regular expressions are implemented by hand. */
module Scanner {
  import opened Text
  import opened Domains

  /** `URL_PATTERN` (`https://` or `//`), `https_pattern` and `protocol_pattern`. */
  datatype Pattern = AnyLead | HttpsLead | ProtocolLead

  /** A match in a text `s`: the lead is `s[start..domStart]`, the host is
      `s[domStart..domEnd]`, `s[domEnd]` is `/`, and the path is `s[domEnd + 1..end]`. */
  datatype Match = Match(start: nat, domStart: nat, domEnd: nat, end: nat)

  /** A character that ends the path of a match: whitespace, `"`, `'`, `)` or `]`. */
  predicate IsStop(c: char) { IsSpace(c) || c == '"' || c == '\'' || c == ')' || c == ']' }

  predicate IsLead(p: Pattern, lead: string)
  {
    (p != ProtocolLead && lead == "https://") || (p != HttpsLead && lead == "//")
  }

  /** At least one character, then `.kujiale.com`. */
  predicate IsKujialeHost(h: string)
  {
    |h| > |KUJIALE_SUFFIX| && EndsWith(h, KUJIALE_SUFFIX)
  }

  /** `s[a..b]` has no `/` and `s[b]` is a `/`. */
  predicate IsHostSpan(s: string, a: nat, b: nat)
  {
    a <= b < |s| && (forall q :: a <= q < b ==> s[q] != '/') && s[b] == '/'
  }

  /** `s[a..b]` is a longest non-empty run of non-stop characters. */
  predicate IsPathSpan(s: string, a: nat, b: nat)
  {
    a < b <= |s| && (forall q :: a <= q < b ==> !IsStop(s[q])) && (b == |s| || IsStop(s[b]))
  }

  /** The declarative meaning of a match of `p` at `m.start`: a lead, a host of at least one
      character before `.kujiale.com` and free of `/`, a `/`, and a path of at least one
      non-stop character that cannot be extended. */
  predicate IsMatch(p: Pattern, s: string, m: Match)
  {
    m.start <= m.domStart < m.domEnd < m.end <= |s|
    && IsLead(p, s[m.start..m.domStart])
    && IsHostSpan(s, m.domStart, m.domEnd)
    && IsKujialeHost(s[m.domStart..m.domEnd])
    && IsPathSpan(s, m.domEnd + 1, m.end)
  }

  /** Index of the first `/` at or after `i`, or `|s|`. */
  function NextSlash(s: string, i: nat): (k: nat)
    requires i <= |s|
    ensures i <= k <= |s|
    ensures k < |s| ==> IsHostSpan(s, i, k)
    decreases |s| - i
  {
    if i == |s| || s[i] == '/' then i else NextSlash(s, i + 1)
  }

  /** Index of the first stop character at or after `i`, or `|s|`. */
  function PathEnd(s: string, i: nat): (k: nat)
    requires i <= |s|
    ensures i <= k <= |s|
    ensures k > i ==> IsPathSpan(s, i, k)
    ensures k == i ==> i == |s| || IsStop(s[i])
    decreases |s| - i
  {
    if i == |s| || IsStop(s[i]) then i else PathEnd(s, i + 1)
  }

  /** The host, slash and path of a match whose lead ends at `j`. */
  function TailAt(s: string, start: nat, j: nat): (r: Option<Match>)
    requires start <= j <= |s|
    ensures r.Some? ==> r.value.start == start && r.value.domStart == j
    ensures r.Some? ==> IsHostSpan(s, j, r.value.domEnd) && IsKujialeHost(s[j..r.value.domEnd])
                        && IsPathSpan(s, r.value.domEnd + 1, r.value.end)
  {
    var k := NextSlash(s, j);
    if k < |s| && IsKujialeHost(s[j..k]) && k + 1 < |s| && !IsStop(s[k + 1])
    then Some(Match(start, j, k, PathEnd(s, k + 1)))
    else None
  }

  /** The match of `p` that begins at `i`, if any. For `URL_PATTERN` the `https:`
      alternative is tried first; when it fails, the empty alternative cannot match at the
      same place, since `h` is not `/`. */
  function MatchAt(p: Pattern, s: string, i: nat): (r: Option<Match>)
    requires i <= |s|
    ensures r.Some? ==> r.value.start == i && IsMatch(p, s, r.value)
  {
    if p != ProtocolLead && i + 8 <= |s| && s[i..i + 8] == "https://" then TailAt(s, i, i + 8)
    else if p != HttpsLead && i + 2 <= |s| && s[i..i + 2] == "//" then TailAt(s, i, i + 2)
    else None
  }

  /** `re.findall` from position `i`: leftmost matches, the scan resuming after each one. */
  function FindAll(p: Pattern, s: string, i: nat): (r: seq<Match>)
    requires i <= |s|
    ensures forall k :: 0 <= k < |r| ==> i <= r[k].start < |s| && MatchAt(p, s, r[k].start) == Some(r[k])
    ensures forall k :: 0 <= k < |r| - 1 ==> r[k].end <= r[k + 1].start
    decreases |s| - i
  {
    if i == |s| then []
    else
      match MatchAt(p, s, i)
      case Some(m) => [m] + FindAll(p, s, m.end)
      case None => FindAll(p, s, i + 1)
  }

  /** `FindAll` misses nothing: every position from `i` on that no returned match spans is
      one where no match begins. */
  lemma FindAllLeftmost(p: Pattern, s: string, i: nat)
    requires i <= |s|
    ensures forall q: nat :: i <= q < |s| && NotCovered(FindAll(p, s, i), q) ==> MatchAt(p, s, q).None?
  {
    forall q: nat | i <= q < |s| && NotCovered(FindAll(p, s, i), q)
      ensures MatchAt(p, s, q).None?
    {
      FreePosition(p, s, i, q);
    }
  }

  /** One position `q` that no match from `i` on covers. */
  lemma {:induction false} FreePosition(p: Pattern, s: string, i: nat, q: nat)
    requires i <= q < |s| && NotCovered(FindAll(p, s, i), q)
    ensures MatchAt(p, s, q).None?
    decreases |s| - i
  {
    var j, done := ScanStep(p, s, i, q);
    if !done {
      FreePosition(p, s, j, q);
    }
  }

  /** One step of the scan: either `q` is where the scan stands and no match begins there,
      or the scan moves on to `j` and still leaves `q` uncovered. */
  lemma ScanStep(p: Pattern, s: string, i: nat, q: nat) returns (j: nat, done: bool)
    requires i <= q < |s| && NotCovered(FindAll(p, s, i), q)
    ensures done ==> MatchAt(p, s, q).None?
    ensures !done ==> i < j <= q && NotCovered(FindAll(p, s, j), q)
  {
    var r := MatchAt(p, s, i);
    if r.Some? {
      var rest := FindAll(p, s, r.value.end);
      assert FindAll(p, s, i) == [r.value] + rest;
      NotCoveredCons(r.value, rest);
      j, done := r.value.end, false;
    } else if q > i {
      assert FindAll(p, s, i) == FindAll(p, s, i + 1);
      j, done := i + 1, false;
    } else {
      j, done := i, true;
    }
  }

  /** No match of `ms` spans position `q`. */
  predicate NotCovered(ms: seq<Match>, q: nat)
  {
    forall k :: 0 <= k < |ms| ==> !(ms[k].start <= q < ms[k].end)
  }

  lemma NotCoveredCons(m: Match, rest: seq<Match>)
    ensures forall q: nat :: NotCovered([m] + rest, q) ==> NotCovered(rest, q) && !(m.start <= q < m.end)
  {
    forall q: nat | NotCovered([m] + rest, q) ensures NotCovered(rest, q) && !(m.start <= q < m.end) {
      assert ([m] + rest)[0] == m;
      forall k | 0 <= k < |rest| ensures !(rest[k].start <= q < rest[k].end) {
        assert ([m] + rest)[k + 1] == rest[k];
      }
    }
  }

  predicate AllMatches(p: Pattern, s: string, ms: seq<Match>)
  {
    forall k :: 0 <= k < |ms| ==> IsMatch(p, s, ms[k])
  }

  /** The host of a match (the second group of `URL_PATTERN`). */
  function Host(s: string, m: Match): string
    requires m.domStart <= m.domEnd <= |s|
  {
    s[m.domStart..m.domEnd]
  }

  /** The whole match (the first group of `URL_PATTERN`). */
  function Reference(s: string, m: Match): string
    requires m.start <= m.end <= |s|
  {
    s[m.start..m.end]
  }

  /** Host, slash and path (the group of `https_pattern` and `protocol_pattern`). */
  function DomainPath(s: string, m: Match): string
    requires m.domStart <= m.end <= |s|
  {
    s[m.domStart..m.end]
  }

  /** The URLs the loop over `URL_PATTERN` matches adds to the download set. */
  function Queued(s: string, ms: seq<Match>): set<string>
    requires AllMatches(AnyLead, s, ms)
  {
    if ms == [] then {}
    else
      var m := ms[|ms| - 1];
      Queued(s, ms[..|ms| - 1])
        + (if Host(s, m) == RENDER then {WithScheme(Reference(s, m))} else {})
  }

  /** The groups of a list of `https_pattern` or `protocol_pattern` matches. */
  function DomainPaths(s: string, ms: seq<Match>): (r: seq<string>)
    requires forall k :: 0 <= k < |ms| ==> ms[k].domStart <= ms[k].end <= |s|
    ensures |r| == |ms| && forall k :: 0 <= k < |ms| ==> r[k] == DomainPath(s, ms[k])
  {
    if ms == [] then [] else DomainPaths(s, ms[..|ms| - 1]) + [DomainPath(s, ms[|ms| - 1])]
  }

  /** One rewriting loop: for each group whose host (`domain_path.split('/')[0]`) is not
      excluded, every occurrence of `lead + group` becomes `/ + group`. */
  function RewritePass(text: string, lead: string, dps: seq<string>): string
    requires lead != []
  {
    if dps == [] then text
    else
      RewriteGroup(RewritePass(text, lead, dps[..|dps| - 1]), lead, dps[|dps| - 1])
  }

  /** One iteration of a rewriting loop, for the group `dp`. */
  function RewriteGroup(t: string, lead: string, dp: string): string
    requires lead != []
  {
    if Before(dp, '/') in EXCLUDE_REWRITE then t else ReplaceAll(t, lead + dp, "/" + dp)
  }

  lemma RewritePassStep(text: string, lead: string, dps: seq<string>, i: nat)
    requires lead != [] && i < |dps|
    ensures RewritePass(text, lead, dps[..i + 1]) == RewriteGroup(RewritePass(text, lead, dps[..i]), lead, dps[i])
  {
    assert dps[..i + 1][..i] == dps[..i];
  }

  /** The rewritten content: the `https://` pass on the original text, then the `//` pass
      on its result, with the second pass's matches found in that result. */
  function Rewrite(content: string): string
  {
    var t := RewritePass(content, "https://", DomainPaths(content, FindAll(HttpsLead, content, 0)));
    RewritePass(t, "//", DomainPaths(t, FindAll(ProtocolLead, t, 0)))
  }

  /** No two adjacent slashes. */
  predicate NoDoubleSlash(s: string)
  {
    forall q :: 0 <= q < |s| - 1 ==> !(s[q] == '/' && s[q + 1] == '/')
  }

  /** What the evidently intended rewrite puts in place of a match: the reference itself on
      an excluded host, `/` and the group otherwise. */
  function Replacement(s: string, m: Match): (r: string)
    requires InBounds(s, m)
  {
    if Host(s, m) in EXCLUDE_REWRITE then Reference(s, m) else "/" + DomainPath(s, m)
  }

  /** The rewrite the two loops of `extract_and_rewrite_file` evidently intend, as one
      `URL_PATTERN.sub` from position `i`: the scan of `FindAll`, each match replaced where it
      stands and every other character copied. */
  function RewriteFrom(s: string, i: nat): string
    requires i <= |s|
    decreases |s| - i
  {
    if i == |s| then []
    else
      match MatchAt(AnyLead, s, i)
      case Some(m) => Replacement(s, m) + RewriteFrom(s, m.end)
      case None => [s[i]] + RewriteFrom(s, i + 1)
  }

  function RewriteFixed(content: string): string
  {
    RewriteFrom(content, 0)
  }

  /** The text from `i` with the matches `ms` replaced and the gaps between them copied. */
  function Splice(s: string, ms: seq<Match>, i: nat): string
    requires i <= |s| && Spliceable(s, ms, i)
    decreases |ms|
  {
    if ms == [] then s[i..]
    else s[i..ms[0].start] + (Replacement(s, ms[0]) + Splice(s, ms[1..], ms[0].end))
  }

  /** Matches of `URL_PATTERN` in order, from `i` on, none overlapping the next. */
  predicate Spliceable(s: string, ms: seq<Match>, i: nat)
    decreases |ms|
  {
    ms != [] ==> i <= ms[0].start && InBounds(s, ms[0]) && Spliceable(s, ms[1..], ms[0].end)
  }

  /** The four positions of a match, in order, within `s`. */
  predicate InBounds(s: string, m: Match)
  {
    m.start <= m.domStart <= m.domEnd <= m.end <= |s|
  }

  /** The download set shared by all files of a run. */
  class UrlSet {
    var items: set<string>

    constructor()
      ensures items == {}
    {
      items := {};
    }
  }

  /** `extract_and_rewrite_file`. `content` is the file's text, `None` when it cannot be
      read; the result is the text written back, `None` when nothing is written. The
      download set is updated in place. */
  method ExtractAndRewriteFile(urls: UrlSet, content: Option<string>) returns (written: Option<string>)
    modifies urls
    ensures content.None? ==> urls.items == old(urls.items) && written.None?
    ensures content.Some? ==>
              var ms := FindAll(AnyLead, content.value, 0);
              urls.items == old(urls.items) + Queued(content.value, ms)
              && written == (if ms == [] then None else Some(Rewrite(content.value)))
  {
    if content.None? {
      return None;
    }
    var c := content.value;
    var matches := FindAll(AnyLead, c, 0);
    if matches == [] {
      return None;
    }
    QueueRenderUrls(urls, c, matches);
    var afterHttps := RewriteLoop(c, "https://", FindAll(HttpsLead, c, 0));
    var modified := RewriteLoop(afterHttps, "//", FindAll(ProtocolLead, afterHttps, 0));
    written := Some(modified);
  }

  /** The loop over the `URL_PATTERN` matches: render-host references, with `https:` put in
      front of protocol-relative ones, are added to the set. */
  method QueueRenderUrls(urls: UrlSet, c: string, matches: seq<Match>)
    requires AllMatches(AnyLead, c, matches)
    modifies urls
    ensures urls.items == old(urls.items) + Queued(c, matches)
  {
    var i := 0;
    while i < |matches|
      invariant 0 <= i <= |matches|
      invariant urls.items == old(urls.items) + Queued(c, matches[..i])
    {
      var m := matches[i];
      var url := c[m.start..m.end];
      var domain := c[m.domStart..m.domEnd];
      QueuedStep(c, matches, i);
      if domain == RENDER {
        if StartsWith(url, "//") {
          url := "https:" + url;
        }
        assert url == WithScheme(Reference(c, m));
        urls.items := urls.items + {url};
      }
      i := i + 1;
    }
    assert matches[..i] == matches;
  }

  /** One more match adds its reference when its host is the render host. */
  lemma QueuedStep(c: string, ms: seq<Match>, i: nat)
    requires AllMatches(AnyLead, c, ms) && i < |ms|
    ensures AllMatches(AnyLead, c, ms[..i]) && AllMatches(AnyLead, c, ms[..i + 1])
    ensures Queued(c, ms[..i + 1]) == Queued(c, ms[..i])
              + (if Host(c, ms[i]) == RENDER then {WithScheme(Reference(c, ms[i]))} else {})
  {
    assert ms[..i + 1][..i] == ms[..i];
    assert ms[..i + 1][i] == ms[i];
  }

  /** One replacement loop over the groups of `ms`, matches found in `text` itself. */
  method RewriteLoop(text: string, lead: string, ms: seq<Match>) returns (modified: string)
    requires lead != []
    requires forall k :: 0 <= k < |ms| ==> ms[k].domStart <= ms[k].end <= |text|
    ensures modified == RewritePass(text, lead, DomainPaths(text, ms))
  {
    modified := text;
    ghost var dps := DomainPaths(text, ms);
    var i := 0;
    while i < |ms|
      invariant 0 <= i <= |ms|
      invariant modified == RewritePass(text, lead, dps[..i])
    {
      var m := ms[i];
      var domainPath := text[m.domStart..m.end];
      var domain := Before(domainPath, '/');
      RewritePassStep(text, lead, dps, i);
      if domain !in EXCLUDE_REWRITE {
        modified := ReplaceAll(modified, lead + domainPath, "/" + domainPath);
      }
      i := i + 1;
    }
    assert dps[..i] == dps;
  }

  // ---------------------------------------------------------------------------------
  // Lemmas

  lemma {:induction false} NextSlashIs(s: string, j: nat, k: nat)
    requires IsHostSpan(s, j, k)
    ensures NextSlash(s, j) == k
    decreases k - j
  {
    if j < k {
      NextSlashIs(s, j + 1, k);
    }
  }

  lemma {:induction false} PathEndIs(s: string, j: nat, k: nat)
    requires IsPathSpan(s, j, k)
    ensures PathEnd(s, j) == k
    decreases k - j
  {
    if j + 1 < k {
      PathEndIs(s, j + 1, k);
    }
  }

  /** `MatchAt` finds exactly the declarative matches: a match of `p` begins at `i` if and
      only if `MatchAt` returns it. */
  lemma MatchAtComplete(p: Pattern, s: string, m: Match)
    requires IsMatch(p, s, m)
    ensures MatchAt(p, s, m.start) == Some(m)
  {
    var i := m.start;
    var lead := s[i..m.domStart];
    TailAtComplete(s, m);
    if lead == "https://" {
      assert m.domStart == i + 8 && s[i..i + 8] == lead;
    } else {
      assert lead == "//" && p != HttpsLead;
      assert m.domStart == i + 2 && s[i..i + 2] == lead;
      NotHttpsAt(s, i);
    }
  }

  /** Where `s` has `/` at `i`, the `https://` alternative does not match there. */
  lemma NotHttpsAt(s: string, i: nat)
    requires i < |s| && s[i] == '/'
    ensures !(i + 8 <= |s| && s[i..i + 8] == "https://")
  {
    if i + 8 <= |s| {
      assert s[i..i + 8][0] == '/';
    }
  }

  lemma TailAtComplete(s: string, m: Match)
    requires m.start <= m.domStart
    requires IsHostSpan(s, m.domStart, m.domEnd) && IsKujialeHost(s[m.domStart..m.domEnd])
    requires IsPathSpan(s, m.domEnd + 1, m.end)
    ensures TailAt(s, m.start, m.domStart) == Some(m)
  {
    NextSlashIs(s, m.domStart, m.domEnd);
    PathEndIs(s, m.domEnd + 1, m.end);
  }

  /** A match of any pattern has two adjacent slashes, at its start or six places later. */
  lemma MatchAtSlashes(p: Pattern, s: string, i: nat)
    requires i <= |s|
    ensures MatchAt(p, s, i).Some? ==>
              (i + 1 < |s| && s[i] == '/' && s[i + 1] == '/')
              || (i + 7 < |s| && s[i + 6] == '/' && s[i + 7] == '/')
  {
    if p != ProtocolLead && i + 8 <= |s| && s[i..i + 8] == "https://" {
      assert s[i + 6] == s[i..i + 8][6];
      assert s[i + 7] == s[i..i + 8][7];
    } else if p != HttpsLead && i + 2 <= |s| && s[i..i + 2] == "//" {
      assert s[i] == s[i..i + 2][0];
      assert s[i + 1] == s[i..i + 2][1];
    }
  }

  /** Every reference the download set receives is an `https://` URL on the render host. */
  lemma {:induction false} QueuedOnRenderHost(s: string, ms: seq<Match>, u: string)
    requires AllMatches(AnyLead, s, ms)
    requires u in Queued(s, ms)
    ensures StartsWith(u, "https://" + RENDER + "/")
    decreases |ms|
  {
    var m := ms[|ms| - 1];
    if u in Queued(s, ms[..|ms| - 1]) {
      QueuedOnRenderHost(s, ms[..|ms| - 1], u);
    } else {
      assert Host(s, m) == RENDER && u == WithScheme(Reference(s, m));
      ReferenceShape(s, m);
    }
  }

  /** The reference of a match is its lead, its host, `/` and its path. */
  lemma ReferenceShape(s: string, m: Match)
    requires IsMatch(AnyLead, s, m)
    ensures WithScheme(Reference(s, m)) == "https://" + Host(s, m) + "/" + s[m.domEnd + 1..m.end]
  {
    var lead, host, path := s[m.start..m.domStart], Host(s, m), s[m.domEnd + 1..m.end];
    var rest := s[m.domStart..m.end];
    assert "https://" + (host + "/" + path) == "https://" + host + "/" + path;
    assert Reference(s, m) == lead + rest;
    assert rest == host + [s[m.domEnd]] + path;
    SchemeOfLead(lead, rest);
  }

  /** Both leads that `URL_PATTERN` accepts become `https://`. */
  lemma SchemeOfLead(lead: string, rest: string)
    requires lead == "https://" || lead == "//"
    ensures WithScheme(lead + rest) == "https://" + rest
  {
    if lead == "//" {
      assert (lead + rest)[..2] == lead;
      assert "https:" + (lead + rest) == "https://" + rest;
    } else {
      assert (lead + rest)[0] == 'h';
    }
  }

  /** A match adds its reference exactly when its host is the render host. */
  lemma QueuedExactly(s: string, ms: seq<Match>)
    requires AllMatches(AnyLead, s, ms)
    ensures forall k :: 0 <= k < |ms| && Host(s, ms[k]) == RENDER ==>
              WithScheme(Reference(s, ms[k])) in Queued(s, ms)
    ensures forall u :: u in Queued(s, ms) ==>
              exists k :: 0 <= k < |ms| && Host(s, ms[k]) == RENDER && u == WithScheme(Reference(s, ms[k]))
  {
    QueuedComplete(s, ms);
    QueuedSound(s, ms);
  }

  lemma {:induction false} QueuedComplete(s: string, ms: seq<Match>)
    requires AllMatches(AnyLead, s, ms)
    ensures forall k :: 0 <= k < |ms| && Host(s, ms[k]) == RENDER ==>
              WithScheme(Reference(s, ms[k])) in Queued(s, ms)
    decreases |ms|
  {
    if ms != [] {
      var init := ms[..|ms| - 1];
      QueuedComplete(s, init);
      forall k | 0 <= k < |ms| && Host(s, ms[k]) == RENDER
        ensures WithScheme(Reference(s, ms[k])) in Queued(s, ms)
      {
        if k < |ms| - 1 {
          assert ms[k] == init[k];
        }
      }
    }
  }

  lemma {:induction false} QueuedSound(s: string, ms: seq<Match>)
    requires AllMatches(AnyLead, s, ms)
    ensures forall u :: u in Queued(s, ms) ==>
              exists k :: 0 <= k < |ms| && Host(s, ms[k]) == RENDER && u == WithScheme(Reference(s, ms[k]))
    decreases |ms|
  {
    if ms != [] {
      var init := ms[..|ms| - 1];
      QueuedSound(s, init);
      forall u | u in Queued(s, ms)
        ensures exists k :: 0 <= k < |ms| && Host(s, ms[k]) == RENDER && u == WithScheme(Reference(s, ms[k]))
      {
        if u in Queued(s, init) {
          var k :| 0 <= k < |init| && Host(s, init[k]) == RENDER && u == WithScheme(Reference(s, init[k]));
          assert ms[k] == init[k];
          assert 0 <= k < |ms| && Host(s, ms[k]) == RENDER && u == WithScheme(Reference(s, ms[k]));
        } else {
          var k := |ms| - 1;
          assert Host(s, ms[k]) == RENDER && u == WithScheme(Reference(s, ms[k]));
        }
      }
    }
  }

  /** A pass whose groups all have excluded hosts leaves the text as it is. */
  lemma {:induction false} RewritePassExcluded(text: string, lead: string, dps: seq<string>)
    requires lead != []
    requires forall k :: 0 <= k < |dps| ==> Before(dps[k], '/') in EXCLUDE_REWRITE
    ensures RewritePass(text, lead, dps) == text
    decreases |dps|
  {
    if dps != [] {
      RewritePassExcluded(text, lead, dps[..|dps| - 1]);
    }
  }

  /** The host of a group is its text before the first `/`. */
  lemma GroupHost(p: Pattern, s: string, m: Match)
    requires IsMatch(p, s, m)
    ensures Before(DomainPath(s, m), '/') == Host(s, m)
  {
    var dp := DomainPath(s, m);
    assert dp == Host(s, m) + ['/'] + s[m.domEnd + 1..m.end];
    assert '/' !in Host(s, m);
    IndexOfAt(Host(s, m), '/', s[m.domEnd + 1..m.end]);
  }

  /** When every `https://` and `//` match in a file is on an excluded host, rewriting
      changes nothing. */
  lemma RewriteExcludedOnly(c: string)
    requires forall m :: m in FindAll(HttpsLead, c, 0) ==> Host(c, m) in EXCLUDE_REWRITE
    requires forall m :: m in FindAll(ProtocolLead, c, 0) ==> Host(c, m) in EXCLUDE_REWRITE
    ensures Rewrite(c) == c
  {
    PassExcluded(HttpsLead, c, "https://");
    PassExcluded(ProtocolLead, c, "//");
  }

  lemma PassExcluded(p: Pattern, c: string, lead: string)
    requires lead != []
    requires forall m :: m in FindAll(p, c, 0) ==> Host(c, m) in EXCLUDE_REWRITE
    ensures RewritePass(c, lead, DomainPaths(c, FindAll(p, c, 0))) == c
  {
    var ms := FindAll(p, c, 0);
    var dps := DomainPaths(c, ms);
    forall k | 0 <= k < |ms| ensures Before(dps[k], '/') in EXCLUDE_REWRITE {
      assert ms[k] in ms;
      GroupHost(p, c, ms[k]);
    }
    RewritePassExcluded(c, lead, dps);
  }

  /** A text with no two adjacent slashes has no match of any pattern. */
  lemma {:induction false} NoDoubleSlashNoMatch(p: Pattern, s: string, i: nat)
    requires i <= |s| && NoDoubleSlash(s)
    ensures FindAll(p, s, i) == []
    decreases |s| - i
  {
    if i < |s| {
      MatchAtSlashes(p, s, i);
      NoDoubleSlashNoMatch(p, s, i + 1);
    }
  }

  /** One reference, `lead` then `host/path`, is the only match of a pattern that accepts
      its lead, and it spans the whole text. */
  lemma {:induction false} RefMatch(p: Pattern, lead: string, d: string, path: string)
    requires IsLead(p, lead) && IsKujialeHost(d) && '/' !in d
    requires path != [] && forall k :: 0 <= k < |path| ==> !IsStop(path[k])
    ensures var s := lead + d + "/" + path;
            var m := Match(0, |lead|, |lead| + |d|, |s|);
            IsMatch(p, s, m) && MatchAt(p, s, 0) == Some(m) && FindAll(p, s, 0) == [m]
            && DomainPath(s, m) == d + "/" + path && Host(s, m) == d
  {
    var s := lead + d + "/" + path;
    var m := Match(0, |lead|, |lead| + |d|, |s|);
    RefIsMatch(p, lead, d, path);
    MatchAtComplete(p, s, m);
    assert FindAll(p, s, |s|) == [];
    assert FindAll(p, s, 0) == [m] + FindAll(p, s, |s|);
  }

  lemma {:induction false} RefIsMatch(p: Pattern, lead: string, d: string, path: string)
    requires IsLead(p, lead) && IsKujialeHost(d) && '/' !in d
    requires path != [] && forall k :: 0 <= k < |path| ==> !IsStop(path[k])
    ensures var s := lead + d + "/" + path;
            var m := Match(0, |lead|, |lead| + |d|, |s|);
            IsMatch(p, s, m) && DomainPath(s, m) == d + "/" + path && Host(s, m) == d
  {
    var s := lead + d + "/" + path;
    var a, b := |lead|, |lead| + |d|;
    assert s == (lead + d) + ("/" + path);
    assert s[..a] == lead && s[a..b] == d && s[a..] == d + "/" + path;
    RefHostSpan(s, lead, d, "/" + path);
    RefPathSpan(s, lead + d + "/", path);
  }

  lemma {:induction false} RefHostSpan(s: string, lead: string, d: string, rest: string)
    requires s == lead + d + rest && '/' !in d && rest != [] && rest[0] == '/'
    ensures IsHostSpan(s, |lead|, |lead| + |d|)
  {
    var a := |lead|;
    assert forall q :: a <= q < a + |d| ==> s[q] == d[q - a];
    assert s[a + |d|] == rest[0];
  }

  lemma {:induction false} RefPathSpan(s: string, head: string, path: string)
    requires s == head + path && path != [] && forall k :: 0 <= k < |path| ==> !IsStop(path[k])
    ensures IsPathSpan(s, |head|, |s|)
  {
    assert forall q :: |head| <= q < |s| ==> s[q] == path[q - |head|];
  }

  /** A host and a path without `//` give a text without `//` once a `/` is put in front. */
  lemma {:induction false} NoDoubleSlashRooted(d: string, path: string)
    requires d != [] && '/' !in d && NoDoubleSlash("/" + path)
    ensures NoDoubleSlash("/" + d + "/" + path)
  {
    var out := "/" + d + "/" + path;
    var tail := "/" + path;
    assert out == "/" + d + tail;
    forall q | 0 <= q < |out| - 1 ensures !(out[q] == '/' && out[q + 1] == '/') {
      if q < |d| {
        assert out[q + 1] == d[q];
      } else if q == |d| {
        assert out[q] == d[q - 1];
      } else {
        assert out[q] == tail[q - |d| - 1] && out[q + 1] == tail[q - |d|];
      }
    }
  }

  /** An `https://` match has `//` six places after its start. */
  lemma {:induction false} HttpsSlashes(s: string, i: nat)
    requires i <= |s| && MatchAt(HttpsLead, s, i).Some?
    ensures i + 7 < |s| && s[i + 6] == '/' && s[i + 7] == '/'
  {
    assert s[i + 6] == s[i..i + 8][6] && s[i + 7] == s[i..i + 8][7];
  }

  /** A text whose only `//` is at its very start has no `https://` match. */
  lemma {:induction false} NoHttpsMatch(s: string, i: nat)
    requires 0 < |s| && i <= |s| && NoDoubleSlash(s[1..])
    ensures FindAll(HttpsLead, s, i) == []
    decreases |s| - i
  {
    if i < |s| {
      if MatchAt(HttpsLead, s, i).Some? {
        HttpsSlashes(s, i);
        assert false;
      }
      NoHttpsMatch(s, i + 1);
    }
  }

  /** The first pass of the code: a reference `https://host/path` on a host that is not
      excluded, with no `//` in its path, is rewritten to `/host/path`. */
  lemma {:induction false} RewriteHttpsReference(d: string, path: string)
    requires IsKujialeHost(d) && '/' !in d && d !in EXCLUDE_REWRITE
    requires path != [] && (forall k :: 0 <= k < |path| ==> !IsStop(path[k])) && NoDoubleSlash("/" + path)
    ensures Rewrite("https://" + d + "/" + path) == "/" + d + "/" + path
  {
    var out := "/" + d + "/" + path;
    OnePass(HttpsLead, "https://", d, path);
    NoDoubleSlashRooted(d, path);
    NoDoubleSlashNoMatch(ProtocolLead, out, 0);
    assert DomainPaths(out, []) == [];
  }

  /** The second pass: a protocol-relative reference `//host/path` on a host that is not
      excluded, with no `//` in its path, is rewritten to `/host/path`. */
  lemma {:induction false} RewriteProtocolReference(d: string, path: string)
    requires IsKujialeHost(d) && '/' !in d && d !in EXCLUDE_REWRITE
    requires path != [] && (forall k :: 0 <= k < |path| ==> !IsStop(path[k])) && NoDoubleSlash("/" + path)
    ensures Rewrite("//" + d + "/" + path) == "/" + d + "/" + path
  {
    var s := "//" + d + "/" + path;
    NoDoubleSlashRooted(d, path);
    assert s[1..] == "/" + d + "/" + path;
    NoHttpsMatch(s, 0);
    assert DomainPaths(s, []) == [];
    OnePass(ProtocolLead, "//", d, path);
  }

  /** A pass over a text that is one reference on a host that is not excluded replaces
      it by `/host/path`. */
  lemma {:induction false} OnePass(p: Pattern, lead: string, d: string, path: string)
    requires p != AnyLead && IsLead(p, lead)
    requires IsKujialeHost(d) && '/' !in d && d !in EXCLUDE_REWRITE
    requires path != [] && forall k :: 0 <= k < |path| ==> !IsStop(path[k])
    ensures var s := lead + d + "/" + path;
            RewritePass(s, lead, DomainPaths(s, FindAll(p, s, 0))) == "/" + d + "/" + path
  {
    var dp := d + "/" + path;
    var s := lead + d + "/" + path;
    assert s == lead + dp && s + [] == s;
    assert "/" + d + "/" + path == "/" + dp;
    ReplaceAllAt(s, [], "/" + dp);
    OneGroup(p, lead, d, path);
    PassOfOneGroup(s, lead, dp);
  }

  /** The groups of a one-reference text: its `host/path`, whose host is the host. */
  lemma {:induction false} OneGroup(p: Pattern, lead: string, d: string, path: string)
    requires IsLead(p, lead) && IsKujialeHost(d) && '/' !in d
    requires path != [] && forall k :: 0 <= k < |path| ==> !IsStop(path[k])
    ensures var s := lead + d + "/" + path;
            DomainPaths(s, FindAll(p, s, 0)) == [d + "/" + path] && Before(d + "/" + path, '/') == d
  {
    var s := lead + d + "/" + path;
    RefMatch(p, lead, d, path);
    var m := Match(0, |lead|, |lead| + |d|, |s|);
    GroupHost(p, s, m);
    assert DomainPaths(s, [m]) == [DomainPath(s, m)];
  }

  /** A pass with one group whose host is not excluded is one global replacement. */
  lemma {:induction false} PassOfOneGroup(text: string, lead: string, dp: string)
    requires lead != [] && Before(dp, '/') !in EXCLUDE_REWRITE
    ensures RewritePass(text, lead, [dp]) == ReplaceAll(text, lead + dp, "/" + dp)
  {
    assert [dp][..0] == [];
  }

  /** The intended rewrite is the splice of the matches `FindAll` reports: every match
      replaced in place, every character between matches copied. */
  lemma {:induction false} RewriteFromSplice(s: string, i: nat)
    requires i <= |s|
    ensures Spliceable(s, FindAll(AnyLead, s, i), i)
    ensures RewriteFrom(s, i) == Splice(s, FindAll(AnyLead, s, i), i)
    decreases |s| - i
  {
    if i < |s| {
      match MatchAt(AnyLead, s, i)
      case Some(m) =>
        RewriteFromSplice(s, m.end);
        var rest := FindAll(AnyLead, s, m.end);
        assert FindAll(AnyLead, s, i) == [m] + rest;
        assert ([m] + rest)[1..] == rest;
        assert s[i..m.start] == [];
      case None =>
        RewriteFromSplice(s, i + 1);
        assert FindAll(AnyLead, s, i) == FindAll(AnyLead, s, i + 1);
        SpliceStep(s, FindAll(AnyLead, s, i + 1), i);
    } else {
      assert s[i..] == [];
    }
  }

  /** A character before the first match is copied. */
  lemma {:induction false} SpliceStep(s: string, ms: seq<Match>, i: nat)
    requires i < |s| && Spliceable(s, ms, i + 1)
    ensures Spliceable(s, ms, i) && Splice(s, ms, i) == [s[i]] + Splice(s, ms, i + 1)
  {
    if ms == [] {
      assert s[i..] == [s[i]] + s[i + 1..];
    } else {
      GapStep(s, i, ms[0].start, Replacement(s, ms[0]) + Splice(s, ms[1..], ms[0].end));
    }
  }

  lemma GapStep(s: string, i: nat, j: nat, rest: string)
    requires i < j <= |s|
    ensures s[i..j] + rest == [s[i]] + (s[i + 1..j] + rest)
  {
    assert s[i..j] == [s[i]] + s[i + 1..j];
  }

  /** Every reference on a host that is not excluded, whatever its path, is rewritten by
      the intended rewrite to `/host/path`. */
  lemma {:induction false} RewriteFixedReference(lead: string, d: string, path: string)
    requires lead == "https://" || lead == "//"
    requires IsKujialeHost(d) && '/' !in d && d !in EXCLUDE_REWRITE
    requires path != [] && forall k :: 0 <= k < |path| ==> !IsStop(path[k])
    ensures RewriteFixed(lead + d + "/" + path) == "/" + d + "/" + path
  {
    var s := lead + d + "/" + path;
    RefMatch(AnyLead, lead, d, path);
    var m := Match(0, |lead|, |lead| + |d|, |s|);
    assert RewriteFrom(s, 0) == Replacement(s, m) + RewriteFrom(s, |s|);
  }

  /** The intended rewrite changes only matches: a text with none is kept. */
  lemma {:induction false} RewriteFixedNoMatch(s: string)
    requires FindAll(AnyLead, s, 0) == []
    ensures RewriteFixed(s) == s
  {
    RewriteFromSplice(s, 0);
  }
}
