/** serve.go: the local server's mapping from a root-relative request back to the file the
    mirror stored, and the content type it sends. */
module Serve {
  import opened Text
  import opened GoUrl
  import opened Paths
  import opened Domains

  const BASE_DIR := "./webroot/"
  const INDEX_HTML := "index.html"
  /** The escaped `|` that the server turns back into `|` in a query suffix. */
  const PIPE_ESCAPE := "%7C"
  /** The text whose presence in the raw request marks a CDN request. */
  const CDN_MARK := ".kujiale.com/"

  /** The outcome of the domain pattern `^([^/]+\.kujiale\.com)(/.*)?$` on the trimmed
      path: the first group and the second (empty when it did not take part). */
  datatype DomainMatch = NoMatch | DomainMatch(domain: string, rest: string)

  /** The pattern's meaning, written independently: `s` is a first segment of at least one
      character ending in `.kujiale.com`, then either nothing or a `/` and text without a
      line feed (`.` does not match one; `[^/]` does). */
  predicate PatternMatch(s: string, d: string, r: string)
  {
    s == d + r && |d| > |KUJIALE_SUFFIX| && '/' !in d && EndsWith(d, KUJIALE_SUFFIX)
    && (r == [] || (r[0] == '/' && '\n' !in r))
  }

  /** The domain pattern: the first group can only be the whole first segment, since it
      holds no `/` and must be followed by a `/` or the end. */
  function MatchDomain(s: string): (m: DomainMatch)
    ensures m.DomainMatch? ==> PatternMatch(s, m.domain, m.rest)
  {
    var d := Before(s, '/');
    var r := s[|d|..];
    assert s == d + r;
    if |d| > |KUJIALE_SUFFIX| && EndsWith(d, KUJIALE_SUFFIX) && '\n' !in r then
      assert r != [] ==> r[0] == '/' by {
        if r != [] {
          assert |d| < |s| && s[|d|] == r[0];
        }
      }
      DomainMatch(d, r)
    else NoMatch
  }

  /** The `os.Stat` check: a path naming a directory is served as its `index.html`. */
  function AtDir(full: string, isDir: string -> bool): string
  {
    if isDir(full) then GoJoin(full, INDEX_HTML) else full
  }

  /** The condition for a query suffix, read off the raw request text: a non-empty raw
      query, `.kujiale.com/` somewhere, and neither the main site nor the panorama JSON
      host anywhere. */
  predicate SuffixApplies(path: string, rawQuery: string)
  {
    rawQuery != [] && Contains(path, CDN_MARK) && !Contains(path, MAIN_DOMAIN) && !Contains(path, PANOJSON)
  }

  /** `"__"`, then the raw query with `/`, `:` and `?` replaced by `_`, then `%7C` by `|`. */
  function ServeSuffix(rawQuery: string): (r: string)
    ensures forall c :: c in r ==> !IsQueryReserved(c)
    ensures StartsWith(r, "__")
  {
    var t := ReplaceAll(SanitizeQuery(rawQuery), PIPE_ESCAPE, "|");
    ReplaceAllChars(SanitizeQuery(rawQuery), PIPE_ESCAPE, "|");
    var r := "__" + t;
    assert r[..2] == "__";
    assert forall c :: c in r ==> c == '_' || c in t;
    r
  }

  /** A request whose first path segment is the main site. */
  predicate IsMainSiteRequest(u: Url)
  {
    var m := MatchDomain(TrimPrefix(u.path, "/"));
    m.DomainMatch? && m.domain == MAIN_DOMAIN
  }

  /** The file below the base directory that a parsed request names: the main site's
      path as it is; a subdomain's first segment and rest joined by one `/`; then the query
      suffix when it applies. */
  function RequestFile(path: string, u: Url): (r: string)
    ensures IsMainSiteRequest(u) ==> r == TrimPrefix(u.path, "/")
    ensures !IsMainSiteRequest(u) && MatchDomain(TrimPrefix(u.path, "/")).DomainMatch? ==>
              StartsWith(r, MatchDomain(TrimPrefix(u.path, "/")).domain + "/")
    ensures !IsMainSiteRequest(u) && SuffixApplies(path, u.rawQuery) ==> EndsWith(r, ServeSuffix(u.rawQuery))
    ensures !SuffixApplies(path, u.rawQuery) && MatchDomain(TrimPrefix(u.path, "/")).NoMatch? ==>
              r == TrimPrefix(u.path, "/")
  {
    var pathFile := TrimPrefix(u.path, "/");
    var m := MatchDomain(pathFile);
    if m.DomainMatch? && m.domain == MAIN_DOMAIN then pathFile
    else
      var subpath := if m.DomainMatch? && m.rest != [] then TrimPrefix(m.rest, "/") else "";
      var nested := if m.DomainMatch? then m.domain + "/" + subpath else pathFile;
      var file := if SuffixApplies(path, u.rawQuery) then nested + ServeSuffix(u.rawQuery) else nested;
      var head := if m.DomainMatch? then m.domain + "/" else pathFile;
      var tail := if m.DomainMatch? then subpath else "";
      assert nested == head + tail;
      FileAround(head, tail, ServeSuffix(u.rawQuery));
      file
  }

  /** A file name built as `p + x`, then perhaps `t` appended, starts with `p`; with `t`
      appended it ends with `t`. */
  lemma FileAround(p: string, x: string, t: string)
    ensures StartsWith(p + x, p) && StartsWith(p + x + t, p) && EndsWith(p + x + t, t)
  {
    assert (p + x + t)[..|p|] == p;
  }

  /** `translatePath`: a request that does not parse is joined to the base directory as it
      is, with no directory check; otherwise the named file is joined to the base directory
      and the directory oracle decides on `index.html`. */
  function TranslatePath(path: string, isDir: string -> bool): (r: string)
    ensures Parse(path).None? ==> r == GoJoin(BASE_DIR, path)
    ensures Parse(path).Some? ==>
              var full := GoJoin(BASE_DIR, RequestFile(path, Parse(path).value));
              r == full || r == GoJoin(full, INDEX_HTML)
  {
    match Parse(path)
    case None => GoJoin(BASE_DIR, path)
    case Some(u) => AtDir(GoJoin(BASE_DIR, RequestFile(path, u)), isDir)
  }

  /** The fallback table, keyed by the lower-cased extension. */
  function FallbackType(ext: string): (r: string)
    ensures r != "" <==> ext in {".html", ".htm", ".js", ".css", ".json", ".png", ".jpg", ".jpeg",
                                 ".gif", ".webp", ".svg", ".txt"}
  {
    if ext == ".html" || ext == ".htm" then "text/html"
    else if ext == ".js" then "application/javascript"
    else if ext == ".css" then "text/css"
    else if ext == ".json" then "application/json"
    else if ext == ".png" then "image/png"
    else if ext == ".jpg" || ext == ".jpeg" then "image/jpeg"
    else if ext == ".gif" then "image/gif"
    else if ext == ".webp" then "image/webp"
    else if ext == ".svg" then "image/svg+xml"
    else if ext == ".txt" then "text/plain"
    else ""
  }

  /** `getContentType`: no extension gives no type; the library's answer wins when it has
      one; otherwise the fallback table on the lower-cased extension. */
  function GetContentType(filename: string, typeByExtension: string -> string): (r: string)
    ensures r != "" ==> Ext(filename) != [] && '.' in filename
    ensures Ext(filename) != [] && typeByExtension(Ext(filename)) != "" ==> r == typeByExtension(Ext(filename))
    ensures Ext(filename) != [] && typeByExtension(Ext(filename)) == "" ==> r == FallbackType(GoLower(Ext(filename)))
  {
    var ext := Ext(filename);
    if ext == [] then ""
    else
      assert ext[0] == filename[|filename| - |ext|];
      var t := typeByExtension(ext);
      if t != "" then t else FallbackType(GoLower(ext))
  }

  // ---------------------------------------------------------------------------------
  // Lemmas

  /** The replacement text and the untouched characters are all a replacement leaves. */
  lemma {:induction false} ReplaceAllChars(s: string, pat: string, rep: string)
    requires pat != []
    ensures forall c :: c in ReplaceAll(s, pat, rep) ==> c in s || c in rep
    decreases |s|
  {
    if s != [] {
      if StartsWith(s, pat) {
        ReplaceAllChars(s[|pat|..], pat, rep);
        assert forall c :: c in s[|pat|..] ==> c in s;
      } else {
        ReplaceAllChars(s[1..], pat, rep);
        assert forall c :: c in s[1..] ==> c in s;
      }
    }
  }

  /** The domain pattern matches exactly when its independent reading does, and then with
      those groups: a split with the pattern's shape exists only at the first `/`. */
  lemma MatchDomainIsPattern(s: string, d: string, r: string)
    ensures MatchDomain(s) == DomainMatch(d, r) <==> PatternMatch(s, d, r)
  {
    if PatternMatch(s, d, r) {
      FirstSegment(s, d, r);
    }
  }

  /** A split after a first segment without `/`, at a `/` or the end, is the first `/`. */
  lemma FirstSegment(s: string, d: string, r: string)
    requires s == d + r && '/' !in d && (r == [] || r[0] == '/')
    ensures Before(s, '/') == d && s[|d|..] == r
  {
    if r == [] {
      assert s == d;
    } else {
      assert s == d + ['/'] + r[1..];
      IndexOfAt(d, '/', r[1..]);
    }
  }

  /** A request that does not parse is the base directory joined with the raw text, and
      the directory oracle is not consulted. */
  lemma ParseErrorFallback(path: string, isDir: string -> bool, isDir': string -> bool)
    requires Parse(path).None?
    ensures TranslatePath(path, isDir) == TranslatePath(path, isDir') == GoJoin(BASE_DIR, path)
  {
  }

  /** A request whose path has a control character before any `#` does not parse, so it is
      served from the base directory joined with the raw request. */
  lemma ControlCharFallback(path: string, i: nat, isDir: string -> bool)
    requires i < |path| && IsCtl(path[i]) && '#' !in path[..i]
    ensures TranslatePath(path, isDir) == GoJoin(BASE_DIR, path)
  {
  }

  /** A request `/D/P?Q` for a kujiale.com subdomain D other than the main site is served
      from `D/P`, plus the query suffix when the raw request qualifies for one. */
  lemma ServeSubdomain(d: string, p: string, query: string, isDir: string -> bool)
    requires |d| > |KUJIALE_SUFFIX| && EndsWith(d, KUJIALE_SUFFIX) && d != MAIN_DOMAIN && '/' !in d
    requires forall c :: c in d + "/" + p ==> !IsCtl(c) && c != '?' && c != '#' && c != '%'
    requires forall c :: c in query ==> !IsCtl(c) && c != '#'
    ensures TranslatePath(Request(d + "/" + p, query), isDir)
         == AtDir(GoJoin(BASE_DIR, d + "/" + p + (if SuffixApplies(Request(d + "/" + p, query), query)
                                                  then ServeSuffix(query) else [])), isDir)
  {
    var u := SegmentRequest(d, p, query);
    TranslateParsed(Request(d + "/" + p, query), u, isDir);
    SubdomainFile(Request(d + "/" + p, query), u, d, p);
  }

  /** A root-relative request: `/`, the path, `?` and the raw query. */
  function Request(tail: string, query: string): string
  {
    "/" + tail + "?" + query
  }

  /** `translatePath` of a request that parses. */
  lemma TranslateParsed(path: string, u: Url, isDir: string -> bool)
    requires Parse(path) == Some(u)
    ensures TranslatePath(path, isDir) == AtDir(GoJoin(BASE_DIR, RequestFile(path, u)), isDir)
  {
  }

  /** A request whose path is a domain segment `d` and then `/p` parses to that path, and
      the domain pattern splits it there. */
  lemma SegmentRequest(d: string, p: string, query: string) returns (u: Url)
    requires |d| > |KUJIALE_SUFFIX| && EndsWith(d, KUJIALE_SUFFIX) && '/' !in d
    requires forall c :: c in d + "/" + p ==> !IsCtl(c) && c != '?' && c != '#' && c != '%'
    requires forall c :: c in query ==> !IsCtl(c) && c != '#'
    ensures u == Url("", "", "", "/" + (d + "/" + p), query, "")
    ensures Parse(Request(d + "/" + p, query)) == Some(u)
    ensures TrimPrefix(u.path, "/") == d + "/" + p
    ensures MatchDomain(d + "/" + p) == DomainMatch(d, "/" + p)
  {
    var tail := d + "/" + p;
    assert tail[0] == d[0] && d[0] in d;
    ParsePathQuery(tail, query);
    u := Url("", "", "", "/" + tail, query, "");
    assert ("/" + tail)[..1] == "/" && ("/" + tail)[1..] == tail;
    assert '\n' !in p by {
      assert forall c :: c in p ==> c in tail;
    }
    SegmentMatch(d, p);
  }

  lemma SegmentMatch(d: string, p: string)
    requires |d| > |KUJIALE_SUFFIX| && EndsWith(d, KUJIALE_SUFFIX) && '/' !in d && '\n' !in p
    ensures MatchDomain(d + "/" + p) == DomainMatch(d, "/" + p)
  {
    assert d + "/" + p == d + ("/" + p);
    assert '\n' !in "/" + p by {
      assert forall c :: c in "/" + p ==> c == '/' || c in p;
    }
    MatchDomainIsPattern(d + "/" + p, d, "/" + p);
  }

  /** The file a subdomain request names is the domain, `/`, the rest of the path, then
      the suffix when it applies. */
  lemma SubdomainFile(path: string, u: Url, d: string, p: string)
    requires d != MAIN_DOMAIN
    requires TrimPrefix(u.path, "/") == d + "/" + p && MatchDomain(d + "/" + p) == DomainMatch(d, "/" + p)
    ensures RequestFile(path, u) == d + "/" + p + (if SuffixApplies(path, u.rawQuery) then ServeSuffix(u.rawQuery) else [])
  {
    assert TrimPrefix("/" + p, "/") == p by {
      assert ("/" + p)[..1] == "/";
    }
  }

  /** Main-site requests ignore the query: two requests for the same main-site path with
      different queries are served the same file, with no suffix. */
  lemma WwwIgnoresQuery(p: string, q1: string, q2: string, isDir: string -> bool)
    requires forall c :: c in MAIN_DOMAIN + "/" + p ==> !IsCtl(c) && c != '?' && c != '#' && c != '%'
    requires forall c :: c in q1 + q2 ==> !IsCtl(c) && c != '#'
    ensures TranslatePath(Request(MAIN_DOMAIN + "/" + p, q1), isDir)
         == TranslatePath(Request(MAIN_DOMAIN + "/" + p, q2), isDir)
         == AtDir(GoJoin(BASE_DIR, MAIN_DOMAIN + "/" + p), isDir)
  {
    MainDomainShape();
    assert forall c :: c in q1 ==> c in q1 + q2;
    assert forall c :: c in q2 ==> c in q1 + q2;
    WwwRequest(MAIN_DOMAIN, p, q1, isDir);
    WwwRequest(MAIN_DOMAIN, p, q2, isDir);
  }

  /** The main site's name is a kujiale.com host name without `/`. */
  lemma MainDomainShape()
    ensures |MAIN_DOMAIN| > |KUJIALE_SUFFIX| && EndsWith(MAIN_DOMAIN, KUJIALE_SUFFIX) && '/' !in MAIN_DOMAIN
  {
    assert MAIN_DOMAIN[|MAIN_DOMAIN| - |KUJIALE_SUFFIX|..] == KUJIALE_SUFFIX;
  }

  lemma WwwRequest(w: string, p: string, query: string, isDir: string -> bool)
    requires w == MAIN_DOMAIN
    requires |w| > |KUJIALE_SUFFIX| && EndsWith(w, KUJIALE_SUFFIX) && '/' !in w
    requires forall c :: c in w + "/" + p ==> !IsCtl(c) && c != '?' && c != '#' && c != '%'
    requires forall c :: c in query ==> !IsCtl(c) && c != '#'
    ensures TranslatePath(Request(w + "/" + p, query), isDir) == AtDir(GoJoin(BASE_DIR, w + "/" + p), isDir)
  {
    var u := SegmentRequest(w, p, query);
    TranslateParsed(Request(w + "/" + p, query), u, isDir);
  }

  /** The suffix test reads the whole raw request, query included: a CDN request whose
      query mentions the main site gets no suffix, although the capture hook, which tests
      the host alone, names the file after that query. */
  lemma QueryMentionsMainSite(d: string, p: string, a: string, b: string)
    ensures !SuffixApplies(Request(d + "/" + p, a + MAIN_DOMAIN + b), a + MAIN_DOMAIN + b)
  {
    var path := Request(d + "/" + p, a + MAIN_DOMAIN + b);
    assert path == ("/" + (d + "/" + p) + "?" + a) + MAIN_DOMAIN + b;
    ContainsInfix("/" + (d + "/" + p) + "?" + a, MAIN_DOMAIN, b);
  }

  /** The lower-case fallback applies to any spelling: two extensions that agree after
      lower-casing, with no library type, get the same content type. */
  lemma FallbackIgnoresCase(f1: string, f2: string, typeByExtension: string -> string)
    requires GoLower(Ext(f1)) == GoLower(Ext(f2))
    requires typeByExtension(Ext(f1)) == "" && typeByExtension(Ext(f2)) == ""
    ensures GetContentType(f1, typeByExtension) == GetContentType(f2, typeByExtension)
  {
    assert |Ext(f1)| == |GoLower(Ext(f1))|;
  }

  /** Without a library type, an upper-case `.HTML` file is served as HTML. */
  lemma UpperCaseHtml(name: string, typeByExtension: string -> string)
    requires typeByExtension(".HTML") == ""
    ensures GetContentType(name + ".HTML", typeByExtension) == "text/html"
  {
    assert "." + "HTML" == ".HTML";
    assert name + ".HTML" == name + "." + "HTML";
    DottedFallback(name, "HTML", typeByExtension);
    LowerHtml();
  }

  /** `strings.ToLower` maps U+0130 to `i`, so without a library type `x.G\U{130}F` (with a
      capital I with dot above) is served as a GIF image. */
  lemma DottedCapitalIGif(name: string, typeByExtension: string -> string)
    requires typeByExtension(".G\U{130}F") == ""
    ensures GetContentType(name + ".G\U{130}F", typeByExtension) == "image/gif"
  {
    var x := "G\U{130}F";
    CapitalIGifShape(name, x);
    DottedFallback(name, x, typeByExtension);
    LowerDottedCapitalI();
    assert FallbackType(".gif") == "image/gif";
  }

  lemma CapitalIGifShape(name: string, x: string)
    requires x == "G\U{130}F"
    ensures '.' !in x && '/' !in x && "." + x == ".G\U{130}F" && name + ".G\U{130}F" == name + "." + x
  {
    assert x[0] != '.' && x[1] != '.' && x[2] != '.' && x[0] != '/' && x[1] != '/' && x[2] != '/';
  }

  /** A file `name.x` with no library type for `.x` gets the fallback type of `.x`
      lower-cased. */
  lemma DottedFallback(name: string, x: string, typeByExtension: string -> string)
    requires '.' !in x && '/' !in x && typeByExtension("." + x) == ""
    ensures GetContentType(name + "." + x, typeByExtension) == FallbackType(GoLower("." + x))
  {
    ExtOfDotted(name, x);
  }

  lemma LowerDottedCapitalI()
    ensures GoLower(".G\U{130}F") == ".gif"
  {
    var low := GoLower(".G\U{130}F");
    assert low[0] == '.' && low[1] == 'g' && low[2] == 'i' && low[3] == 'f';
  }

  lemma LowerHtml()
    ensures GoLower(".HTML") == ".html"
  {
    var low := GoLower(".HTML");
    assert low[0] == '.' && low[1] == 'h' && low[2] == 't' && low[3] == 'm' && low[4] == 'l';
  }

  /** A last element `name.x`, with no other dot or slash, has extension `.x`. */
  lemma {:induction false} ExtOfDotted(name: string, x: string)
    requires '.' !in x && '/' !in x
    ensures Ext(name + "." + x) == "." + x
    decreases |x|
  {
    var s := name + "." + x;
    if x == [] {
      assert s == name + ".";
      assert s[|s| - 1] == '.' && s[|s| - 1..] == [s[|s| - 1]];
    } else {
      var x' := x[..|x| - 1];
      assert s[..|s| - 1] == name + "." + x';
      assert x[|x| - 1] in x;
      ExtOfDotted(name, x');
      assert "." + x' + [x[|x| - 1]] == "." + x;
    }
  }
}
