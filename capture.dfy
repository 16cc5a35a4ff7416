/** save_responses.py, the capture hook: the file a response is stored under, and whether
    it is written as text or as raw bytes. */
module Capture {
  import opened Text
  import opened PyUrl
  import opened Paths
  import opened Domains

  const DUMP_DIR := "./webroot"
  const INDEX := "index.html"

  /** The `index.html` default for an empty path or one naming a directory. */
  function WithIndex(path: string): string
  {
    if path == [] || EndsWith(path, "/") then path + INDEX else path
  }

  /** The path nested under a directory named after the host, except on the main site. */
  function Nested(u: ParsedUrl): string
  {
    var path := WithIndex(u.path);
    if u.netloc != MAIN_DOMAIN then OsJoin(u.netloc, [LStrip(path, '/')]) else path
  }

  /** The query suffix, for a host whose name contains `kujiale.com`, other than the two
      excluded hosts. */
  function CaptureSuffix(u: ParsedUrl): string
  {
    if u.query != [] && CaptureQueryHost(u.netloc) then QuerySuffix(u.query) else []
  }

  /** `sanitize_path` before the final join: the path below the dump directory. */
  function CaptureRelPath(u: ParsedUrl): string
  {
    Nested(u) + CaptureSuffix(u)
  }

  /** `sanitize_path(url)`: the dump directory joined with the `/`-separated components of
      the path, outer slashes stripped. */
  function SanitizePath(url: string): string
  {
    OsJoin(DUMP_DIR, Split(Strip(CaptureRelPath(UrlParse(url)), '/'), '/'))
  }

  /** The media type of a `content-type` header: the text before the first `;`, trimmed. */
  function MediaType(header: string): (r: string)
    ensures ';' !in r
    ensures r == [] || (!IsSpace(r[0]) && !IsSpace(r[|r| - 1]))
    ensures ';' !in header && (header == [] || (!IsSpace(header[0]) && !IsSpace(header[|header| - 1])))
            ==> r == header
  {
    StripSpace(Before(header, ';'))
  }

  /** The content types saved in text mode. */
  predicate IsTextType(t: string)
  {
    StartsWith(t, "text/") || t == "application/json" || t == "application/javascript"
  }

  datatype Mode = TextMode | BinaryMode

  /** A file the hook writes: where, how, and what. */
  datatype Saved = Saved(path: string, mode: Mode, content: seq<bv8>)

  /** The decision `response` makes for one captured response: nothing for an empty body,
      otherwise the body under `sanitize_path(url)`, in text mode exactly when the media
      type of the `content-type` header (empty when the header is missing) is a text type. */
  function Response(url: string, content: seq<bv8>, contentType: Option<string>): (r: Option<Saved>)
    ensures r.None? <==> content == []
    ensures r.Some? ==> r.value.path == SanitizePath(url) && r.value.content == content
    ensures r.Some? ==> (r.value.mode == TextMode <==>
              IsTextType(MediaType(if contentType.Some? then contentType.value else "")))
  {
    if content == [] then None
    else
      var header := if contentType.Some? then contentType.value else "";
      Some(Saved(SanitizePath(url), if IsTextType(MediaType(header)) then TextMode else BinaryMode, content))
  }

  // ---------------------------------------------------------------------------------
  // Lemmas

  /** A directory-like path is stored as its `index.html`, and the query suffix, if any,
      comes after that name. */
  lemma IndexBeforeSuffix(u: ParsedUrl)
    requires u.path == [] || EndsWith(u.path, "/")
    ensures EndsWith(CaptureRelPath(u), INDEX + CaptureSuffix(u))
  {
    NestedIndex(u);
    EndsWithAppend(Nested(u), INDEX, CaptureSuffix(u));
  }

  /** A directory-like path is stored as its `index.html`. */
  lemma NestedIndex(u: ParsedUrl)
    requires u.path == [] || EndsWith(u.path, "/")
    ensures EndsWith(Nested(u), INDEX)
  {
    var path := u.path + INDEX;
    assert WithIndex(u.path) == path;
    assert EndsWith(path, INDEX) by {
      assert path[|path| - |INDEX|..] == INDEX;
    }
    if u.netloc != MAIN_DOMAIN {
      LStripSuffix(path, '/', INDEX);
      OsJoinEnds(u.netloc, LStrip(path, '/'), INDEX);
    }
  }

  /** Appending the same text to both sides keeps a suffix. */
  lemma EndsWithAppend(a: string, t: string, s: string)
    requires EndsWith(a, t)
    ensures EndsWith(a + s, t + s)
  {
    var r := a + s;
    assert r[|r| - |t + s|..] == a[|a| - |t|..] + s;
  }

  /** Stripping leading copies of `c` keeps a suffix that does not start with `c`. */
  lemma {:induction false} LStripSuffix(s: string, c: char, t: string)
    requires EndsWith(s, t) && t != [] && t[0] != c
    ensures EndsWith(LStrip(s, c), t)
    decreases |s|
  {
    if s != [] && s[0] == c {
      assert s[|s| - |t|] == t[0];
      assert s[1..][|s| - 1 - |t|..] == s[|s| - |t|..];
      LStripSuffix(s[1..], c, t);
    }
  }

  /** Joining one component keeps the component's suffix. */
  lemma OsJoinEnds(a: string, x: string, t: string)
    requires EndsWith(x, t)
    ensures EndsWith(OsJoin(a, [x]), t)
  {
    var b := if StartsWith(x, "/") then x else if a == [] || EndsWith(a, "/") then a + x else a + "/" + x;
    assert OsJoin(a, [x]) == b;
    assert b[|b| - |x|..] == x;
    assert b[|b| - |t|..] == x[|x| - |t|..];
  }

  /** Hosts other than the main site get a directory of their own; main-site paths are not
      prefixed. */
  lemma NestedUnderHost(u: ParsedUrl)
    requires '/' !in u.netloc
    ensures u.netloc == MAIN_DOMAIN ==> Nested(u) == WithIndex(u.path)
    ensures u.netloc != MAIN_DOMAIN && u.netloc != [] ==>
              Nested(u) == u.netloc + "/" + LStrip(WithIndex(u.path), '/')
  {
    if u.netloc != MAIN_DOMAIN && u.netloc != [] {
      var x := LStrip(WithIndex(u.path), '/');
      assert u.netloc[|u.netloc| - 1] in u.netloc;
      OsJoinPlain(u.netloc, x);
    }
  }

  /** Joining a part that does not start with `/` to a path that does not end with one
      puts a `/` between them. */
  lemma OsJoinPlain(a: string, x: string)
    requires a != [] && a[|a| - 1] != '/' && (x == [] || x[0] != '/')
    ensures OsJoin(a, [x]) == a + "/" + x
  {
    assert !StartsWith(x, "/") by {
      if x != [] {
        assert x[..1] == [x[0]];
      }
    }
    assert !EndsWith(a, "/") by {
      assert a[|a| - 1..] == [a[|a| - 1]];
    }
    var none: seq<string> := [];
    assert [x][0] == x && [x][1..] == none;
    assert OsJoin(a, [x]) == OsJoin(a + "/" + x, none);
  }

  /** The stored name carries the sanitised query exactly when the query is non-empty and
      the host is a kujiale.com host other than the main site and the panorama JSON host;
      otherwise it is the nested path alone. */
  lemma SuffixExactly(u: ParsedUrl)
    ensures u.query != [] && CaptureQueryHost(u.netloc) ==>
              CaptureRelPath(u) == Nested(u) + "__" + SanitizeQuery(u.query)
    ensures !(u.query != [] && CaptureQueryHost(u.netloc)) ==> CaptureRelPath(u) == Nested(u)
  {
  }

  /** A response from a kujiale.com subdomain, for a path whose components are all
      non-empty, is stored as `./webroot/<host>/<path>` followed by the query suffix when
      the query is non-empty and the host is not the panorama JSON host. */
  lemma CaptureSubdomain(host: string, p: string, query: string)
    requires host != [] && host != MAIN_DOMAIN
    requires '/' !in host && '?' !in host && '#' !in host
    requires '?' !in p && '#' !in p && ';' !in p && '#' !in query
    requires forall c :: c in host + ("/" + p) + query ==> !IsUnsafe(c)
    requires p != [] && NoEmptyPart(p)
    ensures SanitizePath("https://" + host + "/" + p + "?" + query)
         == DUMP_DIR + "/" + host + "/" + p
            + (if query != [] && CaptureQueryHost(host) then QuerySuffix(query) else [])
  {
    var u := ParsedUrl("https", host, "/" + p, "", query, "");
    SanitizeSlashPath(host, p, query);
    var sfx := CaptureSuffix(u);
    var rel := host + "/" + p + sfx;
    SubdomainRel(u, p);
    NoEmptyPartSingle(host);
    NoEmptyPartConcat(host, p);
    NoEmptyPartAppend(host + "/" + p, sfx);
    OsJoinText(DUMP_DIR, rel);
    JoinAssoc(DUMP_DIR, host, p, sfx);
  }

  lemma JoinAssoc(d: string, host: string, p: string, sfx: string)
    ensures d + "/" + (host + "/" + p + sfx) == d + "/" + host + "/" + p + sfx
  {
  }

  /** `urlparse` of an https URL whose path is `/` followed by `p`. */
  lemma ParseSlashPath(host: string, p: string, query: string)
    requires '/' !in host && '?' !in host && '#' !in host
    requires '?' !in p && '#' !in p && ';' !in p && '#' !in query
    requires forall c :: c in host + ("/" + p) + query ==> !IsUnsafe(c)
    ensures UrlParse("https://" + host + "/" + p + "?" + query)
         == ParsedUrl("https", host, "/" + p, "", query, "")
  {
    assert "https://" + host + "/" + p + "?" + query == "https://" + host + ("/" + p) + "?" + query;
    ParseHttps(host, "/" + p, query);
  }

  /** `sanitize_path` of an https URL whose path is `/` followed by `p`. */
  lemma SanitizeSlashPath(host: string, p: string, query: string)
    requires '/' !in host && '?' !in host && '#' !in host
    requires '?' !in p && '#' !in p && ';' !in p && '#' !in query
    requires forall c :: c in host + ("/" + p) + query ==> !IsUnsafe(c)
    ensures SanitizePath("https://" + host + "/" + p + "?" + query)
         == OsJoin(DUMP_DIR, Split(Strip(CaptureRelPath(ParsedUrl("https", host, "/" + p, "", query, "")), '/'), '/'))
  {
    ParseSlashPath(host, p, query);
    SanitizeParsed("https://" + host + "/" + p + "?" + query, ParsedUrl("https", host, "/" + p, "", query, ""));
  }

  /** `sanitize_path` depends on the URL only through its parse. */
  lemma SanitizeParsed(url: string, u: ParsedUrl)
    requires UrlParse(url) == u
    ensures SanitizePath(url) == OsJoin(DUMP_DIR, Split(Strip(CaptureRelPath(u), '/'), '/'))
  {
  }

  /** A `/`-led path with non-empty components is its own stored name. */
  lemma SlashPathIndex(p: string)
    requires p != [] && NoEmptyPart(p)
    ensures WithIndex("/" + p) == "/" + p && LStrip("/" + p, '/') == p
    ensures p[0] != '/' && p[|p| - 1] != '/'
  {
    PartsOfText(p);
    SlashFile(p);
  }

  /** `/p`, for a `p` with no outer slash, names a file, and stripping its slash gives `p`. */
  lemma SlashFile(p: string)
    requires p != [] && p[0] != '/' && p[|p| - 1] != '/'
    ensures WithIndex("/" + p) == "/" + p && LStrip("/" + p, '/') == p
  {
    var s := "/" + p;
    assert s[0] == '/' && s[1..] == p && s[|s| - 1] == p[|p| - 1];
    NoIndexForFile(s);
  }

  /** A path not ending in `/` names a file and gets no `index.html`. */
  lemma NoIndexForFile(s: string)
    requires s != [] && s[|s| - 1] != '/'
    ensures WithIndex(s) == s
  {
    assert s[|s| - 1..] == [s[|s| - 1]];
  }

  /** For a subdomain, the path below the dump directory is host, path and suffix, with no
      outer slash. */
  lemma SubdomainRel(u: ParsedUrl, p: string)
    requires u.netloc != [] && u.netloc != MAIN_DOMAIN && '/' !in u.netloc
    requires u.path == "/" + p && p != [] && NoEmptyPart(p)
    ensures CaptureRelPath(u) == u.netloc + "/" + p + CaptureSuffix(u)
    ensures Strip(CaptureRelPath(u), '/') == CaptureRelPath(u)
  {
    SlashPathIndex(p);
    NestedUnderHost(u);
    StripUnchanged(CaptureRelPath(u), u.netloc, p, CaptureSuffix(u));
  }

  /** A main-site response is stored under its path alone, whatever its query. */
  lemma CaptureMainSite(p: string, query: string)
    requires '?' !in p && '#' !in p && ';' !in p && '#' !in query
    requires forall c :: c in MAIN_DOMAIN + ("/" + p) + query ==> !IsUnsafe(c)
    requires p != [] && NoEmptyPart(p)
    ensures SanitizePath("https://" + MAIN_DOMAIN + "/" + p + "?" + query) == DUMP_DIR + "/" + p
  {
    var u := ParsedUrl("https", MAIN_DOMAIN, "/" + p, "", query, "");
    MainDomainPlain();
    SanitizeSlashPath(MAIN_DOMAIN, p, query);
    MainSiteRel(u, p);
    OsJoinText(DUMP_DIR, p);
  }

  /** The main site's host name holds no URL delimiter. */
  lemma MainDomainPlain()
    ensures '/' !in MAIN_DOMAIN && '?' !in MAIN_DOMAIN && '#' !in MAIN_DOMAIN
  {
  }

  /** For the main site, the path below the dump directory is the path alone. */
  lemma MainSiteRel(u: ParsedUrl, p: string)
    requires u.netloc == MAIN_DOMAIN
    requires u.path == "/" + p && p != [] && NoEmptyPart(p)
    ensures Strip(CaptureRelPath(u), '/') == p
  {
    SlashPathIndex(p);
    assert CaptureSuffix(u) == [];
    assert CaptureRelPath(u) == "/" + p;
  }

  /** Because main-site paths are not prefixed, a main-site path that begins with a host
      name is stored in the same file as that host's own response. */
  lemma MainSiteShadowsHost(host: string, p: string)
    requires host != [] && host != MAIN_DOMAIN
    requires '/' !in host && '?' !in host && '#' !in host && ';' !in host
    requires '?' !in p && '#' !in p && ';' !in p
    requires forall c :: c in MAIN_DOMAIN + ("/" + host + "/" + p) ==> !IsUnsafe(c)
    requires p != [] && NoEmptyPart(p)
    ensures SanitizePath("https://" + MAIN_DOMAIN + "/" + (host + "/" + p) + "?")
         == SanitizePath("https://" + host + "/" + p + "?")
  {
    var q := host + "/" + p;
    var m := MAIN_DOMAIN;
    assert m + ("/" + (host + "/" + p)) + [] == m + ("/" + host + "/" + p);
    assert m + ("/" + host + "/" + p) == m + "/" + (host + ("/" + p) + []);
    assert forall c :: c in host + ("/" + p) + [] ==> c in m + ("/" + host + "/" + p);
    assert "https://" + m + "/" + q + "?" + [] == "https://" + m + "/" + q + "?";
    assert "https://" + host + "/" + p + "?" + [] == "https://" + host + "/" + p + "?";
    assert DUMP_DIR + "/" + host + "/" + p + [] == DUMP_DIR + "/" + host + "/" + p;
    assert DUMP_DIR + "/" + (host + "/" + p + []) == DUMP_DIR + "/" + host + "/" + p + [];
    assert q + [] == q;
    NoEmptyPartSingle(host);
    NoEmptyPartConcat(host, p);
    CaptureMainSite(q, []);
    CaptureSubdomain(host, p, []);
  }

  /** Text with no empty component neither starts nor ends with `/`. */
  lemma PartsOfText(p: string)
    requires p != [] && NoEmptyPart(p)
    ensures p[0] != '/' && p[|p| - 1] != '/'
  {
    OuterSlashParts(p);
  }

  /** A leading `/` gives an empty first component, a trailing one an empty last. */
  lemma OuterSlashParts(p: string)
    requires p != []
    ensures var ps := Split(p, '/');
            (p[0] == '/' ==> ps[0] == []) && (p[|p| - 1] == '/' ==> ps[|ps| - 1] == [])
  {
    SplitConcat([], p[1..], '/');
    SplitConcat(p[..|p| - 1], [], '/');
    assert Split([], '/') == [[]];
    if p[0] == '/' {
      assert [] + ['/'] + p[1..] == p;
    }
    if p[|p| - 1] == '/' {
      assert p[..|p| - 1] + ['/'] + [] == p;
    }
  }

  lemma StripUnchanged(rel: string, host: string, p: string, sfx: string)
    requires host != [] && '/' !in host && p != [] && p[|p| - 1] != '/' && '/' !in sfx
    requires rel == host + "/" + p + sfx
    ensures Strip(rel, '/') == rel
  {
    assert rel[0] == host[0] && host[0] in host;
    assert LStrip(rel, '/') == rel;
    if sfx == [] {
      assert rel[|rel| - 1] == p[|p| - 1];
    } else {
      assert rel[|rel| - 1] == sfx[|sfx| - 1] && sfx[|sfx| - 1] in sfx;
    }
  }

  /** Parameters after the first `;` do not take part in the media type. */
  lemma MediaTypeParams(t: string, params: string)
    requires ';' !in t
    ensures MediaType(t + ";" + params) == StripSpace(t)
  {
    IndexOfAt(t, ';', params);
    var h := t + ";" + params;
    assert h[..|t|] == t;
  }

  /** A text type keeps text mode whatever parameters follow it. */
  lemma TextTypeWithParams(t: string, params: string)
    requires ';' !in t && IsTextType(t) && !IsSpace(t[|t| - 1])
    ensures IsTextType(MediaType(t + ";" + params))
  {
    MediaTypeParams(t, params);
    assert !IsSpace(t[0]) by { TextTypeHead(t); }
    assert StripSpace(t) == t;
  }

  /** Every text type begins with a letter. */
  lemma TextTypeHead(t: string)
    requires IsTextType(t)
    ensures t != [] && (t[0] == 't' || t[0] == 'a')
  {
    if StartsWith(t, "text/") {
      assert t[..5] == "text/";
      assert t[0] == t[..5][0];
    }
  }

  /** A missing `content-type` header means binary. */
  lemma MissingHeaderIsBinary(url: string, content: seq<bv8>)
    requires content != []
    ensures Response(url, content, None) == Some(Saved(SanitizePath(url), BinaryMode, content))
  {
    assert MediaType("") == [];
  }
}
