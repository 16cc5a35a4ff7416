/** Python's `urllib.parse.urlparse` (by way of `urlsplit`) and `unquote`, as far as
    post_process.py and save_responses.py depend on them. */
module PyUrl {
  import opened Text

  /** The six fields of `urlparse`'s result. */
  datatype ParsedUrl = ParsedUrl(scheme: string, netloc: string, path: string, params: string,
                                 query: string, fragment: string)

  /** `urllib.parse.scheme_chars`. */
  predicate IsSchemeChar(c: char) { IsAsciiLetter(c) || IsDigit(c) || c == '+' || c == '-' || c == '.' }

  /** The schemes whose last path segment may carry `;params` (`urllib.parse.uses_params`). */
  const USES_PARAMS: set<string> := {"", "ftp", "hdl", "prospero", "http", "imap", "https", "shttp",
                                     "rtsp", "rtsps", "rtspu", "sip", "sips", "mms", "sftp", "tel"}

  /** `urlsplit` first strips leading C0 control characters and spaces. */
  function LStripC0(s: string): (r: string)
    ensures r == [] || r[0] > ' '
    ensures |r| <= |s| && r == s[|s| - |r|..]
    decreases |s|
  {
    if s != [] && s[0] <= ' ' then LStripC0(s[1..]) else s
  }

  predicate IsUnsafe(c: char) { c == '\t' || c == '\r' || c == '\n' }

  /** ... and then deletes every tab, carriage return and line feed. */
  function RemoveUnsafe(s: string): (r: string)
    ensures forall c :: c in r ==> c in s && !IsUnsafe(c)
    ensures (forall c :: c in s ==> !IsUnsafe(c)) ==> r == s
    decreases |s|
  {
    if s == [] then []
    else if IsUnsafe(s[0]) then RemoveUnsafe(s[1..])
    else [s[0]] + RemoveUnsafe(s[1..])
  }

  /** The scheme is the text before the first `:` when it is non-empty, starts with an
      ASCII letter and consists of scheme characters; it is lower-cased. */
  function SplitScheme(url: string): (string, string)
  {
    var i := IndexOf(url, ':');
    if 0 < i < |url| && IsAsciiLetter(url[0]) && (forall k :: 0 <= k < i ==> IsSchemeChar(url[k]))
    then (LowerAscii(url[..i]), url[i + 1..])
    else ("", url)
  }

  /** Index of the first `/`, `?` or `#` in `s`, or `|s|`. */
  function NetlocEnd(s: string): (k: nat)
    ensures k <= |s|
    ensures forall i :: 0 <= i < k ==> s[i] != '/' && s[i] != '?' && s[i] != '#'
    ensures k < |s| ==> s[k] == '/' || s[k] == '?' || s[k] == '#'
    decreases |s|
  {
    if s == [] || s[0] == '/' || s[0] == '?' || s[0] == '#' then 0 else 1 + NetlocEnd(s[1..])
  }

  /** Index of the last `c` in `s`, if any. */
  function LastIndexOf(s: string, c: char): (k: int)
    ensures -1 <= k < |s|
    ensures k >= 0 ==> s[k] == c && c !in s[k + 1..]
    ensures k < 0 ==> c !in s
    decreases |s|
  {
    if s == [] then -1
    else if s[|s| - 1] == c then |s| - 1
    else LastIndexOf(s[..|s| - 1], c)
  }

  /** `_splitparams`: the parameters start at the first `;` of the last path segment. */
  function SplitParams(path: string): (r: (string, string))
    requires ';' in path
    ensures forall c :: c in r.0 ==> c in path
  {
    var j := LastIndexOf(path, '/');
    if j >= 0 then
      var tail := path[j..];
      var i := IndexOf(tail, ';');
      if i < |tail| then (path[..j + i], path[j + i + 1..]) else (path, "")
    else
      (Before(path, ';'), After(path, ';'))
  }

  /** `_splitnetloc(url, 2)` for a `url` that starts with `//`: the network location runs
      up to the first `/`, `?` or `#`. */
  function SplitNetloc(rest: string): (r: (string, string))
    requires StartsWith(rest, "//")
    ensures '/' !in r.0 && '?' !in r.0 && '#' !in r.0
    ensures rest == "//" + r.0 + r.1
  {
    var body := rest[2..];
    var k := NetlocEnd(body);
    assert forall i :: 0 <= i < k ==> body[..k][i] == body[i];
    assert rest == "//" + body[..k] + body[k..];
    (body[..k], body[k..])
  }

  /** The five fields of `urlsplit`'s result. */
  datatype SplitUrl = SplitUrl(scheme: string, netloc: string, path: string, query: string, fragment: string)

  /** `urllib.parse.urlsplit(url)`: scheme, then `//netloc`, then `#fragment`, then
      `?query`. */
  function UrlSplit(url: string): (r: SplitUrl)
    ensures '/' !in r.netloc && '?' !in r.netloc && '#' !in r.netloc
    ensures '?' !in r.path && '#' !in r.path && '#' !in r.query
  {
    var u := RemoveUnsafe(LStripC0(url));
    var (scheme, rest) := SplitScheme(u);
    var (netloc, rest2) := if StartsWith(rest, "//") then SplitNetloc(rest) else ("", rest);
    var rest3 := Before(rest2, '#');
    SplitUrl(scheme, netloc, Before(rest3, '?'), After(rest3, '?'), After(rest2, '#'))
  }

  /** `urllib.parse.urlparse(url)`: `urlsplit`, then `;params` split off the path for the
      schemes that use them. */
  function UrlParse(url: string): (r: ParsedUrl)
    ensures '/' !in r.netloc && '?' !in r.netloc && '#' !in r.netloc
    ensures '?' !in r.path && '#' !in r.path && '#' !in r.query
  {
    var sp := UrlSplit(url);
    if sp.scheme in USES_PARAMS && ';' in sp.path then
      var (p, params) := SplitParams(sp.path);
      ParsedUrl(sp.scheme, sp.netloc, p, params, sp.query, sp.fragment)
    else
      ParsedUrl(sp.scheme, sp.netloc, sp.path, "", sp.query, sp.fragment)
  }

  /** `urllib.parse.unquote`: text without `%` is returned as it is; otherwise every
      well-formed `%XY` escape is decoded and every other character kept. */
  function Unquote(s: string): (r: string)
    ensures '%' !in s ==> r == s
  {
    if '%' !in s then s else DecodeEscapes(s)
  }

  function DecodeEscapes(s: string): string
    decreases |s|
  {
    if s == [] then []
    else if |s| >= 3 && s[0] == '%' && IsHex(s[1]) && IsHex(s[2]) then
      [EscapedChar(s[1], s[2])] + DecodeEscapes(s[3..])
    else [s[0]] + DecodeEscapes(s[1..])
  }

  /** The shape every rewritten or downloaded reference has: for a host without `/`,
      `?`, `#`, a path that starts with `/` and has no `?`, `#` or `;`, and a query without
      `#`, and none of them holding a tab, CR or LF, `urlparse` returns exactly those
      three parts. */
  lemma ParseHttps(host: string, path: string, query: string)
    requires '/' !in host && '?' !in host && '#' !in host
    requires path == [] || path[0] == '/'
    requires '?' !in path && '#' !in path && ';' !in path && '#' !in query
    requires forall c :: c in host + path + query ==> !IsUnsafe(c)
    ensures UrlParse("https://" + host + path + "?" + query)
         == ParsedUrl("https", host, path, "", query, "")
  {
    SplitHttps(host, path, query);
  }

  /** The same URL with `;params` after its path: `urlparse` moves the parameters out of
      the path, to a field of their own. */
  lemma ParseHttpsParams(host: string, path: string, params: string, query: string)
    requires '/' !in host && '?' !in host && '#' !in host
    requires path != [] && path[0] == '/'
    requires '?' !in path && '#' !in path && ';' !in path
    requires '/' !in params && '?' !in params && '#' !in params && '#' !in query
    requires forall c :: c in host + (path + ";" + params) + query ==> !IsUnsafe(c)
    ensures UrlParse("https://" + host + path + ";" + params + "?" + query)
         == ParsedUrl("https", host, path, params, query, "")
  {
    var full := path + ";" + params;
    assert "https://" + host + path + ";" + params + "?" + query == "https://" + host + full + "?" + query;
    assert forall c :: c in full ==> c in path || c == ';' || c in params;
    SplitHttps(host, full, query);
    SplitParamsAt(path, params);
  }

  /** `_splitparams` of a path without `;` followed by `;` and parameters without `/`. */
  lemma {:induction false} SplitParamsAt(path: string, params: string)
    requires path != [] && path[0] == '/'
    requires ';' !in path && '/' !in params
    ensures ';' in path + ";" + params && SplitParams(path + ";" + params) == (path, params)
  {
    var full := path + ";" + params;
    var j := LastIndexOf(full, '/');
    LastSlashInPath(path, params, j);
    ParamsAfterSlash(path, params, j);
    assert full[..|path|] == path && full[|path| + 1..] == params;
    SplitParamsIs(full, j, |path| - j, path, params);
  }

  /** `_splitparams` cuts at the first `;` after the last `/`. */
  lemma {:induction false} SplitParamsIs(full: string, j: int, i: nat, a: string, b: string)
    requires ';' in full && 0 <= j == LastIndexOf(full, '/')
    requires i == IndexOf(full[j..], ';') && i < |full| - j
    requires a == full[..j + i] && b == full[j + i + 1..]
    ensures SplitParams(full) == (a, b)
  {
  }

  lemma {:induction false} ParamsAfterSlash(path: string, params: string, j: nat)
    requires ';' !in path && j < |path|
    ensures IndexOf((path + ";" + params)[j..], ';') == |path| - j
  {
    assert (path + ";" + params)[j..] == path[j..] + [';'] + params;
    assert ';' !in path[j..] by {
      assert forall c :: c in path[j..] ==> c in path;
    }
    IndexOfAt(path[j..], ';', params);
  }

  lemma {:induction false} LastSlashInPath(path: string, params: string, j: int)
    requires path != [] && path[0] == '/' && '/' !in params
    requires j == LastIndexOf(path + ";" + params, '/')
    ensures 0 <= j < |path| && ';' in path + ";" + params
  {
    var full := path + ";" + params;
    assert full[0] == '/' && full[|path|] == ';';
    forall k | |path| < k < |full| ensures full[k] != '/' {
      assert full[k] == params[k - |path| - 1];
    }
  }

  lemma SplitHttps(host: string, path: string, query: string)
    requires '/' !in host && '?' !in host && '#' !in host
    requires path == [] || path[0] == '/'
    requires '?' !in path && '#' !in path && '#' !in query
    requires forall c :: c in host + path + query ==> !IsUnsafe(c)
    ensures UrlSplit("https://" + host + path + "?" + query) == SplitUrl("https", host, path, query, "")
  {
    var rest2 := path + ['?'] + query;
    var rest := "//" + (host + rest2);
    var url := "https:" + rest;
    assert url == "https://" + host + path + "?" + query;
    CleanHttps(host, path, query);
    SchemeHttps(rest);
    NetlocHttps(host, rest2);
    QueryHttps(path, query);
  }

  /** `urlsplit` of `https://host/path` with no `?`: the query is empty. */
  lemma SplitHttpsPlain(host: string, path: string)
    requires '/' !in host && '?' !in host && '#' !in host
    requires path != [] && path[0] == '/'
    requires '?' !in path && '#' !in path
    requires forall c :: c in host + path ==> !IsUnsafe(c)
    ensures UrlSplit("https://" + host + path) == SplitUrl("https", host, path, "", "")
  {
    var rest := "//" + (host + path);
    var url := "https:" + rest;
    assert url == "https://" + host + path;
    CleanHttpsPlain(host, path);
    SchemeHttps(rest);
    NetlocHttps(host, path);
    assert Before(path, '#') == path && After(path, '#') == [];
    assert Before(path, '?') == path && After(path, '?') == [];
  }

  lemma CleanHttpsPlain(host: string, path: string)
    requires forall c :: c in host + path ==> !IsUnsafe(c)
    ensures var url := "https://" + host + path;
            RemoveUnsafe(LStripC0(url)) == url
  {
    var url := "https://" + host + path;
    assert LStripC0(url) == url;
    assert forall c :: c in url ==> c in "https://" || c in host + path;
  }

  /** `urlparse` of the same URL: no parameters and an empty query. */
  lemma ParseHttpsPlain(host: string, path: string)
    requires '/' !in host && '?' !in host && '#' !in host
    requires path != [] && path[0] == '/'
    requires '?' !in path && '#' !in path && ';' !in path
    requires forall c :: c in host + path ==> !IsUnsafe(c)
    ensures UrlParse("https://" + host + path) == ParsedUrl("https", host, path, "", "", "")
  {
    SplitHttpsPlain(host, path);
  }

  lemma CleanHttps(host: string, path: string, query: string)
    requires forall c :: c in host + path + query ==> !IsUnsafe(c)
    ensures var url := "https://" + host + path + "?" + query;
            RemoveUnsafe(LStripC0(url)) == url
  {
    var url := "https://" + host + path + "?" + query;
    assert LStripC0(url) == url;
    assert forall c :: c in url ==> c in "https://?" || c in host + path + query;
  }

  lemma NetlocHttps(host: string, rest2: string)
    requires '/' !in host && '?' !in host && '#' !in host
    requires rest2 != [] && (rest2[0] == '/' || rest2[0] == '?')
    ensures SplitNetloc("//" + (host + rest2)) == (host, rest2)
  {
    assert ("//" + (host + rest2))[2..] == host + rest2;
    NetlocEndAt(host, rest2);
  }

  lemma QueryHttps(path: string, query: string)
    requires '?' !in path && '#' !in path && '#' !in query
    ensures var rest2 := path + ['?'] + query;
            Before(rest2, '#') == rest2 && After(rest2, '#') == []
            && Before(rest2, '?') == path && After(rest2, '?') == query
  {
    IndexOfAt(path, '?', query);
  }

  lemma SchemeHttps(rest: string)
    ensures SplitScheme("https:" + rest) == ("https", rest)
  {
    var url := "https:" + rest;
    IndexOfAt("https", ':', rest);
    assert url == "https" + [':'] + rest;
    assert url[..5] == "https";
    assert url[6..] == rest;
    assert forall k :: 0 <= k < 5 ==> IsSchemeChar(url[k]) by {
      forall k | 0 <= k < 5 ensures IsSchemeChar(url[k]) {
        assert url[k] == "https"[k];
        assert url[k] in "https";
      }
    }
    var low := LowerAscii("https");
    assert low == "https" by {
      forall i | 0 <= i < 5 ensures low[i] == "https"[i] {
        assert "https"[i] in "https";
      }
    }
  }

  lemma NetlocEndAt(host: string, rest: string)
    requires '/' !in host && '?' !in host && '#' !in host
    requires rest != [] && (rest[0] == '/' || rest[0] == '?' || rest[0] == '#')
    ensures NetlocEnd(host + rest) == |host|
    decreases |host|
  {
    if host != [] {
      assert (host + rest)[1..] == host[1..] + rest;
      NetlocEndAt(host[1..], rest);
    }
  }
}
