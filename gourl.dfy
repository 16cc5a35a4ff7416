/** Go's `net/url.Parse`, as far as serve.go depends on it: the scheme, the raw query, the
    unescaped path, and the inputs it rejects. */
module GoUrl {
  import opened Text

  /** The fields of `*url.URL` that the model keeps. */
  datatype Url = Url(scheme: string, opaquePart: string, host: string, path: string,
                     rawQuery: string, fragment: string)

  /** ASCII control characters, which `Parse` rejects anywhere in its input. */
  predicate IsCtl(c: char) { c < ' ' || c == '\U{7F}' }

  /** `getScheme`: a leading run of letters (then letters, digits, `+`, `-`, `.`) closed by
      `:` is the scheme; a `:` in first position is an error ("missing protocol scheme");
      anything else means there is no scheme. `None` is the error. */
  function GetScheme(s: string, i: nat): Option<(string, string)>
    requires i <= |s|
    decreases |s| - i
  {
    if i == |s| then Some(("", s))
    else
      var c := s[i];
      if IsAsciiLetter(c) then GetScheme(s, i + 1)
      else if IsDigit(c) || c == '+' || c == '-' || c == '.' then
        (if i == 0 then Some(("", s)) else GetScheme(s, i + 1))
      else if c == ':' then
        (if i == 0 then None else Some((s[..i], s[i + 1..])))
      else Some(("", s))
  }

  /** `unescape` in path and fragment mode: each `%` must start a two-hex-digit escape,
      which is decoded; `None` is the `EscapeError`. */
  function Unescape(s: string): (r: Option<string>)
    ensures '%' !in s ==> r == Some(s)
    decreases |s|
  {
    if s == [] then Some([])
    else if s[0] == '%' then
      if |s| >= 3 && IsHex(s[1]) && IsHex(s[2]) then
        match Unescape(s[3..])
        case None => None
        case Some(t) => Some([EscapedChar(s[1], s[2])] + t)
      else None
    else
      assert s == [s[0]] + s[1..];
      match Unescape(s[1..])
      case None => None
      case Some(t) => Some([s[0]] + t)
  }

  /** `url.Parse(raw)`: the fragment is cut off first and unescaped last; `None` is the
      error result. */
  function Parse(raw: string): (r: Option<Url>)
    ensures (exists i :: 0 <= i < |raw| && IsCtl(raw[i]) && '#' !in raw[..i]) ==> r.None?
  {
    var u := Before(raw, '#');
    var frag := After(raw, '#');
    var res := ParseReference(u);
    assert (exists i :: 0 <= i < |raw| && IsCtl(raw[i]) && '#' !in raw[..i])
        ==> exists i :: 0 <= i < |u| && IsCtl(u[i]) by {
      if i :| 0 <= i < |raw| && IsCtl(raw[i]) && '#' !in raw[..i] {
        assert i < |u| && u[i] == raw[i];
      }
    }
    match res
    case None => None
    case Some(url) =>
      if frag == [] then Some(url)
      else
        match Unescape(frag)
        case None => None
        case Some(f) => Some(url.(fragment := f))
  }

  /** `parse(rawURL, false)`: control characters are errors; `*` is a path of its own;
      then the scheme, the raw query after the first `?`, an opaque part for a scheme not
      followed by `/`, the colon check on a relative first segment, the `//authority`,
      and the unescaped path. */
  function ParseReference(raw: string): (r: Option<Url>)
    ensures (exists i :: 0 <= i < |raw| && IsCtl(raw[i])) ==> r.None?
    ensures r.Some? ==> '#' !in raw ==> '#' !in r.value.rawQuery
  {
    if exists i :: 0 <= i < |raw| && IsCtl(raw[i]) then None
    else if raw == "*" then Some(Url("", "", "", "*", "", ""))
    else
      match GetScheme(raw, 0)
      case None => None
      case Some((scheme0, rest0)) =>
        var scheme := LowerAscii(scheme0);
        var rest := Before(rest0, '?');
        var rawQuery := After(rest0, '?');
        assert '#' !in raw ==> '#' !in rawQuery by {
          GetSchemeRest(raw, 0);
        }
        if !StartsWith(rest, "/") && scheme != [] then
          Some(Url(scheme, rest, "", "", rawQuery, ""))
        else if !StartsWith(rest, "/") && ':' in Before(rest, '/') then
          None
        else
          var hasAuthority := (scheme != [] || !StartsWith(rest, "///")) && StartsWith(rest, "//");
          var host := if hasAuthority then Before(rest[2..], '/') else "";
          var path := if hasAuthority then rest[2 + |host|..] else rest;
          match Unescape(path)
          case None => None
          case Some(p) => Some(Url(scheme, "", host, p, rawQuery, ""))
  }

  lemma GetSchemeRest(s: string, i: nat)
    requires i <= |s|
    ensures GetScheme(s, i).Some? ==> forall c :: c in GetScheme(s, i).value.1 ==> c in s
    decreases |s| - i
  {
    if i < |s| && (IsAsciiLetter(s[i]) || ((IsDigit(s[i]) || s[i] == '+' || s[i] == '-' || s[i] == '.') && i > 0)) {
      GetSchemeRest(s, i + 1);
    }
  }

  /** A request for an absolute path: `/` followed by text with no control character,
      `?`, `#` or `%` and not starting with `/`, then `?` and a query with no control
      character and no `#`. `Parse` keeps the path as it is and the query raw. */
  lemma ParsePathQuery(tail: string, query: string)
    requires tail == [] || tail[0] != '/'
    requires forall c :: c in tail ==> !IsCtl(c) && c != '?' && c != '#' && c != '%'
    requires forall c :: c in query ==> !IsCtl(c) && c != '#'
    ensures Parse("/" + tail + "?" + query) == Some(Url("", "", "", "/" + tail, query, ""))
  {
    var raw := "/" + tail + "?" + query;
    RequestChars(tail, query);
    assert Before(raw, '#') == raw && After(raw, '#') == [];
    assert GetScheme(raw, 0) == Some(("", raw));
    IndexOfAt("/" + tail, '?', query);
    assert raw == ("/" + tail) + ['?'] + query;
    var rest := "/" + tail;
    assert Before(raw, '?') == rest && After(raw, '?') == query;
    assert LowerAscii("") == "";
    OneSlash(tail);
  }

  /** A request for an absolute path with no `?` at all: `Parse` keeps the path as it is
      and the raw query is empty. */
  lemma ParsePlainPath(tail: string)
    requires tail == [] || tail[0] != '/'
    requires forall c :: c in tail ==> !IsCtl(c) && c != '?' && c != '#' && c != '%'
    ensures Parse("/" + tail) == Some(Url("", "", "", "/" + tail, "", ""))
  {
    var raw := "/" + tail;
    PlainChars(tail);
    assert Before(raw, '#') == raw && After(raw, '#') == [];
    ReferencePlain(tail);
  }

  /** The reference part of the same request: no scheme, no authority, no query. */
  lemma ReferencePlain(tail: string)
    requires tail == [] || tail[0] != '/'
    requires forall c :: c in tail ==> !IsCtl(c) && c != '?' && c != '#' && c != '%'
    ensures ParseReference("/" + tail) == Some(Url("", "", "", "/" + tail, "", ""))
  {
    var raw := "/" + tail;
    PlainChars(tail);
    assert GetScheme(raw, 0) == Some(("", raw));
    assert Before(raw, '?') == raw && After(raw, '?') == [];
    assert LowerAscii("") == "";
    OneSlash(tail);
    assert Unescape(raw) == Some(raw);
  }

  /** The plain request text has no `#`, no `?` and no control character. */
  lemma PlainChars(tail: string)
    requires forall c :: c in tail ==> !IsCtl(c) && c != '?' && c != '#' && c != '%'
    ensures var raw := "/" + tail;
      '#' !in raw && '?' !in raw && !exists i :: 0 <= i < |raw| && IsCtl(raw[i])
  {
    var raw := "/" + tail;
    assert forall c :: c in raw ==> c == '/' || c in tail;
    forall i | 0 <= i < |raw| ensures !IsCtl(raw[i]) {
      assert raw[i] in raw;
    }
  }

  /** `/` and then text with no `%` that does not start with `/`: no authority, no escape. */
  lemma OneSlash(tail: string)
    requires tail == [] || tail[0] != '/'
    requires '%' !in tail
    ensures StartsWith("/" + tail, "/") && !StartsWith("/" + tail, "//") && '%' !in "/" + tail
  {
    var rest := "/" + tail;
    assert |rest| >= 2 ==> rest[..2][1] == rest[1] == tail[0];
  }

  /** The request text has no `#` and no control character. */
  lemma RequestChars(tail: string, query: string)
    requires forall c :: c in tail ==> !IsCtl(c) && c != '?' && c != '#' && c != '%'
    requires forall c :: c in query ==> !IsCtl(c) && c != '#'
    ensures var raw := "/" + tail + "?" + query;
      '#' !in raw && !exists i :: 0 <= i < |raw| && IsCtl(raw[i])
  {
    var raw := "/" + tail + "?" + query;
    assert forall c :: c in raw ==> c == '/' || c == '?' || c in tail || c in query;
    forall i | 0 <= i < |raw| ensures !IsCtl(raw[i]) {
      assert raw[i] in raw;
    }
  }
}
