/** How the three programs agree on file names: the server finds, for a rewritten
    root-relative reference, the file the downloader stored for the absolute URL, and the
    capture hook writes a subdomain response where the downloader looks for it. */
module Agreement {
  import opened Text
  import opened Paths
  import opened Domains
  import PyUrl
  import GoUrl
  import Downloader
  import Capture
  import Serve

  /** `|` written as `%7C`, the form a browser requests it in. */
  function EncodePipes(q: string): (r: string)
    ensures q != [] ==> r != []
    ensures forall c :: c in r ==> c in q || c in Serve.PIPE_ESCAPE
    decreases |q|
  {
    Serve.ReplaceAllChars(q, "|", Serve.PIPE_ESCAPE);
    if q != [] && StartsWith(q, "|") then
      assert ReplaceAll(q, "|", Serve.PIPE_ESCAPE) != [];
      ReplaceAll(q, "|", Serve.PIPE_ESCAPE)
    else if q != [] then
      assert ReplaceAll(q, "|", Serve.PIPE_ESCAPE) == [q[0]] + ReplaceAll(q[1..], "|", Serve.PIPE_ESCAPE);
      ReplaceAll(q, "|", Serve.PIPE_ESCAPE)
    else ReplaceAll(q, "|", Serve.PIPE_ESCAPE)
  }

  // ---------------------------------------------------------------------------------
  // Lemmas

  /** The server's suffix for the encoded query is the downloader's suffix for the
      original, provided the original holds no `%` of its own. */
  lemma PipeRoundTrip(q: string)
    requires q != [] && '%' !in q
    ensures Serve.ServeSuffix(EncodePipes(q)) == QuerySuffix(q)
  {
    SanitizeEncode(q);
    assert '%' !in SanitizeQuery(q) by {
      assert forall i :: 0 <= i < |q| ==> SanitizeQuery(q)[i] != '%' by {
        assert forall i :: 0 <= i < |q| ==> q[i] in q;
      }
    }
    DecodeEncode(SanitizeQuery(q));
  }

  /** Sanitising commutes with encoding `|`: neither touches what the other changes. */
  lemma {:induction false} SanitizeEncode(q: string)
    ensures SanitizeQuery(EncodePipes(q)) == EncodePipes(SanitizeQuery(q))
    decreases |q|
  {
    if q != [] {
      SanitizeEncode(q[1..]);
      var rest := EncodePipes(q[1..]);
      var s := SanitizeQuery(q);
      assert s[1..] == SanitizeQuery(q[1..]);
      assert s[..1] == [s[0]];
      if q[0] == '|' {
        assert StartsWith(q, "|") && q[1..] == q[|"|"|..];
        assert EncodePipes(q) == Serve.PIPE_ESCAPE + rest;
        SanitizeConcat(Serve.PIPE_ESCAPE, rest);
        assert SanitizeQuery(Serve.PIPE_ESCAPE) == Serve.PIPE_ESCAPE;
        assert s[0] == '|' && StartsWith(s, "|");
        assert EncodePipes(s) == Serve.PIPE_ESCAPE + EncodePipes(s[1..]);
      } else {
        assert !StartsWith(q, "|");
        assert EncodePipes(q) == [q[0]] + rest;
        SanitizeConcat([q[0]], rest);
        assert s[0] != '|' && !StartsWith(s, "|");
        assert EncodePipes(s) == [s[0]] + EncodePipes(s[1..]);
        assert SanitizeQuery([q[0]]) == [s[0]];
      }
    }
  }

  /** Sanitising works character by character. */
  lemma SanitizeConcat(a: string, b: string)
    ensures SanitizeQuery(a + b) == SanitizeQuery(a) + SanitizeQuery(b)
  {
    var l, r := SanitizeQuery(a + b), SanitizeQuery(a) + SanitizeQuery(b);
    assert |l| == |r|;
    forall i | 0 <= i < |l| ensures l[i] == r[i] {
      if i < |a| {
        assert (a + b)[i] == a[i];
      } else {
        assert (a + b)[i] == b[i - |a|];
      }
    }
  }

  /** Decoding `%7C` undoes the encoding of text without `%`. */
  lemma {:induction false} DecodeEncode(x: string)
    requires '%' !in x
    ensures ReplaceAll(EncodePipes(x), Serve.PIPE_ESCAPE, "|") == x
    decreases |x|
  {
    if x != [] {
      assert '%' !in x[1..] by {
        assert forall c :: c in x[1..] ==> c in x;
      }
      DecodeEncode(x[1..]);
      var e := EncodePipes(x[1..]);
      if x[0] == '|' {
        assert StartsWith(x, "|") && x[1..] == x[|"|"|..];
        var t := Serve.PIPE_ESCAPE + e;
        assert EncodePipes(x) == t;
        assert StartsWith(t, Serve.PIPE_ESCAPE) && t[|Serve.PIPE_ESCAPE|..] == e;
      } else {
        assert !StartsWith(x, "|");
        var t := [x[0]] + e;
        assert EncodePipes(x) == t;
        assert x[0] in x && t[0] != '%';
        assert !StartsWith(t, Serve.PIPE_ESCAPE);
        assert t[1..] == e;
      }
    }
  }

  /** A path component that is not `..`, for every component of `p`. */
  predicate NoDotDot(p: string)
  {
    forall k :: 0 <= k < |Split(p, '/')| ==> Split(p, '/')[k] != ".."
  }

  /** The components of `d/p` plus a suffix of three or more characters are no `..`. */
  lemma NoDotDotFile(d: string, p: string, sfx: string)
    requires '/' !in d && |d| > 2 && '/' !in sfx && |sfx| > 2 && NoDotDot(p)
    ensures NoDotDot(d + "/" + (p + sfx))
  {
    SplitConcat(d, p + sfx, '/');
    assert d + "/" + (p + sfx) == d + ['/'] + (p + sfx);
    SplitNoSep(d, '/');
    SplitAppend(p, sfx, '/');
    var ps := Split(p, '/');
    var xs := Split(d + "/" + (p + sfx), '/');
    assert xs == [d] + (ps[..|ps| - 1] + [ps[|ps| - 1] + sfx]);
    forall k | 0 <= k < |xs| ensures xs[k] != ".." {
      if k == 0 {
        assert |xs[k]| > 2;
      } else if k < |ps| {
        assert xs[k] == ps[k - 1];
      } else {
        assert |xs[k]| > 2;
      }
    }
  }

  /** The base directory split at `/`: `.`, `webroot`, an empty component, then the file's. */
  lemma BaseDirSplit(file: string)
    ensures Split(Serve.BASE_DIR + "/" + file, '/') == [".", "webroot", ""] + Split(file, '/')
  {
    assert Serve.BASE_DIR + "/" + file == "." + ['/'] + ("webroot" + ['/'] + ([] + ['/'] + file));
    SplitTwoDirs(".", "webroot", file);
  }

  /** Two plain directory names, an empty component, then the components of `file`. */
  lemma SplitTwoDirs(a: string, b: string, file: string)
    requires '/' !in a && '/' !in b
    ensures Split(a + ['/'] + (b + ['/'] + ([] + ['/'] + file)), '/') == [a, b, ""] + Split(file, '/')
  {
    SplitConcat([], file, '/');
    SplitConcat(b, [] + ['/'] + file, '/');
    SplitConcat(a, b + ['/'] + ([] + ['/'] + file), '/');
    SplitNoSep(a, '/');
    SplitNoSep(b, '/');
  }

  /** `filepath.Join(BASE_DIR, file)` is the downloader's string for `webroot` followed by
      the parts of `file`, when no component of `file` is `..`. */
  lemma GoJoinBase(file: string)
    requires NoDotDot(file)
    ensures GoJoin(Serve.BASE_DIR, file) == PyStr(Downloader.BASE_PARTS + PyParts(file))
  {
    var s := Serve.BASE_DIR + "/" + file;
    var xs := Split(s, '/');
    BaseDirSplit(file);
    assert forall k :: 0 <= k < |xs| ==> xs[k] != ".." by {
      forall k | 0 <= k < |xs| ensures xs[k] != ".." {
        if k >= 3 {
          assert xs[k] == Split(file, '/')[k - 3];
        }
      }
    }
    CleanWithoutDotDot([], xs, false);
    KeepConcat([".", "webroot", ""], Split(file, '/'));
    assert Keep([".", "webroot", ""]) == ["webroot"];
    var parts := Downloader.BASE_PARTS + PyParts(file);
    assert CleanParts([], xs, false) == parts;
    JoinFirst(parts);
    assert s[0] == '.';
    assert Clean(s) == Join(parts, '/');
    assert GoJoin(Serve.BASE_DIR, file) == Clean(s);
  }

  /** The downloader's parts for `https://D/P?Q`: `webroot`, then the parts of `D/P__Q'`
      where `Q'` is the sanitised query. */
  lemma DownloadParts(d: string, p: string, q: string)
    requires '/' !in d && '?' !in d && '#' !in d
    requires '?' !in p && '#' !in p && ';' !in p && '%' !in p && '#' !in q
    requires forall c :: c in d + ("/" + p) + q ==> !PyUrl.IsUnsafe(c)
    ensures Downloader.NormalizePath(PyUrl.UrlParse("https://" + d + "/" + p + "?" + q))
         == Downloader.BASE_PARTS + PyParts(d + "/" + (p + QuerySuffix(q)))
  {
    Capture.ParseSlashPath(d, p, q);
    NormalizeSlashPath(PyUrl.ParsedUrl("https", d, "/" + p, "", q, ""), p);
  }

  /** The downloader's parts for a parsed URL whose path is `/` and `p`, without escapes. */
  lemma NormalizeSlashPath(u: PyUrl.ParsedUrl, p: string)
    requires u.path == "/" + p && '%' !in p
    ensures Downloader.NormalizePath(u) == Downloader.BASE_PARTS + PyParts(u.netloc + "/" + (p + QuerySuffix(u.query)))
  {
    Downloader.NormalizeShape(u);
    var sfx := QuerySuffix(u.query);
    SlashPathParts(p, sfx);
    PyPartsConcat(u.netloc, p + sfx);
  }

  /** The parts the downloader takes from an unescaped path `/` and `p`, then `sfx`. */
  lemma SlashPathParts(p: string, sfx: string)
    requires '%' !in p
    ensures PyParts(LStrip(PyUrl.Unquote("/" + p), '/') + sfx) == PyParts(p + sfx)
  {
    assert '%' !in "/" + p by {
      assert forall c :: c in "/" + p ==> c == '/' || c in p;
    }
    PyPartsLStrip("/" + p, sfx);
    assert "/" + p + sfx == "/" + (p + sfx);
    PyPartsSlash(p + sfx);
  }

  /** For a rewritten reference `/D/P?Q` to an eligible host, the server serves the very
      file the downloader stored for `https://D/P?Q'`, where `Q'` is `Q` with `%7C` read
      as `|`: the same `webroot/D/P__san(Q')`, or its `index.html` if that is a directory. */
  lemma ServedFileIsDownloadedFile(d: string, p: string, q: string, isDir: string -> bool)
    requires ShouldProcessDomain(d) && |d| > |KUJIALE_SUFFIX| && '/' !in d
    requires forall c :: c in d + "/" + p ==> !GoUrl.IsCtl(c) && c != '?' && c != '#' && c != '%' && c != ';'
    requires NoDotDot(p)
    requires q != [] && forall c :: c in q ==> !GoUrl.IsCtl(c) && c != '#' && c != '%'
    requires !Contains(Serve.Request(d + "/" + p, EncodePipes(q)), MAIN_DOMAIN)
    requires !Contains(Serve.Request(d + "/" + p, EncodePipes(q)), PANOJSON)
    ensures Serve.TranslatePath(Serve.Request(d + "/" + p, EncodePipes(q)), isDir)
         == Serve.AtDir(PyStr(Downloader.NormalizePath(PyUrl.UrlParse("https://" + d + "/" + p + "?" + q))), isDir)
  {
    SuffixHolds(d, p, q);
    ServedSide(d, p, q, isDir);
    var sfx := QuerySuffix(q);
    NoDotDotFile(d, p, sfx);
    GoJoinBase(d + "/" + (p + sfx));
    PathChars(d, p, q);
    DownloadParts(d, p, q);
  }

  /** A rewritten reference with no query, `/D/P`: the server serves the file the
      downloader stored for `https://D/P`, which is `webroot/D/P` with no suffix, or its
      `index.html` if that is a directory. */
  lemma BareReferenceAgreement(d: string, p: string, isDir: string -> bool)
    requires ShouldProcessDomain(d) && |d| > |KUJIALE_SUFFIX| && '/' !in d
    requires forall c :: c in d + "/" + p ==> !GoUrl.IsCtl(c) && c != '?' && c != '#' && c != '%' && c != ';'
    requires NoDotDot(p)
    ensures Serve.TranslatePath("/" + d + "/" + p, isDir)
         == Serve.AtDir(PyStr(Downloader.NormalizePath(PyUrl.UrlParse("https://" + d + "/" + p))), isDir)
  {
    SlashAssoc(d, p);
    ServedBare(d, p, isDir);
    NoDotDotPath(d, p);
    GoJoinBase(d + "/" + p);
    PathChars(d, p, []);
    DownloadedBare(d, p);
  }

  /** The same with an empty query after `?`: `/D/P?` is served from the file the
      downloader stored for `https://D/P?`, again with no suffix. */
  lemma EmptyQueryAgreement(d: string, p: string, isDir: string -> bool)
    requires ShouldProcessDomain(d) && |d| > |KUJIALE_SUFFIX| && '/' !in d
    requires forall c :: c in d + "/" + p ==> !GoUrl.IsCtl(c) && c != '?' && c != '#' && c != '%' && c != ';'
    requires NoDotDot(p)
    ensures Serve.TranslatePath(Serve.Request(d + "/" + p, []), isDir)
         == Serve.AtDir(PyStr(Downloader.NormalizePath(PyUrl.UrlParse("https://" + d + "/" + p + "?"))), isDir)
  {
    ServedEmptyQuery(d, p, isDir);
    NoDotDotPath(d, p);
    GoJoinBase(d + "/" + p);
    PathChars(d, p, []);
    DownloadedEmptyQuery(d, p);
  }

  /** The server's side of `/D/P?`: the file `D/P`, with no suffix. */
  lemma ServedEmptyQuery(d: string, p: string, isDir: string -> bool)
    requires EndsWith(d, KUJIALE_SUFFIX) && d != MAIN_DOMAIN && |d| > |KUJIALE_SUFFIX| && '/' !in d
    requires forall c :: c in d + "/" + p ==> !GoUrl.IsCtl(c) && c != '?' && c != '#' && c != '%'
    ensures Serve.TranslatePath(Serve.Request(d + "/" + p, []), isDir) == Serve.AtDir(GoJoin(Serve.BASE_DIR, d + "/" + p), isDir)
  {
    Serve.ServeSubdomain(d, p, [], isDir);
    assert !Serve.SuffixApplies(Serve.Request(d + "/" + p, []), []);
    assert d + "/" + p + [] == d + "/" + p;
  }

  /** The downloader's parts for `https://D/P?`: `webroot`, then those of `D/P`. */
  lemma DownloadedEmptyQuery(d: string, p: string)
    requires '/' !in d && '?' !in d && '#' !in d
    requires '?' !in p && '#' !in p && ';' !in p && '%' !in p
    requires forall c :: c in d + ("/" + p) ==> !PyUrl.IsUnsafe(c)
    ensures Downloader.NormalizePath(PyUrl.UrlParse("https://" + d + "/" + p + "?"))
         == Downloader.BASE_PARTS + PyParts(d + "/" + p)
  {
    assert d + ("/" + p) + [] == d + ("/" + p);
    DownloadParts(d, p, []);
    assert "https://" + d + "/" + p + "?" + [] == "https://" + d + "/" + p + "?";
    assert p + QuerySuffix([]) == p;
  }

  lemma SlashAssoc(d: string, p: string)
    ensures "/" + d + "/" + p == "/" + (d + "/" + p)
  {
  }

  /** The server's side of a reference with no `?`: the file `D/P`, with no suffix. */
  lemma ServedBare(d: string, p: string, isDir: string -> bool)
    requires EndsWith(d, KUJIALE_SUFFIX) && d != MAIN_DOMAIN && |d| > |KUJIALE_SUFFIX| && '/' !in d
    requires forall c :: c in d + "/" + p ==> !GoUrl.IsCtl(c) && c != '?' && c != '#' && c != '%'
    ensures Serve.TranslatePath("/" + (d + "/" + p), isDir) == Serve.AtDir(GoJoin(Serve.BASE_DIR, d + "/" + p), isDir)
  {
    var tail := d + "/" + p;
    var _ := Serve.SegmentRequest(d, p, []);
    assert tail[0] == d[0] && d[0] in d;
    GoUrl.ParsePlainPath(tail);
    var u := GoUrl.Url("", "", "", "/" + tail, "", "");
    Serve.TranslateParsed("/" + tail, u, isDir);
    Serve.SubdomainFile("/" + tail, u, d, p);
    assert tail + [] == tail;
  }

  /** The downloader's parts for `https://D/P` with no `?`: `webroot`, then those of `D/P`. */
  /** `https://D/A/../F` and `https://D/F` name one file once the operating system resolves
      `..`, but get two part lists: `pathlib` keeps the `..`. */
  lemma DotDotKeptInParts(d: string, a: string, f: string)
    requires d != [] && d != "." && '/' !in d && '?' !in d && '#' !in d
    requires a != [] && a != "." && '/' !in a
    requires f != [] && f != "." && '/' !in f
    requires forall c :: c in a + f ==> c != '?' && c != '#' && c != ';' && c != '%'
    requires forall c :: c in d + a + f ==> !PyUrl.IsUnsafe(c)
    ensures Downloader.NormalizePath(PyUrl.UrlParse("https://" + d + "/" + (a + "/" + (".." + "/" + f))))
         == Downloader.BASE_PARTS + [d, a, "..", f]
    ensures Downloader.NormalizePath(PyUrl.UrlParse("https://" + d + "/" + f))
         == Downloader.BASE_PARTS + [d, f]
  {
    DotDotChars(d, a, f);
    DownloadedBare(d, a + "/" + (".." + "/" + f));
    DownloadedBare(d, f);
    DotDotParts(d, a, f);
  }

  /** The character conditions of the downloader's parse for both URLs. */
  lemma DotDotChars(d: string, a: string, f: string)
    requires '/' !in a && '/' !in f
    requires forall c :: c in a + f ==> c != '?' && c != '#' && c != ';' && c != '%'
    requires forall c :: c in d + a + f ==> !PyUrl.IsUnsafe(c)
    ensures var p := a + "/" + (".." + "/" + f);
      '?' !in p && '#' !in p && ';' !in p && '%' !in p
      && (forall c :: c in d + ("/" + p) ==> !PyUrl.IsUnsafe(c))
    ensures '?' !in f && '#' !in f && ';' !in f && '%' !in f
    ensures forall c :: c in d + ("/" + f) ==> !PyUrl.IsUnsafe(c)
  {
    var p := a + "/" + (".." + "/" + f);
    assert forall c :: c in p ==> c == '/' || c == '.' || c in a + f;
    assert forall c :: c in d + ("/" + p) ==> c == '/' || c == '.' || c in d + a + f;
    assert forall c :: c in d + ("/" + f) ==> c == '/' || c in d + a + f;
  }

  /** The parts of `D/A/../F` and of `D/F`. */
  lemma DotDotParts(d: string, a: string, f: string)
    requires d != [] && d != "." && '/' !in d
    requires a != [] && a != "." && '/' !in a
    requires f != [] && f != "." && '/' !in f
    ensures PyParts(d + "/" + (a + "/" + (".." + "/" + f))) == [d, a, "..", f]
    ensures PyParts(d + "/" + f) == [d, f]
  {
    PartsOfName(f);
    PartsCons("..", f);
    PartsCons(a, ".." + "/" + f);
    PartsCons(d, a + "/" + (".." + "/" + f));
    PartsCons(d, f);
    ConsFour(d, a, "..", f);
  }

  /** A leading name without `/` that is neither empty nor `.` is the first part. */
  lemma PartsCons(x: string, rest: string)
    requires x != [] && x != "." && '/' !in x
    ensures PyParts(x + "/" + rest) == [x] + PyParts(rest)
  {
    PartsOfName(x);
    PyPartsConcat(x, rest);
  }

  lemma ConsFour(d: string, a: string, u: string, f: string)
    ensures [d] + ([a] + ([u] + [f])) == [d, a, u, f]
  {
  }

  /** A name without `/` that is neither empty nor `.` is its own one part. */
  lemma PartsOfName(x: string)
    requires x != [] && x != "." && '/' !in x
    ensures PyParts(x) == [x]
  {
    SplitNoSep(x, '/');
  }

  lemma DownloadedBare(d: string, p: string)
    requires '/' !in d && '?' !in d && '#' !in d
    requires '?' !in p && '#' !in p && ';' !in p && '%' !in p
    requires forall c :: c in d + ("/" + p) ==> !PyUrl.IsUnsafe(c)
    ensures Downloader.NormalizePath(PyUrl.UrlParse("https://" + d + "/" + p))
         == Downloader.BASE_PARTS + PyParts(d + "/" + p)
  {
    assert "https://" + d + "/" + p == "https://" + d + ("/" + p);
    PyUrl.ParseHttpsPlain(d, "/" + p);
    NormalizeSlashPath(PyUrl.ParsedUrl("https", d, "/" + p, "", "", ""), p);
    assert p + QuerySuffix("") == p;
  }

  /** The components of `d/p` are no `..` when `d` is a name longer than two characters. */
  lemma NoDotDotPath(d: string, p: string)
    requires '/' !in d && |d| > 2 && NoDotDot(p)
    ensures NoDotDot(d + "/" + p)
  {
    SplitConcat(d, p, '/');
    assert d + "/" + p == d + ['/'] + p;
    SplitNoSep(d, '/');
    var xs := Split(d + "/" + p, '/');
    assert xs == [d] + Split(p, '/');
    forall k | 0 <= k < |xs| ensures xs[k] != ".." {
      if k == 0 {
        assert |xs[k]| > 2;
      } else {
        assert xs[k] == Split(p, '/')[k - 1];
      }
    }
  }

  /** A request that sends `|` as it is, unencoded: for a query without `%`, the server's
      decoding of `%7C` changes nothing, and its suffix is again the downloader's. */
  lemma RawPipeRoundTrip(q: string)
    requires q != [] && '%' !in q
    ensures Serve.ServeSuffix(q) == QuerySuffix(q)
  {
    var s := SanitizeQuery(q);
    assert '%' !in s by {
      assert forall i :: 0 <= i < |q| ==> s[i] != '%' by {
        assert forall i :: 0 <= i < |q| ==> q[i] in q;
      }
    }
    NoPercentNoEscape(s);
    ReplaceAbsent(s, Serve.PIPE_ESCAPE, "|");
  }

  /** Text without `%` does not contain `%7C`. */
  lemma {:induction false} NoPercentNoEscape(s: string)
    requires '%' !in s
    ensures !Contains(s, Serve.PIPE_ESCAPE)
    decreases |s|
  {
    if s != [] {
      assert s[0] != '%' && s[0] in s;
      assert !StartsWith(s, Serve.PIPE_ESCAPE);
      assert '%' !in s[1..] by {
        assert forall c :: c in s[1..] ==> c in s;
      }
      NoPercentNoEscape(s[1..]);
    }
  }

  /** A literal `%7C` in a reference's query: the downloader keeps it in the file name,
      while the server reads it as `|`, so the two names differ. */
  lemma LiteralEscapeServedElsewhere()
    ensures QuerySuffix(Serve.PIPE_ESCAPE) == "__%7C"
    ensures Serve.ServeSuffix(Serve.PIPE_ESCAPE) == "__|"
  {
    assert SanitizeQuery(Serve.PIPE_ESCAPE) == Serve.PIPE_ESCAPE;
    var t := Serve.PIPE_ESCAPE + [];
    assert t == Serve.PIPE_ESCAPE;
    ReplaceAllAt(Serve.PIPE_ESCAPE, [], "|");
  }

  /** Where the last segment of the path carries `;X`, the two programs part ways:
      `urlparse` moves `X` out of the path, so the downloader stores the file for `D/P` and
      the query, while the server keeps `;X` in the request path and serves the file for
      `D/P;X` and the query. */
  lemma ParamsServedElsewhere(d: string, p: string, x: string, q: string, isDir: string -> bool)
    requires ShouldProcessDomain(d) && |d| > |KUJIALE_SUFFIX| && '/' !in d
    requires forall c :: c in d + "/" + p ==> !GoUrl.IsCtl(c) && c != '?' && c != '#' && c != '%' && c != ';'
    requires forall c :: c in x ==> !GoUrl.IsCtl(c) && c != '?' && c != '#' && c != '%' && c != '/'
    requires NoDotDot(p + ";" + x)
    requires q != [] && forall c :: c in q ==> !GoUrl.IsCtl(c) && c != '#' && c != '%'
    requires !Contains(Serve.Request(d + "/" + (p + ";" + x), EncodePipes(q)), MAIN_DOMAIN)
    requires !Contains(Serve.Request(d + "/" + (p + ";" + x), EncodePipes(q)), PANOJSON)
    ensures Serve.TranslatePath(Serve.Request(d + "/" + (p + ";" + x), EncodePipes(q)), isDir)
         == Serve.AtDir(PyStr(Downloader.BASE_PARTS + PyParts(d + "/" + (p + ";" + x + QuerySuffix(q)))), isDir)
    ensures Downloader.NormalizePath(PyUrl.UrlParse("https://" + d + "/" + p + ";" + x + "?" + q))
         == Downloader.BASE_PARTS + PyParts(d + "/" + (p + QuerySuffix(q)))
  {
    var px := p + ";" + x;
    ParamsChars(d, p, x);
    SuffixHolds(d, px, q);
    ServedSide(d, px, q, isDir);
    var sfx := QuerySuffix(q);
    NoDotDotFile(d, px, sfx);
    GoJoinBase(d + "/" + (px + sfx));
    PathChars(d, p, q);
    DownloadPartsParams(d, p, x, q);
  }

  lemma ParamsChars(d: string, p: string, x: string)
    requires forall c :: c in d + "/" + p ==> !GoUrl.IsCtl(c) && c != '?' && c != '#' && c != '%'
    requires forall c :: c in x ==> !GoUrl.IsCtl(c) && c != '?' && c != '#' && c != '%'
    ensures forall c :: c in d + "/" + (p + ";" + x) ==> !GoUrl.IsCtl(c) && c != '?' && c != '#' && c != '%'
  {
    assert d + "/" + (p + ";" + x) == (d + "/" + p) + ";" + x;
  }

  lemma UnsafeFreeParams(h: string, path: string, x: string, q: string)
    requires forall c :: c in h + path + q ==> !PyUrl.IsUnsafe(c)
    requires forall c :: c in x ==> !GoUrl.IsCtl(c)
    ensures forall c :: c in h + (path + ";" + x) + q ==> !PyUrl.IsUnsafe(c)
  {
    forall c | c in h + (path + ";" + x) + q ensures !PyUrl.IsUnsafe(c) {
      assert c in h || c in path || c == ';' || c in x || c in q;
      if c in h || c in path || c in q {
        assert c in h + path + q;
      }
    }
  }

  /** The downloader's parts for `https://D/P;X?Q`: those for `D/P`, the parameters left out. */
  lemma DownloadPartsParams(d: string, p: string, x: string, q: string)
    requires '/' !in d && '?' !in d && '#' !in d
    requires '?' !in p && '#' !in p && ';' !in p && '%' !in p && '#' !in q
    requires forall c :: c in d + ("/" + p) + q ==> !PyUrl.IsUnsafe(c)
    requires forall c :: c in x ==> !GoUrl.IsCtl(c) && c != '?' && c != '#' && c != '/'
    ensures Downloader.NormalizePath(PyUrl.UrlParse("https://" + d + "/" + p + ";" + x + "?" + q))
         == Downloader.BASE_PARTS + PyParts(d + "/" + (p + QuerySuffix(q)))
  {
    assert "https://" + d + "/" + p + ";" + x + "?" + q == "https://" + d + ("/" + p) + ";" + x + "?" + q;
    assert forall c :: c in "/" + p ==> c == '/' || c in p;
    UnsafeFreeParams(d, "/" + p, x, q);
    PyUrl.ParseHttpsParams(d, "/" + p, x, q);
    NormalizeSlashPath(PyUrl.ParsedUrl("https", d, "/" + p, x, q, ""), p);
  }

  /** The server's side: the encoded request is served from `D/P__san(Q)`. */
  lemma ServedSide(d: string, p: string, q: string, isDir: string -> bool)
    requires EndsWith(d, KUJIALE_SUFFIX) && d != MAIN_DOMAIN && |d| > |KUJIALE_SUFFIX| && '/' !in d
    requires forall c :: c in d + "/" + p ==> !GoUrl.IsCtl(c) && c != '?' && c != '#' && c != '%'
    requires q != [] && forall c :: c in q ==> !GoUrl.IsCtl(c) && c != '#' && c != '%'
    requires Serve.SuffixApplies(Serve.Request(d + "/" + p, EncodePipes(q)), EncodePipes(q))
    ensures Serve.TranslatePath(Serve.Request(d + "/" + p, EncodePipes(q)), isDir)
         == Serve.AtDir(GoJoin(Serve.BASE_DIR, d + "/" + (p + QuerySuffix(q))), isDir)
  {
    EncodedQueryChars(q);
    Serve.ServeSubdomain(d, p, EncodePipes(q), isDir);
    PipeRoundTrip(q);
    SameFile(d, p, Serve.ServeSuffix(EncodePipes(q)), QuerySuffix(q), isDir);
  }

  lemma SameFile(d: string, p: string, a: string, b: string, isDir: string -> bool)
    requires a == b
    ensures Serve.AtDir(GoJoin(Serve.BASE_DIR, d + "/" + p + a), isDir)
         == Serve.AtDir(GoJoin(Serve.BASE_DIR, d + "/" + (p + b)), isDir)
  {
    assert d + "/" + p + a == d + "/" + (p + b);
  }

  /** The encoded query keeps the query's freedom from control characters and `#`. */
  lemma EncodedQueryChars(q: string)
    requires forall c :: c in q ==> !GoUrl.IsCtl(c) && c != '#'
    ensures forall c :: c in EncodePipes(q) ==> !GoUrl.IsCtl(c) && c != '#'
  {
    assert forall c :: c in Serve.PIPE_ESCAPE ==> c == '%' || c == '7' || c == 'C';
  }

  /** The encoded reference qualifies for the server's query suffix. */
  lemma SuffixHolds(d: string, p: string, q: string)
    requires EndsWith(d, KUJIALE_SUFFIX) && q != []
    requires !Contains(Serve.Request(d + "/" + p, EncodePipes(q)), MAIN_DOMAIN)
    requires !Contains(Serve.Request(d + "/" + p, EncodePipes(q)), PANOJSON)
    ensures Serve.SuffixApplies(Serve.Request(d + "/" + p, EncodePipes(q)), EncodePipes(q))
  {
    CdnRequest(d, p, EncodePipes(q));
  }

  /** A request under a kujiale.com host carries `.kujiale.com/`. */
  lemma CdnRequest(d: string, p: string, e: string)
    requires EndsWith(d, KUJIALE_SUFFIX)
    ensures Contains(Serve.Request(d + "/" + p, e), Serve.CDN_MARK)
  {
    var n := |d| - |KUJIALE_SUFFIX|;
    assert d == d[..n] + KUJIALE_SUFFIX;
    assert Serve.Request(d + "/" + p, e) == ("/" + d[..n]) + Serve.CDN_MARK + (p + "?" + e);
    ContainsInfix("/" + d[..n], Serve.CDN_MARK, p + "?" + e);
  }

  /** The character conditions of the server lemma give those `urlparse` needs. */
  lemma PathChars(d: string, p: string, q: string)
    requires forall c :: c in d + "/" + p ==> !GoUrl.IsCtl(c) && c != '?' && c != '#' && c != '%' && c != ';'
    requires forall c :: c in q ==> !GoUrl.IsCtl(c) && c != '#'
    ensures '?' !in d && '#' !in d
    ensures '?' !in p && '#' !in p && ';' !in p && '%' !in p
    ensures forall c :: c in d + ("/" + p) + q ==> !PyUrl.IsUnsafe(c)
  {
    assert forall c :: c in d ==> c in d + "/" + p;
    assert forall c :: c in p ==> c in d + "/" + p;
    assert forall c :: c in d + ("/" + p) + q ==> c in d + "/" + p || c in q;
  }

  /** For an eligible host and a path whose components are non-empty and neither `.` nor
      `..`, the capture hook writes `./webroot/D/P__san(Q)`, which is `./` followed by the
      downloader's path for the same URL; so a captured file stops its later download. */
  lemma CaptureWhereDownloadLooks(d: string, p: string, q: string)
    requires ShouldProcessDomain(d) && '/' !in d && '?' !in d && '#' !in d && ';' !in d
    requires '?' !in p && '#' !in p && ';' !in p && '%' !in p && '#' !in q
    requires forall c :: c in d + ("/" + p) + q ==> !PyUrl.IsUnsafe(c)
    requires p != [] && NoEmptyPart(p)
    requires forall k :: 0 <= k < |Split(p, '/')| ==> Split(p, '/')[k] != "." && Split(p, '/')[k] != ".."
    ensures Capture.SanitizePath("https://" + d + "/" + p + "?" + q)
         == "./" + PyStr(Downloader.NormalizePath(PyUrl.UrlParse("https://" + d + "/" + p + "?" + q)))
  {
    EligibleHasQueryName(d);
    assert d != [] by {
      assert |d| >= |KUJIALE_SUFFIX|;
    }
    Capture.CaptureSubdomain(d, p, q);
    var sfx := QuerySuffix(q);
    DownloadParts(d, p, q);
    var file := d + "/" + (p + sfx);
    PlainParts(d, p, sfx);
    JoinSplit(file, '/');
    JoinFirstPart(Split(file, '/'));
    DumpDirRegroup(d, p, sfx);
  }

  lemma DumpDirRegroup(d: string, p: string, sfx: string)
    ensures Capture.DUMP_DIR + "/" + d + "/" + p + sfx == "./" + ("webroot" + "/" + (d + "/" + (p + sfx)))
  {
    assert Capture.DUMP_DIR == "./" + "webroot";
    Regroup("./", "webroot", d, p, sfx);
  }

  lemma Regroup(x: string, y: string, d: string, p: string, sfx: string)
    ensures (x + y) + "/" + d + "/" + p + sfx == x + (y + "/" + (d + "/" + (p + sfx)))
  {
  }

  /** Joining `webroot` in front of parts gives `webroot/` and their join. */
  lemma JoinFirstPart(parts: seq<string>)
    requires parts != []
    ensures Join(["webroot"] + parts, '/') == "webroot" + "/" + Join(parts, '/')
  {
    assert (["webroot"] + parts)[1..] == parts;
  }

  /** The parts of `D/P` plus a suffix are its plain components when none is empty or `.`. */
  lemma PlainParts(d: string, p: string, sfx: string)
    requires d != [] && '/' !in d && d != "." && '/' !in sfx
    requires p != [] && NoEmptyPart(p)
    requires forall k :: 0 <= k < |Split(p, '/')| ==> Split(p, '/')[k] != "."
    requires sfx == [] || |sfx| > 1
    ensures PyParts(d + "/" + (p + sfx)) == Split(d + "/" + (p + sfx), '/')
    ensures Split(d + "/" + (p + sfx), '/') != []
  {
    var file := d + "/" + (p + sfx);
    SplitConcat(d, p + sfx, '/');
    assert file == d + ['/'] + (p + sfx);
    SplitNoSep(d, '/');
    SplitAppend(p, sfx, '/');
    var ps := Split(p, '/');
    assert forall k :: 0 <= k < |ps| ==> ps[k] != "" && ps[k] != ".";
    PlainList(d, ps, sfx);
    assert Split(file, '/') == [d] + (ps[..|ps| - 1] + [ps[|ps| - 1] + sfx]);
  }

  lemma PlainList(d: string, ps: seq<string>, sfx: string)
    requires d != [] && d != "." && ps != []
    requires forall k :: 0 <= k < |ps| ==> ps[k] != "" && ps[k] != "."
    requires sfx == [] || |sfx| > 1
    ensures var xs := [d] + (ps[..|ps| - 1] + [ps[|ps| - 1] + sfx]);
            Keep(xs) == xs
  {
    var xs := [d] + (ps[..|ps| - 1] + [ps[|ps| - 1] + sfx]);
    forall k | 0 <= k < |xs| ensures xs[k] != "" && xs[k] != "." {
      if 0 < k < |ps| {
        assert xs[k] == ps[k - 1];
      } else if k == |ps| {
        assert xs[k] == ps[|ps| - 1] + sfx;
        if sfx != [] {
          assert |xs[k]| > 1;
        }
      }
    }
    KeepClean(xs);
  }

  /** The extensions whose fallback type the capture hook would store in text mode: the
      server's text types among its fallbacks are exactly HTML, script, style sheet, JSON
      and plain text. */
  lemma FallbackTextTypes(ext: string)
    ensures Capture.IsTextType(Serve.FallbackType(ext)) <==>
              ext in {".html", ".htm", ".js", ".css", ".json", ".txt"}
  {
    var t := Serve.FallbackType(ext);
    if Capture.IsTextType(t) {
      Capture.TextTypeHead(t);
    }
  }
}
