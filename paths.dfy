/** File paths as the three programs build them: Python's `pathlib` (post_process.py),
    `os.path.join` (save_responses.py) and Go's `path/filepath` (serve.go), all on POSIX. */
module Paths {
  import opened Text

  /** The components `pathlib` keeps: empty components and `.` are dropped, `..` is kept. */
  function Keep(parts: seq<string>): (r: seq<string>)
    ensures forall k :: 0 <= k < |r| ==> r[k] != "" && r[k] != "."
    ensures |r| <= |parts|
  {
    if parts == [] then []
    else
      var rest := Keep(parts[1..]);
      if parts[0] == "" || parts[0] == "." then rest else [parts[0]] + rest
  }

  /** The parts of a relative `pathlib.PurePosixPath`. Every path this model builds is
      relative: `normalize_path` strips the leading `/` and a network location never
      contains one. */
  function PyParts(s: string): seq<string>
  {
    Keep(Split(s, '/'))
  }

  /** `str()` of a relative `PurePosixPath`. */
  function PyStr(parts: seq<string>): string
  {
    if parts == [] then "." else Join(parts, '/')
  }

  /** The lexical rules of Go's `filepath.Clean`, applied to the components after those
      already in `out`: empty and `.` components vanish, `..` removes the previous
      component, is dropped at the root of a rooted path and is kept at the start of a
      relative one. */
  function CleanParts(out: seq<string>, xs: seq<string>, rooted: bool): seq<string>
    decreases |xs|
  {
    if xs == [] then out
    else
      var x := xs[0];
      var out' :=
        if x == "" || x == "." then out
        else if x == ".." then
          (if |out| > 0 && out[|out| - 1] != ".." then out[..|out| - 1]
           else if rooted then out
           else out + [".."])
        else out + [x];
      CleanParts(out', xs[1..], rooted)
  }

  /** `filepath.Clean`. */
  function Clean(s: string): string
  {
    if s == [] then "."
    else
      var rooted := s[0] == '/';
      var body := Join(CleanParts([], Split(s, '/'), rooted), '/');
      if rooted then "/" + body else if body == [] then "." else body
  }

  /** `filepath.Join(a, b)`: the non-empty elements joined by `/` and cleaned. */
  function GoJoin(a: string, b: string): string
  {
    if a != [] then Clean(a + "/" + b) else if b != [] then Clean(b) else ""
  }

  /** `filepath.Ext`: the suffix from the last `.` of the final element, or empty. */
  function Ext(path: string): (r: string)
    ensures EndsWith(path, r)
    ensures r != [] ==> r[0] == '.' && '.' !in r[1..] && '/' !in r
    ensures r == [] ==> forall i :: 0 <= i < |path| && '/' !in path[i..] ==> path[i] != '.'
    decreases |path|
  {
    if path == [] || path[|path| - 1] == '/' then []
    else if path[|path| - 1] == '.' then path[|path| - 1..]
    else
      var e := Ext(path[..|path| - 1]);
      assert forall i :: 0 <= i < |path| - 1 ==> path[..|path| - 1][i..] + [path[|path| - 1]] == path[i..];
      if e == [] then [] else e + [path[|path| - 1]]
  }

  /** `os.path.join(a, *parts)` (posixpath): a part starting with `/` restarts the path;
      otherwise a `/` is inserted unless the path so far is empty or already ends in `/`. */
  function OsJoin(a: string, parts: seq<string>): string
    decreases |parts|
  {
    if parts == [] then a
    else
      var b := parts[0];
      var a' := if StartsWith(b, "/") then b
                else if a == [] || EndsWith(a, "/") then a + b
                else a + "/" + b;
      OsJoin(a', parts[1..])
  }

  // ---------------------------------------------------------------------------------
  // Lemmas

  lemma KeepConcat(a: seq<string>, b: seq<string>)
    ensures Keep(a + b) == Keep(a) + Keep(b)
    decreases |a|
  {
    if a == [] {
      assert a + b == b;
    } else {
      assert (a + b)[0] == a[0] && (a + b)[1..] == a[1..] + b;
      KeepConcat(a[1..], b);
      if a[0] != "" && a[0] != "." {
        assert Keep(a + b) == [a[0]] + Keep(a[1..] + b);
        assert [a[0]] + (Keep(a[1..]) + Keep(b)) == ([a[0]] + Keep(a[1..])) + Keep(b);
      }
    }
  }

  /** Without `..`, cleaning is the same filter as `pathlib`'s. */
  lemma {:induction false} CleanWithoutDotDot(out: seq<string>, xs: seq<string>, rooted: bool)
    requires forall k :: 0 <= k < |xs| ==> xs[k] != ".."
    ensures CleanParts(out, xs, rooted) == out + Keep(xs)
    decreases |xs|
  {
    if xs != [] {
      var x := xs[0];
      var out' := if x == "" || x == "." then out else out + [x];
      CleanWithoutDotDot(out', xs[1..], rooted);
      if x != "" && x != "." {
        assert out + [x] + Keep(xs[1..]) == out + ([x] + Keep(xs[1..]));
      }
    }
  }

  /** A leading `/` contributes only an empty component, so `pathlib` ignores it. */
  lemma PyPartsSlash(s: string)
    ensures PyParts("/" + s) == PyParts(s)
  {
    SplitConcat([], s, '/');
    assert [] + ['/'] + s == "/" + s;
    KeepConcat([[]], Split(s, '/'));
  }

  /** ... and so do all leading slashes, even with text appended. */
  lemma {:induction false} PyPartsLStrip(s: string, t: string)
    ensures PyParts(LStrip(s, '/') + t) == PyParts(s + t)
    decreases |s|
  {
    if s != [] && s[0] == '/' {
      PyPartsLStrip(s[1..], t);
      assert s + t == "/" + (s[1..] + t);
      PyPartsSlash(s[1..] + t);
    }
  }

  /** The parts of `a/b` are those of `a` followed by those of `b`. */
  lemma PyPartsConcat(a: string, b: string)
    ensures PyParts(a + "/" + b) == PyParts(a) + PyParts(b)
  {
    SplitConcat(a, b, '/');
    assert a + "/" + b == a + ['/'] + b;
    KeepConcat(Split(a, '/'), Split(b, '/'));
  }

  /** Text with no empty, `.` or `..` component is its own list of parts. */
  lemma KeepClean(parts: seq<string>)
    requires forall k :: 0 <= k < |parts| ==> parts[k] != "" && parts[k] != "."
    ensures Keep(parts) == parts
    decreases |parts|
  {
    if parts != [] {
      KeepClean(parts[1..]);
    }
  }

  /** `os.path.join(a, *s.split('/'))` for an `a` not ending in `/` and an `s` with no empty
      component (no leading, trailing or doubled `/`) is `a + "/" + s`. */
  lemma {:induction false} OsJoinSplit(a: string, parts: seq<string>)
    requires a != [] && a[|a| - 1] != '/'
    requires forall k :: 0 <= k < |parts| ==> parts[k] != [] && '/' !in parts[k]
    ensures parts != [] ==> OsJoin(a, parts) == a + "/" + Join(parts, '/')
    decreases |parts|
  {
    if parts != [] {
      var a' := a + "/" + parts[0];
      assert !StartsWith(parts[0], "/") by {
        assert parts[0][0] in parts[0];
      }
      assert !EndsWith(a, "/") by {
        assert a[|a| - 1..] == [a[|a| - 1]];
      }
      if |parts| > 1 {
        assert a'[|a'| - 1] == parts[0][|parts[0]| - 1];
        assert parts[0][|parts[0]| - 1] in parts[0];
        OsJoinSplit(a', parts[1..]);
        assert a' + "/" + Join(parts[1..], '/') == a + "/" + (parts[0] + ['/'] + Join(parts[1..], '/'));
      }
    }
  }

  /** Cleaning text that is already clean (a join of non-empty, non-dot components, none
      containing `/`, not starting with `..`) changes nothing. */
  lemma CleanJoined(parts: seq<string>)
    requires parts != [] && parts[0] != ".."
    requires forall k :: 0 <= k < |parts| ==> parts[k] != "" && parts[k] != "." && parts[k] != ".." && '/' !in parts[k]
    ensures Clean(Join(parts, '/')) == Join(parts, '/')
  {
    var s := Join(parts, '/');
    JoinFirst(parts);
    assert parts[0][0] in parts[0];
    assert s != [] && s[0] != '/';
    assert Split(s, '/') == parts by {
      SplitJoin(parts, '/');
    }
    assert CleanParts([], parts, false) == parts by {
      CleanWithoutDotDot([], parts, false);
      KeepClean(parts);
    }
  }

  lemma JoinFirst(parts: seq<string>)
    requires parts != [] && parts[0] != []
    ensures Join(parts, '/') != [] && Join(parts, '/')[0] == parts[0][0]
  {
  }

  /** `/`-separated text none of whose components is empty: no leading, trailing or
      doubled `/`. */
  predicate NoEmptyPart(s: string)
  {
    forall k :: 0 <= k < |Split(s, '/')| ==> Split(s, '/')[k] != []
  }

  /** `os.path.join(a, *s.split('/'))` is `a/s` when `s` has no empty component. */
  lemma OsJoinText(a: string, s: string)
    requires a != [] && a[|a| - 1] != '/' && NoEmptyPart(s)
    ensures OsJoin(a, Split(s, '/')) == a + "/" + s
  {
    OsJoinSplit(a, Split(s, '/'));
    JoinSplit(s, '/');
  }

  lemma NoEmptyPartSingle(s: string)
    requires s != [] && '/' !in s
    ensures NoEmptyPart(s)
  {
    SplitNoSep(s, '/');
  }

  lemma NoEmptyPartConcat(a: string, b: string)
    requires NoEmptyPart(a) && NoEmptyPart(b)
    ensures NoEmptyPart(a + "/" + b)
  {
    SplitConcat(a, b, '/');
    assert a + "/" + b == a + ['/'] + b;
    var pa, pb := Split(a, '/'), Split(b, '/');
    forall k | 0 <= k < |pa + pb|
      ensures (pa + pb)[k] != []
    {
      if k >= |pa| {
        assert (pa + pb)[k] == pb[k - |pa|];
      }
    }
  }

  /** Text without `/` appended to a path only lengthens its last component. */
  lemma NoEmptyPartAppend(s: string, t: string)
    requires NoEmptyPart(s) && '/' !in t
    ensures NoEmptyPart(s + t)
  {
    SplitAppend(s, t, '/');
    var ps := Split(s, '/');
    var r := ps[..|ps| - 1] + [ps[|ps| - 1] + t];
    forall k | 0 <= k < |r|
      ensures r[k] != []
    {
      if k < |ps| - 1 {
        assert r[k] == ps[k];
      }
    }
  }
}
