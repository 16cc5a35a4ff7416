/** Character and string operations the three programs take from Python's `str` and
    `re` and from Go's `strings` package, written out so that the rest of the model can
    reason about them. */
module Text {

  datatype Option<T> = None | Some(value: T)

  predicate IsAsciiLetter(c: char) { 'a' <= c <= 'z' || 'A' <= c <= 'Z' }

  predicate IsDigit(c: char) { '0' <= c <= '9' }

  predicate IsHex(c: char) { IsDigit(c) || 'a' <= c <= 'f' || 'A' <= c <= 'F' }

  function HexValue(c: char): nat
    requires IsHex(c)
  {
    if IsDigit(c) then c as nat - '0' as nat
    else if 'a' <= c <= 'f' then c as nat - 'a' as nat + 10
    else c as nat - 'A' as nat + 10
  }

  /** The character of a `%XY` escape (the byte's Latin-1 character). */
  function EscapedChar(hi: char, lo: char): char
    requires IsHex(hi) && IsHex(lo)
  {
    (16 * HexValue(hi) + HexValue(lo)) as char
  }


  /** Python's `str.isspace`, which is also the set of characters `\s` matches in a `str`
      pattern of `re`: the ASCII whitespace, the four information separators, NEL, NBSP
      and the Unicode space separators and line/paragraph separators. */
  predicate IsSpace(c: char) {
    ('\t' <= c <= '\r') || ('\U{1C}' <= c <= '\U{1F}') || c == ' ' || c == '\U{85}' || c == '\U{A0}'
    || c == '\U{1680}' || ('\U{2000}' <= c <= '\U{200A}') || c == '\U{2028}' || c == '\U{2029}'
    || c == '\U{202F}' || c == '\U{205F}' || c == '\U{3000}'
  }

  predicate StartsWith(s: string, prefix: string) {
    |prefix| <= |s| && s[..|prefix|] == prefix
  }

  predicate EndsWith(s: string, suffix: string) {
    |suffix| <= |s| && s[|s| - |suffix|..] == suffix
  }

  /** `t in s` in Python, `strings.Contains(s, t)` in Go. */
  predicate Contains(s: string, t: string)
    decreases |s|
  {
    StartsWith(s, t) || (s != [] && Contains(s[1..], t))
  }

  /** Python's `str.replace(pat, rep)` and Go's `strings.ReplaceAll`: every occurrence of
      `pat`, scanning left to right and without overlap, is replaced by `rep`. */
  function ReplaceAll(s: string, pat: string, rep: string): string
    requires pat != []
    decreases |s|
  {
    if s == [] then []
    else if StartsWith(s, pat) then rep + ReplaceAll(s[|pat|..], pat, rep)
    else [s[0]] + ReplaceAll(s[1..], pat, rep)
  }

  /** `s.lstrip(c)` / Go's `strings.TrimLeft(s, c)` for one character. */
  function LStrip(s: string, c: char): (r: string)
    ensures |r| <= |s| && r == s[|s| - |r|..]
    ensures r == [] || r[0] != c
    ensures forall i :: 0 <= i < |s| - |r| ==> s[i] == c
    decreases |s|
  {
    if s != [] && s[0] == c then LStrip(s[1..], c) else s
  }

  /** `s.rstrip(c)` for one character. */
  function RStrip(s: string, c: char): (r: string)
    ensures |r| <= |s| && r == s[..|r|]
    ensures r == [] || r[|r| - 1] != c
    ensures forall i :: |r| <= i < |s| ==> s[i] == c
    decreases |s|
  {
    if s != [] && s[|s| - 1] == c then RStrip(s[..|s| - 1], c) else s
  }

  /** `s.strip(c)` for one character: a slice of `s` that neither begins nor ends with `c`,
      everything cut off on either side being `c`. */
  function Strip(s: string, c: char): (r: string)
    ensures r == [] || (r[0] != c && r[|r| - 1] != c)
    ensures exists i, j :: 0 <= i <= j <= |s| && r == s[i..j] && AllChar(s[..i], c) && AllChar(s[j..], c)
  {
    var l := LStrip(s, c);
    var r := RStrip(l, c);
    assert r != [] ==> r[0] == l[0];
    SliceOfSuffix(s, l, r);
    r
  }

  /** Every character is `c`. */
  predicate AllChar(t: string, c: char)
  {
    forall k :: 0 <= k < |t| ==> t[k] == c
  }

  /** Go's `strings.TrimPrefix`. */
  function TrimPrefix(s: string, prefix: string): (r: string)
    ensures StartsWith(s, prefix) ==> s == prefix + r
    ensures !StartsWith(s, prefix) ==> r == s
  {
    if StartsWith(s, prefix) then s[|prefix|..] else s
  }

  /** Python's `str.strip()` with no argument: a slice of `s` that neither begins nor ends
      with whitespace, everything cut off on either side being whitespace. */
  function StripSpace(s: string): (r: string)
    ensures r == [] || (!IsSpace(r[0]) && !IsSpace(r[|r| - 1]))
    ensures exists i, j :: 0 <= i <= j <= |s| && r == s[i..j] && AllSpace(s[..i]) && AllSpace(s[j..])
    ensures s != [] && !IsSpace(s[0]) && !IsSpace(s[|s| - 1]) ==> r == s
  {
    var l := LStripSpace(s);
    var r := RStripSpace(l);
    assert r != [] ==> r[0] == l[0];
    SliceOfSuffix(s, l, r);
    StripSpaceTrimmed(s);
    r
  }

  /** Every character is whitespace. */
  predicate AllSpace(t: string)
  {
    forall k :: 0 <= k < |t| ==> IsSpace(t[k])
  }

  /** `s.lstrip()`: leading whitespace removed. */
  function LStripSpace(s: string): (r: string)
    ensures |r| <= |s| && r == s[|s| - |r|..]
    ensures r == [] || !IsSpace(r[0])
    ensures AllSpace(s[..|s| - |r|])
    decreases |s|
  {
    if s != [] && IsSpace(s[0]) then
      var r := LStripSpace(s[1..]);
      assert s[..|s| - |r|] == [s[0]] + s[1..][..|s| - 1 - |r|];
      r
    else s
  }

  /** `s.rstrip()`: trailing whitespace removed. */
  function RStripSpace(s: string): (r: string)
    ensures |r| <= |s| && r == s[..|r|]
    ensures r == [] || !IsSpace(r[|r| - 1])
    ensures AllSpace(s[|r|..])
    decreases |s|
  {
    if s != [] && IsSpace(s[|s| - 1]) then
      var r := RStripSpace(s[..|s| - 1]);
      assert s[|r|..] == s[..|s| - 1][|r|..] + [s[|s| - 1]];
      r
    else s
  }

  /** Index of the first `c` in `s`, or `|s|` when there is none. */
  function IndexOf(s: string, c: char): (k: nat)
    ensures k <= |s|
    ensures c !in s[..k]
    ensures k < |s| ==> s[k] == c
    decreases |s|
  {
    if s == [] then 0 else if s[0] == c then 0 else 1 + IndexOf(s[1..], c)
  }

  /** The text before the first `c`: `s.split(c)[0]` in Python, the first result of
      Go's `strings.Cut`. */
  function Before(s: string, c: char): (r: string)
    ensures c !in r && StartsWith(s, r)
    ensures c !in s ==> r == s
  {
    s[..IndexOf(s, c)]
  }

  /** The text after the first `c`, empty when there is none. */
  function After(s: string, c: char): (r: string)
    ensures c in s ==> s == Before(s, c) + [c] + r
    ensures c !in s ==> r == []
  {
    var k := IndexOf(s, c);
    if k < |s| then s[k + 1..] else []
  }

  /** Python's `s.split(sep)` and Go's `strings.Split(s, sep)` for a one-character
      separator: always at least one part, and no part contains the separator. */
  function Split(s: string, sep: char): (parts: seq<string>)
    ensures |parts| > 0
    ensures forall k :: 0 <= k < |parts| ==> sep !in parts[k]
    decreases |s|
  {
    if s == [] then [[]]
    else
      var rest := Split(s[1..], sep);
      if s[0] == sep then [[]] + rest else [[s[0]] + rest[0]] + rest[1..]
  }

  /** `sep.join(parts)`. */
  function Join(parts: seq<string>, sep: char): string
  {
    if parts == [] then []
    else if |parts| == 1 then parts[0]
    else parts[0] + [sep] + Join(parts[1..], sep)
  }

  /** Every character equal to `a` replaced by `b`. */
  function MapChar(s: string, a: char, b: char): (r: string)
    ensures |r| == |s|
    ensures forall i :: 0 <= i < |s| ==> r[i] == (if s[i] == a then b else s[i])
  {
    seq(|s|, i requires 0 <= i < |s| => if s[i] == a then b else s[i])
  }

  /** ASCII lower-casing: Python's `str.lower` and Go's `strings.ToLower` on text that is
      all ASCII, such as a URL scheme. */
  function LowerAscii(s: string): (r: string)
    ensures |r| == |s|
    ensures forall i :: 0 <= i < |s| ==> !('A' <= r[i] <= 'Z')
  {
    seq(|s|, i requires 0 <= i < |s| => if 'A' <= s[i] <= 'Z' then (s[i] as int + 32) as char else s[i])
  }

  /** Go's `strings.ToLower` as far as its result can be ASCII: the ASCII capitals, U+0130
      (capital I with dot above, lowered to `i`) and U+212A (Kelvin sign, lowered to `k`).
      Every other character is kept; Go lowers some of them too, but never to ASCII. */
  function GoLower(s: string): (r: string)
    ensures |r| == |s|
    ensures forall i :: 0 <= i < |s| ==> !('A' <= r[i] <= 'Z')
    ensures forall i :: 0 <= i < |s| ==>
              (r[i] < '\U{80}' <==> s[i] < '\U{80}' || s[i] == '\U{130}' || s[i] == '\U{212A}')
  {
    seq(|s|, i requires 0 <= i < |s| =>
      if 'A' <= s[i] <= 'Z' then (s[i] as int + 32) as char
      else if s[i] == '\U{130}' then 'i'
      else if s[i] == '\U{212A}' then 'k'
      else s[i])
  }

  // ---------------------------------------------------------------------------------
  // Lemmas

  /** A prefix `r` of a suffix `l` of `s` is a slice of `s`, and what follows it in `l`
      is what follows it in `s`. */
  lemma SliceOfSuffix(s: string, l: string, r: string)
    requires |l| <= |s| && l == s[|s| - |l|..] && |r| <= |l| && r == l[..|r|]
    ensures r == s[|s| - |l|..|s| - |l| + |r|] && s[|s| - |l| + |r|..] == l[|r|..]
  {
  }

  lemma StripSpaceTrimmed(s: string)
    ensures s != [] && !IsSpace(s[0]) && !IsSpace(s[|s| - 1]) ==> RStripSpace(LStripSpace(s)) == s
  {
  }

  lemma ContainsIndex(s: string, t: string, i: nat)
    requires i + |t| <= |s| && s[i..i + |t|] == t
    ensures Contains(s, t)
    decreases i
  {
    if i > 0 {
      assert s[1..][i - 1..i - 1 + |t|] == t;
      ContainsIndex(s[1..], t, i - 1);
    }
  }

  lemma ContainsInfix(a: string, t: string, b: string)
    ensures Contains(a + t + b, t)
  {
    ContainsIndex(a + t + b, t, |a|);
  }

  /** A one-character replacement keeps the length and changes exactly the matching
      characters. */
  lemma {:induction false} ReplaceChar(s: string, a: char, b: char)
    ensures ReplaceAll(s, [a], [b]) == MapChar(s, a, b)
    decreases |s|
  {
    if s != [] {
      ReplaceChar(s[1..], a, b);
      if s[0] == a {
        assert StartsWith(s, [a]);
        assert s[|[a]|..] == s[1..];
      }
    }
  }

  lemma {:induction false} ReplaceAbsent(s: string, pat: string, rep: string)
    requires pat != [] && !Contains(s, pat)
    ensures ReplaceAll(s, pat, rep) == s
    decreases |s|
  {
    if s != [] {
      ReplaceAbsent(s[1..], pat, rep);
      assert s == [s[0]] + s[1..];
    }
  }

  /** A text that begins with the pattern has its replacement first. */
  lemma ReplaceAllAt(pat: string, v: string, rep: string)
    requires pat != []
    ensures ReplaceAll(pat + v, pat, rep) == rep + ReplaceAll(v, pat, rep)
  {
    assert StartsWith(pat + v, pat) && (pat + v)[|pat|..] == v;
  }

  /** A text that does not begin with the pattern keeps its first character. */
  lemma ReplaceAllMiss(c: char, v: string, pat: string, rep: string)
    requires pat != [] && !StartsWith([c] + v, pat)
    ensures ReplaceAll([c] + v, pat, rep) == [c] + ReplaceAll(v, pat, rep)
  {
    assert ([c] + v)[1..] == v;
  }

  /** A prefix free of the pattern's first character is copied unchanged. */
  lemma {:induction false} ReplaceAllSkip(u: string, v: string, pat: string, rep: string)
    requires pat != [] && pat[0] !in u
    ensures ReplaceAll(u + v, pat, rep) == u + ReplaceAll(v, pat, rep)
    decreases |u|
  {
    if u != [] {
      assert u + v == [u[0]] + (u[1..] + v);
      assert u[0] in u;
      ReplaceAllMiss(u[0], u[1..] + v, pat, rep);
      assert forall c :: c in u[1..] ==> c in u;
      ReplaceAllSkip(u[1..], v, pat, rep);
      assert [u[0]] + (u[1..] + ReplaceAll(v, pat, rep)) == u + ReplaceAll(v, pat, rep);
    } else {
      assert u + v == v;
    }
  }

  /** Splitting distributes over a separator: `(a + sep + b).split(sep)` is the parts of
      `a` followed by the parts of `b`. */
  lemma {:induction false} SplitConcat(a: string, b: string, sep: char)
    ensures Split(a + [sep] + b, sep) == Split(a, sep) + Split(b, sep)
    decreases |a|
  {
    if a == [] {
      assert a + [sep] + b == [sep] + b;
      assert ([sep] + b)[1..] == b;
    } else {
      var s := a + [sep] + b;
      assert s[0] == a[0] && s[1..] == a[1..] + [sep] + b;
      SplitConcat(a[1..], b, sep);
      var rest, pa := Split(s[1..], sep), Split(a[1..], sep);
      assert rest == pa + Split(b, sep);
      if a[0] != sep {
        assert rest[0] == pa[0] && rest[1..] == pa[1..] + Split(b, sep);
        assert Split(s, sep) == [[a[0]] + pa[0]] + rest[1..];
        assert Split(a, sep) == [[a[0]] + pa[0]] + pa[1..];
      }
    }
  }

  /** Appending text without a separator extends the last part only. */
  lemma {:induction false} SplitAppend(a: string, t: string, sep: char)
    requires sep !in t
    ensures var pa := Split(a, sep);
            Split(a + t, sep) == pa[..|pa| - 1] + [pa[|pa| - 1] + t]
    decreases |a|
  {
    if a == [] {
      assert a + t == t;
      SplitNoSep(t, sep);
    } else {
      var s := a + t;
      assert s[0] == a[0] && s[1..] == a[1..] + t;
      SplitAppend(a[1..], t, sep);
      var pa := Split(a[1..], sep);
      var rest := Split(s[1..], sep);
      if a[0] != sep && |pa| == 1 {
        assert rest == [pa[0] + t];
        assert Split(s, sep) == [[a[0]] + (pa[0] + t)];
        assert Split(a, sep) == [[a[0]] + pa[0]];
        assert [a[0]] + (pa[0] + t) == ([a[0]] + pa[0]) + t;
      } else if a[0] != sep {
        assert rest[0] == pa[0] && rest[1..] == pa[1..|pa| - 1] + [pa[|pa| - 1] + t];
      }
    }
  }

  lemma {:induction false} SplitNoSep(s: string, sep: char)
    requires sep !in s
    ensures Split(s, sep) == [s]
    decreases |s|
  {
    if s != [] {
      SplitNoSep(s[1..], sep);
      assert [s[0]] + s[1..] == s;
    }
  }

  /** Joining the parts of a split gives back the original text. */
  lemma {:induction false} JoinSplit(s: string, sep: char)
    ensures Join(Split(s, sep), sep) == s
    decreases |s|
  {
    if s != [] {
      var rest := Split(s[1..], sep);
      JoinSplit(s[1..], sep);
      if |rest| > 1 {
        assert rest == [rest[0]] + rest[1..];
      }
      if s[0] == sep {
        assert Split(s, sep) == [[]] + rest;
      } else {
        var parts := [[s[0]] + rest[0]] + rest[1..];
        assert Split(s, sep) == parts;
        assert parts[1..] == rest[1..];
      }
    }
  }

  /** Splitting the join of separator-free parts gives the parts back. */
  lemma {:induction false} SplitJoin(parts: seq<string>, sep: char)
    requires |parts| > 0
    requires forall k :: 0 <= k < |parts| ==> sep !in parts[k]
    ensures Split(Join(parts, sep), sep) == parts
    decreases |parts|
  {
    if |parts| == 1 {
      SplitNoSep(parts[0], sep);
    } else {
      SplitJoin(parts[1..], sep);
      SplitConcat(parts[0], Join(parts[1..], sep), sep);
      SplitNoSep(parts[0], sep);
    }
  }

  lemma {:induction false} JoinAppend(parts: seq<string>, p: string, sep: char)
    requires |parts| > 0
    ensures Join(parts + [p], sep) == Join(parts, sep) + [sep] + p
    decreases |parts|
  {
    var all := parts + [p];
    if |parts| == 1 {
      assert all[1..] == [p];
    } else {
      var tail := Join(parts[1..], sep);
      JoinAppend(parts[1..], p, sep);
      assert all[1..] == parts[1..] + [p];
      assert Join(all, sep) == parts[0] + [sep] + (tail + [sep] + p);
      assert Join(parts, sep) == parts[0] + [sep] + tail;
    }
  }

  lemma IndexOfAt(a: string, c: char, b: string)
    requires c !in a
    ensures IndexOf(a + [c] + b, c) == |a|
    decreases |a|
  {
    if a != [] {
      assert (a + [c] + b)[1..] == a[1..] + [c] + b;
      IndexOfAt(a[1..], c, b);
    }
  }
}
