/** A text on which the two global-replacement loops of `extract_and_rewrite_file` and the
    in-place rewrite they evidently intend part ways: a reference that is also the tail of
    a longer reference's query is replaced inside it, so the longer one's own replacement
    no longer finds it, and the second pass then rewrites the leftover `//`. */
module Findings {
  import opened Text
  import opened Domains
  import opened Scanner

  const HOST_A := "a.kujiale.com"
  const HOST_B := "b.kujiale.com"
  /** `a.kujiale.com/x` */
  const GROUP_A := HOST_A + "/" + "x"
  /** `https://a.kujiale.com/x` */
  const REF_A := "https://" + GROUP_A
  /** `q?https://a.kujiale.com/x`: a query that carries the first reference. */
  const QUERY_PATH := "q?" + REF_A
  /** `b.kujiale.com/q?https://a.kujiale.com/x` */
  const GROUP_B := HOST_B + "/" + QUERY_PATH
  /** `https://a.kujiale.com/x https://b.kujiale.com/q?https://a.kujiale.com/x` */
  const EXAMPLE := REF_A + " " + "https://" + GROUP_B

  /** The code as written: the first reference is replaced everywhere, inside the second
      one too; the second one's group then occurs nowhere, and the `//` pass rewrites what
      is left of it. The result is
      `/a.kujiale.com/x https:/b.kujiale.com/q?/a.kujiale.com/x`. */
  lemma RewriteBreaksNestedReference()
    ensures Rewrite(EXAMPLE) == "/" + GROUP_A + " " + "https:" + "/" + HOST_B + "/" + "q?" + "/" + GROUP_A
  {
    var t1 := FirstPassText();
    var ms := FirstPassMatches(HttpsLead);
    FirstPassGroups();
    ReplaceFirstGroup();
    ReplaceSecondGroup();
    SecondPass(t1);
  }

  /** The intended rewrite replaces each reference where it stands, keeps the separating
      space and leaves the nested reference inside the second one's query alone:
      `/a.kujiale.com/x /b.kujiale.com/q?https://a.kujiale.com/x`. */
  lemma RewriteFixedKeepsNestedReference()
    ensures RewriteFixed(EXAMPLE) == "/" + GROUP_A + " " + "/" + GROUP_B
  {
    var m1, m2 := Match(0, 8, 21, 23), Match(24, 32, 45, 71);
    ExampleShape();
    FirstReference(AnyLead);
    SecondReference(AnyLead);
    NoLeadAt(AnyLead, EXAMPLE, 23);
    NotExcluded();
    assert Replacement(EXAMPLE, m2) == "/" + GROUP_B;
    assert RewriteFrom(EXAMPLE, 24) == "/" + GROUP_B + RewriteFrom(EXAMPLE, 71);
    assert RewriteFrom(EXAMPLE, 23) == " " + RewriteFrom(EXAMPLE, 24);
    assert Replacement(EXAMPLE, m1) == "/" + GROUP_A;
    assert RewriteFrom(EXAMPLE, 0) == "/" + GROUP_A + RewriteFrom(EXAMPLE, 23);
  }

  /** `https://b.kujiale.com/q?https://a.kujiale.com/x`: the second reference on its own. */
  const REF_B := "https://" + GROUP_B

  /** The code as written, on a single reference that carries another in its query: the
      first pass rewrites the outer one, and the `//` pass then rewrites the `//` of the
      nested one, leaving `/b.kujiale.com/q?https:/a.kujiale.com/x`. */
  lemma RewriteBreaksQueryReference()
    ensures Rewrite(REF_B) == "/" + HOST_B + "/" + "q?" + "https:" + "/" + GROUP_A
  {
    NotExcluded();
    NoStopExample();
    OnePass(HttpsLead, "https://", HOST_B, QUERY_PATH);
    Regroup("https://", HOST_B, QUERY_PATH);
    QuerySecondPass("/" + HOST_B + "/" + QUERY_PATH);
  }

  /** The intended rewrite replaces the outer reference and keeps the nested one:
      `/b.kujiale.com/q?https://a.kujiale.com/x`. */
  lemma RewriteFixedKeepsQueryReference()
    ensures RewriteFixed(REF_B) == "/" + GROUP_B
  {
    NotExcluded();
    NoStopExample();
    RewriteFixedReference("https://", HOST_B, QUERY_PATH);
    Regroup("https://", HOST_B, QUERY_PATH);
    Regroup("/", HOST_B, QUERY_PATH);
  }

  lemma Regroup(a: string, d: string, path: string)
    ensures a + (d + "/" + path) == a + d + "/" + path
  {
  }

  /** The `//` pass over `/b.kujiale.com/q?https://a.kujiale.com/x`: the one match is the
      nested reference, and its `//` becomes `/`. */
  lemma QuerySecondPass(t1: string)
    requires t1 == "/" + HOST_B + "/" + QUERY_PATH
    ensures RewritePass(t1, "//", DomainPaths(t1, FindAll(ProtocolLead, t1, 0)))
            == "/" + HOST_B + "/" + "q?" + "https:" + "/" + GROUP_A
  {
    QuerySecondPassMatches(t1);
    NotExcluded();
    assert GROUP_A == HOST_A + ['/'] + "x";
    IndexOfAt(HOST_A, '/', "x");
    PassOfOneGroup(t1, "//", GROUP_A);
    QueryPassShape(t1, "/" + HOST_B + "/" + "q?https:");
    QueryReplace();
  }

  /** Replacing the nested reference's `//host/path` touches only that copy. */
  lemma QueryReplace()
    ensures ReplaceAll("/" + HOST_B + "/" + "q?https:" + ("//" + GROUP_A), "//" + GROUP_A, "/" + GROUP_A)
            == "/" + HOST_B + "/" + "q?https:" + ("/" + GROUP_A)
  {
    var v := "//" + GROUP_A;
    assert |v| >= 2 && v[0] == '/' && v[1] == '/';
    assert '/' !in HOST_B && '/' !in "q?https:";
    ReplaceAfterRooted(HOST_B, "q?https:", v, "/" + GROUP_A);
  }

  lemma QuerySecondPassMatches(t1: string)
    requires t1 == "/" + HOST_B + "/" + QUERY_PATH
    ensures DomainPaths(t1, FindAll(ProtocolLead, t1, 0)) == [GROUP_A]
  {
    var u := "/" + HOST_B + "/" + "q?https:";
    QueryPassShape(t1, u);
    NotExcluded();
    MatchInsideIs(ProtocolLead, t1, u, "//", HOST_A, "x", []);
    var m := Match(23, 25, 38, 40);
    MatchAtComplete(ProtocolLead, t1, m);
    FindAllLast(ProtocolLead, t1, 23, m);
    assert NoDoubleSlash("/" + "q?https:");
    NoDoubleSlashRooted(HOST_B, "q?https:");
    forall q | 0 <= q < 23 ensures MatchAt(ProtocolLead, t1, q) == None {
      assert t1[q] == u[q];
      assert q < 22 ==> t1[q + 1] == u[q + 1];
      ProtocolSlashes(t1, q);
    }
    ProtocolSkip(t1, 0, 23);
    DomainPathsOfOne(t1, m);
  }

  lemma QueryPassShape(t1: string, u: string)
    requires t1 == "/" + HOST_B + "/" + QUERY_PATH && u == "/" + HOST_B + "/" + "q?https:"
    ensures |u| == 23 && |t1| == 40 && u[22] == ':'
    ensures t1 == u + "//" + HOST_A + "/" + "x" + []
    ensures t1 == "/" + HOST_B + "/" + "q?https:" + ("//" + GROUP_A)
    ensures "/" + HOST_B + "/" + "q?https:" + ("/" + GROUP_A) == "/" + HOST_B + "/" + "q?" + "https:" + "/" + GROUP_A
  {
  }

  function FirstPassText(): string
  {
    "/" + GROUP_A + " " + "https:" + ("//" + GROUP_B2())
  }

  /** The group of the second reference once the first has been replaced inside it. */
  function GROUP_B2(): string
  {
    HOST_B + "/" + ("q?" + "/" + GROUP_A)
  }

  /** The pass over the two groups is the two global replacements, in order. */
  lemma FirstPassGroups()
    ensures RewritePass(EXAMPLE, "https://", [GROUP_A, GROUP_B])
            == ReplaceAll(ReplaceAll(EXAMPLE, REF_A, "/" + GROUP_A), "https://" + GROUP_B, "/" + GROUP_B)
  {
    NotExcluded();
    assert [GROUP_A, GROUP_B][..1] == [GROUP_A] && [GROUP_A][..0] == [];
    assert GROUP_A == HOST_A + ['/'] + "x" && GROUP_B == HOST_B + ['/'] + QUERY_PATH;
    IndexOfAt(HOST_A, '/', "x");
    IndexOfAt(HOST_B, '/', QUERY_PATH);
    assert Before(GROUP_A, '/') == HOST_A && Before(GROUP_B, '/') == HOST_B;
    assert RewritePass(EXAMPLE, "https://", []) == EXAMPLE;
    var once := RewritePass(EXAMPLE, "https://", [GROUP_A]);
    assert once == RewriteGroup(EXAMPLE, "https://", GROUP_A);
  }

  /** Replacing the first reference everywhere also replaces its copy in the query. */
  lemma ReplaceFirstGroup()
    ensures ReplaceAll(EXAMPLE, REF_A, "/" + GROUP_A)
            == "/" + GROUP_A + (" " + (['h'] + ("ttps://" + HOST_B + "/" + "q?") + ("/" + GROUP_A)))
  {
    var head := "ttps://" + HOST_B + "/" + "q?";
    ExampleRegroup(REF_A, HOST_B);
    assert REF_A[0] == 'h' && REF_A[8] == 'a';
    assert (['h'] + head + REF_A)[..|REF_A|][8] == 'b';
    assert 'h' !in "ttps://" && 'h' !in HOST_B && 'h' !in "/" && 'h' !in "q?";
    ReplaceHeadAndTail(REF_A, " ", 'h', head, "/" + GROUP_A);
  }

  /** The example, regrouped around the first character of the second reference. */
  lemma ExampleRegroup(ra: string, hb: string)
    ensures ra + " " + "https://" + (hb + "/" + ("q?" + ra))
            == ra + (" " + (['h'] + ("ttps://" + hb + "/" + "q?") + ra))
  {
    assert "https://" == ['h'] + "ttps://";
  }

  /** After that, the second reference's group occurs nowhere, and nothing changes. */
  lemma ReplaceSecondGroup()
    ensures ReplaceAll("/" + GROUP_A + (" " + (['h'] + ("ttps://" + HOST_B + "/" + "q?") + ("/" + GROUP_A))),
                       "https://" + GROUP_B, "/" + GROUP_B)
            == FirstPassText()
  {
    var r1 := "/" + GROUP_A;
    var rest := "ttps://" + HOST_B + "/" + "q?" + r1;
    assert "/" + GROUP_A + (" " + (['h'] + ("ttps://" + HOST_B + "/" + "q?") + r1)) == (r1 + " ") + (['h'] + rest);
    assert 'h' !in "ttps://" && 'h' !in HOST_B && 'h' !in "/" && 'h' !in "q?" && 'h' !in HOST_A && 'h' !in "x";
    assert ("https://" + GROUP_B)[0] == 'h' && |"https://" + GROUP_B| == 47 && |rest| == 39;
    ReplaceNone(r1 + " ", 'h', rest, "https://" + GROUP_B, "/" + GROUP_B);
    FirstPassTextShape();
  }

  lemma FirstPassTextShape()
    ensures FirstPassText() == ("/" + GROUP_A + " ") + (['h'] + ("ttps://" + HOST_B + "/" + "q?" + ("/" + GROUP_A)))
  {
    assert "https:" + "//" == ['h'] + "ttps://";
  }

  /** A text `a + sp + c + head + a`, where `c` is the first character of `a` and occurs in
      neither `sp` nor `head`, and `a` does not begin at `c`: both copies of `a` are
      replaced. */
  lemma {:induction false} ReplaceHeadAndTail(a: string, sp: string, c: char, head: string, r: string)
    requires a != [] && a[0] == c && c !in sp && c !in head
    requires !StartsWith([c] + head + a, a)
    ensures ReplaceAll(a + (sp + ([c] + head + a)), a, r) == r + (sp + ([c] + head + r))
  {
    ReplaceAllAt(a, sp + ([c] + head + a), r);
    ReplaceAllSkip(sp, [c] + head + a, a, r);
    assert [c] + head + a == [c] + (head + a);
    ReplaceAllMiss(c, head + a, a, r);
    ReplaceAllSkip(head, a, a, r);
    assert a + [] == a;
    ReplaceAllAt(a, [], r);
    assert [c] + head + r == [c] + (head + r);
  }

  /** A text whose only occurrence of the pattern's first character starts a suffix
      shorter than the pattern has no occurrence. */
  lemma {:induction false} ReplaceNone(u: string, c: char, rest: string, pat: string, rep: string)
    requires pat != [] && pat[0] == c && c !in u && c !in rest && 1 + |rest| < |pat|
    ensures ReplaceAll(u + ([c] + rest), pat, rep) == u + ([c] + rest)
  {
    ReplaceAllSkip(u, [c] + rest, pat, rep);
    ReplaceAllMiss(c, rest, pat, rep);
    assert rest + [] == rest;
    ReplaceAllSkip(rest, [], pat, rep);
  }

  lemma NotExcluded()
    ensures HOST_A !in EXCLUDE_REWRITE && HOST_B !in EXCLUDE_REWRITE
    ensures IsKujialeHost(HOST_A) && IsKujialeHost(HOST_B) && '/' !in HOST_A && '/' !in HOST_B
  {
  }

  /** The two `https://` references of the example, found by `p`. */
  lemma FirstPassMatches(p: Pattern) returns (ms: seq<Match>)
    requires p != ProtocolLead
    ensures ms == FindAll(p, EXAMPLE, 0) && ms == [Match(0, 8, 21, 23), Match(24, 32, 45, 71)]
    ensures DomainPaths(EXAMPLE, ms) == [GROUP_A, GROUP_B]
  {
    ExampleShape();
    FirstReference(p);
    SecondReference(p);
    NoLeadAt(p, EXAMPLE, 23);
    var m0, m1 := Match(0, 8, 21, 23), Match(24, 32, 45, 71);
    FindAllLast(p, EXAMPLE, 24, m1);
    FindAllMiss(p, EXAMPLE, 23);
    FindAllHit(p, EXAMPLE, 0, m0);
    ms := [m0, m1];
    DomainPathsOfTwo(EXAMPLE, m0, m1);
  }

  /** A match at `i` is the first one found from `i`. */
  lemma FindAllHit(p: Pattern, s: string, i: nat, m: Match)
    requires i < |s| && MatchAt(p, s, i) == Some(m)
    ensures FindAll(p, s, i) == [m] + FindAll(p, s, m.end)
  {
  }

  /** A match at `i` that runs to the end of the text is the only one found from `i`. */
  lemma FindAllLast(p: Pattern, s: string, i: nat, m: Match)
    requires i < |s| && MatchAt(p, s, i) == Some(m) && m.end == |s|
    ensures FindAll(p, s, i) == [m]
  {
    assert FindAll(p, s, m.end) == [];
  }

  /** No match at `i`: the scan goes on at `i + 1`. */
  lemma FindAllMiss(p: Pattern, s: string, i: nat)
    requires i < |s| && MatchAt(p, s, i).None?
    ensures FindAll(p, s, i) == FindAll(p, s, i + 1)
  {
  }

  lemma DomainPathsOfTwo(s: string, m0: Match, m1: Match)
    requires m0.domStart <= m0.end <= |s| && m1.domStart <= m1.end <= |s|
    ensures DomainPaths(s, [m0, m1]) == [DomainPath(s, m0), DomainPath(s, m1)]
  {
    assert [m0, m1][..1] == [m0];
  }

  lemma FirstReference(p: Pattern)
    requires p != ProtocolLead
    ensures MatchAt(p, EXAMPLE, 0) == Some(Match(0, 8, 21, 23))
    ensures DomainPath(EXAMPLE, Match(0, 8, 21, 23)) == GROUP_A && Host(EXAMPLE, Match(0, 8, 21, 23)) == HOST_A
  {
    ExampleShape();
    NotExcluded();
    NoStopExample();
    MatchInsideIs(p, EXAMPLE, [], "https://", HOST_A, "x", " " + "https://" + GROUP_B);
    MatchAtComplete(p, EXAMPLE, Match(0, 8, 21, 23));
  }

  lemma SecondReference(p: Pattern)
    requires p != ProtocolLead
    ensures MatchAt(p, EXAMPLE, 24) == Some(Match(24, 32, 45, 71))
    ensures DomainPath(EXAMPLE, Match(24, 32, 45, 71)) == GROUP_B && Host(EXAMPLE, Match(24, 32, 45, 71)) == HOST_B
  {
    ExampleShape();
    NotExcluded();
    NoStopExample();
    MatchInsideIs(p, EXAMPLE, REF_A + " ", "https://", HOST_B, QUERY_PATH, []);
    MatchAtComplete(p, EXAMPLE, Match(24, 32, 45, 71));
  }

  /** The example's length, its separating space, and the two ways of reading it. */
  lemma ExampleShape()
    ensures |EXAMPLE| == 71 && |REF_A + " "| == 24 && EXAMPLE[23] == ' '
    ensures EXAMPLE == [] + "https://" + HOST_A + "/" + "x" + (" " + "https://" + GROUP_B)
    ensures EXAMPLE == (REF_A + " ") + "https://" + HOST_B + "/" + QUERY_PATH + []
  {
  }

  lemma NoStopExample()
    ensures NoStop("x") && NoStop(QUERY_PATH) && NoStop("q?" + "/" + GROUP_A)
  {
  }

  predicate NoStop(t: string) { forall k :: 0 <= k < |t| ==> !IsStop(t[k]) }

  /** A reference `lead + d + "/" + path` inside a text, followed by a stop character or
      by nothing, is a match of `p` at its start. */
  lemma {:induction false} MatchInsideIs(p: Pattern, s: string, u: string, lead: string, d: string, path: string, w: string)
    requires s == u + lead + d + "/" + path + w
    requires IsLead(p, lead) && IsKujialeHost(d) && '/' !in d
    requires path != [] && NoStop(path) && (w == [] || IsStop(w[0]))
    ensures var a := |u| + |lead|;
            var m := Match(|u|, a, a + |d|, a + |d| + 1 + |path|);
            IsMatch(p, s, m) && DomainPath(s, m) == d + "/" + path && Host(s, m) == d
  {
    var a := |u| + |lead|;
    var b := a + |d|;
    var e := b + 1 + |path|;
    assert s == (u + lead) + d + ("/" + path + w);
    assert s[|u|..a] == lead && s[a..b] == d && s[a..e] == d + "/" + path;
    RefHostSpan(s, u + lead, d, "/" + path + w);
    assert s == (u + lead + d + "/") + path + w;
    PathSpanInside(s, u + lead + d + "/", path, w);
  }

  lemma {:induction false} PathSpanInside(s: string, head: string, path: string, w: string)
    requires s == head + path + w && path != [] && NoStop(path) && (w == [] || IsStop(w[0]))
    ensures IsPathSpan(s, |head|, |head| + |path|)
  {
    assert forall q :: |head| <= q < |head| + |path| ==> s[q] == path[q - |head|];
    assert |head| + |path| == |s| || s[|head| + |path|] == w[0];
  }

  /** No match begins at a character that is neither `h` nor `/`. */
  lemma {:induction false} NoLeadAt(p: Pattern, s: string, i: nat)
    requires i < |s| && s[i] != 'h' && s[i] != '/'
    ensures MatchAt(p, s, i) == None
  {
    if i + 8 <= |s| {
      assert s[i..i + 8][0] == s[i];
    }
    if i + 2 <= |s| {
      assert s[i..i + 2][0] == s[i];
    }
  }

  /** The second pass: the one `//` match left is the tail of the second reference, and
      it is rewritten, leaving `https:` before it. */
  lemma SecondPass(t1: string)
    requires t1 == FirstPassText()
    ensures RewritePass(t1, "//", DomainPaths(t1, FindAll(ProtocolLead, t1, 0)))
            == "/" + GROUP_A + " " + "https:" + "/" + HOST_B + "/" + "q?" + "/" + GROUP_A
  {
    SecondPassMatches(t1);
    NotExcluded();
    assert GROUP_B2() == HOST_B + ['/'] + ("q?" + "/" + GROUP_A);
    IndexOfAt(HOST_B, '/', "q?" + "/" + GROUP_A);
    PassOfOneGroup(t1, "//", GROUP_B2());
    SecondPassReplace(t1);
  }

  lemma SecondPassMatches(t1: string)
    requires t1 == FirstPassText()
    ensures DomainPaths(t1, FindAll(ProtocolLead, t1, 0)) == [GROUP_B2()]
  {
    var u := "/" + GROUP_A + " " + "https:";
    var path := "q?" + "/" + GROUP_A;
    assert t1 == u + "//" + HOST_B + "/" + path + [];
    assert |u| == 23 && u[22] == ':';
    NotExcluded();
    NoStopExample();
    MatchInsideIs(ProtocolLead, t1, u, "//", HOST_B, path, []);
    var m := Match(23, 25, 38, 57);
    MatchAtComplete(ProtocolLead, t1, m);
    FindAllLast(ProtocolLead, t1, 23, m);
    NoDoubleSlashHead();
    forall q | 0 <= q < 23 ensures MatchAt(ProtocolLead, t1, q) == None {
      assert t1[q] == u[q];
      assert q < 22 ==> t1[q + 1] == u[q + 1];
      ProtocolSlashes(t1, q);
    }
    ProtocolSkip(t1, 0, 23);
    DomainPathsOfOne(t1, m);
  }

  lemma DomainPathsOfOne(s: string, m: Match)
    requires m.domStart <= m.end <= |s|
    ensures DomainPaths(s, [m]) == [DomainPath(s, m)]
  {
  }

  lemma NoDoubleSlashHead()
    ensures NoDoubleSlash("/" + GROUP_A + " " + "https:")
  {
    assert NoDoubleSlash("/" + "x https:");
    NoDoubleSlashRooted(HOST_A, "x https:");
    assert "/" + GROUP_A + " " + "https:" == "/" + HOST_A + "/" + "x https:";
  }

  lemma SecondPassReplace(t1: string)
    requires t1 == FirstPassText()
    ensures ReplaceAll(t1, "//" + GROUP_B2(), "/" + GROUP_B2())
            == "/" + GROUP_A + " " + "https:" + "/" + HOST_B + "/" + "q?" + "/" + GROUP_A
  {
    var v := "//" + GROUP_B2();
    SecondPassShape();
    assert '/' !in HOST_A && '/' !in "x https:";
    ReplaceAfterRooted(HOST_A, "x https:", v, "/" + GROUP_B2());
  }

  lemma SecondPassShape()
    ensures FirstPassText() == "/" + HOST_A + "/" + "x https:" + ("//" + GROUP_B2())
    ensures "/" + HOST_A + "/" + "x https:" + ("/" + GROUP_B2())
            == "/" + GROUP_A + " " + "https:" + "/" + HOST_B + "/" + "q?" + "/" + GROUP_A
  {
  }

  /** `/d/tail` followed by a text `v` that begins with `//`, where neither `d` nor `tail`
      holds a `/`: replacing `v` replaces only the trailing copy. */
  lemma {:induction false} ReplaceAfterRooted(d: string, tail: string, v: string, rep: string)
    requires |v| >= 2 && v[0] == '/' && v[1] == '/'
    requires d != [] && '/' !in d && tail != [] && '/' !in tail
    ensures ReplaceAll("/" + d + "/" + tail + v, v, rep) == "/" + d + "/" + tail + rep
  {
    var s1 := ['/'] + (tail + v);
    RootedShape(d, tail, v);
    assert (['/'] + (d + s1))[1] == d[0] && d[0] in d;
    ReplaceAllMiss('/', d + s1, v, rep);
    ReplaceAllSkip(d, s1, v, rep);
    assert s1[1] == tail[0] && tail[0] in tail;
    ReplaceAllMiss('/', tail + v, v, rep);
    ReplaceAllSkip(tail, v, v, rep);
    assert v + [] == v;
    ReplaceAllAt(v, [], rep);
    RootedShape(d, tail, rep);
  }

  lemma RootedShape(d: string, tail: string, x: string)
    ensures "/" + d + "/" + tail + x == ['/'] + (d + (['/'] + (tail + x)))
  {
  }

  /** A `//` match has `//` at its start. */
  lemma {:induction false} ProtocolSlashes(s: string, i: nat)
    requires i <= |s|
    ensures MatchAt(ProtocolLead, s, i).Some? ==> i + 1 < |s| && s[i] == '/' && s[i + 1] == '/'
  {
    if i + 2 <= |s| && s[i..i + 2] == "//" {
      assert s[i] == s[i..i + 2][0] && s[i + 1] == s[i..i + 2][1];
    }
  }

  /** Where no match begins, the scan moves on. */
  lemma {:induction false} ProtocolSkip(s: string, i: nat, j: nat)
    requires i <= j <= |s| && forall q :: i <= q < j ==> MatchAt(ProtocolLead, s, q) == None
    ensures FindAll(ProtocolLead, s, i) == FindAll(ProtocolLead, s, j)
    decreases j - i
  {
    if i < j {
      var r := MatchAt(ProtocolLead, s, i);
      assert r == None;
      assert FindAll(ProtocolLead, s, i) == FindAll(ProtocolLead, s, i + 1);
      ProtocolSkip(s, i + 1, j);
    }
  }
}
