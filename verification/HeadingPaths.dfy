/** The heading path of a section: how the single pass maintains it, and when it is the ancestor chain. */
module HeadingPaths {
  import opened Wrappers

  datatype Heading = Heading(level: nat, text: string)

  /** For each line, the heading it matches. */
  type Found = seq<Option<Heading>>

  ghost predicate Levelled(found: Found) {
    forall i :: 0 <= i < |found| && found[i].Some? ==> found[i].value.level > 0
  }

  function Shortened(path: seq<string>, level: nat): seq<string>
    requires level > 0
  {
    if |path| >= level then path[..level - 1] else path
  }

  /** The path is cut to fewer entries than the heading's level, whatever the levels of its entries were. */
  function Opened(path: seq<string>, h: Heading): seq<string>
    requires h.level > 0
  {
    Shortened(path, h.level) + [h.text]
  }

  method OpenHeading(path: seq<string>, h: Heading) returns (headingPath: seq<string>)
    requires h.level > 0
    ensures headingPath == Opened(path, h)
  {
    headingPath := path;
    while |headingPath| >= h.level
      invariant headingPath == path || (h.level - 1 <= |headingPath| < |path| && headingPath == path[..|headingPath|])
    {
      headingPath := headingPath[..|headingPath| - 1];
    }
    headingPath := headingPath + [h.text];
  }

  /** The path after the first `n` lines. */
  function PathAt(found: Found, n: nat): seq<string>
    requires n <= |found| && Levelled(found)
  {
    if n == 0 then []
    else
      var before := PathAt(found, n - 1);
      if found[n - 1].None? then before else Opened(before, found[n - 1].value)
  }

  // ------------------------------------------------------------------------ ancestors

  /** Line `i` is a heading that no line after it and before `n` closes. */
  ghost predicate OpenAt(found: Found, n: nat, i: nat)
    requires i < n <= |found|
  {
    found[i].Some? && forall j :: i < j < n && found[j].Some? ==> found[j].value.level > found[i].value.level
  }

  predicate AreHeadings(found: Found, lines: seq<nat>) {
    forall k :: 0 <= k < |lines| ==> lines[k] < |found| && found[lines[k]].Some?
  }

  /** The first `m` of these heading lines whose level is below `level`. */
  function Below(found: Found, lines: seq<nat>, m: nat, level: nat): (r: seq<nat>)
    requires m <= |lines| && AreHeadings(found, lines)
    ensures AreHeadings(found, r) && |r| <= m
  {
    if m == 0 then []
    else
      Below(found, lines, m - 1, level) + if found[lines[m - 1]].value.level < level then [lines[m - 1]] else []
  }

  /** The heading lines that enclose the text after the first `n` lines, outermost first. */
  function Ancestors(found: Found, n: nat): (r: seq<nat>)
    requires n <= |found|
    ensures AreHeadings(found, r)
  {
    if n == 0 then []
    else
      var before := Ancestors(found, n - 1);
      if found[n - 1].None? then before
      else Below(found, before, |before|, found[n - 1].value.level) + [n - 1]
  }

  function Texts(found: Found, lines: seq<nat>): (r: seq<string>)
    requires AreHeadings(found, lines)
    ensures |r| == |lines| && forall k :: 0 <= k < |r| ==> r[k] == found[lines[k]].value.text
  {
    seq(|lines|, k requires 0 <= k < |lines| && lines[k] < |found| && found[lines[k]].Some? => found[lines[k]].value.text)
  }

  lemma {:induction false} BelowIs(found: Found, lines: seq<nat>, m: nat, level: nat, i: nat)
    requires m <= |lines| && AreHeadings(found, lines)
    ensures i in Below(found, lines, m, level)
       <==> i in lines[..m] && i < |found| && found[i].Some? && found[i].value.level < level
  {
    if m != 0 {
      BelowIs(found, lines, m - 1, level, i);
      assert lines[..m] == lines[..m - 1] + [lines[m - 1]];
    }
  }

  /** The enclosing headings are exactly those that are still open. */
  lemma {:induction false} AncestorsAreOpen(found: Found, n: nat, i: nat)
    requires n <= |found|
    ensures i in Ancestors(found, n) <==> i < n && OpenAt(found, n, i)
  {
    if n != 0 {
      AncestorsAreOpen(found, n - 1, i);
      var before := Ancestors(found, n - 1);
      if found[n - 1].Some? {
        BelowIs(found, before, |before|, found[n - 1].value.level, i);
        assert before[..|before|] == before;
      }
    }
  }

  /** Each encloses the next: levels increase. */
  ghost predicate Nested(found: Found, lines: seq<nat>)
    requires AreHeadings(found, lines)
  {
    forall j, k :: 0 <= j < k < |lines| ==> found[lines[j]].value.level < found[lines[k]].value.level
  }

  /** Of nested headings, those below a level come first. */
  lemma {:induction false} BelowIsPrefix(found: Found, lines: seq<nat>, m: nat, level: nat)
    requires m <= |lines| && AreHeadings(found, lines) && Nested(found, lines)
    ensures var r := Below(found, lines, m, level);
            && r == lines[..|r|]
            && (forall k :: |r| <= k < m ==> found[lines[k]].value.level >= level)
            && (forall k :: 0 <= k < |r| ==> found[lines[k]].value.level < level)
  {
    if m != 0 {
      BelowIsPrefix(found, lines, m - 1, level);
    }
  }

  lemma NestedSnoc(found: Found, before: seq<nat>, n: nat, i: nat)
    requires AreHeadings(found, before) && Nested(found, before) && n <= |before| && i < |found| && found[i].Some?
    requires forall k :: 0 <= k < n ==> found[before[k]].value.level < found[i].value.level
    ensures AreHeadings(found, before[..n] + [i]) && Nested(found, before[..n] + [i])
  {
  }

  lemma {:induction false} AncestorsAreNested(found: Found, n: nat)
    requires n <= |found|
    ensures Nested(found, Ancestors(found, n))
  {
    if n != 0 {
      AncestorsAreNested(found, n - 1);
      if found[n - 1].Some? {
        var before := Ancestors(found, n - 1);
        var kept := Below(found, before, |before|, found[n - 1].value.level);
        BelowIsPrefix(found, before, |before|, found[n - 1].value.level);
        assert forall k :: 0 <= k < |kept| ==> before[k] == kept[k];
        NestedSnoc(found, before, |kept|, n - 1);
      }
    }
  }

  lemma {:induction false} LevelsBoundDepth(found: Found, lines: seq<nat>, k: nat)
    requires AreHeadings(found, lines) && Nested(found, lines) && Levelled(found) && k < |lines|
    ensures found[lines[k]].value.level > k
  {
    if k > 0 {
      LevelsBoundDepth(found, lines, k - 1);
    }
  }

  // -------------------------------------------------------------------------- theorem

  /** The heading on line `i` closes no heading that stands higher in the path than its own level. */
  ghost predicate ClosesInDepth(found: Found, i: nat)
    requires i < |found| && found[i].Some?
  {
    var open, level := Ancestors(found, i), found[i].value.level;
    forall k :: 0 <= k < |open| && found[open[k]].value.level >= level ==> k >= level - 1
  }

  ghost predicate Agrees(found: Found, n: nat)
    requires n <= |found| && Levelled(found)
  {
    PathAt(found, n) == Texts(found, Ancestors(found, n))
  }

  /** How many headings stay open, compared with how many entries the path keeps. */
  lemma KeptDepth(found: Found, open: seq<nat>, level: nat)
    requires AreHeadings(found, open) && Nested(found, open) && Levelled(found) && level > 0
    ensures var kept := Below(found, open, |open|, level);
            && kept == open[..|kept|] && |kept| <= level - 1
            && ((forall k :: 0 <= k < |open| && found[open[k]].value.level >= level ==> k >= level - 1)
                <==> |kept| == if |open| >= level then level - 1 else |open|)
  {
    var kept := Below(found, open, |open|, level);
    BelowIsPrefix(found, open, |open|, level);
    if |kept| > 0 {
      LevelsBoundDepth(found, open, |kept| - 1);
    }
    if |kept| < |open| {
      assert found[open[|kept|]].value.level >= level;
    }
  }

  lemma AgreementStep(found: Found, i: nat)
    requires i < |found| && Levelled(found) && Agrees(found, i) && found[i].Some?
    ensures Agrees(found, i + 1) <==> ClosesInDepth(found, i)
  {
    var open, h := Ancestors(found, i), found[i].value;
    var kept := Below(found, open, |open|, h.level);
    AncestorsAreNested(found, i);
    KeptDepth(found, open, h.level);
    var path := Texts(found, open);
    assert PathAt(found, i + 1) == Shortened(path, h.level) + [h.text];
    assert Ancestors(found, i + 1) == kept + [i];
    assert Texts(found, kept + [i]) == path[..|kept|] + [h.text];
    assert |Shortened(path, h.level)| == if |open| >= h.level then h.level - 1 else |open|;
    SameHeads(Shortened(path, h.level), path[..|kept|], h.text);
  }

  lemma SameHeads(s: seq<string>, t: seq<string>, x: string)
    ensures s + [x] == t + [x] <==> s == t
  {
    if s + [x] == t + [x] {
      assert |s| == |t|;
      forall k | 0 <= k < |s| ensures s[k] == t[k] {
        assert (s + [x])[k] == (t + [x])[k];
      }
    }
  }

  /** The path is the chain of enclosing headings after each of the first `n` lines. */
  ghost predicate AgreesUpTo(found: Found, n: nat)
    requires n <= |found| && Levelled(found)
  {
    Agrees(found, n) && (n > 0 ==> AgreesUpTo(found, n - 1))
  }

  ghost predicate ClosesInDepthUpTo(found: Found, n: nat)
    requires n <= |found|
  {
    n == 0 || ((found[n - 1].Some? ==> ClosesInDepth(found, n - 1)) && ClosesInDepthUpTo(found, n - 1))
  }

  lemma AgreementNext(found: Found, n: nat)
    requires n < |found| && Levelled(found) && Agrees(found, n)
    ensures Agrees(found, n + 1) <==> (found[n].Some? ==> ClosesInDepth(found, n))
  {
    if found[n].Some? {
      AgreementStep(found, n);
    }
  }

  lemma AgreementUpToNext(found: Found, n: nat)
    requires n < |found| && Levelled(found)
    ensures AgreesUpTo(found, n + 1) <==> AgreesUpTo(found, n) && (found[n].Some? ==> ClosesInDepth(found, n))
  {
    if AgreesUpTo(found, n) {
      AgreementNext(found, n);
    }
  }

  /** The path is the chain of enclosing headings on every line exactly when each heading closes only
    * headings that stand at least as deep in the path as its own level. */
  lemma {:induction false} PathsAreAncestors(found: Found, n: nat)
    requires n <= |found| && Levelled(found)
    ensures AgreesUpTo(found, n) <==> ClosesInDepthUpTo(found, n)
  {
    if n != 0 {
      PathsAreAncestors(found, n - 1);
      AgreementUpToNext(found, n - 1);
    } else {
      NothingToAgreeOn(found);
    }
  }

  lemma NothingToAgreeOn(found: Found)
    requires Levelled(found)
    ensures Agrees(found, 0)
  {
  }

  /** No heading is more than one level below the heading that encloses it. */
  ghost predicate NoLevelSkipped(found: Found) {
    forall i :: 0 <= i < |found| ==> FitsAt(found, i)
  }

  ghost predicate FitsAt(found: Found, i: nat)
    requires i < |found|
  {
    found[i].Some? ==>
      found[i].value.level <= |Below(found, Ancestors(found, i), |Ancestors(found, i)|, found[i].value.level)| + 1
  }

  ghost predicate LevelsAreDepths(found: Found, open: seq<nat>)
    requires AreHeadings(found, open)
  {
    forall k :: 0 <= k < |open| ==> found[open[k]].value.level == k + 1
  }

  lemma DepthStep(found: Found, open: seq<nat>, i: nat)
    requires AreHeadings(found, open) && Nested(found, open) && Levelled(found) && LevelsAreDepths(found, open)
    requires i < |found| && found[i].Some?
    requires found[i].value.level <= |Below(found, open, |open|, found[i].value.level)| + 1
    ensures LevelsAreDepths(found, Below(found, open, |open|, found[i].value.level) + [i])
  {
    KeptDepth(found, open, found[i].value.level);
  }

  lemma {:induction false} UnskippedLevelsAreDepths(found: Found, n: nat)
    requires n <= |found| && Levelled(found) && NoLevelSkipped(found)
    ensures LevelsAreDepths(found, Ancestors(found, n))
  {
    if n != 0 {
      UnskippedLevelsAreDepths(found, n - 1);
      assert FitsAt(found, n - 1);
      if found[n - 1].Some? {
        AncestorsAreNested(found, n - 1);
        DepthStep(found, Ancestors(found, n - 1), n - 1);
      }
    }
  }

  /** In a document whose headings never skip a level, every path is the chain of enclosing headings. */
  lemma OutlinesKeepTheirPaths(found: Found, n: nat)
    requires n <= |found| && Levelled(found) && NoLevelSkipped(found)
    ensures Agrees(found, n)
  {
    ClosesWhenUnskipped(found, n);
    PathsAreAncestors(found, n);
  }

  lemma {:induction false} ClosesWhenUnskipped(found: Found, n: nat)
    requires n <= |found| && Levelled(found) && NoLevelSkipped(found)
    ensures ClosesInDepthUpTo(found, n)
  {
    if n != 0 {
      ClosesWhenUnskipped(found, n - 1);
      UnskippedLevelsAreDepths(found, n - 1);
    }
  }

  /** Siblings below a skipped level nest under each other in the path. */
  lemma SkippedSiblingsNest(a: string, b: string, c: string)
    ensures var found := [Some(Heading(1, a)), Some(Heading(3, b)), Some(Heading(3, c))];
            Levelled(found) && PathAt(found, 3) == [a, b, c] && Texts(found, Ancestors(found, 3)) == [a, c]
  {
    var found := [Some(Heading(1, a)), Some(Heading(3, b)), Some(Heading(3, c))];
    assert PathAt(found, 1) == [a] && PathAt(found, 2) == [a, b];
    assert Ancestors(found, 1) == [0];
    assert Below(found, [0], 1, 3) == [0];
    assert Ancestors(found, 2) == [0, 1];
    assert Below(found, [0, 1], 1, 3) == [0];
    assert Below(found, [0, 1], 2, 3) == [0];
    assert Ancestors(found, 3) == [0, 2];
  }
}
