/** The chunker: sections by heading, protected ranges by line, and the window loop over a section. */
module Chunker {
  import opened Basics
  import opened Text
  import opened Wrappers
  import opened ChunkWindow
  import opened HeadingPaths

  /** First and last line, counted from 1. */
  type Lines = (nat, nat)

  datatype Content = Content(
    body: string,
    headings: seq<Heading>,
    codeBlocks: seq<Lines>,
    tables: seq<Lines>,
    listItems: seq<Lines>)

  datatype Config = Config(maxTokens: nat, overlapTokens: nat) {
    predicate Valid() {
      64 <= maxTokens && overlapTokens <= maxTokens
    }
  }

  datatype Section = Section(path: seq<string>, text: string, startLine: nat)

  datatype Piece = Piece(content: string, startLine: nat, endLine: nat)

  datatype Chunk = Chunk(ordinal: nat, path: seq<string>, piece: Piece)

  // ----------------------------------------------------------------- line offsets

  function StartOfLine(lines: seq<string>, k: nat): nat
    requires 1 <= k <= |lines|
  {
    Offset(lines, k - 1)
  }

  function LineStarts(lines: seq<string>): (m: map<nat, nat>)
    ensures forall k: nat :: k in m <==> 1 <= k <= |lines|
    ensures forall k: nat :: 1 <= k <= |lines| ==> m[k] == StartOfLine(lines, k)
  {
    map k: nat | 1 <= k <= |lines| :: StartOfLine(lines, k)
  }

  function LineToChar(text: string): map<nat, nat> {
    LineStarts(SplitLines(text))
  }

  method BuildLineToCharMap(text: string) returns (lineToChar: map<nat, nat>)
    ensures lineToChar == LineToChar(text)
  {
    lineToChar := map[];
    var lines := SplitLines(text);
    var charPos := 0;
    for k := 0 to |lines|
      invariant charPos == Offset(lines, k)
      invariant lineToChar == map i: nat | 1 <= i <= k :: StartOfLine(lines, i)
    {
      lineToChar := lineToChar[k + 1 := charPos];
      OffsetStep(lines, k);
      charPos := charPos + |lines[k]| + 1;
    }
  }

  function Get(m: map<nat, nat>, key: nat, default: nat): nat {
    if key in m then m[key] else default
  }

  /** The map sends the line of a position to the start of that line. */
  lemma LineToCharFinds(text: string, pos: nat)
    requires pos < |text|
    ensures LineNo(text, pos) + 1 in LineToChar(text)
    ensures LineToChar(text)[LineNo(text, pos) + 1] == LineStart(text, pos)
  {
    LineOfPosition(text, pos);
    LineMapAt(SplitLines(text), LineNo(text, pos));
  }

  lemma LineMapAt(lines: seq<string>, k: nat)
    requires k < |lines|
    ensures k + 1 in LineStarts(lines) && LineStarts(lines)[k + 1] == Offset(lines, k)
  {
    assert LineStarts(lines)[k + 1] == StartOfLine(lines, k + 1);
  }

  ghost predicate AtLineStart(text: string, i: int) {
    i == 0 || i == |text| || (0 < i < |text| && text[i - 1] == '\n')
  }

  lemma {:induction false} OffsetInText(text: string, from: nat, k: nat)
    requires from <= |text| && (from == 0 || text[from - 1] == '\n') && k < |LinesFrom(text, from)|
    ensures from + Offset(LinesFrom(text, from), k) < |text|
    ensures AtLineStart(text, from + Offset(LinesFrom(text, from), k))
    decreases |text| - from
  {
    if k > 0 {
      LinesFromStep(text, from);
      OffsetInText(text, NextBreak(text, from) + 1, k - 1);
    }
  }

  // ------------------------------------------------------------- protected ranges

  /** Where a line interval falls in the section that starts at line `sectionStart`, if it starts
    * there and is not empty. */
  function CharRange(text: string, sectionStart: nat, item: Lines): Option<Range> {
    var relStart, relEnd := item.0 - sectionStart + 1, item.1 - sectionStart + 1;
    if item.1 < sectionStart || item.0 > 1 + LineNo(text, |text|) + sectionStart - 1 then None
    else if relStart <= 0 || relEnd <= 0 then None
    else
      var r := Range(Get(LineToChar(text), relStart, 0), Get(LineToChar(text), relEnd + 1, |text|));
      if r.lo < r.hi then Some(r) else None
  }

  function CharRanges(text: string, sectionStart: nat, items: seq<Lines>): seq<Range> {
    if items == [] then []
    else
      var rest := CharRanges(text, sectionStart, items[..|items| - 1]);
      match CharRange(text, sectionStart, items[|items| - 1])
      case Some(r) => rest + [r]
      case None => rest
  }

  method AddRanges(text: string, sectionStart: nat, lineToChar: map<nat, nat>, items: seq<Lines>, ranges: seq<Range>)
    returns (extended: seq<Range>)
    requires lineToChar == LineToChar(text)
    ensures extended == ranges + CharRanges(text, sectionStart, items)
  {
    extended := ranges;
    var sectionRelEnd := 1 + LineNo(text, |text|);
    for k := 0 to |items|
      invariant extended == ranges + CharRanges(text, sectionStart, items[..k])
    {
      assert items[..k + 1][..k] == items[..k];
      var (itemStart, itemEnd) := items[k];
      if itemEnd < sectionStart || itemStart > sectionRelEnd + sectionStart - 1 {
        continue;
      }
      var relStart, relEnd := itemStart - sectionStart + 1, itemEnd - sectionStart + 1;
      if relStart <= 0 || relEnd <= 0 {
        continue;
      }
      var charStart := Get(lineToChar, relStart, 0);
      var charEnd := Get(lineToChar, relEnd + 1, |text|);
      if charStart < charEnd {
        extended := extended + [Range(charStart, charEnd)];
      }
    }
    assert items[..|items|] == items;
  }

  predicate Before(a: Range, b: Range) {
    a.lo < b.lo || (a.lo == b.lo && a.hi <= b.hi)
  }

  function InsertSorted(r: Range, sorted: seq<Range>): seq<Range> {
    if sorted == [] || Before(r, sorted[0]) then [r] + sorted
    else [sorted[0]] + InsertSorted(r, sorted[1..])
  }

  /** `ranges.sort()`. */
  function Sort(ranges: seq<Range>): seq<Range> {
    if ranges == [] then [] else InsertSorted(ranges[0], Sort(ranges[1..]))
  }

  lemma {:induction false} InsertSortedKeeps(r: Range, sorted: seq<Range>)
    ensures multiset(InsertSorted(r, sorted)) == multiset(sorted) + multiset{r}
    ensures (forall k :: 0 < k < |sorted| ==> Before(sorted[k - 1], sorted[k]))
            ==> forall k :: 0 < k < |InsertSorted(r, sorted)| ==>
                  Before(InsertSorted(r, sorted)[k - 1], InsertSorted(r, sorted)[k])
  {
    if sorted != [] && !Before(r, sorted[0]) {
      InsertSortedKeeps(r, sorted[1..]);
      assert sorted == [sorted[0]] + sorted[1..];
    }
  }

  lemma {:induction false} SortKeeps(ranges: seq<Range>)
    ensures multiset(Sort(ranges)) == multiset(ranges)
    ensures forall k :: 0 < k < |Sort(ranges)| ==> Before(Sort(ranges)[k - 1], Sort(ranges)[k])
  {
    if ranges != [] {
      SortKeeps(ranges[1..]);
      InsertSortedKeeps(ranges[0], Sort(ranges[1..]));
      assert ranges == [ranges[0]] + ranges[1..];
    }
  }

  function ProtectedRanges(text: string, sectionStart: nat, content: Content): seq<Range> {
    Sort(CharRanges(text, sectionStart, content.codeBlocks)
       + CharRanges(text, sectionStart, content.tables)
       + CharRanges(text, sectionStart, content.listItems))
  }

  method BuildProtectedRangesChar(text: string, content: Content, sectionStart: nat, lineToChar: map<nat, nat>)
    returns (ranges: seq<Range>)
    requires lineToChar == LineToChar(text)
    ensures ranges == ProtectedRanges(text, sectionStart, content)
  {
    ranges := AddRanges(text, sectionStart, lineToChar, content.codeBlocks, []);
    ranges := AddRanges(text, sectionStart, lineToChar, content.tables, ranges);
    ranges := AddRanges(text, sectionStart, lineToChar, content.listItems, ranges);
    assert [] + CharRanges(text, sectionStart, content.codeBlocks) == CharRanges(text, sectionStart, content.codeBlocks);
    ranges := Sort(ranges);
  }

  lemma {:induction false} CharRangesInText(text: string, sectionStart: nat, items: seq<Lines>)
    ensures forall k :: 0 <= k < |CharRanges(text, sectionStart, items)| ==>
              CharRanges(text, sectionStart, items)[k].lo < CharRanges(text, sectionStart, items)[k].hi <= |text|
  {
    if items != [] {
      var item := items[|items| - 1];
      CharRangesInText(text, sectionStart, items[..|items| - 1]);
      var lines := SplitLines(text);
      if sectionStart <= item.1 + 1 && item.1 - sectionStart + 1 < |lines| {
        OffsetInText(text, 0, item.1 - sectionStart + 1);
      }
    }
  }

  lemma MembersInText(text: string, ranges: seq<Range>, sorted: seq<Range>)
    requires forall k :: 0 <= k < |ranges| ==> ranges[k].lo < ranges[k].hi <= |text|
    requires sorted == Sort(ranges)
    ensures forall k :: 0 <= k < |sorted| ==> sorted[k].lo < sorted[k].hi <= |text|
  {
    SortKeeps(ranges);
    forall k | 0 <= k < |sorted| ensures sorted[k].lo < sorted[k].hi <= |text| {
      assert sorted[k] in multiset(sorted);
      assert sorted[k] in ranges;
    }
  }

  lemma ProtectedRangesInText(text: string, sectionStart: nat, content: Content)
    ensures forall k :: 0 <= k < |ProtectedRanges(text, sectionStart, content)| ==>
              ProtectedRanges(text, sectionStart, content)[k].lo < ProtectedRanges(text, sectionStart, content)[k].hi <= |text|
  {
    var all := CharRanges(text, sectionStart, content.codeBlocks)
             + CharRanges(text, sectionStart, content.tables)
             + CharRanges(text, sectionStart, content.listItems);
    CharRangesInText(text, sectionStart, content.codeBlocks);
    CharRangesInText(text, sectionStart, content.tables);
    CharRangesInText(text, sectionStart, content.listItems);
    MembersInText(text, all, Sort(all));
  }

  /** Intervals in order, none touching the next one's first line. */
  ghost predicate InOrder(items: seq<Lines>) {
    && (forall k :: 0 <= k < |items| ==> 1 <= items[k].0 <= items[k].1)
    && (forall a, b :: 0 <= a < b < |items| ==> items[a].1 < items[b].0)
  }

  /** An interval that starts in the section starts on one of its lines. */
  ghost predicate StartsOnLine(text: string, sectionStart: nat, item: Lines) {
    text != "" && sectionStart <= item.0 <= sectionStart + LineNo(text, |text|) ==>
      item.0 - sectionStart < |SplitLines(text)|
  }

  lemma {:induction false} OffsetMonotone(lines: seq<string>, a: nat, b: nat)
    requires a <= b <= |lines|
    ensures Offset(lines, a) <= Offset(lines, b)
    decreases b
  {
    if a < b {
      OffsetMonotone(lines, a, b - 1);
      OffsetStep(lines, b - 1);
    }
  }

  lemma CharRangeAt(text: string, sectionStart: nat, item: Lines)
    requires 1 <= item.0 <= item.1 && StartsOnLine(text, sectionStart, item)
    requires CharRange(text, sectionStart, item).Some?
    ensures var r, lines := CharRange(text, sectionStart, item).value, SplitLines(text);
            && sectionStart <= item.0 && item.0 - sectionStart < |lines|
            && r.lo == Offset(lines, item.0 - sectionStart)
            && r.hi == (if item.1 - sectionStart + 1 < |lines| then Offset(lines, item.1 - sectionStart + 1) else |text|)
  {
    LineMapAt(SplitLines(text), item.0 - sectionStart);
    if item.1 - sectionStart + 1 < |SplitLines(text)| {
      LineMapAt(SplitLines(text), item.1 - sectionStart + 1);
    }
  }

  /** The range runs from the first of the interval's lines to the end of its last one in the text. */
  ghost predicate RangeOfLines(text: string, sectionStart: nat, item: Lines, r: Range) {
    var lines := SplitLines(text);
    && sectionStart <= item.0 <= item.1 && item.0 - sectionStart < |lines| && r.lo < r.hi
    && r.lo == Offset(lines, item.0 - sectionStart)
    && r.hi == if item.1 - sectionStart + 1 < |lines| then Offset(lines, item.1 - sectionStart + 1) else |text|
  }

  lemma RangeIsOfLines(text: string, sectionStart: nat, item: Lines, r: Range)
    requires 1 <= item.0 <= item.1 && StartsOnLine(text, sectionStart, item)
    requires CharRange(text, sectionStart, item) == Some(r)
    ensures RangeOfLines(text, sectionStart, item, r)
  {
    CharRangeAt(text, sectionStart, item);
  }

  lemma {:induction false} CharRangeOrigin(text: string, sectionStart: nat, items: seq<Lines>, k: nat) returns (i: nat)
    requires k < |CharRanges(text, sectionStart, items)|
    ensures i < |items| && CharRange(text, sectionStart, items[i]) == Some(CharRanges(text, sectionStart, items)[k])
  {
    var init := items[..|items| - 1];
    if k < |CharRanges(text, sectionStart, init)| {
      i := CharRangeOrigin(text, sectionStart, init, k);
    } else {
      i := |items| - 1;
    }
  }

  /** Each range ends before the later ones begin. */
  ghost predicate Apart(ranges: seq<Range>) {
    forall a, b :: 0 <= a < b < |ranges| ==> ranges[a].hi <= ranges[b].lo
  }

  lemma CharRangeCuts(text: string, sectionStart: nat, item: Lines)
    requires 1 <= item.0 <= item.1 && StartsOnLine(text, sectionStart, item)
    requires CharRange(text, sectionStart, item).Some?
    ensures AtLineStart(text, CharRange(text, sectionStart, item).value.lo)
    ensures AtLineStart(text, CharRange(text, sectionStart, item).value.hi)
  {
    CharRangeAt(text, sectionStart, item);
    OffsetInText(text, 0, item.0 - sectionStart);
    if item.1 - sectionStart + 1 < |SplitLines(text)| {
      OffsetInText(text, 0, item.1 - sectionStart + 1);
    }
  }

  lemma CharRangesApart(text: string, sectionStart: nat, x: Lines, y: Lines)
    requires 1 <= x.0 <= x.1 < y.0 <= y.1
    requires StartsOnLine(text, sectionStart, x) && StartsOnLine(text, sectionStart, y)
    requires CharRange(text, sectionStart, x).Some? && CharRange(text, sectionStart, y).Some?
    ensures CharRange(text, sectionStart, x).value.hi <= CharRange(text, sectionStart, y).value.lo
  {
    CharRangeAt(text, sectionStart, x);
    CharRangeAt(text, sectionStart, y);
    OffsetMonotone(SplitLines(text), x.1 - sectionStart + 1, y.0 - sectionStart);
  }

  /** Ordered line intervals become ordered, disjoint character ranges, cut at line starts. */
  lemma {:induction false} CharRangesInOrder(text: string, sectionStart: nat, items: seq<Lines>)
    requires InOrder(items) && forall k :: 0 <= k < |items| ==> StartsOnLine(text, sectionStart, items[k])
    ensures var rs := CharRanges(text, sectionStart, items);
            && Apart(rs)
            && (forall a :: 0 <= a < |rs| ==> AtLineStart(text, rs[a].lo) && AtLineStart(text, rs[a].hi))
  {
    var rs := CharRanges(text, sectionStart, items);
    if items == [] { return; }
    var init, last := items[..|items| - 1], items[|items| - 1];
    CharRangesInOrder(text, sectionStart, init);
    if CharRange(text, sectionStart, last).None? {
      assert rs == CharRanges(text, sectionStart, init);
      return;
    }
    CharRangeCuts(text, sectionStart, last);
    forall a | 0 <= a < |rs| - 1 ensures rs[a].hi <= rs[|rs| - 1].lo {
      var i := CharRangeOrigin(text, sectionStart, init, a);
      CharRangesApart(text, sectionStart, items[i], last);
    }
  }

  lemma {:induction false} SortedAlready(ranges: seq<Range>)
    requires forall k :: 0 <= k < |ranges| ==> ranges[k].lo < ranges[k].hi
    requires Apart(ranges)
    ensures Sort(ranges) == ranges
  {
    if ranges != [] {
      SortedAlready(ranges[1..]);
      if |ranges| > 1 {
        assert ranges[0].lo < ranges[0].hi <= ranges[1].lo;
      }
    }
  }

  /** Text that does not end in a break has a line for every break, and one more. */
  lemma StartsOnLineUnlessBreakEnds(text: string, sectionStart: nat, item: Lines)
    requires text == "" || text[|text| - 1] != '\n'
    ensures StartsOnLine(text, sectionStart, item)
  {
    if text != "" {
      LineOfPosition(text, |text| - 1);
    }
  }

  // --------------------------------------------------- when protected ranges are disjoint

  ghost predicate InSection(text: string, sectionStart: nat, item: Lines) {
    sectionStart <= item.0 < sectionStart + |SplitLines(text)|
  }

  /** The intervals that start in a section are those that get a range there. */
  lemma CharRangeIff(text: string, sectionStart: nat, item: Lines)
    requires 1 <= item.0 <= item.1 && StartsOnLine(text, sectionStart, item)
    ensures CharRange(text, sectionStart, item).Some? <==> InSection(text, sectionStart, item)
  {
    var lines := SplitLines(text);
    if InSection(text, sectionStart, item) {
      var k, l := item.0 - sectionStart, item.1 - sectionStart + 1;
      var p := LineIs(text, k, 0);
      LineNoMonotone(text, Offset(lines, k), |text|);
      LineMapAt(lines, k);
      OffsetInText(text, 0, k);
      if l < |lines| {
        LineMapAt(lines, l);
        OffsetMonotone(lines, k + 1, l);
        OffsetStep(lines, k);
      }
    } else if CharRange(text, sectionStart, item).Some? {
      CharRangeAt(text, sectionStart, item);
    }
  }

  ghost predicate RangesApart(r: Range, s: Range) {
    r.hi <= s.lo || s.hi <= r.lo
  }

  ghost predicate LinesApart(x: Lines, y: Lines) {
    x.1 < y.0 || y.1 < x.0
  }

  /** Two intervals that start in a section share a line exactly if their ranges overlap. */
  lemma ApartIff(text: string, sectionStart: nat, x: Lines, y: Lines)
    requires 1 <= x.0 <= x.1 && 1 <= y.0 <= y.1
    requires StartsOnLine(text, sectionStart, x) && StartsOnLine(text, sectionStart, y)
    requires CharRange(text, sectionStart, x).Some? && CharRange(text, sectionStart, y).Some?
    ensures LinesApart(x, y)
       <==> RangesApart(CharRange(text, sectionStart, x).value, CharRange(text, sectionStart, y).value)
  {
    if x.1 < y.0 {
      CharRangesApart(text, sectionStart, x, y);
    } else if y.1 < x.0 {
      CharRangesApart(text, sectionStart, y, x);
    } else {
      Overlap(text, sectionStart, x, y);
      Overlap(text, sectionStart, y, x);
    }
  }

  lemma Overlap(text: string, sectionStart: nat, x: Lines, y: Lines)
    requires 1 <= x.0 <= x.1 && 1 <= y.0 <= y.1 && y.0 <= x.1
    requires StartsOnLine(text, sectionStart, x) && StartsOnLine(text, sectionStart, y)
    requires CharRange(text, sectionStart, x).Some? && CharRange(text, sectionStart, y).Some?
    ensures CharRange(text, sectionStart, y).value.lo < CharRange(text, sectionStart, x).value.hi
  {
    var lines := SplitLines(text);
    CharRangeAt(text, sectionStart, x);
    CharRangeAt(text, sectionStart, y);
    var k, l := y.0 - sectionStart, x.1 - sectionStart + 1;
    OffsetInText(text, 0, k);
    if l < |lines| {
      OffsetMonotone(lines, k + 1, l);
      OffsetStep(lines, k);
    }
  }

  ghost predicate AllApart(rs: seq<Range>, ss: seq<Range>) {
    forall a, b :: 0 <= a < |rs| && 0 <= b < |ss| ==> RangesApart(rs[a], ss[b])
  }

  lemma DisjointConcat(rs: seq<Range>, ss: seq<Range>)
    ensures Disjoint(rs + ss) <==> Disjoint(rs) && Disjoint(ss) && AllApart(rs, ss)
  {
    var all, n := rs + ss, |rs|;
    if Disjoint(all) {
      forall a, b | 0 <= a < |ss| && 0 <= b < |ss| && a != b ensures RangesApart(ss[a], ss[b]) {
        assert all[n + a] == ss[a] && all[n + b] == ss[b];
      }
      forall a, b | 0 <= a < |rs| && 0 <= b < |rs| && a != b ensures RangesApart(rs[a], rs[b]) {
        assert all[a] == rs[a] && all[b] == rs[b];
      }
      forall a, b | 0 <= a < |rs| && 0 <= b < |ss| ensures RangesApart(rs[a], ss[b]) {
        assert all[a] == rs[a] && all[n + b] == ss[b];
      }
    }
  }

  ghost predicate ApartFrom(r: Range, ss: seq<Range>) {
    forall s :: s in ss ==> RangesApart(r, s)
  }

  lemma DisjointCons(r: Range, ss: seq<Range>)
    ensures Disjoint([r] + ss) <==> Disjoint(ss) && ApartFrom(r, ss)
  {
    DisjointConcat([r], ss);
    if ApartFrom(r, ss) {
      assert forall b :: 0 <= b < |ss| ==> ss[b] in ss;
    }
    if AllApart([r], ss) {
      forall s | s in ss ensures RangesApart(r, s) {
        var b :| 0 <= b < |ss| && ss[b] == s;
        assert RangesApart([r][0], ss[b]);
      }
    }
  }

  lemma InsertedAfter(r: Range, first: Range, rest: seq<Range>, inserted: seq<Range>)
    requires multiset(inserted) == multiset(rest) + multiset{r}
    requires Disjoint(inserted) <==> Disjoint([r] + rest)
    ensures Disjoint([first] + inserted) <==> Disjoint([r] + ([first] + rest))
  {
    DisjointCons(first, inserted);
    DisjointCons(r, rest);
    DisjointCons(r, [first] + rest);
    DisjointCons(first, rest);
    assert forall s :: s in inserted <==> s in multiset(inserted);
    assert forall s :: s in rest <==> s in multiset(rest);
    assert ApartFrom(first, inserted) <==> ApartFrom(first, rest) && RangesApart(first, r);
    assert first in [first] + rest;
    assert ApartFrom(r, [first] + rest) <==> ApartFrom(r, rest) && RangesApart(r, first);
  }

  lemma {:induction false} InsertKeepsDisjoint(r: Range, sorted: seq<Range>)
    ensures Disjoint(InsertSorted(r, sorted)) <==> Disjoint([r] + sorted)
  {
    if sorted != [] && !Before(r, sorted[0]) {
      var first, rest := sorted[0], sorted[1..];
      InsertKeepsDisjoint(r, rest);
      InsertSortedKeeps(r, rest);
      InsertedAfter(r, first, rest, InsertSorted(r, rest));
      assert sorted == [first] + rest;
    }
  }

  lemma {:induction false} SortKeepsDisjoint(ranges: seq<Range>)
    ensures Disjoint(Sort(ranges)) <==> Disjoint(ranges)
  {
    if ranges != [] {
      var first, rest := ranges[0], ranges[1..];
      SortKeepsDisjoint(rest);
      SortKeeps(rest);
      InsertKeepsDisjoint(first, Sort(rest));
      DisjointCons(first, Sort(rest));
      DisjointCons(first, rest);
      assert forall s :: s in Sort(rest) <==> s in multiset(Sort(rest));
      assert forall s :: s in rest <==> s in multiset(rest);
      assert ranges == [first] + rest;
    }
  }

  /** No two intervals of the two lists that start in the section share a line. */
  ghost predicate ListsApart(text: string, sectionStart: nat, xs: seq<Lines>, ys: seq<Lines>) {
    forall x, y :: x in xs && y in ys && InSection(text, sectionStart, x) && InSection(text, sectionStart, y) ==>
      LinesApart(x, y)
  }

  /** Ordered intervals that each start on a line of the section, if they start in it at all. */
  ghost predicate Placed(text: string, sectionStart: nat, items: seq<Lines>) {
    InOrder(items) && forall k :: 0 <= k < |items| ==> StartsOnLine(text, sectionStart, items[k])
  }

  lemma {:induction false} CharRangeOf(text: string, sectionStart: nat, items: seq<Lines>, i: nat) returns (k: nat)
    requires i < |items| && CharRange(text, sectionStart, items[i]).Some?
    ensures k < |CharRanges(text, sectionStart, items)|
    ensures CharRanges(text, sectionStart, items)[k] == CharRange(text, sectionStart, items[i]).value
  {
    if i < |items| - 1 {
      k := CharRangeOf(text, sectionStart, items[..|items| - 1], i);
    } else {
      k := |CharRanges(text, sectionStart, items)| - 1;
    }
  }

  lemma ListsApartIff(text: string, sectionStart: nat, xs: seq<Lines>, ys: seq<Lines>)
    requires Placed(text, sectionStart, xs) && Placed(text, sectionStart, ys)
    ensures ListsApart(text, sectionStart, xs, ys)
       <==> AllApart(CharRanges(text, sectionStart, xs), CharRanges(text, sectionStart, ys))
  {
    var rs, ss := CharRanges(text, sectionStart, xs), CharRanges(text, sectionStart, ys);
    if ListsApart(text, sectionStart, xs, ys) {
      forall a, b | 0 <= a < |rs| && 0 <= b < |ss| ensures RangesApart(rs[a], ss[b]) {
        var i := CharRangeOrigin(text, sectionStart, xs, a);
        var j := CharRangeOrigin(text, sectionStart, ys, b);
        CharRangeIff(text, sectionStart, xs[i]);
        CharRangeIff(text, sectionStart, ys[j]);
        ApartIff(text, sectionStart, xs[i], ys[j]);
      }
    }
    if AllApart(rs, ss) {
      forall x, y | x in xs && y in ys && InSection(text, sectionStart, x) && InSection(text, sectionStart, y)
        ensures LinesApart(x, y)
      {
        var i: nat :| i < |xs| && xs[i] == x;
        var j: nat :| j < |ys| && ys[j] == y;
        CharRangeIff(text, sectionStart, x);
        CharRangeIff(text, sectionStart, y);
        var a := CharRangeOf(text, sectionStart, xs, i);
        var b := CharRangeOf(text, sectionStart, ys, j);
        assert RangesApart(rs[a], ss[b]);
        ApartIff(text, sectionStart, x, y);
      }
    }
  }

  lemma OrderedAreDisjoint(text: string, sectionStart: nat, items: seq<Lines>)
    requires Placed(text, sectionStart, items)
    ensures Disjoint(CharRanges(text, sectionStart, items))
  {
    CharRangesInOrder(text, sectionStart, items);
  }

  /** The protected ranges of a section are disjoint exactly when no two intervals of different categories
    * that start in it share a line. */
  lemma RangesDisjointIff(text: string, sectionStart: nat, content: Content)
    requires Placed(text, sectionStart, content.codeBlocks) && Placed(text, sectionStart, content.tables)
    requires Placed(text, sectionStart, content.listItems)
    ensures Disjoint(ProtectedRanges(text, sectionStart, content))
       <==> && ListsApart(text, sectionStart, content.codeBlocks, content.tables)
            && ListsApart(text, sectionStart, content.codeBlocks, content.listItems)
            && ListsApart(text, sectionStart, content.tables, content.listItems)
  {
    var xs, ys, zs := content.codeBlocks, content.tables, content.listItems;
    var rs, ss := CharRanges(text, sectionStart, xs), CharRanges(text, sectionStart, ys);
    var ts := CharRanges(text, sectionStart, zs);
    OrderedAreDisjoint(text, sectionStart, xs);
    OrderedAreDisjoint(text, sectionStart, ys);
    OrderedAreDisjoint(text, sectionStart, zs);
    ListsApartIff(text, sectionStart, xs, ys);
    ListsApartIff(text, sectionStart, xs, zs);
    ListsApartIff(text, sectionStart, ys, zs);
    SortKeepsDisjoint(rs + ss + ts);
    DisjointConcat(rs + ss, ts);
    DisjointConcat(rs, ss);
    ApartConcat(rs, ss, ts);
  }

  lemma ApartConcat(rs: seq<Range>, ss: seq<Range>, ts: seq<Range>)
    ensures AllApart(rs + ss, ts) <==> AllApart(rs, ts) && AllApart(ss, ts)
  {
    if AllApart(rs + ss, ts) {
      forall a, b | 0 <= a < |ss| && 0 <= b < |ts| ensures RangesApart(ss[a], ts[b]) {
        assert (rs + ss)[|rs| + a] == ss[a];
      }
      forall a, b | 0 <= a < |rs| && 0 <= b < |ts| ensures RangesApart(rs[a], ts[b]) {
        assert (rs + ss)[a] == rs[a];
      }
    }
  }

  // ------------------------------------------------------------------ one section

  method FindSafeEnd(target: nat, ranges: seq<Range>, start: nat, prevEnd: Option<nat>) returns (end: Option<nat>)
    ensures end == SafeEnd(ranges, 0, target, start, prevEnd)
  {
    for k := 0 to |ranges|
      invariant SafeEnd(ranges, 0, target, start, prevEnd) == SafeEnd(ranges, k, target, start, prevEnd)
    {
      var r := ranges[k];
      if r.lo > start && r.lo < target {
        return Some(if prevEnd == Some(r.lo) then r.hi else r.lo);
      }
      if r.lo <= start <= r.hi && r.hi > target {
        return Some(r.hi);
      }
      if r.lo < target <= r.hi {
        return Some(r.lo);
      }
    }
    end := None;
  }

  method SkipRange(ranges: seq<Range>, next: nat) returns (after: nat)
    ensures after == Jump(ranges, 0, next)
  {
    for k := 0 to |ranges|
      invariant Jump(ranges, 0, next) == Jump(ranges, k, next)
    {
      if ranges[k].lo < next < ranges[k].hi {
        return ranges[k].hi;
      }
    }
    after := next;
  }

  function EstimateTokens(text: string): nat {
    |text| / 4
  }

  function JobFor(config: Config, text: string, sectionStart: nat, content: Content): Job {
    Job(text, 4 * config.maxTokens, 4 * config.overlapTokens, ProtectedRanges(text, sectionStart, content))
  }

  lemma JobIsValid(config: Config, text: string, sectionStart: nat, content: Content)
    requires config.Valid()
    ensures ValidJob(JobFor(config, text, sectionStart, content))
  {
    ProtectedRangesInText(text, sectionStart, content);
  }

  /** The windows of a section: none for blank text, the whole text when it fits, else the loop's. */
  function Spans(config: Config, text: string, sectionStart: nat, content: Content): (spans: seq<Span>)
    requires config.Valid()
    ensures forall k :: 0 <= k < |spans| ==> ValidSpan(text, spans[k])
  {
    JobIsValid(config, text, sectionStart, content);
    if Blank(text) then []
    else if EstimateTokens(text) <= config.maxTokens then
      assert text[0..|text|] == text;
      [Span(0, |text|)]
    else Run(JobFor(config, text, sectionStart, content), ORIGIN)
  }

  /** A chunk as reported: its text and its first and last line. The section that fits is reported
    * to the last line of the unstripped text, a window only to the last line it keeps. */
  function PieceOf(config: Config, text: string, sectionStart: nat, s: Span): Piece
    requires ValidSpan(text, s)
  {
    Piece(Strip(text[s.start..s.end]),
          sectionStart + LineNo(text, s.start),
          sectionStart + if EstimateTokens(text) <= config.maxTokens then LineNo(text, |text|)
                         else LineNo(text, ContentEnd(text, s)))
  }

  function PiecesOf(config: Config, text: string, sectionStart: nat, spans: seq<Span>): seq<Piece>
    requires forall k :: 0 <= k < |spans| ==> ValidSpan(text, spans[k])
  {
    seq(|spans|, k requires 0 <= k < |spans| => PieceOf(config, text, sectionStart, spans[k]))
  }

  lemma PiecesSnoc(config: Config, text: string, sectionStart: nat, spans: seq<Span>, s: Span)
    requires ValidSpan(text, s) && forall k :: 0 <= k < |spans| ==> ValidSpan(text, spans[k])
    ensures PiecesOf(config, text, sectionStart, spans + [s])
         == PiecesOf(config, text, sectionStart, spans) + [PieceOf(config, text, sectionStart, s)]
  {
  }

  /** The chunks of one section. */
  method ChunkText(text: string, sectionStart: nat, config: Config, content: Content) returns (pieces: seq<Piece>)
    requires config.Valid()
    ensures pieces == PiecesOf(config, text, sectionStart, Spans(config, text, sectionStart, content))
  {
    if Strip(text) == "" {
      StripEmptyIffBlank(text);
      return [];
    }
    StripEmptyIffBlank(text);
    if EstimateTokens(text) <= config.maxTokens {
      assert text[0..|text|] == text;
      return [Piece(Strip(text), sectionStart, sectionStart + LineNo(text, |text|))];
    }
    var lineToChar := BuildLineToCharMap(text);
    var ranges := BuildProtectedRangesChar(text, content, sectionStart, lineToChar);
    pieces := SlideWindow(text, sectionStart, config, content, lineToChar, ranges);
  }

  /** The loop over a section that does not fit into one chunk. */
  method SlideWindow(text: string, sectionStart: nat, config: Config, ghost content: Content,
                     lineToChar: map<nat, nat>, ranges: seq<Range>)
    returns (pieces: seq<Piece>)
    requires config.Valid() && config.maxTokens < EstimateTokens(text) && !Blank(text)
    requires lineToChar == LineToChar(text) && ranges == ProtectedRanges(text, sectionStart, content)
    ensures pieces == PiecesOf(config, text, sectionStart, Spans(config, text, sectionStart, content))
  {
    var textLen := |text|;
    var estimatedChars := 4 * config.maxTokens;
    var overlapChars := 4 * config.overlapTokens;
    ghost var j := JobFor(config, text, sectionStart, content);
    JobIsValid(config, text, sectionStart, content);

    pieces := [];
    var start := 0;
    var prevEnd: Option<nat> := None;
    ghost var c := ORIGIN;
    while start < textLen
      invariant ValidCursor(j, c) && c.start == start && prevEnd == PrevEnd(c.spans)
      invariant pieces == PiecesOf(config, text, sectionStart, c.spans)
      invariant Run(j, c) == Run(j, ORIGIN)
      decreases textLen - start
    {
      var end := CloseWindow(j, c, textLen, ranges, start, estimatedChars, prevEnd);
      var piece := Report(config, text, sectionStart, start, end);
      ghost var d := Step(j, c);
      StepShape(j, c);
      if piece.None? {
        start, c := Min(start + 1, textLen), d;
        continue;
      }
      pieces := pieces + [piece.value];
      PiecesSnoc(config, text, sectionStart, c.spans, Span(start, end));
      prevEnd := Some(end);
      if end >= textLen {
        start, c := textLen, d;
        break;
      }
      var nextStart := Reopen(config, text, sectionStart, overlapChars, lineToChar, pieces, start, end, j, d.spans);
      nextStart := SkipRange(ranges, nextStart);
      start, c := Min(nextStart, textLen), d;
    }
  }

  lemma StepShape(j: Job, c: Cursor)
    requires ValidJob(j) && ValidCursor(j, c) && c.start < |j.text|
    ensures var d := Step(j, c);
            && Run(j, c) == Run(j, d) && ValidCursor(j, d)
            && c.start < WindowEnd(j, c) <= |j.text|
            && if Blank(j.text[c.start..WindowEnd(j, c)]) then d == Cursor(c.start + 1, c.spans)
               else
                 && d.spans == c.spans + [Span(c.start, WindowEnd(j, c))]
                 && d.start == if WindowEnd(j, c) >= |j.text| then |j.text|
                               else Min(Jump(j.ranges, 0, Retreat(j, c.start, d.spans)), |j.text|)
  {
    WindowEndBounds(j, c);
  }

  /** What is reported of a window, if it holds more than white space. */
  method Report(config: Config, text: string, sectionStart: nat, start: nat, end: nat) returns (piece: Option<Piece>)
    requires config.maxTokens < EstimateTokens(text) && start < end <= |text|
    ensures piece.None? <==> Blank(text[start..end])
    ensures piece.Some? ==> piece.value == PieceOf(config, text, sectionStart, Span(start, end))
  {
    var chunkText := Strip(text[start..end]);
    StripEmptyIffBlank(text[start..end]);
    if chunkText == "" {
      return None;
    }
    var contentEnd := start + BodyLength(text[start..end]);
    piece := Some(Piece(chunkText, sectionStart + LineNo(text, start), sectionStart + LineNo(text, contentEnd)));
  }

  /** Where the next window would start, before the protected ranges are looked at. */
  method Reopen(config: Config, text: string, sectionStart: nat, overlapChars: nat, lineToChar: map<nat, nat>,
                pieces: seq<Piece>, start: nat, end: nat, ghost j: Job, ghost spans: seq<Span>)
    returns (nextStart: nat)
    requires config.maxTokens < EstimateTokens(text) && lineToChar == LineToChar(text)
    requires j.text == text && j.overlap == overlapChars
    requires forall k :: 0 <= k < |spans| ==> ValidSpan(text, spans[k])
    requires pieces == PiecesOf(config, text, sectionStart, spans)
    requires spans != [] && spans[|spans| - 1] == Span(start, end)
    ensures nextStart == Retreat(j, start, spans)
  {
    var next: int := end - overlapChars;
    if |pieces| > 1 {
      var prevStartChar := PrevStartChar(config, text, sectionStart, lineToChar, pieces, spans);
      next := Max(next, prevStartChar + 1);
    }
    nextStart := Max(next, start + 1);
  }

  method PrevStartChar(config: Config, text: string, sectionStart: nat, lineToChar: map<nat, nat>,
                       pieces: seq<Piece>, ghost spans: seq<Span>)
    returns (lineStart: nat)
    requires config.maxTokens < EstimateTokens(text) && lineToChar == LineToChar(text)
    requires forall k :: 0 <= k < |spans| ==> ValidSpan(text, spans[k])
    requires |pieces| > 1 && pieces == PiecesOf(config, text, sectionStart, spans)
    ensures lineStart == KeptLine(text, spans, |spans| - 2)
  {
    PieceEndsOnLine(config, text, sectionStart, lineToChar, pieces, spans, |spans| - 2);
    lineStart := Get(lineToChar, pieces[|pieces| - 2].endLine - sectionStart + 1, 0);
  }

  lemma PieceEndsOnLine(config: Config, text: string, sectionStart: nat, lineToChar: map<nat, nat>, pieces: seq<Piece>,
                        spans: seq<Span>, k: nat)
    requires config.maxTokens < EstimateTokens(text) && k < |spans| && lineToChar == LineToChar(text)
    requires forall i :: 0 <= i < |spans| ==> ValidSpan(text, spans[i])
    requires pieces == PiecesOf(config, text, sectionStart, spans)
    ensures sectionStart <= pieces[k].endLine
    ensures Get(lineToChar, pieces[k].endLine - sectionStart + 1, 0) == KeptLine(text, spans, k)
  {
    LineOfEnd(text, spans[k]);
    assert pieces[k] == PieceOf(config, text, sectionStart, spans[k]);
  }

  /** Where the window that starts at `start` ends: the top of the loop. */
  method CloseWindow(ghost j: Job, ghost c: Cursor, textLen: nat, ranges: seq<Range>, start: nat, estimatedChars: nat,
                     prevEnd: Option<nat>)
    returns (end: nat)
    requires ValidJob(j) && start < |j.text| && c.start == start && prevEnd == PrevEnd(c.spans)
    requires |j.text| == textLen && j.ranges == ranges && j.budget == estimatedChars
    ensures end == WindowEnd(j, c) && start < end <= |j.text|
  {
    WindowEndBounds(j, c);
    var target := Min(start + estimatedChars, textLen);
    var safeEnd := FindSafeEnd(target, ranges, start, prevEnd);
    end := match safeEnd case Some(e) => e case None => target;
    if end <= start {
      end := Min(start + 1, textLen);
    }
  }

  /** The line on which a window's kept text ends is in the map, with its own start. */
  lemma LineOfEnd(text: string, s: Span)
    requires ValidSpan(text, s)
    ensures Get(LineToChar(text), LineNo(text, ContentEnd(text, s)) + 1, 0) == LineStart(text, ContentEnd(text, s))
  {
    var e := ContentEnd(text, s);
    LineToCharFinds(text, e - 1);
  }

  // -------------------------------------------------------------- reported lines

  /** Every kept character lies on a reported line, and the reported interval is tight: the last
    * line is the last kept character's, the first line the first kept one's unless the window opens
    * with a line break. */
  lemma LinesEnclose(config: Config, text: string, sectionStart: nat, s: Span, i: nat)
    requires ValidSpan(text, s) && Kept(text, s, i) && EstimateTokens(text) > config.maxTokens
    ensures var p := PieceOf(config, text, sectionStart, s);
            && p.startLine <= sectionStart + LineNo(text, i) <= p.endLine
            && p.endLine == sectionStart + LineNo(text, ContentEnd(text, s) - 1)
            && (p.startLine == sectionStart + LineNo(text, ContentStart(text, s))
                <==> forall k :: s.start <= k < ContentStart(text, s) ==> text[k] != '\n')
  {
    var e, b := ContentEnd(text, s), ContentStart(text, s);
    LineNoMonotone(text, s.start, i);
    LineNoMonotone(text, i, e - 1);
    LineNoMonotone(text, s.start, b);
  }

  lemma FittingKeepsText(config: Config, text: string, sectionStart: nat, content: Content)
    requires config.Valid() && (EstimateTokens(text) <= config.maxTokens || Blank(text))
    ensures forall i :: Visible(text, i) ==> Covered(text, Spans(config, text, sectionStart, content), i)
  {
    if !Blank(text) {
      assert text[0..|text|] == text;
      forall i | Visible(text, i) ensures Covered(text, [Span(0, |text|)], i) {
        KeptIffInside(text, [Span(0, |text|)][0], i);
      }
    }
  }

  lemma BlankRounds(j: Job)
    requires Blank(j.text)
    ensures forall d :: !EdgeLoses(j, d)
  {
  }

  /** A section keeps all its visible text exactly when it fits into one chunk or no round of its
    * window loop meets the edge case. */
  lemma SectionCoverage(config: Config, text: string, sectionStart: nat, content: Content)
    requires config.Valid()
    requires EstimateTokens(text) <= config.maxTokens || Disjoint(ProtectedRanges(text, sectionStart, content))
    ensures ValidJob(JobFor(config, text, sectionStart, content))
    ensures (forall i :: Visible(text, i) ==> Covered(text, Spans(config, text, sectionStart, content), i))
       <==> (|| EstimateTokens(text) <= config.maxTokens
             || forall d :: d in Rounds(JobFor(config, text, sectionStart, content), ORIGIN) ==>
                  !EdgeLoses(JobFor(config, text, sectionStart, content), d))
  {
    var j := JobFor(config, text, sectionStart, content);
    JobIsValid(config, text, sectionStart, content);
    if EstimateTokens(text) <= config.maxTokens || Blank(text) {
      FittingKeepsText(config, text, sectionStart, content);
      if Blank(text) {
        BlankRounds(j);
      }
    } else {
      DisjointCoverage(j);
      assert Spans(config, text, sectionStart, content) == Run(j, ORIGIN);
    }
  }

  /** No chunk of a section starts or ends strictly inside a protected range exactly when the section fits
    * into one chunk or in no round of its window loop a range ends at the budget and goes on behind the
    * window's first character. Then the section keeps all its visible text. */
  lemma SectionCuts(config: Config, text: string, sectionStart: nat, content: Content)
    requires config.Valid() && Disjoint(ProtectedRanges(text, sectionStart, content))
    requires AllHoldVisible(JobFor(config, text, sectionStart, content))
    ensures ValidJob(JobFor(config, text, sectionStart, content))
    ensures var j := JobFor(config, text, sectionStart, content);
            && (CutsNothing(j, Spans(config, text, sectionStart, content))
                <==> EstimateTokens(text) <= config.maxTokens || forall d :: d in Rounds(j, ORIGIN) ==> !EdgeCuts(j, d))
            && (CutsNothing(j, Spans(config, text, sectionStart, content)) ==>
                  forall i :: Visible(text, i) ==> Covered(text, Spans(config, text, sectionStart, content), i))
  {
    var j := JobFor(config, text, sectionStart, content);
    JobIsValid(config, text, sectionStart, content);
    SectionCoverage(config, text, sectionStart, content);
    if EstimateTokens(text) <= config.maxTokens {
      FittingSpans(config, text, sectionStart, content);
      WholeCutsNothing(j);
    } else if Blank(text) {
      BlankHasNoRanges(j);
    } else {
      ProtectedRangesStayWhole(j);
      assert Spans(config, text, sectionStart, content) == Run(j, ORIGIN);
    }
  }

  lemma FittingSpans(config: Config, text: string, sectionStart: nat, content: Content)
    requires config.Valid() && EstimateTokens(text) <= config.maxTokens
    ensures Spans(config, text, sectionStart, content) in [[], [Span(0, |text|)]]
  {
  }

  /** The start and the end of the text are inside no range. */
  lemma WholeCutsNothing(j: Job)
    requires ValidJob(j)
    ensures CutsNothing(j, []) && CutsNothing(j, [Span(0, |j.text|)])
    ensures KeepsTogether(j, []) && KeepsTogether(j, [Span(0, |j.text|)])
  {
    SplitsInside(j, 0);
    SplitsInside(j, |j.text|);
  }

  lemma BlankHasNoRanges(j: Job)
    requires AllHoldVisible(j) && Blank(j.text)
    ensures j.ranges == []
  {
    assert |j.ranges| > 0 ==> HoldsVisible(j, j.ranges[0]);
  }

  lemma BlankShavesNothing(j: Job)
    requires Blank(j.text)
    ensures KeepsTogether(j, []) && forall d :: !EdgeShaves(j, d)
  {
  }

  /** No chunk of a section starts or ends between visible characters of one protected range exactly when the
    * section fits into one chunk or in no round of its window loop the edge shaves text off a range. */
  lemma SectionTogether(config: Config, text: string, sectionStart: nat, content: Content)
    requires config.Valid()
    requires EstimateTokens(text) <= config.maxTokens || Disjoint(ProtectedRanges(text, sectionStart, content))
    ensures ValidJob(JobFor(config, text, sectionStart, content))
    ensures KeepsTogether(JobFor(config, text, sectionStart, content), Spans(config, text, sectionStart, content))
       <==> (|| EstimateTokens(text) <= config.maxTokens
             || forall d :: d in Rounds(JobFor(config, text, sectionStart, content), ORIGIN) ==>
                  !EdgeShaves(JobFor(config, text, sectionStart, content), d))
  {
    var j := JobFor(config, text, sectionStart, content);
    JobIsValid(config, text, sectionStart, content);
    if EstimateTokens(text) <= config.maxTokens {
      FittingSpans(config, text, sectionStart, content);
      WholeCutsNothing(j);
    } else if Blank(text) {
      BlankShavesNothing(j);
    } else {
      VisibleTextStaysTogether(j);
      assert Spans(config, text, sectionStart, content) == Run(j, ORIGIN);
    }
  }

  // ------------------------------------------------------------------ plain lists

  lemma {:induction false} CharRangesConcat(text: string, sectionStart: nat, xs: seq<Lines>, ys: seq<Lines>)
    ensures CharRanges(text, sectionStart, xs + ys)
         == CharRanges(text, sectionStart, xs) + CharRanges(text, sectionStart, ys)
  {
    if ys == [] {
      assert xs + ys == xs;
    } else {
      var init, all := ys[..|ys| - 1], xs + ys;
      CharRangesConcat(text, sectionStart, xs, init);
      assert all[..|all| - 1] == xs + init && all[|all| - 1] == ys[|ys| - 1];
    }
  }

  lemma {:induction false} NoneInSection(text: string, sectionStart: nat, items: seq<Lines>)
    requires Placed(text, sectionStart, items)
    requires forall k :: 0 <= k < |items| ==> !InSection(text, sectionStart, items[k])
    ensures CharRanges(text, sectionStart, items) == []
  {
    if items != [] {
      NoneInSection(text, sectionStart, items[..|items| - 1]);
      CharRangeIff(text, sectionStart, items[|items| - 1]);
    }
  }

  lemma {:induction false} OneRangeEach(text: string, sectionStart: nat, items: seq<Lines>)
    requires forall k :: 0 <= k < |items| ==> CharRange(text, sectionStart, items[k]).Some?
    ensures |CharRanges(text, sectionStart, items)| == |items|
    ensures forall k :: 0 <= k < |items| ==>
              CharRanges(text, sectionStart, items)[k] == CharRange(text, sectionStart, items[k]).value
  {
    if items != [] {
      OneRangeEach(text, sectionStart, items[..|items| - 1]);
    }
  }

  /** The intervals follow each other without a gap from line `from` to line `upto`. */
  ghost predicate Tiles(items: seq<Lines>, from: nat, upto: int) {
    && items != [] && items[0].0 == from && items[|items| - 1].1 == upto
    && forall a, b :: 0 <= a < b < |items| && b == a + 1 ==> items[a].1 + 1 == items[b].0
  }

  /** An item that begins on visible text and is shorter than the budget. */
  ghost predicate ShortItem(config: Config, text: string, sectionStart: nat, item: Lines) {
    var r := CharRange(text, sectionStart, item);
    r.Some? && Visible(text, r.value.lo) && r.value.hi - r.value.lo < 4 * config.maxTokens
  }

  /** Every line of the section belongs to one of `items`, each of them short; no code block or table starts
    * in the section, and it does not fit into one chunk. */
  ghost predicate ListSection(config: Config, text: string, sectionStart: nat, content: Content, items: seq<Lines>) {
    && config.maxTokens < EstimateTokens(text)
    && Placed(text, sectionStart, content.codeBlocks) && Placed(text, sectionStart, content.tables)
    && (forall k :: 0 <= k < |content.codeBlocks| ==> !InSection(text, sectionStart, content.codeBlocks[k]))
    && (forall k :: 0 <= k < |content.tables| ==> !InSection(text, sectionStart, content.tables[k]))
    && Placed(text, sectionStart, content.listItems)
    && Tiles(items, sectionStart, sectionStart + |SplitLines(text)| - 1)
    && forall k :: 0 <= k < |items| ==> ShortItem(config, text, sectionStart, items[k])
  }

  lemma PlacedSlice(text: string, sectionStart: nat, all: seq<Lines>, a: nat, b: nat)
    requires Placed(text, sectionStart, all) && a <= b <= |all|
    ensures Placed(text, sectionStart, all[a..b])
  {
  }

  lemma PartsOfList(text: string, sectionStart: nat, all: seq<Lines>, n: nat, m: nat)
    requires Placed(text, sectionStart, all) && n < m <= |all|
    ensures Placed(text, sectionStart, all[..n]) && Placed(text, sectionStart, all[n..m])
    ensures Placed(text, sectionStart, all[m..])
    ensures forall k :: 0 <= k < n ==> all[..n][k].0 < all[n].0
    ensures forall k :: 0 <= k < |all| - m ==> all[m - 1].1 < all[m..][k].0
  {
    PlacedSlice(text, sectionStart, all, 0, n);
    PlacedSlice(text, sectionStart, all, n, m);
    PlacedSlice(text, sectionStart, all, m, |all|);
    assert all[0..n] == all[..n] && all[m..|all|] == all[m..];
  }

  lemma OnlyTheItems(text: string, sectionStart: nat, before: seq<Lines>, items: seq<Lines>, after: seq<Lines>)
    requires Placed(text, sectionStart, before + items + after)
    requires Tiles(items, sectionStart, sectionStart + |SplitLines(text)| - 1)
    ensures CharRanges(text, sectionStart, before + items + after) == CharRanges(text, sectionStart, items)
    ensures Placed(text, sectionStart, items)
  {
    var all, n, m := before + items + after, |before|, |before| + |items|;
    assert all[..n] == before && all[n..m] == items && all[m..] == after;
    PartsOfList(text, sectionStart, all, n, m);
    NoneInSection(text, sectionStart, before);
    NoneInSection(text, sectionStart, after);
    CharRangesConcat(text, sectionStart, before, items);
    CharRangesConcat(text, sectionStart, before + items, after);
  }

  /** The protected ranges of such a section are those of its items. */
  lemma ListSectionRanges(config: Config, text: string, sectionStart: nat, content: Content, before: seq<Lines>,
                          items: seq<Lines>, after: seq<Lines>)
    requires ListSection(config, text, sectionStart, content, items) && content.listItems == before + items + after
    ensures ProtectedRanges(text, sectionStart, content) == CharRanges(text, sectionStart, items)
    ensures |CharRanges(text, sectionStart, items)| == |items|
    ensures forall k :: 0 <= k < |items| ==>
              CharRanges(text, sectionStart, items)[k] == CharRange(text, sectionStart, items[k]).value
  {
    var ranges := CharRanges(text, sectionStart, items);
    NoneInSection(text, sectionStart, content.codeBlocks);
    NoneInSection(text, sectionStart, content.tables);
    OnlyTheItems(text, sectionStart, before, items, after);
    OneRangeEach(text, sectionStart, items);
    CharRangesInOrder(text, sectionStart, items);
    CharRangesInText(text, sectionStart, items);
    SortedAlready(ranges);
    assert [] + [] + ranges == ranges;
  }

  /** The first item's range begins where the section does, and each ends where the next one begins. */
  ghost predicate Bounded(text: string, sectionStart: nat, items: seq<Lines>, k: nat)
    requires k < |items| && forall i :: 0 <= i < |items| ==> CharRange(text, sectionStart, items[i]).Some?
  {
    var r := CharRange(text, sectionStart, items[k]).value;
    && (k == 0 ==> r.lo == 0)
    && r.hi == if k + 1 < |items| then CharRange(text, sectionStart, items[k + 1]).value.lo else |text|
  }

  lemma ItemBounds(text: string, sectionStart: nat, items: seq<Lines>, k: nat)
    requires Placed(text, sectionStart, items) && Tiles(items, sectionStart, sectionStart + |SplitLines(text)| - 1)
    requires k < |items| && forall i :: 0 <= i < |items| ==> CharRange(text, sectionStart, items[i]).Some?
    ensures Bounded(text, sectionStart, items, k)
  {
    CharRangeAt(text, sectionStart, items[k]);
    if k + 1 < |items| {
      CharRangeAt(text, sectionStart, items[k + 1]);
    }
  }

  /** The ranges are those of the items, one for each. */
  ghost predicate RangesOf(text: string, sectionStart: nat, items: seq<Lines>, ranges: seq<Range>) {
    |ranges| == |items| && forall k :: 0 <= k < |items| ==> CharRange(text, sectionStart, items[k]) == Some(ranges[k])
  }

  lemma ChainedRanges(text: string, sectionStart: nat, items: seq<Lines>, ranges: seq<Range>)
    requires RangesOf(text, sectionStart, items, ranges) && Placed(text, sectionStart, items)
    requires Tiles(items, sectionStart, sectionStart + |SplitLines(text)| - 1)
    ensures ranges[0].lo == 0 && ranges[|ranges| - 1].hi == |text|
    ensures forall a, b :: 0 <= a < b < |ranges| && b == a + 1 ==> ranges[a].hi == ranges[b].lo
  {
    ItemBounds(text, sectionStart, items, 0);
    ItemBounds(text, sectionStart, items, |items| - 1);
    forall a, b | 0 <= a < b < |ranges| && b == a + 1 ensures ranges[a].hi == ranges[b].lo {
      ItemBounds(text, sectionStart, items, a);
    }
  }

  /** A section of list items only gives the window loop a plain list. */
  lemma SectionIsPlainList(config: Config, text: string, sectionStart: nat, content: Content, before: seq<Lines>,
                           items: seq<Lines>, after: seq<Lines>)
    requires config.Valid() && ListSection(config, text, sectionStart, content, items)
    requires content.listItems == before + items + after
    ensures PlainList(JobFor(config, text, sectionStart, content))
  {
    JobIsValid(config, text, sectionStart, content);
    ListSectionRanges(config, text, sectionStart, content, before, items, after);
    OnlyTheItems(text, sectionStart, before, items, after);
    var j := JobFor(config, text, sectionStart, content);
    assert forall k :: 0 <= k < |items| ==> ShortItem(config, text, sectionStart, items[k]);
    ChainedRanges(text, sectionStart, items, j.ranges);
  }

  /** A section of list items only, each shorter than the budget that they exceed together, loses its last
    * item but for the first character. */
  lemma ListSectionLosesItsLastItem(config: Config, text: string, sectionStart: nat, content: Content,
                                    before: seq<Lines>, items: seq<Lines>, after: seq<Lines>)
    requires config.Valid() && ListSection(config, text, sectionStart, content, items)
    requires content.listItems == before + items + after
    ensures |items| >= 2
    ensures forall i :: CharRange(text, sectionStart, items[|items| - 1]).value.lo < i && Visible(text, i)
                    ==> !Covered(text, Spans(config, text, sectionStart, content), i)
  {
    var j := JobFor(config, text, sectionStart, content);
    SectionIsPlainList(config, text, sectionStart, content, before, items, after);
    ListSectionRanges(config, text, sectionStart, content, before, items, after);
    PlainListLosesItsLastItem(j);
    assert Visible(text, j.ranges[0].lo);
  }
}
