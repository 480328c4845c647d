/** The Markdown scanners that find the line intervals to protect: fenced code, tables, list items.
  * Intervals are first and last line, counted from 1; `lines[k]` is line `k + 1`. */
module MarkdownScanners {
  import opened Text
  import opened Chunker

  /** Intervals in order and inside the body. */
  ghost predicate Inside(items: seq<Lines>, lines: seq<string>) {
    InOrder(items) && forall k :: 0 <= k < |items| ==> items[k].1 <= |lines|
  }

  // ------------------------------------------------------------------ fenced code

  predicate IsFence(line: string) {
    "```" <= line
  }

  /** The numbers of the fence lines among the first `n` lines. */
  function Fences(lines: seq<string>, n: nat): (fences: seq<nat>)
    requires n <= |lines|
    ensures forall k :: 0 <= k < |fences| ==> 1 <= fences[k] <= n && IsFence(lines[fences[k] - 1])
    ensures forall a, b :: 0 <= a < b < |fences| ==> fences[a] < fences[b]
    ensures forall k :: 1 <= k <= n && IsFence(lines[k - 1]) ==> k in fences
  {
    if n == 0 then []
    else if IsFence(lines[n - 1]) then Fences(lines, n - 1) + [n]
    else Fences(lines, n - 1)
  }

  /** The first fence with the second, the third with the fourth, and so on; an odd one is left over. */
  function Pairs(starts: seq<nat>): seq<Lines> {
    if |starts| < 2 then [] else [(starts[0], starts[1])] + Pairs(starts[2..])
  }

  lemma {:induction false} PairsAt(starts: seq<nat>, k: nat)
    requires k < |starts| / 2
    ensures |Pairs(starts)| == |starts| / 2 && Pairs(starts)[k] == (starts[2 * k], starts[2 * k + 1])
  {
    if k > 0 {
      PairsAt(starts[2..], k - 1);
    } else if |starts| >= 4 {
      PairsAt(starts[2..], 0);
    }
  }

  lemma {:induction false} PairsSnoc(starts: seq<nat>, k: nat)
    requires 2 * k + 1 < |starts|
    ensures Pairs(starts[..2 * k + 2]) == Pairs(starts[..2 * k]) + [(starts[2 * k], starts[2 * k + 1])]
  {
    if k > 0 {
      PairsSnoc(starts[2..], k - 1);
      assert starts[..2 * k + 2][2..] == starts[2..][..2 * k] && starts[..2 * k][2..] == starts[2..][..2 * k - 2];
    } else {
      assert starts[..2][2..] == [];
    }
  }

  lemma {:induction false} PairsInOrder(starts: seq<nat>, lines: seq<string>)
    requires forall k :: 0 <= k < |starts| ==> 1 <= starts[k] <= |lines|
    requires forall a, b :: 0 <= a < b < |starts| ==> starts[a] < starts[b]
    ensures Inside(Pairs(starts), lines)
    ensures Pairs(starts) != [] ==> Pairs(starts)[0].0 == starts[0]
  {
    if |starts| >= 2 {
      PairsInOrder(starts[2..], lines);
      var rest := Pairs(starts[2..]);
      forall k | 0 <= k < |rest| ensures starts[1] < rest[k].0 {
        assert rest[0].0 == starts[2] && (k > 0 ==> rest[0].1 < rest[k].0);
      }
    }
  }

  /** Each code block runs from an odd-numbered fence to the next one. */
  method ExtractCodeBlocks(lines: seq<string>) returns (results: seq<Lines>)
    ensures Inside(results, lines)
    ensures results == Pairs(Fences(lines, |lines|))
  {
    var starts: seq<nat> := [];
    for k := 0 to |lines|
      invariant starts == Fences(lines, k)
    {
      if IsFence(lines[k]) {
        starts := starts + [k + 1];
      }
    }
    results := [];
    var i := 0;
    ghost var n := 0;
    while i < |starts| - 1
      invariant i == 2 * n <= |starts| && results == Pairs(starts[..i])
    {
      PairsSnoc(starts, n);
      results := results + [(starts[i], starts[i + 1])];
      i, n := i + 2, n + 1;
    }
    OddOneOut(starts, n);
    CodeBlocksInside(lines);
  }

  lemma CodeBlocksInside(lines: seq<string>)
    ensures Inside(Pairs(Fences(lines, |lines|)), lines)
  {
    PairsInOrder(Fences(lines, |lines|), lines);
  }

  lemma {:induction false} OddOneOut(starts: seq<nat>, n: nat)
    requires |starts| - 1 <= 2 * n <= |starts|
    ensures Pairs(starts[..2 * n]) == Pairs(starts)
    decreases n
  {
    if n > 0 {
      OddOneOut(starts[2..], n - 1);
      assert starts[..2 * n][2..] == starts[2..][..2 * n - 2];
    }
  }

  // ----------------------------------------------------------------------- tables

  predicate IsSeparator(line: string) {
    && |line| >= 3 && line[0] == '|' && line[|line| - 1] == '|'
    && forall k :: 1 <= k < |line| - 1 ==> line[k] in "-:| "
  }

  predicate IsHead(line: string) {
    '|' in Strip(line) && !("```" <= Strip(line))
  }

  predicate IsRule(line: string) {
    IsSeparator(Strip(line))
  }

  predicate IsRow(line: string) {
    "|" <= Strip(line)
  }

  lemma RulesAreRows(line: string)
    requires IsRule(line)
    ensures IsRow(line)
  {
  }

  /** Which of the lines pass a test. */
  function Classify(lines: seq<string>, test: string -> bool): (marks: seq<bool>)
    ensures |marks| == |lines|
  {
    if lines == [] then [] else Classify(lines[..|lines| - 1], test) + [test(lines[|lines| - 1])]
  }

  lemma {:induction false} ClassifyAt(lines: seq<string>, test: string -> bool, k: nat)
    requires k < |lines|
    ensures Classify(lines, test)[k] == test(lines[k])
  {
    if k < |lines| - 1 {
      ClassifyAt(lines[..|lines| - 1], test, k);
    }
  }

  /** The first mark equal to `b` at or after `from`, or the end. */
  function Next(marks: seq<bool>, b: bool, from: nat): (k: nat)
    requires from <= |marks|
    ensures from <= k <= |marks| && (k < |marks| ==> marks[k] == b)
    ensures forall i :: from <= i < k ==> marks[i] != b
    decreases |marks| - from
  {
    if from == |marks| || marks[from] == b then from else Next(marks, b, from + 1)
  }

  /** What the table scanner asks of each line: may it head a table, is it a separator, a row? */
  datatype TableMarks = TableMarks(head: seq<bool>, rule: seq<bool>, row: seq<bool>)

  function TableMarksOf(lines: seq<string>): TableMarks {
    TableMarks(Classify(lines, IsHead), Classify(lines, IsRule), Classify(lines, IsRow))
  }

  ghost predicate ValidMarks(m: TableMarks) {
    |m.head| == |m.rule| == |m.row| && forall k :: 0 <= k < |m.rule| && m.rule[k] ==> m.row[k]
  }

  /** Line `i` may head a table, and the line below it is a separator row. */
  predicate HeadsTable(m: TableMarks, i: int) {
    0 <= i < |m.head| && i < |m.rule| - 1 && m.head[i] && m.rule[i + 1]
  }

  /** A table is a heading row and all the rows that follow it; the line after it is passed over. */
  function TablesFrom(m: TableMarks, i: nat): seq<Lines>
    requires ValidMarks(m)
    decreases |m.row| - i
  {
    if i >= |m.row| then []
    else if HeadsTable(m, i) then [(i + 1, Next(m.row, false, i + 1))] + TablesFrom(m, Next(m.row, false, i + 1) + 1)
    else TablesFrom(m, i + 1)
  }

  /** Line `i` is in a table, or directly below one. */
  ghost predicate AtTable(tables: seq<Lines>, i: int) {
    exists t :: t in tables && t.0 - 1 <= i <= t.1
  }

  ghost predicate IsTable(m: TableMarks, t: Lines) {
    && 1 <= t.0 < t.1 <= |m.row| && HeadsTable(m, t.0 - 1)
    && (forall k :: t.0 <= k < t.1 ==> m.row[k])
    && (t.1 < |m.row| ==> !m.row[t.1])
  }

  lemma {:induction false} TablesAreTables(m: TableMarks, i: nat)
    requires ValidMarks(m)
    ensures forall t :: t in TablesFrom(m, i) ==> i < t.0 && IsTable(m, t)
    decreases |m.row| - i
  {
    if i < |m.row| {
      TablesAreTables(m, if HeadsTable(m, i) then Next(m.row, false, i + 1) + 1 else i + 1);
    }
  }

  lemma {:induction false} TablesInOrder(m: TableMarks, i: nat)
    requires ValidMarks(m)
    ensures InOrder(TablesFrom(m, i))
    decreases |m.row| - i
  {
    if i < |m.row| {
      if HeadsTable(m, i) {
        var end := Next(m.row, false, i + 1);
        TablesInOrder(m, end + 1);
        TablesAreTables(m, end + 1);
        InOrderCons((i + 1, end), TablesFrom(m, end + 1));
      } else {
        TablesInOrder(m, i + 1);
      }
    }
  }

  /** Every heading row is in one of the tables found, or directly below one, where it is passed over. */
  lemma {:induction false} HeadingRowsAreAtTables(m: TableMarks, i: nat, h: nat)
    requires ValidMarks(m) && i <= h && HeadsTable(m, h)
    ensures AtTable(TablesFrom(m, i), h)
    decreases h - i
  {
    if HeadsTable(m, i) {
      var end := Next(m.row, false, i + 1);
      if h <= end {
        assert (i + 1, end) in TablesFrom(m, i);
      } else {
        HeadingRowsAreAtTables(m, end + 1, h);
        var t :| t in TablesFrom(m, end + 1) && t.0 - 1 <= h <= t.1;
        assert t in TablesFrom(m, i);
      }
    } else {
      HeadingRowsAreAtTables(m, i + 1, h);
    }
  }

  lemma InOrderCons(first: Lines, rest: seq<Lines>)
    requires 1 <= first.0 <= first.1 && InOrder(rest) && forall t :: t in rest ==> first.1 < t.0
    ensures InOrder([first] + rest)
  {
    var all := [first] + rest;
    forall b | 0 < b < |all| ensures all[b] == rest[b - 1] && all[b] in rest {
    }
  }

  lemma TablesInside(lines: seq<string>)
    ensures ValidMarks(TableMarksOf(lines)) && Inside(TablesFrom(TableMarksOf(lines), 0), lines)
  {
    MarksAreValid(lines);
    TablesInOrder(TableMarksOf(lines), 0);
    TablesAreTables(TableMarksOf(lines), 0);
  }

  /** The tables found when the scan stands at line `i`. */
  ghost predicate TablesUpTo(m: TableMarks, results: seq<Lines>, i: nat)
    requires ValidMarks(m)
  {
    TablesFrom(m, 0) == results + TablesFrom(m, i)
  }

  lemma OneMoreTable(m: TableMarks, results: seq<Lines>, i: nat, end: nat)
    requires ValidMarks(m) && TablesUpTo(m, results, i) && HeadsTable(m, i)
    requires end > 0 && end - 1 == Next(m.row, false, i + 1)
    ensures TablesUpTo(m, results + [(i + 1, end - 1)], end)
  {
    assert TablesFrom(m, i) == [(i + 1, end - 1)] + TablesFrom(m, end);
    assert results + ([(i + 1, end - 1)] + TablesFrom(m, end)) == results + [(i + 1, end - 1)] + TablesFrom(m, end);
  }

  lemma NoTableHere(m: TableMarks, results: seq<Lines>, i: nat)
    requires ValidMarks(m) && TablesUpTo(m, results, i) && i < |m.row| && !HeadsTable(m, i)
    ensures TablesUpTo(m, results, i + 1)
  {
  }

  method ExtractTables(lines: seq<string>) returns (results: seq<Lines>)
    ensures Inside(results, lines)
    ensures ValidMarks(TableMarksOf(lines)) && results == TablesFrom(TableMarksOf(lines), 0)
  {
    ghost var m := TableMarksOf(lines);
    MarksAreValid(lines);
    results := [];
    var i := 0;
    while i < |lines|
      invariant 0 <= i && TablesUpTo(m, results, i)
      decreases |lines| - i
    {
      var heads := Heads(lines, i);
      if heads {
        RowBelow(lines, i);
        var end := TableEnd(lines, i);
        OneMoreTable(m, results, i, end);
        results := results + [(i + 1, end - 1)];
        i := end;
      } else {
        NoTableHere(m, results, i);
        i := i + 1;
      }
    }
    assert results == TablesFrom(m, 0);
    TablesInside(lines);
  }

  lemma MarksAreValid(lines: seq<string>)
    ensures ValidMarks(TableMarksOf(lines))
  {
    forall k | 0 <= k < |lines| && Classify(lines, IsRule)[k] ensures Classify(lines, IsRow)[k] {
      ClassifyAt(lines, IsRule, k);
      ClassifyAt(lines, IsRow, k);
      RulesAreRows(lines[k]);
    }
  }

  method Heads(lines: seq<string>, i: nat) returns (heads: bool)
    requires i < |lines|
    ensures heads == HeadsTable(TableMarksOf(lines), i)
  {
    ClassifyAt(lines, IsHead, i);
    heads := false;
    if IsHead(lines[i]) {
      var sepLine := i + 1;
      if sepLine < |lines| {
        ClassifyAt(lines, IsRule, sepLine);
        heads := IsRule(lines[sepLine]);
      }
    }
  }

  lemma RowBelow(lines: seq<string>, i: nat)
    requires i < |lines| && HeadsTable(TableMarksOf(lines), i)
    ensures i + 1 < |lines| && Classify(lines, IsRow)[i + 1]
  {
    MarksAreValid(lines);
  }

  /** The first row that is not in the table headed by line `i`, counted from 1. */
  method TableEnd(lines: seq<string>, i: nat) returns (end: nat)
    requires i + 1 < |lines| && Classify(lines, IsRow)[i + 1]
    ensures i + 1 < end && end - 1 == Next(Classify(lines, IsRow), false, i + 1)
  {
    var from := i + 2;
    if from < |lines| && IsRule(lines[from]) {
      from := from + 1;
    }
    end := PastRows(lines, Classify(lines, IsRow), from, i + 1);
  }

  method PastRows(lines: seq<string>, ghost row: seq<bool>, from: nat, ghost first: nat) returns (end: nat)
    requires row == Classify(lines, IsRow) && 0 < from <= |lines| + 1 && first <= |lines|
    requires Next(row, false, first) == Next(row, false, from - 1)
    ensures from <= end <= |lines| + 1 && end - 1 == Next(row, false, first)
  {
    end := from;
    while end <= |lines|
      invariant from <= end <= |lines| + 1
      invariant Next(row, false, first) == Next(row, false, end - 1)
    {
      ClassifyAt(lines, IsRow, end - 1);
      if !IsRow(lines[end - 1]) {
        break;
      }
      end := end + 1;
    }
  }

  // ------------------------------------------------------------------- list items

  predicate IsDigit(c: char) {
    '0' <= c <= '9'
  }

  /** The first character at or after `k` that is no digit. */
  function SkipDigits(s: string, k: nat): (m: nat)
    requires k <= |s|
    ensures k <= m <= |s|
    decreases |s| - k
  {
    if k < |s| && IsDigit(s[k]) then SkipDigits(s, k + 1) else k
  }

  /** One digit or more, then a dot. */
  predicate Numbered(s: string) {
    0 < SkipDigits(s, 0) < |s| && s[SkipDigits(s, 0)] == '.'
  }

  predicate Bulleted(s: string) {
    s != "" && s[0] in "-*+"
  }

  /** White space at `k`, and text after it. */
  predicate GapAndText(s: string, k: int) {
    0 <= k < |s| && IsSpace(s[k]) && SkipSpace(s, k) < |s|
  }

  /** A line that starts a list item. */
  predicate IsMarker(line: string) {
    || (Bulleted(Strip(line)) && GapAndText(Strip(line), 1))
    || (Numbered(Strip(line)) && GapAndText(Strip(line), SkipDigits(Strip(line), 0) + 1))
  }

  /** A line that ends the item before it: an indented bullet or number, or text that is not indented. */
  predicate Interrupts(line: string) {
    if Strip(line) == "" then false
    else if LeadLength(line) > 0 && (Bulleted(Strip(line)) || Numbered(Strip(line))) then true
    else LeadLength(line) <= 0 && !(" " <= Strip(line))
  }

  lemma MarkersInterrupt(line: string)
    requires IsMarker(line)
    ensures Interrupts(line)
  {
    assert !IsSpace(Strip(line)[0]);
  }

  /** An item is a marker line and the lines up to the next that interrupts it. */
  function ItemsFrom(markers: seq<bool>, breaks: seq<bool>, i: nat): seq<Lines>
    requires |markers| == |breaks|
    decreases |breaks| - i
  {
    if i >= |breaks| then []
    else if markers[i] then [(i + 1, Next(breaks, true, i + 1))] + ItemsFrom(markers, breaks, Next(breaks, true, i + 1))
    else ItemsFrom(markers, breaks, i + 1)
  }

  ghost predicate StartsItem(items: seq<Lines>, i: int) {
    exists t :: t in items && t.0 == i + 1
  }

  ghost predicate IsItem(markers: seq<bool>, breaks: seq<bool>, item: Lines) {
    && 1 <= item.0 <= item.1 <= |breaks| == |markers| && markers[item.0 - 1]
    && (forall k :: item.0 <= k < item.1 ==> !breaks[k])
    && (item.1 < |breaks| ==> breaks[item.1])
  }

  lemma {:induction false} ItemsAreItems(markers: seq<bool>, breaks: seq<bool>, i: nat)
    requires |markers| == |breaks|
    ensures forall t :: t in ItemsFrom(markers, breaks, i) ==> i < t.0 && IsItem(markers, breaks, t)
    decreases |breaks| - i
  {
    if i < |breaks| {
      ItemsAreItems(markers, breaks, if markers[i] then Next(breaks, true, i + 1) else i + 1);
    }
  }

  lemma {:induction false} ItemsInOrder(markers: seq<bool>, breaks: seq<bool>, i: nat)
    requires |markers| == |breaks|
    ensures InOrder(ItemsFrom(markers, breaks, i))
    decreases |breaks| - i
  {
    if i < |breaks| {
      if markers[i] {
        var j := Next(breaks, true, i + 1);
        ItemsInOrder(markers, breaks, j);
        ItemsAreItems(markers, breaks, j);
        InOrderCons((i + 1, j), ItemsFrom(markers, breaks, j));
      } else {
        ItemsInOrder(markers, breaks, i + 1);
      }
    }
  }

  /** When every marker line interrupts, the items start at exactly the marker lines. */
  lemma {:induction false} ItemsAreMarkers(markers: seq<bool>, breaks: seq<bool>, i: nat, h: nat)
    requires |markers| == |breaks| && forall k :: 0 <= k < |markers| && markers[k] ==> breaks[k]
    requires i <= h < |markers|
    ensures markers[h] <==> StartsItem(ItemsFrom(markers, breaks, i), h)
    decreases h - i
  {
    ItemsAreItems(markers, breaks, i);
    if markers[h] {
      if i == h {
        assert (i + 1, Next(breaks, true, i + 1)) in ItemsFrom(markers, breaks, i);
      } else {
        var next := if markers[i] then Next(breaks, true, i + 1) else i + 1;
        ItemsAreMarkers(markers, breaks, next, h);
        var t :| t in ItemsFrom(markers, breaks, next) && t.0 == h + 1;
        assert t in ItemsFrom(markers, breaks, i);
      }
    }
  }

  /** Exactly the marker lines start the list items of a body. */
  lemma ListItemsAreMarkers(lines: seq<string>, h: nat)
    requires h < |lines|
    ensures IsMarker(lines[h]) <==> StartsItem(ItemsFrom(Classify(lines, IsMarker), Classify(lines, Interrupts), 0), h)
  {
    ClassifyAt(lines, IsMarker, h);
    forall k | 0 <= k < |lines| && Classify(lines, IsMarker)[k] ensures Classify(lines, Interrupts)[k] {
      ClassifyAt(lines, IsMarker, k);
      ClassifyAt(lines, Interrupts, k);
      MarkersInterrupt(lines[k]);
    }
    ItemsAreMarkers(Classify(lines, IsMarker), Classify(lines, Interrupts), 0, h);
  }

  lemma ItemsInside(lines: seq<string>)
    ensures Inside(ItemsFrom(Classify(lines, IsMarker), Classify(lines, Interrupts), 0), lines)
  {
    ItemsInOrder(Classify(lines, IsMarker), Classify(lines, Interrupts), 0);
    ItemsAreItems(Classify(lines, IsMarker), Classify(lines, Interrupts), 0);
  }

  /** From a marker on, the items leave no line out if nothing but markers interrupts. */
  lemma {:induction false} ItemsTile(markers: seq<bool>, breaks: seq<bool>, i: nat)
    requires |markers| == |breaks| && i < |breaks| && markers[i]
    requires forall k :: 0 <= k < |breaks| && breaks[k] ==> markers[k]
    ensures Tiles(ItemsFrom(markers, breaks, i), i + 1, |breaks|)
    decreases |breaks| - i
  {
    var j := Next(breaks, true, i + 1);
    var items := ItemsFrom(markers, breaks, i);
    if j < |breaks| {
      ItemsTile(markers, breaks, j);
      var rest := ItemsFrom(markers, breaks, j);
      assert items == [(i + 1, j)] + rest;
    } else {
      assert ItemsFrom(markers, breaks, j) == [];
    }
  }

  /** The items found when the scan stands at line `i`. */
  ghost predicate ItemsUpTo(markers: seq<bool>, breaks: seq<bool>, results: seq<Lines>, i: nat)
    requires |markers| == |breaks|
  {
    ItemsFrom(markers, breaks, 0) == results + ItemsFrom(markers, breaks, i)
  }

  lemma OneMoreItem(markers: seq<bool>, breaks: seq<bool>, results: seq<Lines>, i: nat, j: nat)
    requires |markers| == |breaks| && ItemsUpTo(markers, breaks, results, i)
    requires i < |markers| && markers[i] && j == Next(breaks, true, i + 1)
    ensures ItemsUpTo(markers, breaks, results + [(i + 1, j)], j)
  {
    assert ItemsFrom(markers, breaks, i) == [(i + 1, j)] + ItemsFrom(markers, breaks, j);
    assert results + ([(i + 1, j)] + ItemsFrom(markers, breaks, j))
        == results + [(i + 1, j)] + ItemsFrom(markers, breaks, j);
  }

  lemma NoItemHere(markers: seq<bool>, breaks: seq<bool>, results: seq<Lines>, i: nat)
    requires |markers| == |breaks| && ItemsUpTo(markers, breaks, results, i) && i < |markers| && !markers[i]
    ensures ItemsUpTo(markers, breaks, results, i + 1)
  {
  }

  method ExtractListItems(lines: seq<string>) returns (results: seq<Lines>)
    ensures Inside(results, lines)
    ensures results == ItemsFrom(Classify(lines, IsMarker), Classify(lines, Interrupts), 0)
  {
    ghost var markers, breaks := Classify(lines, IsMarker), Classify(lines, Interrupts);
    results := [];
    var i := 0;
    while i < |lines|
      invariant 0 <= i <= |lines| && ItemsUpTo(markers, breaks, results, i)
      decreases |lines| - i
    {
      ClassifyAt(lines, IsMarker, i);
      if IsMarker(lines[i]) {
        var j := ItemEnd(lines, i);
        OneMoreItem(markers, breaks, results, i, j);
        results := results + [(i + 1, j)];
        i := j;
      } else {
        NoItemHere(markers, breaks, results, i);
        i := i + 1;
      }
    }
    assert results == ItemsFrom(markers, breaks, 0);
    ItemsInside(lines);
  }

  method ItemEnd(lines: seq<string>, i: nat) returns (j: nat)
    requires i < |lines|
    ensures i < j && j == Next(Classify(lines, Interrupts), true, i + 1)
  {
    ghost var breaks := Classify(lines, Interrupts);
    j := i + 1;
    while j < |lines|
      invariant i < j <= |lines| && Next(breaks, true, i + 1) == Next(breaks, true, j)
    {
      ClassifyAt(lines, Interrupts, j);
      var nextLine := Strip(lines[j]);
      if nextLine == "" {
        j := j + 1;
        continue;
      }
      var nextIndent := LeadLength(lines[j]);
      if nextIndent > 0 && (Bulleted(nextLine) || Numbered(nextLine)) {
        break;
      }
      if nextIndent <= 0 && nextLine != "" && !(" " <= nextLine) {
        break;
      }
      j := j + 1;
    }
  }
}
