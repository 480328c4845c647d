/** A Markdown document from scanners to chunks: the intervals that the scanners find become protected
  * ranges that hold visible text, and the coverage results of the chunker apply to it. */
module MarkdownDocument {
  import opened Text
  import opened Wrappers
  import opened ChunkWindow
  import opened Chunker
  import opened ChunkDocument
  import opened HeadingPaths
  import opened MarkdownScanners

  /** What the parser hands to the chunker; finding headings is left to the caller. */
  function Scanned(body: string, headings: seq<Heading>): Content {
    var lines := SplitLines(body);
    MarksAreValid(lines);
    Content(body, headings, Pairs(Fences(lines, |lines|)), TablesFrom(TableMarksOf(lines), 0),
            ItemsFrom(Classify(lines, IsMarker), Classify(lines, Interrupts), 0))
  }

  method Scan(body: string, headings: seq<Heading>) returns (content: Content)
    ensures content == Scanned(body, headings)
  {
    var lines := SplitLines(body);
    var codeBlocks := ExtractCodeBlocks(lines);
    var tables := ExtractTables(lines);
    var listItems := ExtractListItems(lines);
    content := Content(body, headings, codeBlocks, tables, listItems);
  }

  // ---------------------------------------------------- intervals start on visible text

  /** An interval inside the body whose first line is not blank. */
  ghost predicate Sound(lines: seq<string>, item: Lines) {
    1 <= item.0 <= item.1 <= |lines| && !Blank(lines[item.0 - 1])
  }

  ghost predicate AllSound(lines: seq<string>, items: seq<Lines>) {
    MarkdownScanners.Inside(items, lines) && forall t :: t in items ==> Sound(lines, t)
  }

  lemma {:induction false} PairsStartAt(starts: seq<nat>)
    ensures forall t :: t in Pairs(starts) ==> t.0 in starts
  {
    if |starts| >= 2 {
      PairsStartAt(starts[2..]);
    }
  }

  lemma FenceIsNotBlank(line: string)
    requires IsFence(line)
    ensures !Blank(line)
  {
    assert line[0] == '`';
  }

  lemma FenceIsSound(lines: seq<string>, starts: seq<nat>, n: nat)
    requires starts == Fences(lines, |lines|) && n in starts
    ensures 1 <= n <= |lines| && !Blank(lines[n - 1])
  {
    var k :| 0 <= k < |starts| && starts[k] == n;
    FenceIsNotBlank(lines[starts[k] - 1]);
  }

  lemma BlockIsSound(lines: seq<string>, starts: seq<nat>, blocks: seq<Lines>, t: Lines)
    requires starts == Fences(lines, |lines|) && blocks == Pairs(starts) && t in blocks
    requires MarkdownScanners.Inside(blocks, lines)
    ensures Sound(lines, t)
  {
    PairsStartAt(starts);
    FenceIsSound(lines, starts, t.0);
    var k :| 0 <= k < |blocks| && blocks[k] == t;
  }

  lemma CodeBlocksSound(lines: seq<string>)
    ensures AllSound(lines, Pairs(Fences(lines, |lines|)))
  {
    var blocks := Pairs(Fences(lines, |lines|));
    CodeBlocksInside(lines);
    forall t | t in blocks ensures Sound(lines, t) {
      BlockIsSound(lines, Fences(lines, |lines|), blocks, t);
    }
  }

  lemma TablesSound(lines: seq<string>)
    ensures ValidMarks(TableMarksOf(lines)) && AllSound(lines, TablesFrom(TableMarksOf(lines), 0))
  {
    var m := TableMarksOf(lines);
    TablesInside(lines);
    TablesAreTables(m, 0);
    forall t | t in TablesFrom(m, 0) ensures Sound(lines, t) {
      ClassifyAt(lines, IsHead, t.0 - 1);
      StripEmptyIffBlank(lines[t.0 - 1]);
    }
  }

  lemma ItemsSound(lines: seq<string>)
    ensures AllSound(lines, ItemsFrom(Classify(lines, IsMarker), Classify(lines, Interrupts), 0))
  {
    var markers, breaks := Classify(lines, IsMarker), Classify(lines, Interrupts);
    ItemsInside(lines);
    ItemsAreItems(markers, breaks, 0);
    forall t | t in ItemsFrom(markers, breaks, 0) ensures Sound(lines, t) {
      ClassifyAt(lines, IsMarker, t.0 - 1);
      StripEmptyIffBlank(lines[t.0 - 1]);
    }
  }

  ghost predicate SoundContent(content: Content) {
    var lines := SplitLines(content.body);
    AllSound(lines, content.codeBlocks) && AllSound(lines, content.tables) && AllSound(lines, content.listItems)
  }

  lemma ScannedIsSound(body: string, headings: seq<Heading>)
    ensures SoundContent(Scanned(body, headings))
  {
    CodeBlocksSound(SplitLines(body));
    TablesSound(SplitLines(body));
    ItemsSound(SplitLines(body));
  }

  // -------------------------------------------------------------- intervals in sections

  lemma SectionStartsOnLine(content: Content, s: Section, item: Lines)
    requires s in Sections(content) && Sound(SplitLines(content.body), item)
    ensures StartsOnLine(s.text, s.startLine, item)
  {
    if content.headings != [] {
      SectionEndsVisible(content, s);
      StartsOnLineUnlessBreakEnds(s.text, s.startLine, item);
    }
  }

  lemma SectionPlaced(content: Content, s: Section, items: seq<Lines>)
    requires s in Sections(content) && AllSound(SplitLines(content.body), items)
    ensures Placed(s.text, s.startLine, items)
  {
    forall i | 0 <= i < |items| ensures StartsOnLine(s.text, s.startLine, items[i]) {
      SectionStartsOnLine(content, s, items[i]);
    }
  }

  /** Intervals of different categories that start in the section share no line. */
  ghost predicate CategoriesApart(content: Content, s: Section) {
    && ListsApart(s.text, s.startLine, content.codeBlocks, content.tables)
    && ListsApart(s.text, s.startLine, content.codeBlocks, content.listItems)
    && ListsApart(s.text, s.startLine, content.tables, content.listItems)
  }

  /** The protected ranges of a section of a scanned document are disjoint exactly when no code block, table and
    * list item that start in it share a line. */
  lemma ScannedRangesDisjoint(body: string, headings: seq<Heading>, content: Content, s: Section)
    requires content == Scanned(body, headings) && s in Sections(content)
    ensures SectionDisjoint(content, s) <==> CategoriesApart(content, s)
  {
    ScannedIsSound(body, headings);
    SectionPlaced(content, s, content.codeBlocks);
    SectionPlaced(content, s, content.tables);
    SectionPlaced(content, s, content.listItems);
    RangesDisjointIff(s.text, s.startLine, content);
  }

  ghost predicate Protected(content: Content, item: Lines) {
    item in content.codeBlocks || item in content.tables || item in content.listItems
  }

  lemma ScannedItem(body: string, headings: seq<Heading>, content: Content, s: Section, item: Lines)
    requires content == Scanned(body, headings) && s in Sections(content) && Protected(content, item)
    ensures Sound(SplitLines(body), item) && StartsOnLine(s.text, s.startLine, item)
  {
    ScannedIsSound(body, headings);
    SectionStartsOnLine(content, s, item);
  }

  // ------------------------------------------------------ lines of ranges and of the body

  lemma FirstVisible(body: string, item: Lines) returns (p: nat)
    requires Sound(SplitLines(body), item)
    ensures Visible(body, p) && LineNo(body, p) == item.0 - 1
  {
    var line := SplitLines(body)[item.0 - 1];
    var v: nat :| v < |line| && !IsSpace(line[v]);
    p := LineIs(body, item.0 - 1, v);
  }

  /** Position `o` of the body is where line `l` begins. */
  ghost predicate BeginsLine(body: string, o: nat, l: int) {
    o <= |body| && LineNo(body, o) == l && (o == 0 || body[o - 1] == '\n')
  }

  lemma BeforeLineBegins(body: string, o: nat, l: int, p: nat)
    requires BeginsLine(body, o, l) && p < |body|
    ensures p < o <==> LineNo(body, p) < l
  {
    if p < o {
      LineNoMonotone(body, p, o);
    } else {
      LineNoMonotone(body, o, p);
    }
  }

  lemma RangeAtLine(text: string, start: nat, item: Lines, r: Range)
    requires RangeOfLines(text, start, item, r)
    ensures r.lo < |text| && BeginsLine(text, r.lo, item.0 - start)
  {
    var lo := LineBegin(text, item.0 - start);
  }

  /** The range of an interval holds exactly the characters on its lines. */
  lemma RangeHoldsLines(text: string, start: nat, item: Lines, r: Range, q: nat)
    requires RangeOfLines(text, start, item, r) && q < |text|
    ensures r.lo <= q < r.hi <==> item.0 <= start + LineNo(text, q) <= item.1
  {
    RangeAtLine(text, start, item, r);
    BeforeLineBegins(text, r.lo, item.0 - start, q);
    var m := item.1 - start + 1;
    if m < |SplitLines(text)| {
      var hi := LineBegin(text, m);
      BeforeLineBegins(text, hi, m, q);
    } else {
      LineOfPosition(text, q);
    }
  }

  lemma BodyLineBegins(body: string, s: Section, o: nat, q: nat, l: int)
    requires LiesAt(body, s, o) && q < |s.text| && BeginsLine(s.text, q, l)
    ensures BeginsLine(body, o + q, s.startLine - 1 + l)
  {
    SectionLines(body, s, o, q);
    if q > 0 {
      CharacterAt(body, s, o, q - 1);
    }
  }

  /** A visible character is in the section in which its line begins. */
  lemma SameSection(body: string, sections: seq<Section>, offsets: seq<nat>, k: nat, at: nat, l: int, p: nat)
    requires Layout(body, sections, offsets) && k < |sections| && BeginsLine(body, at, l)
    requires HeldAt(sections, offsets, k, at) && Visible(body, p) && LineNo(body, p) == l
    ensures at <= p && HeldAt(sections, offsets, k, p)
  {
    BeforeLineBegins(body, at, l, p);
    var h :| HeldAt(sections, offsets, h, p);
    if k < h {
      assert LiesAt(body, sections[h], offsets[h]);
      LineNoMonotone(body, at, offsets[h]);
      LineNoMonotone(body, offsets[h], p);
    }
  }

  lemma VisibleInRange(body: string, sections: seq<Section>, offsets: seq<nat>, k: nat, item: Lines, r: Range)
      returns (q: nat)
    requires Layout(body, sections, offsets) && k < |sections| && Sound(SplitLines(body), item)
    requires RangeOfLines(sections[k].text, sections[k].startLine, item, r)
    ensures r.lo <= q < r.hi && Visible(sections[k].text, q)
  {
    var s, o := sections[k], offsets[k];
    assert LiesAt(body, s, o);
    RangeAtLine(s.text, s.startLine, item, r);
    BodyLineBegins(body, s, o, r.lo, item.0 - s.startLine);
    var p := FirstVisible(body, item);
    SameSection(body, sections, offsets, k, o + r.lo, item.0 - 1, p);
    q := p - o;
    CharacterAt(body, s, o, q);
    SectionLines(body, s, o, q);
    RangeHoldsLines(s.text, s.startLine, item, r, q);
  }

  lemma OriginOf(text: string, start: nat, items: seq<Lines>, r: Range) returns (item: Lines)
    requires r in CharRanges(text, start, items)
    ensures item in items && CharRange(text, start, item) == Some(r)
  {
    var a :| 0 <= a < |CharRanges(text, start, items)| && CharRanges(text, start, items)[a] == r;
    var b := CharRangeOrigin(text, start, items, a);
    item := items[b];
  }

  /** A range is protected in a section exactly if it is the range of an interval there. */
  lemma ProtectedIff(text: string, start: nat, content: Content, r: Range)
    ensures r in ProtectedRanges(text, start, content)
       <==> exists item :: Protected(content, item) && CharRange(text, start, item) == Some(r)
  {
    var rs, ss, ts := CharRanges(text, start, content.codeBlocks), CharRanges(text, start, content.tables),
                      CharRanges(text, start, content.listItems);
    SortKeeps(rs + ss + ts);
    assert r in multiset(ProtectedRanges(text, start, content)) <==> r in rs || r in ss || r in ts;
    if r in ProtectedRanges(text, start, content) {
      var item := SomeItem(text, start, content, r);
    }
    forall item | Protected(content, item) && CharRange(text, start, item) == Some(r)
      ensures r in rs || r in ss || r in ts
    {
      HasRange(text, start, content.codeBlocks, item, r);
      HasRange(text, start, content.tables, item, r);
      HasRange(text, start, content.listItems, item, r);
    }
  }

  lemma SomeItem(text: string, start: nat, content: Content, r: Range) returns (item: Lines)
    requires || r in CharRanges(text, start, content.codeBlocks) || r in CharRanges(text, start, content.tables)
             || r in CharRanges(text, start, content.listItems)
    ensures Protected(content, item) && CharRange(text, start, item) == Some(r)
  {
    if r in CharRanges(text, start, content.codeBlocks) {
      item := OriginOf(text, start, content.codeBlocks, r);
    } else if r in CharRanges(text, start, content.tables) {
      item := OriginOf(text, start, content.tables, r);
    } else {
      item := OriginOf(text, start, content.listItems, r);
    }
  }

  lemma HasRange(text: string, start: nat, items: seq<Lines>, item: Lines, r: Range)
    requires CharRange(text, start, item) == Some(r)
    ensures item in items ==> r in CharRanges(text, start, items)
  {
    if item in items {
      var i :| 0 <= i < |items| && items[i] == item;
      var k := CharRangeOf(text, start, items, i);
    }
  }

  lemma RangeItem(body: string, headings: seq<Heading>, content: Content, s: Section, r: Range) returns (item: Lines)
    requires content == Scanned(body, headings) && s in Sections(content)
    requires r in ProtectedRanges(s.text, s.startLine, content)
    ensures Protected(content, item) && Sound(SplitLines(body), item) && RangeOfLines(s.text, s.startLine, item, r)
  {
    ProtectedIff(s.text, s.startLine, content, r);
    item :| Protected(content, item) && CharRange(s.text, s.startLine, item) == Some(r);
    ScannedItem(body, headings, content, s, item);
    RangeIsOfLines(s.text, s.startLine, item, r);
  }

  /** Every protected range of a scanned document holds visible text. */
  lemma ScannedRangesHoldVisible(config: Config, body: string, headings: seq<Heading>, content: Content, s: Section)
    requires config.Valid() && content == Scanned(body, headings) && s in Sections(content)
    ensures AllHoldVisible(SectionJob(config, content, s))
  {
    var j := SectionJob(config, content, s);
    SectionsLayout(content);
    var k :| 0 <= k < |Sections(content)| && Sections(content)[k] == s;
    forall i | 0 <= i < |j.ranges| ensures HoldsVisible(j, j.ranges[i]) {
      var item := RangeItem(body, headings, content, s, j.ranges[i]);
      var q := VisibleInRange(body, Sections(content), Offsets(content), k, item, j.ranges[i]);
    }
  }

  // ------------------------------------------------------------ documents that are lists

  /** The first line is a list item, and nothing but unindented list items interrupts those before. */
  ghost predicate ListLines(lines: seq<string>) {
    && lines != [] && IsMarker(lines[0])
    && forall k :: 0 <= k < |lines| && Interrupts(lines[k]) ==> IsMarker(lines[k]) && LeadLength(lines[k]) == 0
  }

  lemma FencesInterrupt(line: string)
    requires IsFence(line)
    ensures Interrupts(line) && !IsMarker(line)
  {
    assert line[0] == '`';
    VisibleIsKept(line, 0);
    assert Strip(line)[0] == '`';
  }

  lemma {:induction false} NoFences(lines: seq<string>, n: nat)
    requires ListLines(lines) && n <= |lines|
    ensures Fences(lines, n) == []
  {
    if n > 0 {
      NoFences(lines, n - 1);
      if IsFence(lines[n - 1]) {
        FencesInterrupt(lines[n - 1]);
      }
    }
  }

  lemma ListLinesTile(lines: seq<string>)
    requires ListLines(lines)
    ensures Tiles(ItemsFrom(Classify(lines, IsMarker), Classify(lines, Interrupts), 0), 1, |lines|)
  {
    var markers, breaks := Classify(lines, IsMarker), Classify(lines, Interrupts);
    ClassifyAt(lines, IsMarker, 0);
    forall k | 0 <= k < |lines| && breaks[k] ensures markers[k] {
      ClassifyAt(lines, IsMarker, k);
      ClassifyAt(lines, Interrupts, k);
    }
    ItemsTile(markers, breaks, 0);
  }

  lemma ItemHasRange(body: string, item: Lines) returns (r: Range)
    requires Sound(SplitLines(body), item)
    ensures CharRange(body, 1, item) == Some(r) && RangeOfLines(body, 1, item, r)
  {
    CharRangeIff(body, 1, item);
    r := CharRange(body, 1, item).value;
    RangeIsOfLines(body, 1, item, r);
  }

  /** An unindented item's range begins on visible text. */
  lemma ItemBeginsVisible(body: string, item: Lines, r: Range)
    requires RangeOfLines(body, 1, item, r)
    requires IsMarker(SplitLines(body)[item.0 - 1]) && LeadLength(SplitLines(body)[item.0 - 1]) == 0
    ensures Visible(body, r.lo)
  {
    var k := item.0 - 1;
    UnindentedMarker(SplitLines(body)[k]);
    var p := LineIs(body, k, 0);
  }

  lemma UnindentedMarker(line: string)
    requires IsMarker(line) && LeadLength(line) == 0
    ensures line != "" && !IsSpace(line[0])
  {
    StripEmptyIffBlank(line);
  }

  lemma ItemIsMarker(lines: seq<string>, markers: seq<bool>, items: seq<Lines>, item: Lines)
    requires markers == Classify(lines, IsMarker) && item in items
    requires items == ItemsFrom(markers, Classify(lines, Interrupts), 0)
    ensures 1 <= item.0 <= |lines| && IsMarker(lines[item.0 - 1])
  {
    ItemsAreItems(markers, Classify(lines, Interrupts), 0);
    var k := item.0 - 1;
    assert 0 <= k < |markers| && markers[k];
    ClassifyAt(lines, IsMarker, k);
  }

  /** The list items are shorter than the budget, the body is not. */
  ghost predicate ShortItems(config: Config, content: Content) {
    && config.maxTokens < EstimateTokens(content.body)
    && forall t :: t in content.listItems && CharRange(content.body, 1, t).Some? ==>
         CharRange(content.body, 1, t).value.hi - CharRange(content.body, 1, t).value.lo < 4 * config.maxTokens
  }

  /** A document without headings and tables that is one list of unindented items, each shorter than the
    * budget that the document exceeds. */
  ghost predicate ListDocument(config: Config, body: string, content: Content) {
    content == Scanned(body, []) && content.tables == [] && ListLines(SplitLines(body)) && ShortItems(config, content)
  }

  lemma ListDocumentItems(config: Config, body: string, content: Content, item: Lines)
    requires ListDocument(config, body, content) && item in content.listItems
    ensures 1 <= item.0 <= |SplitLines(body)| && ShortItem(config, body, 1, item)
  {
    var lines := SplitLines(body);
    ItemsSound(lines);
    ItemIsMarker(lines, Classify(lines, IsMarker), content.listItems, item);
    MarkersInterrupt(lines[item.0 - 1]);
    var r := ItemHasRange(body, item);
    ItemBeginsVisible(body, item, r);
  }

  lemma ListDocumentParts(config: Config, body: string, content: Content)
    requires ListDocument(config, body, content)
    ensures content.codeBlocks == [] && Placed(body, 1, content.listItems)
    ensures Tiles(content.listItems, 1, |SplitLines(body)|)
  {
    var lines := SplitLines(body);
    ScannedIsSound(body, []);
    NoFences(lines, |lines|);
    ListLinesTile(lines);
    SectionPlaced(content, Section([], body, 1), content.listItems);
  }

  lemma ListDocumentIsListSection(config: Config, body: string, content: Content)
    requires ListDocument(config, body, content)
    ensures ListSection(config, body, 1, content, content.listItems)
  {
    ListDocumentParts(config, body, content);
    forall k | 0 <= k < |content.listItems| ensures ShortItem(config, body, 1, content.listItems[k]) {
      ListDocumentItems(config, body, content, content.listItems[k]);
    }
  }

  lemma OneSection(config: Config, content: Content, i: nat)
    requires config.Valid() && content.headings == []
    ensures BodyCovered(config, content, i) <==> Covered(content.body, Spans(config, content.body, 1, content), i)
  {
    var s := Section([], content.body, 1);
    assert Sections(content) == [s] && Offsets(content) == [0];
    assert BodyCovered(config, content, i) <==> KeptBy(config, content, [s][0], [0][0], i);
  }

  lemma ListDocumentRange(config: Config, body: string, content: Content, item: Lines) returns (r: Range)
    requires ListDocument(config, body, content) && item in content.listItems
    ensures CharRange(body, 1, item) == Some(r) && RangeOfLines(body, 1, item, r)
  {
    ItemsSound(SplitLines(body));
    r := ItemHasRange(body, item);
  }

  lemma Alone(items: seq<Lines>)
    ensures items == [] + items + []
  {
  }

  lemma LastItemIsLost(config: Config, body: string, content: Content, items: seq<Lines>) returns (r: Range)
    requires config.Valid() && ListDocument(config, body, content) && items == content.listItems
    ensures |items| >= 2 && RangeOfLines(body, 1, items[|items| - 1], r)
    ensures forall i :: r.lo < i && Visible(body, i) ==> !Covered(body, Spans(config, body, 1, content), i)
  {
    ListDocumentIsListSection(config, body, content);
    Alone(items);
    ListSectionLosesItsLastItem(config, body, 1, content, [], items, []);
    r := ListDocumentRange(config, body, content, items[|items| - 1]);
  }

  /** Such a document always loses all of its last item but the first character. */
  lemma ListDocumentLosesItsLastItem(config: Config, body: string, content: Content)
    requires config.Valid() && ListDocument(config, body, content)
    ensures |content.listItems| >= 2
    ensures var last := content.listItems[|content.listItems| - 1];
            && 1 <= last.0 <= |SplitLines(body)|
            && forall i: nat :: Offset(SplitLines(body), last.0 - 1) < i && Visible(body, i)
                 ==> !BodyCovered(config, content, i)
  {
    var r := LastItemIsLost(config, body, content, content.listItems);
    forall i: nat | r.lo < i && Visible(body, i) ensures !BodyCovered(config, content, i) {
      OneSection(config, content, i);
    }
  }
}
