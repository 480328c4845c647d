/** Whether the code blocks, tables and list items of a Markdown document stay whole in its chunks.
  *
  * A block is torn where a chunk starts or ends between two of its visible characters. That happens where
  * the edge of a window shaves text off it, and where a heading opens a section inside it: heading lines
  * are also found in code blocks.
  */
module MarkdownBlocks {
  import opened Text
  import opened Wrappers
  import opened ChunkWindow
  import opened Chunker
  import opened ChunkDocument
  import opened HeadingPaths
  import opened MarkdownScanners
  import opened MarkdownDocument

  /** A visible character of the body on the lines of an interval. */
  ghost predicate OnLines(body: string, item: Lines, p: int) {
    Visible(body, p) && item.0 <= 1 + LineNo(body, p) <= item.1
  }

  /** Visible characters of the interval lie on both sides of position `x`. */
  ghost predicate TornAt(body: string, item: Lines, x: int) {
    exists p, q :: p < x <= q && OnLines(body, item, p) && OnLines(body, item, q)
  }

  /** No chunk of a section that begins at `o` starts or ends between visible characters of an interval. */
  ghost predicate TearsNone(content: Content, o: nat, spans: seq<Span>) {
    forall i, item :: 0 <= i < |spans| && Protected(content, item) ==>
      !TornAt(content.body, item, o + spans[i].start) && !TornAt(content.body, item, o + spans[i].end)
  }

  ghost predicate SectionTearsNone(config: Config, content: Content, s: Section, o: nat)
    requires config.Valid()
  {
    TearsNone(content, o, Spans(config, s.text, s.startLine, content))
  }

  ghost predicate NoneTornAmong(config: Config, content: Content, sections: seq<Section>, offsets: seq<nat>)
    requires config.Valid() && |sections| == |offsets|
  {
    forall k :: 0 <= k < |sections| ==> SectionTearsNone(config, content, sections[k], offsets[k])
  }

  /** No chunk of the document starts or ends between visible characters of one code block, table or list item. */
  ghost predicate NoneTorn(config: Config, content: Content)
    requires config.Valid()
  {
    SectionsLayout(content);
    NoneTornAmong(config, content, Sections(content), Offsets(content))
  }

  /** The section begins on a line of the interval that is not its first. */
  predicate OpensInside(s: Section, item: Lines) {
    item.0 < s.startLine <= item.1
  }

  ghost predicate NoneOpened(content: Content, sections: seq<Section>) {
    forall s, item :: s in sections && Protected(content, item) ==> !OpensInside(s, item)
  }

  /** In the sections that do not fit into one chunk, blocks of different categories share no line. */
  ghost predicate LongSectionsApart(config: Config, content: Content) {
    forall s :: s in Sections(content) ==> FitsOneChunk(config, s) || CategoriesApart(content, s)
  }

  /** No round of any section meets the edge case. */
  ghost predicate AllOffEdge(config: Config, content: Content)
    requires config.Valid()
  {
    forall s :: s in Sections(content) ==> OffEdge(config, content, s)
  }

  /** In no round of any section the edge shaves visible text off a range. */
  ghost predicate AllUnshaven(config: Config, content: Content)
    requires config.Valid()
  {
    forall s :: s in Sections(content) ==> Unshaven(config, content, s)
  }

  // ------------------------------------------------------------ a shaven range is torn

  lemma OnLinesOfSection(body: string, s: Section, o: nat, item: Lines, r: Range, q: nat)
    requires LiesAt(body, s, o) && RangeOfLines(s.text, s.startLine, item, r) && q < |s.text|
    ensures r.lo <= q < r.hi && Visible(s.text, q) <==> OnLines(body, item, o + q)
  {
    CharacterAt(body, s, o, q);
    SectionLines(body, s, o, q);
    RangeHoldsLines(s.text, s.startLine, item, r, q);
  }

  /** In its section, an interval is torn exactly where its range is split. */
  lemma SplitIsTorn(body: string, s: Section, o: nat, item: Lines, r: Range, x: nat)
    requires LiesAt(body, s, o) && RangeOfLines(s.text, s.startLine, item, r) && Splits(s.text, r, x)
    ensures TornAt(body, item, o + x)
  {
    var p: nat, q: nat :| r.lo <= p < x <= q < r.hi && Visible(s.text, p) && Visible(s.text, q);
    OnLinesOfSection(body, s, o, item, r, p);
    OnLinesOfSection(body, s, o, item, r, q);
  }

  lemma SplitTears(body: string, headings: seq<Heading>, content: Content, s: Section, o: nat, j: Job, x: nat)
      returns (item: Lines)
    requires content == Scanned(body, headings) && s in Sections(content) && LiesAt(body, s, o)
    requires j.text == s.text && j.ranges == ProtectedRanges(s.text, s.startLine, content) && SplitsSome(j, x)
    ensures Protected(content, item) && TornAt(body, item, o + x)
  {
    var k :| 0 <= k < |j.ranges| && Splits(j.text, j.ranges[k], x);
    item := RangeItem(body, headings, content, s, j.ranges[k]);
    SplitIsTorn(body, s, o, item, j.ranges[k], x);
  }

  lemma TogetherUnlessTorn(config: Config, body: string, headings: seq<Heading>, content: Content, s: Section, o: nat)
    requires config.Valid() && content == Scanned(body, headings) && s in Sections(content) && LiesAt(body, s, o)
    requires SectionTearsNone(config, content, s, o)
    ensures KeepsTogether(SectionJob(config, content, s), Spans(config, s.text, s.startLine, content))
  {
    var j, spans := SectionJob(config, content, s), Spans(config, s.text, s.startLine, content);
    forall i | 0 <= i < |spans| ensures !SplitsSome(j, spans[i].start) && !SplitsSome(j, spans[i].end) {
      if SplitsSome(j, spans[i].start) {
        var item := SplitTears(body, headings, content, s, o, j, spans[i].start);
      }
      if SplitsSome(j, spans[i].end) {
        var item := SplitTears(body, headings, content, s, o, j, spans[i].end);
      }
    }
  }

  // --------------------------------------------------------- an opened interval is torn

  lemma SpansBegin(config: Config, content: Content, s: Section, q: nat)
    requires config.Valid() && Visible(s.text, q)
    ensures var spans := Spans(config, s.text, s.startLine, content); spans != [] && spans[0].start <= q
  {
    if !FitsOneChunk(config, s) {
      FirstWindow(SectionJob(config, content, s), ORIGIN, q);
    }
  }

  /** A visible character on a section's first line is in that section. */
  lemma HeadInSection(body: string, sections: seq<Section>, offsets: seq<nat>, k: nat, p: nat)
    requires Layout(body, sections, offsets) && k < |sections|
    requires Visible(body, p) && LineNo(body, p) == sections[k].startLine - 1
    ensures HeldAt(sections, offsets, k, p)
  {
    var h :| HeldAt(sections, offsets, h, p);
    assert LiesAt(body, sections[k], offsets[k]) && LiesAt(body, sections[h], offsets[h]);
    BeforeLineBegins(body, offsets[k], sections[k].startLine - 1, p);
    BeforeLineBegins(body, offsets[h], sections[h].startLine - 1, p);
  }

  /** The interval has a visible character before the section and one on its first line. */
  lemma AroundTheOpening(content: Content, sections: seq<Section>, offsets: seq<nat>, k: nat, item: Lines)
      returns (q: nat, p: nat)
    requires sections == Sections(content) && Layout(content.body, sections, offsets) && k < |sections|
    requires Sound(SplitLines(content.body), item) && OpensInside(sections[k], item)
    ensures q < offsets[k] && OnLines(content.body, item, q) && OnLines(content.body, item, p)
    ensures HeldAt(sections, offsets, k, p)
  {
    assert LiesAt(content.body, sections[k], offsets[k]);
    q := FirstVisible(content.body, item);
    p := SectionHeadIsVisible(content, sections[k]);
    HeadInSection(content.body, sections, offsets, k, p);
    BeforeLineBegins(content.body, offsets[k], sections[k].startLine - 1, q);
  }

  lemma FirstSpanTears(config: Config, content: Content, s: Section, o: nat, item: Lines, q: nat, p: nat)
    requires config.Valid() && LiesAt(content.body, s, o) && Protected(content, item)
    requires q < o <= p < o + |s.text| && OnLines(content.body, item, q) && OnLines(content.body, item, p)
    ensures !SectionTearsNone(config, content, s, o)
  {
    CharacterAt(content.body, s, o, p - o);
    SpansBegin(config, content, s, p - o);
    var spans := Spans(config, s.text, s.startLine, content);
    assert TornAt(content.body, item, o + spans[0].start);
  }

  lemma OpenedIsTorn(config: Config, content: Content, sections: seq<Section>, offsets: seq<nat>, k: nat, item: Lines)
    requires config.Valid() && sections == Sections(content) && Layout(content.body, sections, offsets) && k < |sections|
    requires Protected(content, item) && Sound(SplitLines(content.body), item) && OpensInside(sections[k], item)
    ensures !SectionTearsNone(config, content, sections[k], offsets[k])
  {
    assert LiesAt(content.body, sections[k], offsets[k]);
    var q, p := AroundTheOpening(content, sections, offsets, k, item);
    FirstSpanTears(config, content, sections[k], offsets[k], item, q, p);
  }

  // ----------------------------------------------------------------- and nothing else is

  /** Two visible characters of an interval that no section opens are in one section. */
  lemma OneHolder(body: string, sections: seq<Section>, offsets: seq<nat>, item: Lines, p: nat, q: nat) returns (h: nat)
    requires Layout(body, sections, offsets) && p < q && OnLines(body, item, p) && OnLines(body, item, q)
    requires forall s :: s in sections ==> !OpensInside(s, item)
    ensures HeldAt(sections, offsets, h, p) && HeldAt(sections, offsets, h, q)
  {
    h :| HeldAt(sections, offsets, h, p);
    var g :| HeldAt(sections, offsets, g, q);
    if h < g {
      assert LiesAt(body, sections[g], offsets[g]) && sections[g] in sections;
      BeforeLineBegins(body, offsets[g], sections[g].startLine - 1, p);
      BeforeLineBegins(body, offsets[g], sections[g].startLine - 1, q);
    }
  }

  /** An interval with a visible character in a section, and not opened by it, starts in it. */
  lemma StartsHere(body: string, s: Section, o: nat, item: Lines, p: nat) returns (r: Range)
    requires LiesAt(body, s, o) && o <= p < o + |s.text| && OnLines(body, item, p) && !OpensInside(s, item)
    requires 1 <= item.0 <= item.1 && StartsOnLine(s.text, s.startLine, item)
    ensures CharRange(s.text, s.startLine, item) == Some(r) && RangeOfLines(s.text, s.startLine, item, r)
  {
    SectionLines(body, s, o, p - o);
    LineOfPosition(s.text, p - o);
    CharRangeIff(s.text, s.startLine, item);
    r := CharRange(s.text, s.startLine, item).value;
    RangeIsOfLines(s.text, s.startLine, item, r);
  }

  lemma TornIsSplit(content: Content, s: Section, o: nat, j: Job, item: Lines, r: Range, p: nat, q: nat, x: nat)
    requires LiesAt(content.body, s, o) && j.text == s.text && j.ranges == ProtectedRanges(s.text, s.startLine, content)
    requires Protected(content, item) && CharRange(s.text, s.startLine, item) == Some(r)
    requires RangeOfLines(s.text, s.startLine, item, r)
    requires o <= p < o + x <= q < o + |s.text| && OnLines(content.body, item, p) && OnLines(content.body, item, q)
    ensures SplitsSome(j, x)
  {
    OnLinesOfSection(content.body, s, o, item, r, p - o);
    OnLinesOfSection(content.body, s, o, item, r, q - o);
    ProtectedIff(s.text, s.startLine, content, r);
    var k :| 0 <= k < |j.ranges| && j.ranges[k] == r;
    assert Splits(j.text, j.ranges[k], x);
  }

  /** A boundary in section `k` tears only what is held by that section. */
  lemma BoundaryIsHeld(body: string, sections: seq<Section>, offsets: seq<nat>, h: int, k: nat, p: nat, q: nat, x: nat)
    requires Layout(body, sections, offsets) && k < |sections| && x <= |sections[k].text|
    requires HeldAt(sections, offsets, h, p) && HeldAt(sections, offsets, h, q) && p < offsets[k] + x <= q
    ensures h == k
  {
  }

  /** Where a boundary of a section tears an interval that no section opens, it splits a range of the section. */
  lemma TornSplits(body: string, headings: seq<Heading>, content: Content, sections: seq<Section>,
                   offsets: seq<nat>, k: nat, j: Job, item: Lines, x: nat)
    requires content == Scanned(body, headings) && sections == Sections(content) && Layout(body, sections, offsets)
    requires k < |sections| && j.text == sections[k].text && x <= |j.text|
    requires j.ranges == ProtectedRanges(sections[k].text, sections[k].startLine, content)
    requires NoneOpened(content, sections) && Protected(content, item) && TornAt(body, item, offsets[k] + x)
    ensures SplitsSome(j, x)
  {
    var s, o := sections[k], offsets[k];
    assert LiesAt(body, s, o) && s in sections;
    var p: nat, q: nat :| p < o + x <= q && OnLines(body, item, p) && OnLines(body, item, q);
    var h := OneHolder(body, sections, offsets, item, p, q);
    BoundaryIsHeld(body, sections, offsets, h, k, p, q, x);
    ScannedItem(body, headings, content, s, item);
    var r := StartsHere(body, s, o, item, p);
    TornIsSplit(content, s, o, j, item, r, p, q, x);
  }

  lemma TogetherTearsNone(body: string, headings: seq<Heading>, content: Content, sections: seq<Section>,
                          offsets: seq<nat>, k: nat, j: Job, spans: seq<Span>)
    requires content == Scanned(body, headings) && sections == Sections(content) && Layout(body, sections, offsets)
    requires k < |sections| && j.text == sections[k].text
    requires j.ranges == ProtectedRanges(sections[k].text, sections[k].startLine, content)
    requires NoneOpened(content, sections)
    requires KeepsTogether(j, spans) && forall i :: 0 <= i < |spans| ==> ValidSpan(j.text, spans[i])
    ensures TearsNone(content, offsets[k], spans)
  {
    forall i, item | 0 <= i < |spans| && Protected(content, item)
      ensures !TornAt(body, item, offsets[k] + spans[i].start) && !TornAt(body, item, offsets[k] + spans[i].end)
    {
      if TornAt(body, item, offsets[k] + spans[i].start) {
        TornSplits(body, headings, content, sections, offsets, k, j, item, spans[i].start);
      }
      if TornAt(body, item, offsets[k] + spans[i].end) {
        TornSplits(body, headings, content, sections, offsets, k, j, item, spans[i].end);
      }
    }
  }

  lemma SectionTearsIff(config: Config, body: string, headings: seq<Heading>, content: Content, sections: seq<Section>,
                        offsets: seq<nat>, k: nat)
    requires config.Valid() && content == Scanned(body, headings) && sections == Sections(content)
    requires Layout(body, sections, offsets) && k < |sections| && NoneOpened(content, sections)
    ensures SectionTearsNone(config, content, sections[k], offsets[k])
       <==> KeepsTogether(SectionJob(config, content, sections[k]),
                          Spans(config, sections[k].text, sections[k].startLine, content))
  {
    var s, o := sections[k], offsets[k];
    var j, spans := SectionJob(config, content, s), Spans(config, s.text, s.startLine, content);
    assert LiesAt(body, s, o) && s in sections;
    if KeepsTogether(j, spans) {
      TogetherTearsNone(body, headings, content, sections, offsets, k, j, spans);
    }
    if SectionTearsNone(config, content, s, o) {
      TogetherUnlessTorn(config, body, headings, content, s, o);
    }
  }

  // --------------------------------------------------------------------------- theorem

  lemma UnshavenIff(config: Config, body: string, headings: seq<Heading>, content: Content, s: Section)
    requires config.Valid() && content == Scanned(body, headings) && s in Sections(content)
    requires FitsOneChunk(config, s) || CategoriesApart(content, s)
    ensures KeepsTogether(SectionJob(config, content, s), Spans(config, s.text, s.startLine, content))
       <==> Unshaven(config, content, s)
  {
    ScannedRangesDisjoint(body, headings, content, s);
    assert SectionJob(config, content, s) == JobFor(config, s.text, s.startLine, content);
    SectionTogether(config, s.text, s.startLine, content);
  }

  lemma NoneTornOpensNone(config: Config, body: string, headings: seq<Heading>, content: Content)
    requires config.Valid() && content == Scanned(body, headings) && NoneTorn(config, content)
    ensures NoneOpened(content, Sections(content))
  {
    var sections, offsets := Sections(content), Offsets(content);
    SectionsLayout(content);
    forall s, item | s in sections && Protected(content, item) ensures !OpensInside(s, item) {
      var k :| 0 <= k < |sections| && sections[k] == s;
      if OpensInside(s, item) {
        ScannedItem(body, headings, content, s, item);
        OpenedIsTorn(config, content, sections, offsets, k, item);
      }
    }
  }

  /** Where no section is too long for one chunk and has blocks of different categories on one line: no chunk of a
    * scanned document starts or ends between visible characters of one code block, table or list item exactly when
    * in no round the edge shaves text off a range and no section begins inside a block. */
  lemma BlocksStayWhole(config: Config, body: string, headings: seq<Heading>, content: Content)
    requires config.Valid() && content == Scanned(body, headings)
    requires LongSectionsApart(config, content)
    ensures NoneTorn(config, content) <==> NoneOpened(content, Sections(content)) && AllUnshaven(config, content)
  {
    var sections, offsets := Sections(content), Offsets(content);
    SectionsLayout(content);
    if NoneTorn(config, content) {
      NoneTornOpensNone(config, body, headings, content);
    }
    if NoneOpened(content, sections) {
      forall k | 0 <= k < |sections|
        ensures SectionTearsNone(config, content, sections[k], offsets[k]) <==> Unshaven(config, content, sections[k])
      {
        SectionTearsIff(config, body, headings, content, sections, offsets, k);
        UnshavenIff(config, body, headings, content, sections[k]);
      }
    }
  }

  /** Where no section is too long for one chunk and has blocks of different categories on one line: a scanned document
    * keeps all visible text exactly when no round of any section loses text at the edge, and keeps its code blocks,
    * tables and list items whole exactly when no round shaves text off one and no section begins inside one. Documents
    * that keep their blocks whole keep all their text. */
  lemma ScannedDocument(config: Config, body: string, headings: seq<Heading>, content: Content)
    requires config.Valid() && content == Scanned(body, headings)
    requires LongSectionsApart(config, content)
    ensures (forall i: nat :: Visible(body, i) ==> BodyCovered(config, content, i))
       <==> AllOffEdge(config, content)
    ensures NoneTorn(config, content)
       <==> NoneOpened(content, Sections(content)) && AllUnshaven(config, content)
    ensures NoneTorn(config, content) ==> forall i: nat :: Visible(body, i) ==> BodyCovered(config, content, i)
  {
    ScannedCoverage(config, body, headings, content);
    BlocksStayWhole(config, body, headings, content);
    if AllUnshaven(config, content) {
      UnshavenKeepsAll(config, content);
    }
  }

  lemma UnshavenKeepsAll(config: Config, content: Content)
    requires config.Valid() && AllUnshaven(config, content)
    ensures AllOffEdge(config, content)
  {
    forall s | s in Sections(content) ensures OffEdge(config, content, s) {
      UnshavenKeeps(config, content, s);
    }
  }

  lemma ScannedCoverage(config: Config, body: string, headings: seq<Heading>, content: Content)
    requires config.Valid() && content == Scanned(body, headings)
    requires LongSectionsApart(config, content)
    ensures (forall i: nat :: Visible(body, i) ==> BodyCovered(config, content, i))
       <==> AllOffEdge(config, content)
  {
    forall s | s in Sections(content) ensures FitsOneChunk(config, s) || SectionDisjoint(content, s) {
      ScannedRangesDisjoint(body, headings, content, s);
    }
    DocumentCoverage(config, content);
  }

  lemma UnshavenKeeps(config: Config, content: Content, s: Section)
    requires config.Valid() && Unshaven(config, content, s)
    ensures OffEdge(config, content, s)
  {
    var j := SectionJob(config, content, s);
    assert forall d :: EdgeLoses(j, d) ==> EdgeShaves(j, d);
  }

  // ---------------------------------------------------------------- roomy documents

  /** Every block that starts in the section is shorter than the budget and ends before the section does. */
  ghost predicate Roomy(config: Config, content: Content, s: Section) {
    forall item :: Protected(content, item) && InSection(s.text, s.startLine, item) ==>
      var r := CharRange(s.text, s.startLine, item);
      r.Some? ==> r.value.hi < |s.text| && r.value.hi - r.value.lo < 4 * config.maxTokens
  }

  lemma RoomyRange(config: Config, body: string, headings: seq<Heading>, content: Content, s: Section, r: Range)
    requires config.Valid() && content == Scanned(body, headings) && s in Sections(content) && Roomy(config, content, s)
    requires r in ProtectedRanges(s.text, s.startLine, content)
    ensures r.hi < |s.text| && r.hi - r.lo < 4 * config.maxTokens
  {
    ProtectedIff(s.text, s.startLine, content, r);
    var item :| Protected(content, item) && CharRange(s.text, s.startLine, item) == Some(r);
    ScannedItem(body, headings, content, s, item);
    CharRangeIff(s.text, s.startLine, item);
  }

  lemma RoomySection(config: Config, body: string, headings: seq<Heading>, content: Content, s: Section)
    requires config.Valid() && content == Scanned(body, headings) && s in Sections(content)
    requires FitsOneChunk(config, s) || (CategoriesApart(content, s) && Roomy(config, content, s))
    ensures Unshaven(config, content, s)
  {
    if !FitsOneChunk(config, s) {
      var j := SectionJob(config, content, s);
      forall k | 0 <= k < |j.ranges| ensures j.ranges[k].hi < |j.text| && j.ranges[k].hi - j.ranges[k].lo < j.budget {
        RoomyRange(config, body, headings, content, s, j.ranges[k]);
      }
      forall d ensures !EdgeShaves(j, d) {
        RoomyOffEdge(j, d);
      }
    }
  }

  lemma RoomyOffEdge(j: Job, d: Cursor)
    requires forall k :: 0 <= k < |j.ranges| ==> j.ranges[k].hi < |j.text| && j.ranges[k].hi - j.ranges[k].lo < j.budget
    ensures !EdgeShaves(j, d)
  {
  }

  /** A condition to check beforehand: where the sections that do not fit into one chunk have blocks of different
    * categories on different lines, all shorter than the budget and ending before the section does, a document loses
    * no visible text, and its blocks stay whole exactly if no section begins inside one. */
  lemma RoomyDocument(config: Config, body: string, headings: seq<Heading>, content: Content)
    requires config.Valid() && content == Scanned(body, headings)
    requires LongSectionsApart(config, content)
    requires forall s :: s in Sections(content) ==> FitsOneChunk(config, s) || Roomy(config, content, s)
    ensures forall i: nat :: Visible(body, i) ==> BodyCovered(config, content, i)
    ensures NoneTorn(config, content) <==> NoneOpened(content, Sections(content))
  {
    forall s | s in Sections(content) ensures Unshaven(config, content, s) {
      RoomySection(config, body, headings, content, s);
    }
    UnshavenKeepsAll(config, content);
    ScannedDocument(config, body, headings, content);
  }

  // ------------------------------------------------------- a heading inside a code block

  const COMMENT := "```\n# a\n```"

  lemma CommentLines()
    ensures SplitLines(COMMENT) == ["```", "# a", "```"] && SplitKeepEnds(COMMENT) == ["```\n", "# a\n", "```"]
  {
    var t, a: nat, b: nat, c: nat, d: nat, e: nat, f: nat := COMMENT, 0, 3, 4, 7, 8, 11;
    assert |t| == f && t[b] == t[d] == '\n' && forall i :: 0 <= i < f && i != b && i != d ==> t[i] != '\n';
    NextLine(t, a, b);
    NextLine(t, c, d);
    NextLine(t, e, f);
    assert t[a..b] == t[e..] == "```" && t[c..d] == "# a" && t[a..b + 1] == "```\n" && t[c..d + 1] == "# a\n";
  }

  lemma CommentHeadings()
    ensures Marks([Heading(1, "a")], ["```\n", "# a\n", "```"]) == [false, true, false]
  {
    var hs, lines := [Heading(1, "a")], ["```\n", "# a\n", "```"];
    assert Hashes(1) == "#";
    TrimIs("# a\n", 0, 3);
    TrimIs("```\n", 0, 3);
    TrimIs("```", 0, 3);
    assert Matches(hs[0], "# a\n") && !Matches(hs[0], "```\n") && !Matches(hs[0], "```");
    assert FirstMatch(hs, 1, "```\n") == None && FirstMatch(hs, 1, "```") == None;
    assert HeadingOn(hs, "# a\n").Some? && HeadingOn(hs, "```\n").None? && HeadingOn(hs, "```").None?;
    assert lines[..2] == ["```\n", "# a\n"] && lines[..2][..1] == ["```\n"] && lines[..2][..1][..0] == [];
  }

  lemma CommentBlock()
    ensures (1, 3) in Scanned(COMMENT, [Heading(1, "a")]).codeBlocks
  {
    var lines := ["```", "# a", "```"];
    CommentLines();
    assert IsFence(lines[0]) && !IsFence(lines[1]) && IsFence(lines[2]);
    assert Fences(lines, 0) == [];
    assert Fences(lines, 1) == [1];
    assert Fences(lines, 2) == [1];
    assert Fences(lines, 3) == [1, 3];
  }

  lemma CommentCuts(marks: seq<bool>)
    requires marks == [false, true, false]
    ensures Cuts(marks, 0) == [Cut(0, 1), Cut(1, 3)]
  {
    assert NextMark(marks, 1) == 1 && NextMark(marks, 2) == 3;
    assert Cuts(marks, 1) == [Cut(1, 3)] + Cuts(marks, 3);
    assert Cuts(marks, 0) == [Cut(0, 1)] + Cuts(marks, 1);
  }

  lemma CommentSection() returns (s: Section)
    ensures s in Sections(Scanned(COMMENT, [Heading(1, "a")])) && s.startLine == 2
  {
    var content := Scanned(COMMENT, [Heading(1, "a")]);
    CommentLines();
    CommentHeadings();
    CommentCuts([false, true, false]);
    SectionsMadeOf(content);
    s := Sections(content)[1];
  }

  lemma SectionsAreShorter(content: Content, s: Section)
    requires s in Sections(content)
    ensures |s.text| <= |content.body|
  {
    SectionsLayout(content);
    var k :| 0 <= k < |Sections(content)| && Sections(content)[k] == s;
    assert LiesAt(content.body, s, Offsets(content)[k]);
  }

  /** A line that looks like a heading tears the code block around it, although every section fits into one chunk. */
  lemma HeadingTearsCodeBlock(config: Config)
    requires config.Valid()
    ensures var content := Scanned(COMMENT, [Heading(1, "a")]);
            && (forall s :: s in Sections(content) ==> FitsOneChunk(config, s))
            && !NoneTorn(config, content)
  {
    var headings := [Heading(1, "a")];
    var content := Scanned(COMMENT, headings);
    forall s | s in Sections(content) ensures FitsOneChunk(config, s) {
      SectionsAreShorter(content, s);
    }
    CommentBlock();
    var s := CommentSection();
    assert OpensInside(s, (1, 3)) && Protected(content, (1, 3));
    BlocksStayWhole(config, COMMENT, headings, content);
  }

  // ------------------------------------------------------------ a list in a code block

  const FENCED := "```\n- x\n```\n"

  /** A code block with a list item in it, and one long line behind it. */
  function ListInCode(n: nat): string {
    FENCED + seq(n, _ => 'x')
  }

  lemma FencedChars(t: string)
    requires |t| >= 12 && t[..12] == FENCED
    ensures t[3] == t[7] == t[11] == '\n'
    ensures forall i :: 0 <= i < 12 && i != 3 && i != 7 && i != 11 ==> t[i] != '\n'
    ensures t[0..3] == t[8..11] == "```" && t[4..7] == "- x"
  {
    assert forall i :: 0 <= i < 12 ==> t[i] == FENCED[i];
    assert t[0..3] == FENCED[0..3] && t[4..7] == FENCED[4..7] && t[8..11] == FENCED[8..11];
    assert FENCED[0..3] == FENCED[8..11] == "```" && FENCED[4..7] == "- x";
  }

  lemma FencedLines(t: string, g: nat)
    requires g == |FENCED| < |t| && t[..g] == FENCED && forall i :: g <= i < |t| ==> t[i] != '\n'
    ensures SplitLines(t) == ["```", "- x", "```", t[g..]]
  {
    var a: nat, b: nat, c: nat, d: nat, e: nat, f: nat := 0, 3, 4, 7, 8, 11;
    FencedChars(t);
    NextLine(t, a, b);
    NextLine(t, c, d);
    NextLine(t, e, f);
    NextLine(t, g, |t|);
  }

  lemma ListInCodeLines(n: nat)
    requires n > 0
    ensures SplitLines(ListInCode(n)) == ["```", "- x", "```", seq(n, _ => 'x')]
  {
    FencedLines(ListInCode(n), |FENCED|);
  }

  lemma FillIsPlain(n: nat)
    requires n > 0
    ensures var fill := seq(n, _ => 'x'); !IsFence(fill) && !IsMarker(fill) && Interrupts(fill) && !IsHead(fill)
  {
    var fill := seq(n, _ => 'x');
    TrimIs(fill, 0, n);
    assert Strip(fill) == fill && fill[0] == 'x';
    assert SkipDigits(fill, 0) == 0;
  }

  lemma OnePair(lines: seq<string>)
    requires |lines| == 4 && IsFence(lines[0]) && !IsFence(lines[1]) && IsFence(lines[2]) && !IsFence(lines[3])
    ensures Fences(lines, |lines|) == [1, 3]
  {
    var n: nat := 4;
    assert Fences(lines, n - 4) == [];
    assert Fences(lines, n - 3) == [1];
    assert Fences(lines, n - 2) == [1];
    assert Fences(lines, n - 1) == [1, 3];
    assert Fences(lines, n) == [1, 3];
  }

  lemma PairOfTwo(a: nat, b: nat)
    ensures Pairs([a, b]) == [(a, b)]
  {
    assert [a, b][2..] == [];
  }

  /** A fence, an unindented list item, a fence, and a line that is none of these. */
  ghost predicate LineKinds(lines: seq<string>) {
    && |lines| == 4 && IsFence(lines[0]) && !IsFence(lines[1]) && IsFence(lines[2]) && !IsFence(lines[3])
    && !IsMarker(lines[0]) && IsMarker(lines[1]) && !IsMarker(lines[2]) && !IsMarker(lines[3])
    && Interrupts(lines[2]) && forall k :: 0 <= k < 4 ==> !IsHead(lines[k])
  }

  lemma ListInCodeKinds(lines: seq<string>, n: nat)
    requires n > 0 && lines == ["```", "- x", "```", seq(n, _ => 'x')]
    ensures LineKinds(lines)
  {
    FillIsPlain(n);
    TrimIs("```", 0, 3);
    TrimIs("- x", 0, 3);
    assert SkipSpace("- x", 1) == 2;
  }

  lemma KindsScanned(lines: seq<string>)
    requires LineKinds(lines)
    ensures Pairs(Fences(lines, |lines|)) == [(1, 3)]
    ensures ItemsFrom(Classify(lines, IsMarker), Classify(lines, Interrupts), 0) == [(2, 2)]
    ensures ValidMarks(TableMarksOf(lines)) && TablesFrom(TableMarksOf(lines), 0) == []
  {
    OnePair(lines);
    PairOfTwo(1, 3);
    KindsItems(lines, Classify(lines, IsMarker), Classify(lines, Interrupts));
    MarksAreValid(lines);
    NoHeadNoTables(lines, 0);
  }

  lemma KindsItems(lines: seq<string>, markers: seq<bool>, breaks: seq<bool>)
    requires LineKinds(lines) && markers == Classify(lines, IsMarker) && breaks == Classify(lines, Interrupts)
    ensures ItemsFrom(markers, breaks, 0) == [(2, 2)]
  {
    forall k: nat | k < 4 ensures markers[k] == IsMarker(lines[k]) && breaks[k] == Interrupts(lines[k]) {
      ClassifyAt(lines, IsMarker, k);
      ClassifyAt(lines, Interrupts, k);
    }
    OneItemFrom(markers, breaks);
  }

  lemma OneItemFrom(markers: seq<bool>, breaks: seq<bool>)
    requires |markers| == |breaks| == 4 && !markers[0] && markers[1] && !markers[2] && !markers[3] && breaks[2]
    ensures ItemsFrom(markers, breaks, 0) == [(2, 2)]
  {
    assert Next(breaks, true, 2) == 2;
    assert ItemsFrom(markers, breaks, 4) == [];
    assert ItemsFrom(markers, breaks, 3) == [];
    assert ItemsFrom(markers, breaks, 2) == [];
    assert ItemsFrom(markers, breaks, 1) == [(2, 2)];
  }

  lemma {:induction false} NoHeadNoTables(lines: seq<string>, i: nat)
    requires ValidMarks(TableMarksOf(lines)) && forall k :: 0 <= k < |lines| ==> !IsHead(lines[k])
    ensures TablesFrom(TableMarksOf(lines), i) == []
    decreases |lines| - i
  {
    if i < |lines| {
      ClassifyAt(lines, IsHead, i);
      NoHeadNoTables(lines, i + 1);
    }
  }

  lemma ListInCodeContent(n: nat)
    requires n > 0
    ensures Scanned(ListInCode(n), []) == Content(ListInCode(n), [], [(1, 3)], [], [(2, 2)])
  {
    var lines := SplitLines(ListInCode(n));
    ListInCodeLines(n);
    ListInCodeKinds(lines, n);
    KindsScanned(lines);
  }

  lemma ListInCodeOffsets(n: nat, lines: seq<string>)
    requires lines == ["```", "- x", "```", seq(n, _ => 'x')]
    ensures Offset(lines, 0) == 0 && Offset(lines, 1) == 4 && Offset(lines, 2) == 8 && Offset(lines, 3) == 12
  {
    OffsetStep(lines, 0);
    OffsetStep(lines, 1);
    OffsetStep(lines, 2);
  }

  lemma ListInCodeRange(text: string, lines: seq<string>, item: Lines)
    requires lines == SplitLines(text) && |lines| == 4 && 1 <= item.0 <= item.1 <= 3
    ensures CharRange(text, 1, item) == Some(Range(Offset(lines, item.0 - 1), Offset(lines, item.1)))
  {
    CharRangeIff(text, 1, item);
    CharRangeAt(text, 1, item);
  }

  /** The code block and the item in it give nested ranges. */
  lemma ListInCodeRanges(text: string, content: Content, outer: Range, inner: Range)
    requires CharRange(text, 1, (1, 3)) == Some(outer) && CharRange(text, 1, (2, 2)) == Some(inner)
    requires content.codeBlocks == [(1, 3)] && content.tables == [] && content.listItems == [(2, 2)]
    requires outer.lo < inner.lo
    ensures ProtectedRanges(text, 1, content) == [outer, inner]
  {
    assert [(1, 3)][..0] == [] && [(2, 2)][..0] == [];
    assert CharRanges(text, 1, content.codeBlocks) == [outer] && CharRanges(text, 1, content.tables) == [];
    assert CharRanges(text, 1, content.listItems) == [inner];
    assert [outer] + [] + [inner] == [outer, inner];
    assert [outer, inner][1..] == [inner] && [inner][1..] == [];
    assert Sort([inner]) == [inner];
  }

  lemma ListInCodeNests(config: Config, n: nat)
    requires config.Valid() && n > 0
    ensures NestedStart(JobFor(config, ListInCode(n), 1, Scanned(ListInCode(n), [])))
    ensures JobFor(config, ListInCode(n), 1, Scanned(ListInCode(n), [])).ranges == [Range(0, 12), Range(4, 8)]
  {
    var text, content := ListInCode(n), Scanned(ListInCode(n), []);
    JobIsValid(config, text, 1, content);
    ListInCodeContent(n);
    ListInCodeLines(n);
    ListInCodeOffsets(n, SplitLines(text));
    ListInCodeRange(text, SplitLines(text), (1, 3));
    ListInCodeRange(text, SplitLines(text), (2, 2));
    ListInCodeRanges(text, content, Range(0, 12), Range(4, 8));
    assert text[0] == '`' && Visible(text, 0);
  }

  lemma NestedIsLost(config: Config, content: Content, j: Job, i: nat)
    requires config.Valid() && content.headings == [] && EstimateTokens(content.body) > config.maxTokens
    requires j == JobFor(config, content.body, 1, content) && NestedStart(j)
    requires j.ranges[1].lo <= i < j.ranges[0].hi && Visible(content.body, i)
    ensures !BodyCovered(config, content, i)
  {
    NestedRangeLosesText(j);
    assert Spans(config, content.body, 1, content) == Run(j, ORIGIN);
    OneSection(config, content, i);
  }

  /** A list item in a code block, in a document that does not fit into one chunk: the first window ends where the
    * item begins, the next one starts behind the code block, and the rest of the block is in no chunk. */
  lemma ListInCodeIsLost(config: Config, n: nat)
    requires config.Valid() && n > 0 && EstimateTokens(ListInCode(n)) > config.maxTokens
    ensures forall i: nat :: 4 <= i < 12 && Visible(ListInCode(n), i) ==>
              !BodyCovered(config, Scanned(ListInCode(n), []), i)
    ensures Visible(ListInCode(n), 4)
  {
    var text, content := ListInCode(n), Scanned(ListInCode(n), []);
    var j := JobFor(config, text, 1, content);
    ListInCodeNests(config, n);
    assert text[4] == '-' && Visible(text, 4);
    forall i: nat | 4 <= i < 12 && Visible(text, i) ensures !BodyCovered(config, content, i) {
      NestedIsLost(config, content, j, i);
    }
  }
}
