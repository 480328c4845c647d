/** A whole document: its body is cut into sections at heading lines, and every section is chunked. */
module ChunkDocument {
  import opened Text
  import opened Wrappers
  import opened ChunkWindow
  import opened Chunker
  import opened HeadingPaths

  // -------------------------------------------------------------------- headings

  function Hashes(level: nat): string {
    seq(level, _ => '#')
  }

  predicate Matches(h: Heading, line: string) {
    Hashes(h.level) <= Strip(line) && Hashes(h.level) + " " + h.text <= Strip(line)
  }

  /** The first heading, from the `k`-th on, that a line matches. */
  function FirstMatch(headings: seq<Heading>, k: nat, line: string): Option<Heading>
    requires k <= |headings|
    decreases |headings| - k
  {
    if k == |headings| then None
    else if Matches(headings[k], line) then Some(headings[k])
    else FirstMatch(headings, k + 1, line)
  }

  /** The heading on a line; one of level 0 does not count, and hides those listed after it. */
  function HeadingOn(headings: seq<Heading>, line: string): Option<Heading> {
    var first := FirstMatch(headings, 0, line);
    if first.Some? && first.value.level > 0 then first else None
  }

  function HeadingsOn(headings: seq<Heading>, lines: seq<string>): (found: Found)
    ensures |found| == |lines| && Levelled(found)
  {
    if lines == [] then []
    else HeadingsOn(headings, lines[..|lines| - 1]) + [HeadingOn(headings, lines[|lines| - 1])]
  }

  lemma {:induction false} HeadingsOnAt(headings: seq<Heading>, lines: seq<string>, k: nat)
    requires k < |lines|
    ensures HeadingsOn(headings, lines)[k] == HeadingOn(headings, lines[k])
  {
    if k < |lines| - 1 {
      HeadingsOnAt(headings, lines[..|lines| - 1], k);
    }
  }

  /** Which lines are headings. */
  function Marks(headings: seq<Heading>, lines: seq<string>): (marks: seq<bool>)
    ensures |marks| == |lines|
  {
    if lines == [] then []
    else Marks(headings, lines[..|lines| - 1]) + [HeadingOn(headings, lines[|lines| - 1]).Some?]
  }

  lemma {:induction false} MarksAt(headings: seq<Heading>, lines: seq<string>, k: nat)
    requires k < |lines|
    ensures Marks(headings, lines)[k] == HeadingsOn(headings, lines)[k].Some?
  {
    if k < |lines| - 1 {
      MarksAt(headings, lines[..|lines| - 1], k);
    }
  }

  /** The first marked line at or after `from`, or the number of lines. */
  function NextMark(marks: seq<bool>, from: nat): (k: nat)
    requires from <= |marks|
    ensures from <= k <= |marks| && (k < |marks| ==> marks[k])
    ensures forall i :: from <= i < k ==> !marks[i]
    decreases |marks| - from
  {
    if from == |marks| || marks[from] then from else NextMark(marks, from + 1)
  }

  /** Lines `from..to` of the body make up one section. */
  datatype Cut = Cut(from: nat, to: nat)

  /** Every section but the first starts at a marked line, and no section holds a second one. */
  function Cuts(marks: seq<bool>, from: nat): seq<Cut>
    requires from <= |marks|
    decreases |marks| - from
  {
    if from == |marks| then [] else [Cut(from, NextMark(marks, from + 1))] + Cuts(marks, NextMark(marks, from + 1))
  }

  ghost predicate Consecutive(cuts: seq<Cut>, from: nat, upto: nat) {
    && (forall a, b :: 0 <= a < b < |cuts| && b == a + 1 ==> cuts[b].from == cuts[a].to)
    && if cuts == [] then from == upto else cuts[0].from == from && cuts[|cuts| - 1].to == upto
  }

  lemma ConsecutiveCons(first: Cut, rest: seq<Cut>, upto: nat)
    requires Consecutive(rest, first.to, upto)
    ensures Consecutive([first] + rest, first.from, upto)
  {
    var cuts := [first] + rest;
    forall a, b | 0 <= a < b < |cuts| && b == a + 1 ensures cuts[b].from == cuts[a].to {
      if a > 0 {
        assert rest[b - 1].from == rest[a - 1].to;
      }
    }
  }

  lemma {:induction false} CutsInside(marks: seq<bool>, from: nat)
    requires from <= |marks|
    ensures forall k :: 0 <= k < |Cuts(marks, from)| ==> Cuts(marks, from)[k].from < Cuts(marks, from)[k].to <= |marks|
    ensures forall k :: 0 < k < |Cuts(marks, from)| ==> marks[Cuts(marks, from)[k].from]
    ensures Cuts(marks, from) != [] ==> Cuts(marks, from)[0].from == from
    decreases |marks| - from
  {
    if from < |marks| {
      var next := NextMark(marks, from + 1);
      CutsInside(marks, next);
      var rest := Cuts(marks, next);
      assert Cuts(marks, from) == [Cut(from, next)] + rest;
      assert forall k :: 0 < k <= |rest| ==> Cuts(marks, from)[k] == rest[k - 1];
    }
  }

  lemma {:induction false} CutsFollow(marks: seq<bool>, from: nat)
    requires from <= |marks|
    ensures Consecutive(Cuts(marks, from), from, |marks|)
    decreases |marks| - from
  {
    if from < |marks| {
      var next := NextMark(marks, from + 1);
      CutsFollow(marks, next);
      ConsecutiveCons(Cut(from, next), Cuts(marks, next), |marks|);
    }
  }

  /** The cuts follow each other from `from` to the last line: the sections partition the lines. */
  lemma CutsPartition(marks: seq<bool>, from: nat)
    requires from <= |marks|
    ensures var cuts := Cuts(marks, from);
            && (forall k :: 0 <= k < |cuts| ==> cuts[k].from < cuts[k].to <= |marks|)
            && (forall k :: 0 < k < |cuts| ==> marks[cuts[k].from])
            && Consecutive(cuts, from, |marks|)
  {
    CutsInside(marks, from);
    CutsFollow(marks, from);
  }

  function RStrip(s: string): string {
    s[..BodyLength(s)]
  }

  lemma RStripEnds(s: string)
    ensures RStrip(s) == "" || !IsSpace(RStrip(s)[|RStrip(s)| - 1])
  {
  }

  function SectionOf(found: Found, lines: seq<string>, c: Cut): Section
    requires c.from < c.to <= |lines| == |found| && Levelled(found)
  {
    Section(PathAt(found, c.from + 1), RStrip(Join(lines[c.from..c.to])), c.from + 1)
  }

  function SectionsOf(found: Found, lines: seq<string>, cuts: seq<Cut>): (sections: seq<Section>)
    requires |lines| == |found| && Levelled(found)
    requires forall k :: 0 <= k < |cuts| ==> cuts[k].from < cuts[k].to <= |lines|
    ensures |sections| == |cuts| && forall k :: 0 <= k < |cuts| ==> sections[k] == SectionOf(found, lines, cuts[k])
  {
    seq(|cuts|, k requires 0 <= k < |cuts| => SectionOf(found, lines, cuts[k]))
  }

  function DocumentCuts(content: Content): (cuts: seq<Cut>)
    ensures forall k :: 0 <= k < |cuts| ==> cuts[k].from < cuts[k].to <= |SplitKeepEnds(content.body)|
  {
    CutsPartition(Marks(content.headings, SplitKeepEnds(content.body)), 0);
    Cuts(Marks(content.headings, SplitKeepEnds(content.body)), 0)
  }

  function Sections(content: Content): seq<Section> {
    if content.headings == [] then [Section([], content.body, 1)]
    else
      var lines := SplitKeepEnds(content.body);
      SectionsOf(HeadingsOn(content.headings, lines), lines, DocumentCuts(content))
  }

  /** The cuts as a single pass finds them, at line `k` with the open section starting at `from`. */
  ghost function Scan(marks: seq<bool>, k: nat, from: nat, done: seq<Cut>): seq<Cut>
    requires k <= |marks|
    decreases |marks| - k
  {
    if k == |marks| then (if from < k then done + [Cut(from, k)] else done)
    else if marks[k] && from < k then Scan(marks, k + 1, k, done + [Cut(from, k)])
    else Scan(marks, k + 1, from, done)
  }

  lemma {:induction false} ScanFindsCuts(marks: seq<bool>, k: nat, from: nat, done: seq<Cut>)
    requires from <= k <= |marks| && (from < k || k == 0)
    requires forall i :: from < i < k ==> !marks[i]
    ensures Scan(marks, k, from, done) == done + Cuts(marks, from)
    decreases |marks| - k
  {
    if from < k && (k == |marks| || marks[k]) {
      assert NextMark(marks, from + 1) == k;
      if k < |marks| { ScanFindsCuts(marks, k + 1, k, done + [Cut(from, k)]); }
    } else if k < |marks| {
      ScanFindsCuts(marks, k + 1, from, done);
    }
  }

  lemma {:induction false} NoMatchBefore(headings: seq<Heading>, k: nat, line: string)
    requires k <= |headings| && forall i :: 0 <= i < k ==> !Matches(headings[i], line)
    ensures FirstMatch(headings, 0, line) == FirstMatch(headings, k, line)
  {
    if k > 0 {
      NoMatchBefore(headings, k - 1, line);
    }
  }

  method MatchHeading(headings: seq<Heading>, line: string) returns (matched: Option<Heading>)
    ensures matched == HeadingOn(headings, line)
  {
    matched := None;
    for k := 0 to |headings|
      invariant matched == None && forall i :: 0 <= i < k ==> !Matches(headings[i], line)
    {
      var prefix := Hashes(headings[k].level);
      var headingPrefix := prefix + " " + headings[k].text;
      if prefix <= Strip(line) && headingPrefix <= Strip(line) {
        NoMatchBefore(headings, k, line);
        if headings[k].level > 0 {
          matched := Some(headings[k]);
        }
        return;
      }
    }
    NoMatchBefore(headings, |headings|, line);
  }

  /** `found` is what each line matches, and `marks` says where it is something. */
  ghost predicate Recognised(headings: seq<Heading>, lines: seq<string>, found: Found, marks: seq<bool>) {
    && |found| == |lines| == |marks| && Levelled(found)
    && forall k :: 0 <= k < |lines| ==> RecognisedAt(headings, lines[k], found[k], marks[k])
  }

  ghost predicate RecognisedAt(headings: seq<Heading>, line: string, matched: Option<Heading>, mark: bool) {
    matched == HeadingOn(headings, line) && mark == matched.Some?
  }

  lemma AllRecognised(headings: seq<Heading>, lines: seq<string>)
    ensures Recognised(headings, lines, HeadingsOn(headings, lines), Marks(headings, lines))
  {
    forall k | 0 <= k < |lines|
      ensures RecognisedAt(headings, lines[k], HeadingsOn(headings, lines)[k], Marks(headings, lines)[k])
    {
      MarksAt(headings, lines, k);
      HeadingsOnAt(headings, lines, k);
    }
  }

  method SplitByHeading(content: Content) returns (sections: seq<Section>)
    ensures sections == Sections(content)
  {
    if content.headings == [] {
      return [Section([], content.body, 1)];
    }
    var lines := SplitKeepEnds(content.body);
    ghost var found, marks := HeadingsOn(content.headings, lines), Marks(content.headings, lines);
    AllRecognised(content.headings, lines);
    AtStart(found, marks, lines, 0);
    sections := SplitAtHeadings(content.headings, lines, found, marks, DocumentCuts(content), 0);
    ghost var cuts := DocumentCuts(content);
    forall k | 0 <= k < |cuts| ensures sections[k] == SectionOf(found, lines, cuts[k]) {
      assert IsSection(found, lines, cuts[k], sections[k]);
    }
  }

  ghost predicate SectionsAre(found: Found, lines: seq<string>, cuts: seq<Cut>, sections: seq<Section>)
    requires |lines| == |found| && Levelled(found)
  {
    |sections| == |cuts| && forall k :: 0 <= k < |cuts| ==> IsSection(found, lines, cuts[k], sections[k])
  }

  ghost predicate IsSection(found: Found, lines: seq<string>, c: Cut, s: Section)
    requires |lines| == |found| && Levelled(found)
  {
    c.from < c.to <= |lines| && s == SectionOf(found, lines, c)
  }

  /** Closes the section of lines `start..k`. */
  method CloseSection(sections: seq<Section>, headingPath: seq<string>, currentLines: seq<string>, currentStart: nat,
                      ghost found: Found, ghost lines: seq<string>, ghost cuts: seq<Cut>, ghost k: nat)
    returns (more: seq<Section>)
    requires |lines| == |found| && Levelled(found) && SectionsAre(found, lines, cuts, sections)
    requires 0 < currentStart <= k <= |lines| && currentLines == lines[currentStart - 1..k]
    requires headingPath == PathAt(found, currentStart)
    ensures SectionsAre(found, lines, cuts + [Cut(currentStart - 1, k)], more)
  {
    more := sections + [Section(headingPath, RStrip(Join(currentLines)), currentStart)];
  }

  /** The variables of the pass over the lines. */
  datatype Pass = Pass(sections: seq<Section>, headingPath: seq<string>, currentLines: seq<string>, currentStart: nat)

  /** Where the pass stands before line `k`, with the cuts that its closed sections are; the whole pass
    * will make the cuts `all`. */
  ghost predicate AtLine(found: Found, marks: seq<bool>, lines: seq<string>, k: nat, p: Pass, cuts: seq<Cut>,
                         all: seq<Cut>)
    requires |found| == |lines| == |marks| && Levelled(found) && k <= |lines|
  {
    && 1 <= p.currentStart <= k + 1 && p.currentLines == lines[p.currentStart - 1..k]
    && (p.currentLines == [] ==> p.sections == [])
    && SectionsAre(found, lines, cuts, p.sections)
    && Scan(marks, k, p.currentStart - 1, cuts) == all
    && p.headingPath == PathAt(found, k) && (p.currentLines != [] ==> p.headingPath == PathAt(found, p.currentStart))
  }

  lemma PlainLine(found: Found, marks: seq<bool>, lines: seq<string>, k: nat, p: Pass, cuts: seq<Cut>, all: seq<Cut>)
    requires |found| == |lines| == |marks| && Levelled(found) && k < |lines|
    requires AtLine(found, marks, lines, k, p, cuts, all) && found[k].None? && !marks[k]
    ensures AtLine(found, marks, lines, k + 1, p.(currentLines := p.currentLines + [lines[k]]), cuts, all)
  {
  }

  lemma FirstHeading(found: Found, marks: seq<bool>, lines: seq<string>, k: nat, p: Pass, cuts: seq<Cut>, all: seq<Cut>)
    requires |found| == |lines| == |marks| && Levelled(found) && k < |lines|
    requires AtLine(found, marks, lines, k, p, cuts, all) && p.currentLines == [] && found[k].Some? && marks[k]
    ensures AtLine(found, marks, lines, k + 1,
                   Pass(p.sections, Opened(p.headingPath, found[k].value), [lines[k]], k + 1), cuts, all)
  {
    assert p.currentStart - 1 == k;
    assert Scan(marks, k, k, cuts) == Scan(marks, k + 1, k, cuts);
    assert PathAt(found, k + 1) == Opened(p.headingPath, found[k].value);
    assert [lines[k]] == lines[k..k + 1];
  }

  lemma NextSection(found: Found, marks: seq<bool>, lines: seq<string>, k: nat, p: Pass, cuts: seq<Cut>, all: seq<Cut>,
                    more: seq<Section>)
    requires |found| == |lines| == |marks| && Levelled(found) && k < |lines|
    requires AtLine(found, marks, lines, k, p, cuts, all) && p.currentLines != [] && found[k].Some? && marks[k]
    requires SectionsAre(found, lines, cuts + [Cut(p.currentStart - 1, k)], more)
    ensures AtLine(found, marks, lines, k + 1, Pass(more, Opened(p.headingPath, found[k].value), [lines[k]], k + 1),
                   cuts + [Cut(p.currentStart - 1, k)], all)
  {
  }

  method ReadLine(p: Pass, headings: seq<Heading>, lines: seq<string>, k: nat, ghost found: Found,
                  ghost marks: seq<bool>, ghost cuts: seq<Cut>, ghost all: seq<Cut>)
    returns (q: Pass, ghost cuts': seq<Cut>)
    requires Recognised(headings, lines, found, marks) && k < |lines| && AtLine(found, marks, lines, k, p, cuts, all)
    ensures AtLine(found, marks, lines, k + 1, q, cuts', all)
  {
    cuts' := cuts;
    assert RecognisedAt(headings, lines[k], found[k], marks[k]);
    var matched := MatchHeading(headings, lines[k]);
    if matched.None? {
      PlainLine(found, marks, lines, k, p, cuts, all);
      return p.(currentLines := p.currentLines + [lines[k]]), cuts;
    }
    var sections := p.sections;
    if p.currentLines != [] || p.sections != [] {
      sections := CloseSection(sections, p.headingPath, p.currentLines, p.currentStart, found, lines, cuts, k);
      cuts' := cuts + [Cut(p.currentStart - 1, k)];
      NextSection(found, marks, lines, k, p, cuts, all, sections);
    } else {
      FirstHeading(found, marks, lines, k, p, cuts, all);
    }
    var headingPath := OpenHeading(p.headingPath, matched.value);
    q := Pass(sections, headingPath, [lines[k]], k + 1);
  }

  lemma AtStart(found: Found, marks: seq<bool>, lines: seq<string>, k: nat)
    requires |found| == |lines| == |marks| && Levelled(found) && k == 0
    ensures AtLine(found, marks, lines, k, Pass([], [], [], 1), [], Cuts(marks, k))
  {
    ScanFindsCuts(marks, k, k, []);
  }

  lemma AtEnd(found: Found, marks: seq<bool>, lines: seq<string>, k: nat, p: Pass, cuts: seq<Cut>, all: seq<Cut>)
    requires |found| == |lines| == |marks| == k && Levelled(found) && AtLine(found, marks, lines, k, p, cuts, all)
    ensures all == if p.currentLines != [] then cuts + [Cut(p.currentStart - 1, k)] else cuts
  {
  }

  method ReadLines(headings: seq<Heading>, lines: seq<string>, ghost found: Found, ghost marks: seq<bool>,
                   ghost all: seq<Cut>, ghost start: nat)
    returns (p: Pass, ghost cuts: seq<Cut>)
    requires Recognised(headings, lines, found, marks)
    requires start == 0 && AtLine(found, marks, lines, start, Pass([], [], [], 1), [], all)
    ensures AtLine(found, marks, lines, |lines|, p, cuts, all)
  {
    p := Pass([], [], [], 1);
    cuts := [];
    for k := 0 to |lines|
      invariant AtLine(found, marks, lines, k, p, cuts, all)
    {
      p, cuts := ReadLine(p, headings, lines, k, found, marks, cuts, all);
    }
  }

  method SplitAtHeadings(headings: seq<Heading>, lines: seq<string>, ghost found: Found, ghost marks: seq<bool>,
                         ghost all: seq<Cut>, ghost start: nat)
    returns (sections: seq<Section>)
    requires Recognised(headings, lines, found, marks)
    requires start == 0 && AtLine(found, marks, lines, start, Pass([], [], [], 1), [], all)
    ensures SectionsAre(found, lines, all, sections)
  {
    ghost var cuts;
    var p;
    p, cuts := ReadLines(headings, lines, found, marks, all, start);
    sections := p.sections;
    AtEnd(found, marks, lines, |lines|, p, cuts, all);
    if p.currentLines != [] {
      sections := CloseSection(sections, p.headingPath, p.currentLines, p.currentStart, found, lines, cuts, |lines|);
    }
  }

  // ------------------------------------------------------------------- all chunks

  function SectionPieces(config: Config, content: Content, s: Section): seq<Piece>
    requires config.Valid()
  {
    PiecesOf(config, s.text, s.startLine, Spans(config, s.text, s.startLine, content))
  }

  /** What all sections are cut into, with the path of the section. */
  function AllPieces(config: Config, content: Content, sections: seq<Section>): seq<(seq<string>, Piece)>
    requires config.Valid()
  {
    if sections == [] then []
    else
      var last := sections[|sections| - 1];
      AllPieces(config, content, sections[..|sections| - 1]) + Under(last.path, SectionPieces(config, content, last))
  }

  function Under(path: seq<string>, pieces: seq<Piece>): seq<(seq<string>, Piece)> {
    seq(|pieces|, k requires 0 <= k < |pieces| => (path, pieces[k]))
  }

  function Numbered(pieces: seq<(seq<string>, Piece)>): seq<Chunk> {
    seq(|pieces|, k requires 0 <= k < |pieces| => Chunk(k, pieces[k].0, pieces[k].1))
  }

  lemma AllPiecesSnoc(config: Config, content: Content, sections: seq<Section>, k: nat)
    requires config.Valid() && k < |sections|
    ensures AllPieces(config, content, sections[..k + 1])
         == AllPieces(config, content, sections[..k])
          + Under(sections[k].path, SectionPieces(config, content, sections[k]))
  {
    assert sections[..k + 1][..k] == sections[..k];
  }

  /** All chunks of a document, numbered in order across its sections. */
  method ChunkAll(config: Config, content: Content) returns (chunks: seq<Chunk>)
    requires config.Valid()
    ensures chunks == Numbered(AllPieces(config, content, Sections(content)))
  {
    var sections := SplitByHeading(content);
    chunks := [];
    for k := 0 to |sections|
      invariant chunks == Numbered(AllPieces(config, content, sections[..k]))
    {
      AllPiecesSnoc(config, content, sections, k);
      var s := sections[k];
      var pieces := ChunkText(s.text, s.startLine, config, content);
      chunks := AppendNumbered(chunks, s.path, pieces, AllPieces(config, content, sections[..k]));
    }
    assert sections[..|sections|] == sections;
  }

  method AppendNumbered(chunks: seq<Chunk>, path: seq<string>, pieces: seq<Piece>, ghost before: seq<(seq<string>, Piece)>)
    returns (all: seq<Chunk>)
    requires chunks == Numbered(before)
    ensures all == Numbered(before + Under(path, pieces))
  {
    all := chunks;
    var ordinal := |chunks|;
    for i := 0 to |pieces|
      invariant ordinal == |all| && all == Numbered(before + Under(path, pieces)[..i])
    {
      all := all + [Chunk(ordinal, path, pieces[i])];
      ordinal := ordinal + 1;
    }
    assert Under(path, pieces)[..|pieces|] == Under(path, pieces);
  }

  /** When no heading skips a level, each section carries the headings that enclose its first line. */
  lemma SectionPathsAreAncestors(content: Content, k: nat)
    requires content.headings != [] && k < |Sections(content)|
    requires NoLevelSkipped(HeadingsOn(content.headings, SplitKeepEnds(content.body)))
    ensures var found := HeadingsOn(content.headings, SplitKeepEnds(content.body));
            Sections(content)[k].path == Texts(found, Ancestors(found, DocumentCuts(content)[k].from + 1))
  {
    OutlinesKeepTheirPaths(HeadingsOn(content.headings, SplitKeepEnds(content.body)), DocumentCuts(content)[k].from + 1);
  }

  // ------------------------------------------------- where the sections lie in the body

  /** The section's text is the stretch of the body from `o` on, which begins a line: the section's first. */
  ghost predicate LiesAt(body: string, s: Section, o: nat) {
    && o + |s.text| <= |body| && body[o..o + |s.text|] == s.text
    && (o == 0 || body[o - 1] == '\n') && 1 + LineNo(body, o) == s.startLine
  }

  lemma SliceAt(body: string, o: nat, text: string, q: nat)
    requires o + |text| <= |body| && body[o..o + |text|] == text && q < |text|
    ensures body[o + q] == text[q]
  {
    assert body[o..o + |text|][q] == body[o + q];
  }

  lemma CharacterAt(body: string, s: Section, o: nat, q: nat)
    requires LiesAt(body, s, o) && q < |s.text|
    ensures body[o + q] == s.text[q]
  {
    SliceAt(body, o, s.text, q);
  }

  lemma {:induction false} LineNoInSlice(body: string, o: nat, text: string, q: nat)
    requires q <= |text| && o + |text| <= |body| && body[o..o + |text|] == text
    ensures LineNo(body, o + q) == LineNo(body, o) + LineNo(text, q)
  {
    if q > 0 {
      LineNoInSlice(body, o, text, q - 1);
      assert body[o..o + |text|][q - 1] == body[o + q - 1];
    }
  }

  /** A section's line numbers are those of the body. */
  lemma SectionLines(body: string, s: Section, o: nat, q: nat)
    requires LiesAt(body, s, o) && q <= |s.text|
    ensures 1 + LineNo(body, o + q) == s.startLine + LineNo(s.text, q)
  {
    LineNoInSlice(body, o, s.text, q);
  }

  ghost predicate HeldAt(sections: seq<Section>, offsets: seq<nat>, k: int, i: int)
    requires |sections| == |offsets|
  {
    0 <= k < |sections| && offsets[k] <= i < offsets[k] + |sections[k].text|
  }

  /** The sections lie at these offsets, one behind the other, and hold all visible text. */
  ghost predicate Layout(body: string, sections: seq<Section>, offsets: seq<nat>) {
    && |sections| == |offsets|
    && (forall k :: 0 <= k < |sections| ==> LiesAt(body, sections[k], offsets[k]))
    && (forall a, b :: 0 <= a < b < |sections| ==>
          offsets[a] + |sections[a].text| <= offsets[b] && sections[a].startLine < sections[b].startLine)
    && (forall i :: Visible(body, i) ==> exists k :: HeldAt(sections, offsets, k, i))
  }

  /** Where line `a` begins in the body. */
  function LineOffset(lines: seq<string>, a: nat): nat
    requires a <= |lines|
  {
    |Join(lines[..a])|
  }

  function OffsetsOf(lines: seq<string>, cuts: seq<Cut>): (offsets: seq<nat>)
    requires forall k :: 0 <= k < |cuts| ==> cuts[k].from < cuts[k].to <= |lines|
    ensures |offsets| == |cuts| && forall k :: 0 <= k < |cuts| ==> offsets[k] == LineOffset(lines, cuts[k].from)
  {
    seq(|cuts|, k requires 0 <= k < |cuts| => LineOffset(lines, cuts[k].from))
  }

  /** Where the sections begin in the body. */
  function Offsets(content: Content): seq<nat> {
    if content.headings == [] then [0] else OffsetsOf(SplitKeepEnds(content.body), DocumentCuts(content))
  }

  lemma JoinedLines(body: string, lines: seq<string>, a: nat, b: nat)
    requires lines == SplitKeepEnds(body) && a <= b <= |lines|
    ensures LineOffset(lines, b) == LineOffset(lines, a) + |Join(lines[a..b])| <= |body|
    ensures body[LineOffset(lines, a)..LineOffset(lines, b)] == Join(lines[a..b])
  {
    JoinSplit(body, 0);
    assert lines[..a] + lines[a..b] == lines[..b] && lines[..b] + lines[b..] == lines;
    JoinConcat(lines[..a], lines[a..b]);
    JoinConcat(lines[..b], lines[b..]);
    assert body == body[0..] == Join(lines[..a]) + Join(lines[a..b]) + Join(lines[b..]);
  }

  /** Line `a`, counted from 0, begins at its offset, behind a break. */
  lemma {:induction false} LineBeginsAt(body: string, from: nat, a: nat)
    requires from <= |body| && (from == 0 || body[from - 1] == '\n') && a < |KeepEndsFrom(body, from)|
    ensures var o := from + |Join(KeepEndsFrom(body, from)[..a])|;
            o <= |body| && (o == 0 || body[o - 1] == '\n') && LineNo(body, o) == LineNo(body, from) + a
    decreases a
  {
    if a > 0 {
      var k := NextBreak(body, from);
      var lines, rest := KeepEndsFrom(body, from), KeepEndsFrom(body, k + 1);
      assert lines[..a][1..] == rest[..a - 1] && lines[..a][0] == body[from..k + 1];
      LineNoAfterBreak(body, from);
      LineBeginsAt(body, k + 1, a - 1);
    }
  }

  lemma CutLiesAt(body: string, lines: seq<string>, c: Cut, s: Section)
    requires lines == SplitKeepEnds(body) && c.from < c.to <= |lines|
    requires s.text == RStrip(Join(lines[c.from..c.to])) && s.startLine == c.from + 1
    ensures LiesAt(body, s, LineOffset(lines, c.from))
    ensures LineOffset(lines, c.from) + |s.text| <= LineOffset(lines, c.to)
    ensures forall i :: LineOffset(lines, c.from) + |s.text| <= i < LineOffset(lines, c.to) ==> !Visible(body, i)
  {
    var o, whole := LineOffset(lines, c.from), Join(lines[c.from..c.to]);
    JoinedLines(body, lines, c.from, c.to);
    LineBeginsAt(body, 0, c.from);
    StrippedSlice(body, o, whole);
  }

  lemma StrippedSlice(body: string, o: nat, whole: string)
    requires o + |whole| <= |body| && body[o..o + |whole|] == whole
    ensures body[o..o + |RStrip(whole)|] == RStrip(whole)
    ensures forall i :: o + |RStrip(whole)| <= i < o + |whole| ==> !Visible(body, i)
  {
    assert body[o..o + |RStrip(whole)|] == body[o..o + |whole|][..|RStrip(whole)|];
    forall i | o + |RStrip(whole)| <= i < o + |whole| ensures !Visible(body, i) {
      SliceAt(body, o, whole, i - o);
    }
  }

  lemma {:induction false} CutsInOrder(cuts: seq<Cut>, upto: nat, a: nat, b: nat)
    requires Consecutive(cuts, 0, upto) && a < b < |cuts|
    requires forall k :: 0 <= k < |cuts| ==> cuts[k].from < cuts[k].to
    ensures cuts[a].to <= cuts[b].from
  {
    if a + 1 < b {
      CutsInOrder(cuts, upto, a, b - 1);
      assert cuts[b].from == cuts[b - 1].to;
    } else {
      assert cuts[b].from == cuts[a].to;
    }
  }

  /** Among the first cuts, up to the `n`-th, the one whose lines hold a position. */
  lemma {:induction false} CutHolding(lines: seq<string>, cuts: seq<Cut>, n: nat, i: nat) returns (k: nat)
    requires Consecutive(cuts, 0, |lines|) && n < |cuts|
    requires forall k :: 0 <= k < |cuts| ==> cuts[k].from < cuts[k].to <= |lines|
    requires i < LineOffset(lines, cuts[n].to)
    ensures k < |cuts| && LineOffset(lines, cuts[k].from) <= i < LineOffset(lines, cuts[k].to)
  {
    if LineOffset(lines, cuts[n].from) <= i {
      k := n;
    } else {
      assert n > 0;
      assert cuts[n].from == cuts[n - 1].to;
      k := CutHolding(lines, cuts, n - 1, i);
    }
  }

  lemma LastCutEnds(body: string, lines: seq<string>, cuts: seq<Cut>)
    requires body != "" && lines == SplitKeepEnds(body) && Consecutive(cuts, 0, |lines|)
    requires forall k :: 0 <= k < |cuts| ==> cuts[k].from < cuts[k].to <= |lines|
    ensures cuts != [] && LineOffset(lines, cuts[|cuts| - 1].to) == |body|
  {
    JoinSplit(body, 0);
    assert lines[..|lines|] == lines;
    assert lines == [] ==> Join(lines) == "";
  }

  ghost predicate MadeOf(lines: seq<string>, cuts: seq<Cut>, sections: seq<Section>) {
    && |sections| == |cuts| && Consecutive(cuts, 0, |lines|)
    && (forall k :: 0 <= k < |cuts| ==> cuts[k].from < cuts[k].to <= |lines|)
    && forall k :: 0 <= k < |cuts| ==>
         sections[k].text == RStrip(Join(lines[cuts[k].from..cuts[k].to])) && sections[k].startLine == cuts[k].from + 1
  }

  lemma CutsApart(body: string, lines: seq<string>, cuts: seq<Cut>, sections: seq<Section>, a: nat, b: nat)
    requires lines == SplitKeepEnds(body) && MadeOf(lines, cuts, sections) && a < b < |cuts|
    ensures LineOffset(lines, cuts[a].from) + |sections[a].text| <= LineOffset(lines, cuts[b].from)
    ensures cuts[a].from < cuts[b].from
  {
    CutsInOrder(cuts, |lines|, a, b);
    CutLiesAt(body, lines, cuts[a], sections[a]);
    JoinedLines(body, lines, cuts[a].to, cuts[b].from);
  }

  lemma VisibleIsHeld(body: string, lines: seq<string>, cuts: seq<Cut>, sections: seq<Section>, i: nat)
    requires lines == SplitKeepEnds(body) && MadeOf(lines, cuts, sections) && Visible(body, i)
    ensures exists k :: HeldAt(sections, OffsetsOf(lines, cuts), k, i)
  {
    LastCutEnds(body, lines, cuts);
    var k := CutHolding(lines, cuts, |cuts| - 1, i);
    CutLiesAt(body, lines, cuts[k], sections[k]);
    assert HeldAt(sections, OffsetsOf(lines, cuts), k, i);
  }

  lemma CutsLayout(body: string, lines: seq<string>, cuts: seq<Cut>, sections: seq<Section>)
    requires lines == SplitKeepEnds(body) && MadeOf(lines, cuts, sections)
    ensures Layout(body, sections, OffsetsOf(lines, cuts))
  {
    var offsets := OffsetsOf(lines, cuts);
    forall k | 0 <= k < |sections| ensures LiesAt(body, sections[k], offsets[k]) {
      CutLiesAt(body, lines, cuts[k], sections[k]);
    }
    forall a, b | 0 <= a < b < |sections|
      ensures offsets[a] + |sections[a].text| <= offsets[b] && sections[a].startLine < sections[b].startLine
    {
      CutsApart(body, lines, cuts, sections, a, b);
    }
    forall i | Visible(body, i) ensures exists k :: HeldAt(sections, offsets, k, i) {
      VisibleIsHeld(body, lines, cuts, sections, i);
    }
  }

  lemma CutsOfDocument(content: Content)
    ensures Consecutive(DocumentCuts(content), 0, |SplitKeepEnds(content.body)|)
  {
    CutsPartition(Marks(content.headings, SplitKeepEnds(content.body)), 0);
  }

  lemma SectionsMadeOf(content: Content)
    requires content.headings != []
    ensures MadeOf(SplitKeepEnds(content.body), DocumentCuts(content), Sections(content))
  {
    CutsOfDocument(content);
  }

  lemma SectionEndsVisible(content: Content, s: Section)
    requires content.headings != [] && s in Sections(content)
    ensures s.text == "" || !IsSpace(s.text[|s.text| - 1])
  {
    SectionsMadeOf(content);
    var lines, cuts := SplitKeepEnds(content.body), DocumentCuts(content);
    var k :| 0 <= k < |Sections(content)| && Sections(content)[k] == s;
    RStripEnds(Join(lines[cuts[k].from..cuts[k].to]));
  }

  lemma OneSectionLayout(body: string, sections: seq<Section>)
    requires |sections| == 1 && sections[0].text == body && sections[0].startLine == 1
    ensures Layout(body, sections, [0])
  {
    forall i | Visible(body, i) ensures exists k :: HeldAt(sections, [0], k, i) {
      assert HeldAt(sections, [0], 0, i);
    }
  }

  /** The sections of a document lie in its body one behind the other, each on the lines that it is numbered by,
    * and hold every visible character of it. */
  lemma SectionsLayout(content: Content)
    ensures Layout(content.body, Sections(content), Offsets(content))
  {
    if content.headings == [] {
      OneSectionLayout(content.body, Sections(content));
    } else {
      SectionsMadeOf(content);
      CutsLayout(content.body, SplitKeepEnds(content.body), DocumentCuts(content), Sections(content));
    }
  }

  // ------------------------------------------------------- sections begin with headings

  /** A line is the body from its offset on; a break comes only at its end. */
  lemma {:induction false} LineOfBody(body: string, from: nat, a: nat)
    requires from <= |body| && a < |KeepEndsFrom(body, from)|
    ensures var line, o := KeepEndsFrom(body, from)[a], from + |Join(KeepEndsFrom(body, from)[..a])|;
            && o + |line| <= |body| && body[o..o + |line|] == line
            && forall i :: 0 <= i < |line| - 1 ==> line[i] != '\n'
    decreases a
  {
    if a > 0 {
      var k := NextBreak(body, from);
      var lines, rest := KeepEndsFrom(body, from), KeepEndsFrom(body, k + 1);
      assert lines[..a][1..] == rest[..a - 1] && lines[..a][0] == body[from..k + 1];
      LineOfBody(body, k + 1, a - 1);
    }
  }

  lemma {:induction false} FirstMatchIs(headings: seq<Heading>, k: nat, line: string)
    requires k <= |headings| && FirstMatch(headings, k, line).Some?
    ensures Matches(FirstMatch(headings, k, line).value, line)
    decreases |headings| - k
  {
    if !Matches(headings[k], line) {
      FirstMatchIs(headings, k + 1, line);
    }
  }

  lemma HeadingIsVisible(headings: seq<Heading>, line: string)
    requires HeadingOn(headings, line).Some?
    ensures !Blank(line)
  {
    FirstMatchIs(headings, 0, line);
    StripEmptyIffBlank(line);
  }

  lemma VisibleOnLine(body: string, a: nat) returns (p: nat)
    requires a < |SplitKeepEnds(body)| && !Blank(SplitKeepEnds(body)[a])
    ensures Visible(body, p) && LineNo(body, p) == a
  {
    var line, o := SplitKeepEnds(body)[a], LineOffset(SplitKeepEnds(body), a);
    LineOfBody(body, 0, a);
    LineBeginsAt(body, 0, a);
    var v: nat :| v < |line| && !IsSpace(line[v]);
    p := o + v;
    SliceAt(body, o, line, v);
    LineNoInSlice(body, o, line, v);
    LineNoMonotone(line, 0, v);
  }

  lemma MarkedLineIsVisible(headings: seq<Heading>, lines: seq<string>, a: nat)
    requires a < |lines| && Marks(headings, lines)[a]
    ensures !Blank(lines[a])
  {
    MarksAt(headings, lines, a);
    HeadingsOnAt(headings, lines, a);
    HeadingIsVisible(headings, lines[a]);
  }

  lemma LaterCutIsMarked(marks: seq<bool>, c: Cut)
    requires c in Cuts(marks, 0) && c.from > 0
    ensures c.from < |marks| && marks[c.from]
  {
    CutsInside(marks, 0);
    var k :| 0 <= k < |Cuts(marks, 0)| && Cuts(marks, 0)[k] == c;
  }

  lemma SectionCut(content: Content, s: Section) returns (c: Cut)
    requires content.headings != [] && s in Sections(content)
    ensures c in DocumentCuts(content) && s.startLine == c.from + 1
  {
    SectionsMadeOf(content);
    var k :| 0 <= k < |Sections(content)| && Sections(content)[k] == s;
    c := DocumentCuts(content)[k];
  }

  /** Every section that does not start on the first line starts with a heading, which is visible. */
  lemma SectionHeadIsVisible(content: Content, s: Section) returns (p: nat)
    requires s in Sections(content) && s.startLine > 1
    ensures Visible(content.body, p) && LineNo(content.body, p) == s.startLine - 1
  {
    var lines := SplitKeepEnds(content.body);
    var c := SectionCut(content, s);
    LaterCutIsMarked(Marks(content.headings, lines), c);
    MarkedLineIsVisible(content.headings, lines, c.from);
    p := VisibleOnLine(content.body, c.from);
  }

  // ----------------------------------------------------------- coverage of the body

  ghost predicate SectionKeepsText(config: Config, content: Content, s: Section)
    requires config.Valid()
  {
    forall q :: Visible(s.text, q) ==> Covered(s.text, Spans(config, s.text, s.startLine, content), q)
  }

  /** Character `i` of the body is kept by a chunk of the section that begins at `o`. */
  ghost predicate KeptBy(config: Config, content: Content, s: Section, o: nat, i: nat)
    requires config.Valid()
  {
    o <= i && Covered(s.text, Spans(config, s.text, s.startLine, content), i - o)
  }

  ghost predicate KeptAmong(config: Config, content: Content, sections: seq<Section>, offsets: seq<nat>, i: nat)
    requires config.Valid() && |sections| == |offsets|
  {
    exists k :: 0 <= k < |sections| && KeptBy(config, content, sections[k], offsets[k], i)
  }

  /** Character `i` of the body is kept by some chunk of the document. */
  ghost predicate BodyCovered(config: Config, content: Content, i: nat)
    requires config.Valid()
  {
    SectionsLayout(content);
    KeptAmong(config, content, Sections(content), Offsets(content), i)
  }

  lemma KeptInside(config: Config, content: Content, s: Section, o: nat, i: nat)
    requires config.Valid() && KeptBy(config, content, s, o, i)
    ensures o <= i < o + |s.text|
  {
  }

  lemma VisibleKept(config: Config, content: Content, sections: seq<Section>, offsets: seq<nat>, i: nat)
    requires config.Valid() && Layout(content.body, sections, offsets) && Visible(content.body, i)
    requires forall s :: s in sections ==> SectionKeepsText(config, content, s)
    ensures KeptAmong(config, content, sections, offsets, i)
  {
    var k :| HeldAt(sections, offsets, k, i);
    assert sections[k] in sections && LiesAt(content.body, sections[k], offsets[k]);
    CharacterAt(content.body, sections[k], offsets[k], i - offsets[k]);
    assert KeptBy(config, content, sections[k], offsets[k], i);
  }

  lemma LostInSection(config: Config, content: Content, s: Section) returns (q: nat)
    requires config.Valid() && !SectionKeepsText(config, content, s)
    ensures Visible(s.text, q) && !Covered(s.text, Spans(config, s.text, s.startLine, content), q)
  {
    q :| Visible(s.text, q) && !Covered(s.text, Spans(config, s.text, s.startLine, content), q);
  }

  lemma LostInBody(config: Config, content: Content, sections: seq<Section>, offsets: seq<nat>, k: nat) returns (i: nat)
    requires config.Valid() && Layout(content.body, sections, offsets)
    requires k < |sections| && !SectionKeepsText(config, content, sections[k])
    ensures Visible(content.body, i) && !KeptAmong(config, content, sections, offsets, i)
  {
    var q := LostInSection(config, content, sections[k]);
    assert LiesAt(content.body, sections[k], offsets[k]);
    CharacterAt(content.body, sections[k], offsets[k], q);
    i := offsets[k] + q;
    forall m | 0 <= m < |sections| ensures !KeptBy(config, content, sections[m], offsets[m], i) {
      if m != k && KeptBy(config, content, sections[m], offsets[m], i) {
        KeptInside(config, content, sections[m], offsets[m], i);
      }
    }
  }

  /** The chunks of a document hold all visible text of its body exactly when every section's do. */
  lemma WholeBody(config: Config, content: Content)
    requires config.Valid()
    ensures (forall i: nat :: Visible(content.body, i) ==> BodyCovered(config, content, i))
       <==> (forall s :: s in Sections(content) ==> SectionKeepsText(config, content, s))
  {
    var sections, offsets := Sections(content), Offsets(content);
    SectionsLayout(content);
    if forall s :: s in sections ==> SectionKeepsText(config, content, s) {
      forall i: nat | Visible(content.body, i) ensures BodyCovered(config, content, i) {
        VisibleKept(config, content, sections, offsets, i);
      }
    } else {
      var k :| 0 <= k < |sections| && !SectionKeepsText(config, content, sections[k]);
      var i := LostInBody(config, content, sections, offsets, k);
      assert Visible(content.body, i) && !BodyCovered(config, content, i);
    }
  }

  // ------------------------------------------------------- all sections of a document

  ghost predicate SectionDisjoint(content: Content, s: Section) {
    Disjoint(ProtectedRanges(s.text, s.startLine, content))
  }

  function SectionJob(config: Config, content: Content, s: Section): (j: Job)
    requires config.Valid()
    ensures ValidJob(j) && j.text == s.text
  {
    JobIsValid(config, s.text, s.startLine, content);
    JobFor(config, s.text, s.startLine, content)
  }

  predicate FitsOneChunk(config: Config, s: Section) {
    EstimateTokens(s.text) <= config.maxTokens
  }

  /** No round of the section's window loop meets the edge case. */
  ghost predicate OffEdge(config: Config, content: Content, s: Section)
    requires config.Valid()
  {
    var j := SectionJob(config, content, s);
    FitsOneChunk(config, s) || forall d :: d in Rounds(j, ORIGIN) ==> !EdgeLoses(j, d)
  }

  /** In no round of the section's window loop a range ends at the budget and goes on behind the first character. */
  ghost predicate EdgeFree(config: Config, content: Content, s: Section)
    requires config.Valid()
  {
    var j := SectionJob(config, content, s);
    FitsOneChunk(config, s) || forall d :: d in Rounds(j, ORIGIN) ==> !EdgeCuts(j, d)
  }

  /** In no round of the section's window loop the edge shaves visible text off a range. */
  ghost predicate Unshaven(config: Config, content: Content, s: Section)
    requires config.Valid()
  {
    var j := SectionJob(config, content, s);
    FitsOneChunk(config, s) || forall d :: d in Rounds(j, ORIGIN) ==> !EdgeShaves(j, d)
  }

  /** No chunk of the section starts or ends strictly inside a range that begins in the section. */
  ghost predicate SectionUncut(config: Config, content: Content, s: Section)
    requires config.Valid()
  {
    CutsNothing(SectionJob(config, content, s), Spans(config, s.text, s.startLine, content))
  }

  lemma SectionKeepsIff(config: Config, content: Content, s: Section)
    requires config.Valid() && (FitsOneChunk(config, s) || SectionDisjoint(content, s))
    ensures SectionKeepsText(config, content, s) <==> OffEdge(config, content, s)
  {
    assert SectionJob(config, content, s) == JobFor(config, s.text, s.startLine, content);
    SectionCoverage(config, s.text, s.startLine, content);
  }

  /** When ranges overlap in no section that is too long for one chunk, the chunks of a document hold all visible
    * text of its body exactly when every such section keeps off the edge case in every round. */
  lemma DocumentCoverage(config: Config, content: Content)
    requires config.Valid()
    requires forall s :: s in Sections(content) ==> FitsOneChunk(config, s) || SectionDisjoint(content, s)
    ensures (forall i: nat :: Visible(content.body, i) ==> BodyCovered(config, content, i))
       <==> (forall s :: s in Sections(content) ==> OffEdge(config, content, s))
  {
    WholeBody(config, content);
    forall s | s in Sections(content)
      ensures SectionKeepsText(config, content, s) <==> OffEdge(config, content, s)
    {
      SectionKeepsIff(config, content, s);
    }
  }

  lemma UncutIff(config: Config, content: Content, s: Section)
    requires config.Valid() && SectionDisjoint(content, s) && AllHoldVisible(SectionJob(config, content, s))
    ensures SectionUncut(config, content, s) <==> EdgeFree(config, content, s)
    ensures SectionUncut(config, content, s) ==> SectionKeepsText(config, content, s)
  {
    SectionCuts(config, s.text, s.startLine, content);
  }

  /** With disjoint ranges that hold visible text, no chunk starts or ends strictly inside a range of its own section
    * exactly when every section is `EdgeFree`, and then all visible text is kept. */
  lemma DocumentUncut(config: Config, content: Content)
    requires config.Valid() && forall s :: s in Sections(content) ==> SectionDisjoint(content, s)
    requires forall s :: s in Sections(content) ==> AllHoldVisible(SectionJob(config, content, s))
    ensures (forall s :: s in Sections(content) ==> SectionUncut(config, content, s))
       <==> (forall s :: s in Sections(content) ==> EdgeFree(config, content, s))
    ensures (forall s :: s in Sections(content) ==> SectionUncut(config, content, s))
        ==> forall i: nat :: Visible(content.body, i) ==> BodyCovered(config, content, i)
  {
    WholeBody(config, content);
    forall s | s in Sections(content)
      ensures SectionUncut(config, content, s) <==> EdgeFree(config, content, s)
      ensures SectionUncut(config, content, s) ==> SectionKeepsText(config, content, s)
    {
      UncutIff(config, content, s);
    }
  }

  // ---------------------------------------------------------------- lines of the body

  /** The interval reported for a window encloses the body lines of every character it keeps. */
  lemma ReportedBodyLines(config: Config, body: string, s: Section, o: nat, span: Span, i: nat)
    requires LiesAt(body, s, o) && !FitsOneChunk(config, s) && ValidSpan(s.text, span) && Kept(s.text, span, i)
    ensures var p := PieceOf(config, s.text, s.startLine, span);
            o + i <= |body| && p.startLine <= 1 + LineNo(body, o + i) <= p.endLine
  {
    SectionLines(body, s, o, i);
    LinesEnclose(config, s.text, s.startLine, span, i);
  }
}
