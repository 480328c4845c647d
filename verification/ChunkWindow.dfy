/** The sliding window of the chunker: what one round of its loop does, and which text it loses.
  *
  * A window starts at a cursor and ends where the token budget, or the protected ranges (code
  * blocks, tables, list items), say. The next window starts before that end, by the overlap, unless
  * that would fall inside a protected range; then it jumps to the end of the range.
  */
module ChunkWindow {
  import opened Basics
  import opened Text
  import opened Wrappers

  /** Characters `lo..hi` of the section that should stay in one chunk. */
  datatype Range = Range(lo: nat, hi: nat)

  datatype Span = Span(start: nat, end: nat)

  datatype Job = Job(text: string, budget: nat, overlap: nat, ranges: seq<Range>)

  /** What the loop carries: the next window's start and the windows emitted so far. The source's
    * `prev_end` is the end of the last of them. */
  datatype Cursor = Cursor(start: nat, spans: seq<Span>)

  predicate ValidJob(j: Job) {
    && 0 < j.budget && j.overlap <= j.budget
    && forall k :: 0 <= k < |j.ranges| ==> j.ranges[k].lo < j.ranges[k].hi <= |j.text|
  }

  predicate ValidSpan(text: string, s: Span) {
    s.start < s.end <= |text| && !Blank(text[s.start..s.end])
  }

  predicate ValidCursor(j: Job, c: Cursor) {
    c.start <= |j.text| && forall k :: 0 <= k < |c.spans| ==> ValidSpan(j.text, c.spans[k])
  }

  // ------------------------------------------------------------------ one round

  function Target(j: Job, start: nat): nat {
    Min(start + j.budget, |j.text|)
  }

  function PrevEnd(spans: seq<Span>): Option<nat> {
    if spans == [] then None else Some(spans[|spans| - 1].end)
  }

  /** The first range, from the `k`th on, that decides where the window ends. */
  function SafeEnd(ranges: seq<Range>, k: nat, target: nat, start: nat, prevEnd: Option<nat>): Option<nat>
    requires k <= |ranges|
    decreases |ranges| - k
  {
    if k == |ranges| then None
    else
      var r := ranges[k];
      if r.lo > start && r.lo < target then Some(if prevEnd == Some(r.lo) then r.hi else r.lo)
      else if r.lo <= start <= r.hi && r.hi > target then Some(r.hi)
      else if r.lo < target <= r.hi then Some(r.lo)
      else SafeEnd(ranges, k + 1, target, start, prevEnd)
  }

  function WindowEnd(j: Job, c: Cursor): nat {
    var target := Target(j, c.start);
    var end := match SafeEnd(j.ranges, 0, target, c.start, PrevEnd(c.spans))
               case Some(e) => e
               case None => target;
    if end <= c.start then Min(c.start + 1, |j.text|) else end
  }

  lemma {:induction false} SafeEndInside(ranges: seq<Range>, k: nat, target: nat, start: nat, prevEnd: Option<nat>, n: nat)
    requires k <= |ranges| && start < target <= n
    requires forall i :: 0 <= i < |ranges| ==> ranges[i].lo < ranges[i].hi <= n
    ensures var e := SafeEnd(ranges, k, target, start, prevEnd);
            e.Some? ==> e.value <= n && (e.value <= target || exists i :: k <= i < |ranges| && ranges[i].hi == e.value)
    decreases |ranges| - k
  {
    if k < |ranges| {
      assert ranges[k].lo < ranges[k].hi;
      SafeEndInside(ranges, k + 1, target, start, prevEnd, n);
    }
  }

  /** A window is never empty, and one over the budget ends where a protected range ends. */
  lemma WindowEndBounds(j: Job, c: Cursor)
    requires ValidJob(j) && c.start < |j.text|
    ensures c.start < WindowEnd(j, c) <= |j.text|
    ensures WindowEnd(j, c) > c.start + j.budget
            ==> exists i :: 0 <= i < |j.ranges| && j.ranges[i].hi == WindowEnd(j, c)
  {
    SafeEndInside(j.ranges, 0, Target(j, c.start), c.start, PrevEnd(c.spans), |j.text|);
  }

  /** Where the characters kept by stripping a window end. */
  function ContentEnd(text: string, s: Span): (e: nat)
    requires ValidSpan(text, s)
    ensures s.start < e <= s.end && !IsSpace(text[e - 1])
  {
    StripEmptyIffBlank(text[s.start..s.end]);
    s.start + BodyLength(text[s.start..s.end])
  }

  function ContentStart(text: string, s: Span): (k: nat)
    requires ValidSpan(text, s)
    ensures s.start <= k < ContentEnd(text, s) && !IsSpace(text[k])
  {
    StripEmptyIffBlank(text[s.start..s.end]);
    s.start + LeadLength(text[s.start..s.end])
  }

  /** Where the line on which window `k` stops keeping text begins. */
  function KeptLine(text: string, spans: seq<Span>, k: nat): nat
    requires k < |spans| && ValidSpan(text, spans[k])
  {
    LineStart(text, ContentEnd(text, spans[k]))
  }

  /** The next start before the protected ranges are looked at. */
  function Retreat(j: Job, start: nat, spans: seq<Span>): (next: nat)
    requires spans != [] && forall k :: 0 <= k < |spans| ==> ValidSpan(j.text, spans[k])
    ensures start < next
  {
    var back := spans[|spans| - 1].end - j.overlap;
    var line := if |spans| > 1 then KeptLine(j.text, spans, |spans| - 2) + 1 else back;
    Max(Max(back, line), start + 1)
  }

  /** Leaves the first range that holds `next` strictly inside. */
  function Jump(ranges: seq<Range>, k: nat, next: nat): (after: nat)
    requires k <= |ranges|
    ensures next <= after
    decreases |ranges| - k
  {
    if k == |ranges| then next
    else if ranges[k].lo < next < ranges[k].hi then ranges[k].hi
    else Jump(ranges, k + 1, next)
  }

  /** Nothing but white space in the window: no chunk is emitted. */
  predicate BlankWindow(j: Job, c: Cursor)
    requires ValidJob(j) && c.start < |j.text|
  {
    WindowEndBounds(j, c);
    Blank(j.text[c.start..WindowEnd(j, c)])
  }

  lemma BlankWindowIsBlank(j: Job, c: Cursor)
    requires ValidJob(j) && c.start < |j.text| && BlankWindow(j, c)
    ensures c.start < WindowEnd(j, c) <= |j.text| && forall i :: c.start <= i < WindowEnd(j, c) ==> IsSpace(j.text[i])
  {
    WindowEndBounds(j, c);
    forall i | c.start <= i < WindowEnd(j, c) ensures IsSpace(j.text[i]) {
      assert j.text[c.start..WindowEnd(j, c)][i - c.start] == j.text[i];
    }
  }

  /** One round of the loop. Leaving the loop is moving the cursor to the end of the text. */
  function Step(j: Job, c: Cursor): (d: Cursor)
    requires ValidJob(j) && ValidCursor(j, c) && c.start < |j.text|
    ensures ValidCursor(j, d) && c.start < d.start
  {
    WindowEndBounds(j, c);
    var s := Span(c.start, WindowEnd(j, c));
    if BlankWindow(j, c) then Cursor(c.start + 1, c.spans)
    else
      var spans := c.spans + [s];
      if s.end >= |j.text| then Cursor(|j.text|, spans)
      else Cursor(Min(Jump(j.ranges, 0, Retreat(j, c.start, spans)), |j.text|), spans)
  }

  /** The windows the loop emits from `c` on, after those it already has. */
  function Run(j: Job, c: Cursor): (spans: seq<Span>)
    requires ValidJob(j) && ValidCursor(j, c)
    ensures forall k :: 0 <= k < |spans| ==> ValidSpan(j.text, spans[k])
    decreases |j.text| - c.start
  {
    if c.start >= |j.text| then c.spans else Run(j, Step(j, c))
  }

  /** The cursors at the head of the loop. */
  function Rounds(j: Job, c: Cursor): seq<Cursor>
    requires ValidJob(j) && ValidCursor(j, c)
    decreases |j.text| - c.start
  {
    if c.start >= |j.text| then [] else [c] + Rounds(j, Step(j, c))
  }

  const ORIGIN := Cursor(0, [])

  // ------------------------------------------------------------ coverage, exactly

  ghost predicate Kept(text: string, s: Span, i: nat)
    requires ValidSpan(text, s)
  {
    ContentStart(text, s) <= i < ContentEnd(text, s)
  }

  /** Some chunk still holds character `i` after stripping. */
  ghost predicate Covered(text: string, spans: seq<Span>, i: nat)
    requires forall k :: 0 <= k < |spans| ==> ValidSpan(text, spans[k])
  {
    exists k :: 0 <= k < |spans| && Kept(text, spans[k], i)
  }

  function MaxEnd(spans: seq<Span>): nat {
    if spans == [] then 0 else Max(MaxEnd(spans[..|spans| - 1]), spans[|spans| - 1].end)
  }

  lemma {:induction false} EndsBelowMax(spans: seq<Span>)
    ensures forall k :: 0 <= k < |spans| ==> spans[k].end <= MaxEnd(spans)
  {
    if spans != [] {
      EndsBelowMax(spans[..|spans| - 1]);
    }
  }

  /** This round moves the cursor past visible text that no window has reached. */
  ghost predicate LosesText(j: Job, c: Cursor)
    requires ValidJob(j) && ValidCursor(j, c) && c.start < |j.text|
  {
    var d := Step(j, c);
    exists i :: Max(MaxEnd(d.spans), c.start) <= i < d.start && Visible(j.text, i)
  }

  ghost predicate CoveredBelow(j: Job, c: Cursor)
    requires ValidJob(j) && ValidCursor(j, c)
  {
    forall i :: 0 <= i < Max(c.start, MaxEnd(c.spans)) && Visible(j.text, i) ==> Covered(j.text, c.spans, i)
  }

  lemma KeptIffInside(text: string, s: Span, i: nat)
    requires ValidSpan(text, s) && Visible(text, i)
    ensures Kept(text, s, i) <==> s.start <= i < s.end
  {
    if s.start <= i < s.end {
      VisibleIsKept(text[s.start..s.end], i - s.start);
    }
  }

  lemma StepKeepsCovered(j: Job, c: Cursor)
    requires ValidJob(j) && ValidCursor(j, c) && c.start < |j.text|
    requires CoveredBelow(j, c) && !LosesText(j, c)
    ensures CoveredBelow(j, Step(j, c))
  {
    var d := Step(j, c);
    forall i | 0 <= i < Max(d.start, MaxEnd(d.spans)) && Visible(j.text, i)
      ensures Covered(j.text, d.spans, i)
    {
      WindowEndBounds(j, c);
      var s := Span(c.start, WindowEnd(j, c));
      if BlankWindow(j, c) {
        BlankWindowIsBlank(j, c);
        assert d.spans == c.spans;
        assert Covered(j.text, c.spans, i);
      } else {
        assert d.spans[..|d.spans| - 1] == c.spans && d.spans[|c.spans|] == s;
        if s.start <= i < s.end {
          KeptIffInside(j.text, s, i);
        } else {
          assert Covered(j.text, c.spans, i);
          var k :| 0 <= k < |c.spans| && Kept(j.text, c.spans[k], i);
          assert d.spans[k] == c.spans[k];
        }
      }
    }
  }

  lemma StepAppends(j: Job, c: Cursor)
    requires ValidJob(j) && ValidCursor(j, c) && c.start < |j.text|
    ensures c.spans <= Step(j, c).spans
    ensures forall k :: |c.spans| <= k < |Step(j, c).spans| ==> Step(j, c).spans[k].start == c.start
  {
  }

  /** Later windows start at or after the cursor, and earlier ones stay. */
  lemma {:induction false} RunExtends(j: Job, c: Cursor)
    requires ValidJob(j) && ValidCursor(j, c)
    ensures c.spans <= Run(j, c)
    ensures forall k :: |c.spans| <= k < |Run(j, c)| ==> c.start <= Run(j, c)[k].start
    decreases |j.text| - c.start
  {
    if c.start < |j.text| {
      var d := Step(j, c);
      StepAppends(j, c);
      RunExtends(j, d);
      assert forall k :: 0 <= k < |d.spans| ==> Run(j, d)[k] == d.spans[k];
    }
  }

  lemma {:induction false} CoverageFrom(j: Job, c: Cursor)
    requires ValidJob(j) && ValidCursor(j, c) && CoveredBelow(j, c)
    ensures (forall i :: Visible(j.text, i) ==> Covered(j.text, Run(j, c), i))
       <==> (forall d :: d in Rounds(j, c) ==> ValidCursor(j, d) && d.start < |j.text| && !LosesText(j, d))
    decreases |j.text| - c.start
  {
    if c.start < |j.text| {
      var d := Step(j, c);
      if LosesText(j, c) {
        assert c in Rounds(j, c);
        var i :| Max(MaxEnd(d.spans), c.start) <= i < d.start && Visible(j.text, i);
        RunExtends(j, d);
        EndsBelowMax(d.spans);
        assert forall k :: 0 <= k < |d.spans| ==> Run(j, c)[k] == d.spans[k];
        forall k | 0 <= k < |Run(j, c)| ensures !Kept(j.text, Run(j, c)[k], i) {
          KeptIffInside(j.text, Run(j, c)[k], i);
        }
      } else {
        StepKeepsCovered(j, c);
        CoverageFrom(j, d);
      }
    }
  }

  /** For every list of ranges: all visible text ends up in some chunk exactly when no round moves
    * the cursor past visible text that no window has reached. */
  lemma CoverageExactly(j: Job)
    requires ValidJob(j)
    ensures (forall i :: Visible(j.text, i) ==> Covered(j.text, Run(j, ORIGIN), i))
       <==> (forall d :: d in Rounds(j, ORIGIN) ==> ValidCursor(j, d) && d.start < |j.text| && !LosesText(j, d))
  {
    CoverageFrom(j, ORIGIN);
  }

  // ------------------------------------------------- disjoint ranges: the edge case

  ghost predicate Disjoint(ranges: seq<Range>) {
    forall a, b :: 0 <= a < |ranges| && 0 <= b < |ranges| && a != b
                   ==> ranges[a].hi <= ranges[b].lo || ranges[b].hi <= ranges[a].lo
  }

  ghost predicate Inside(ranges: seq<Range>, x: int) {
    exists k :: 0 <= k < |ranges| && ranges[k].lo < x < ranges[k].hi
  }

  /** Range `k` starts at or before the window and ends exactly where the budget does. */
  ghost predicate AtEdge(j: Job, c: Cursor, k: int) {
    0 <= k < |j.ranges| && j.ranges[k].lo <= c.start && j.ranges[k].hi == Target(j, c.start)
  }

  /** A range ends exactly at the budget, the window starts on visible text, and the rest of the
    * range holds visible text that no window has reached. */
  ghost predicate EdgeLoses(j: Job, c: Cursor) {
    && Visible(j.text, c.start)
    && (exists k :: AtEdge(j, c, k)
          && (exists i :: Max(MaxEnd(c.spans), c.start + 1) <= i < j.ranges[k].hi && Visible(j.text, i)))
  }

  lemma {:induction false} SafeEndOffEdge(j: Job, c: Cursor, k: nat)
    requires ValidJob(j) && Disjoint(j.ranges) && c.start < |j.text| && k <= |j.ranges|
    requires forall i :: k <= i < |j.ranges| ==> !AtEdge(j, c, i)
    ensures match SafeEnd(j.ranges, k, Target(j, c.start), c.start, PrevEnd(c.spans))
            case Some(e) => c.start < e && !Inside(j.ranges, e)
            case None => forall i :: k <= i < |j.ranges| ==> !(j.ranges[i].lo < Target(j, c.start) < j.ranges[i].hi)
    decreases |j.ranges| - k
  {
    if k < |j.ranges| {
      var r := j.ranges[k];
      assert !AtEdge(j, c, k);
      assert !Inside(j.ranges, r.lo) && !Inside(j.ranges, r.hi);
      SafeEndOffEdge(j, c, k + 1);
    }
  }

  /** Away from the edge case no window ends strictly inside a range. */
  lemma OffEdgeEnd(j: Job, c: Cursor)
    requires ValidJob(j) && Disjoint(j.ranges) && c.start < |j.text|
    requires forall k :: !AtEdge(j, c, k)
    ensures !Inside(j.ranges, WindowEnd(j, c))
  {
    SafeEndOffEdge(j, c, 0);
  }

  lemma {:induction false} SafeEndOnEdge(j: Job, c: Cursor, k: nat, e: nat)
    requires ValidJob(j) && Disjoint(j.ranges) && c.start < |j.text| && k <= e && AtEdge(j, c, e)
    ensures SafeEnd(j.ranges, k, Target(j, c.start), c.start, PrevEnd(c.spans)) == Some(j.ranges[e].lo)
    decreases e - k
  {
    if k < e {
      assert j.ranges[k].hi <= j.ranges[e].lo || j.ranges[e].hi <= j.ranges[k].lo;
      SafeEndOnEdge(j, c, k + 1, e);
    }
  }

  /** In the edge case the window is cut to a single character. */
  lemma OnEdgeEnd(j: Job, c: Cursor, e: nat)
    requires ValidJob(j) && Disjoint(j.ranges) && c.start < |j.text| && AtEdge(j, c, e)
    ensures WindowEnd(j, c) == c.start + 1
  {
    SafeEndOnEdge(j, c, 0, e);
  }

  lemma {:induction false} JumpLeaves(ranges: seq<Range>, k: nat, next: nat)
    requires k <= |ranges|
    ensures || (Jump(ranges, k, next) == next && forall i :: k <= i < |ranges| ==> !(ranges[i].lo < next < ranges[i].hi))
            || exists i :: k <= i < |ranges| && ranges[i].lo < next < ranges[i].hi && Jump(ranges, k, next) == ranges[i].hi
    decreases |ranges| - k
  {
    if k < |ranges| {
      JumpLeaves(ranges, k + 1, next);
    }
  }

  lemma {:induction false} RetreatBelowMax(j: Job, start: nat, spans: seq<Span>)
    requires spans != [] && forall k :: 0 <= k < |spans| ==> ValidSpan(j.text, spans[k])
    requires start < spans[|spans| - 1].end
    ensures Retreat(j, start, spans) <= MaxEnd(spans)
  {
    EndsBelowMax(spans);
    if |spans| > 1 {
      var e := ContentEnd(j.text, spans[|spans| - 2]);
      assert LineStart(j.text, e) == LineStart(j.text, e - 1);
      assert spans[|spans| - 2].end <= MaxEnd(spans);
    }
  }

  /** The furthest end is never strictly inside a range, unless the cursor has already passed it. */
  ghost predicate Settled(j: Job, c: Cursor) {
    MaxEnd(c.spans) < c.start || !Inside(j.ranges, MaxEnd(c.spans))
  }

  lemma StepEmits(j: Job, c: Cursor) returns (s: Span, next: nat)
    requires ValidJob(j) && ValidCursor(j, c) && c.start < |j.text|
    requires !BlankWindow(j, c)
    ensures s == Span(c.start, WindowEnd(j, c)) && s.start < s.end <= |j.text|
    ensures Step(j, c).spans == c.spans + [s] && MaxEnd(Step(j, c).spans) == Max(MaxEnd(c.spans), s.end)
    ensures s.end == |j.text| ==> Step(j, c).start == |j.text|
    ensures s.end < |j.text| ==>
              && c.start < next <= MaxEnd(Step(j, c).spans)
              && Step(j, c).start == Min(Jump(j.ranges, 0, next), |j.text|)
  {
    WindowEndBounds(j, c);
    s := Span(c.start, WindowEnd(j, c));
    var spans := c.spans + [s];
    assert spans[..|spans| - 1] == c.spans;
    assert forall k :: 0 <= k < |spans| ==> ValidSpan(j.text, spans[k]);
    next := Retreat(j, c.start, spans);
    RetreatBelowMax(j, c.start, spans);
  }

  lemma {:induction false} MaxEndInText(text: string, spans: seq<Span>)
    requires forall k :: 0 <= k < |spans| ==> ValidSpan(text, spans[k])
    ensures MaxEnd(spans) <= |text|
  {
    if spans != [] {
      MaxEndInText(text, spans[..|spans| - 1]);
    }
  }

  lemma LossBlank(j: Job, c: Cursor)
    requires ValidJob(j) && ValidCursor(j, c) && c.start < |j.text| && Settled(j, c) && BlankWindow(j, c)
    ensures !LosesText(j, c) && !EdgeLoses(j, c) && Settled(j, Step(j, c))
  {
    BlankWindowIsBlank(j, c);
  }

  lemma LossOffEdge(j: Job, c: Cursor)
    requires ValidJob(j) && Disjoint(j.ranges) && ValidCursor(j, c) && c.start < |j.text| && Settled(j, c)
    requires !BlankWindow(j, c) && forall k :: !AtEdge(j, c, k)
    ensures !LosesText(j, c) && Settled(j, Step(j, c))
  {
    var s, next := StepEmits(j, c);
    JumpLeaves(j.ranges, 0, next);
    MaxEndInText(j.text, Step(j, c).spans);
    OffEdgeEnd(j, c);
  }

  lemma LossOnEdge(j: Job, c: Cursor, e: nat)
    requires ValidJob(j) && Disjoint(j.ranges) && ValidCursor(j, c) && c.start < |j.text| && Settled(j, c)
    requires !BlankWindow(j, c) && AtEdge(j, c, e)
    ensures LosesText(j, c) <==> EdgeLoses(j, c)
    ensures Settled(j, Step(j, c))
  {
    var m := EdgeStep(j, c, e);
    assert forall k :: AtEdge(j, c, k) ==> k == e;
  }

  /** From inside the range at the edge, or from its end, the cursor goes to its end. */
  lemma EdgeJumps(j: Job, c: Cursor, e: nat, next: nat)
    requires Disjoint(j.ranges) && AtEdge(j, c, e) && c.start < next <= j.ranges[e].hi
    ensures Jump(j.ranges, 0, next) == j.ranges[e].hi
  {
    JumpLeaves(j.ranges, 0, next);
    forall i | 0 <= i < |j.ranges| && i != e ensures !(j.ranges[i].lo < next < j.ranges[i].hi) {
      assert j.ranges[i].hi <= j.ranges[e].lo || j.ranges[e].hi <= j.ranges[i].lo;
    }
  }

  lemma EdgeEndIsOutside(j: Job, c: Cursor, e: nat)
    requires ValidJob(j) && Disjoint(j.ranges) && c.start < |j.text| && AtEdge(j, c, e)
    ensures !Inside(j.ranges, j.ranges[e].hi)
  {
    forall i | 0 <= i < |j.ranges| && i != e
      ensures !(j.ranges[i].lo < j.ranges[e].hi < j.ranges[i].hi)
    {
      assert j.ranges[i].hi <= j.ranges[e].lo || j.ranges[e].hi <= j.ranges[i].lo;
    }
  }

  lemma JumpStaysBelow(ranges: seq<Range>, next: nat, m: nat)
    requires next <= m && !Inside(ranges, m)
    ensures Jump(ranges, 0, next) <= m
  {
    JumpLeaves(ranges, 0, next);
  }

  /** In the edge case the window's end is one past its start; if no window has got further, the
    * cursor jumps over the rest of the range. */
  lemma EdgeStep(j: Job, c: Cursor, e: nat) returns (m: nat)
    requires ValidJob(j) && Disjoint(j.ranges) && ValidCursor(j, c) && c.start < |j.text| && Settled(j, c)
    requires !BlankWindow(j, c) && AtEdge(j, c, e)
    ensures Visible(j.text, c.start)
    ensures m == MaxEnd(Step(j, c).spans) == Max(MaxEnd(c.spans), c.start + 1) <= |j.text|
    ensures m == c.start + 1 ==> Step(j, c).start == j.ranges[e].hi
    ensures m > c.start + 1 ==> j.ranges[e].hi <= m && Step(j, c).start <= m
    ensures Settled(j, Step(j, c))
  {
    var s, next := StepEmits(j, c);
    MaxEndInText(j.text, Step(j, c).spans);
    OnEdgeEnd(j, c, e);
    assert j.text[c.start..c.start + 1] == [j.text[c.start]];
    m := MaxEnd(Step(j, c).spans);
    EdgeLands(j, c, e, next, m, Step(j, c).start);
  }

  /** Where the cursor lands, `t`, after a window of one character in the edge case. */
  lemma EdgeLands(j: Job, c: Cursor, e: nat, next: nat, m: nat, t: nat)
    requires ValidJob(j) && Disjoint(j.ranges) && c.start < |j.text| && Settled(j, c) && AtEdge(j, c, e)
    requires m == Max(MaxEnd(c.spans), c.start + 1) <= |j.text|
    requires c.start + 1 == |j.text| ==> t == |j.text|
    requires c.start + 1 < |j.text| ==> c.start < next <= m && t == Min(Jump(j.ranges, 0, next), |j.text|)
    ensures m == c.start + 1 ==> t == j.ranges[e].hi
    ensures m > c.start + 1 ==> j.ranges[e].hi <= m && t <= m
    ensures m < t || !Inside(j.ranges, m)
  {
    EdgeEndIsOutside(j, c, e);
    if c.start + 1 < |j.text| {
      if m == c.start + 1 {
        EdgeJumps(j, c, e, next);
      } else {
        JumpStaysBelow(j.ranges, next, m);
      }
    }
  }

  /** With disjoint ranges, a round loses text exactly in the edge case. */
  lemma LossIsEdge(j: Job, c: Cursor)
    requires ValidJob(j) && Disjoint(j.ranges) && ValidCursor(j, c) && c.start < |j.text| && Settled(j, c)
    ensures LosesText(j, c) <==> EdgeLoses(j, c)
    ensures Settled(j, Step(j, c))
  {
    if BlankWindow(j, c) {
      LossBlank(j, c);
    } else if e: nat :| AtEdge(j, c, e) {
      LossOnEdge(j, c, e);
    } else {
      LossOffEdge(j, c);
    }
  }

  lemma {:induction false} RoundsAtEdge(j: Job, c: Cursor)
    requires ValidJob(j) && Disjoint(j.ranges) && ValidCursor(j, c) && Settled(j, c)
    ensures forall d :: d in Rounds(j, c) ==>
              ValidCursor(j, d) && d.start < |j.text| && (LosesText(j, d) <==> EdgeLoses(j, d))
    decreases |j.text| - c.start
  {
    if c.start < |j.text| {
      LossIsEdge(j, c);
      RoundsAtEdge(j, Step(j, c));
    }
  }

  /** With disjoint ranges the chunks hold all visible text exactly when no round meets the edge
    * case: a range that starts at or before the window and ends exactly at the budget, while the
    * window starts on visible text and the range still holds visible text out of reach. */
  lemma DisjointCoverage(j: Job)
    requires ValidJob(j) && Disjoint(j.ranges)
    ensures (forall i :: Visible(j.text, i) ==> Covered(j.text, Run(j, ORIGIN), i))
       <==> (forall d :: d in Rounds(j, ORIGIN) ==> !EdgeLoses(j, d))
  {
    CoverageExactly(j);
    RoundsAtEdge(j, ORIGIN);
  }

  lemma {:induction false} RoundsValid(j: Job, c: Cursor)
    requires ValidJob(j) && ValidCursor(j, c)
    ensures forall d :: d in Rounds(j, c) ==> ValidCursor(j, d) && d.start < |j.text|
    decreases |j.text| - c.start
  {
    if c.start < |j.text| {
      RoundsValid(j, Step(j, c));
    }
  }

  /** A condition on the ranges alone: disjoint ranges that are shorter than the budget and end
    * before the text does never lose anything. */
  lemma RoomyRangesLoseNothing(j: Job)
    requires ValidJob(j) && Disjoint(j.ranges)
    requires forall k :: 0 <= k < |j.ranges| ==> j.ranges[k].hi < |j.text| && j.ranges[k].hi - j.ranges[k].lo < j.budget
    ensures forall i :: Visible(j.text, i) ==> Covered(j.text, Run(j, ORIGIN), i)
  {
    DisjointCoverage(j);
    RoundsValid(j, ORIGIN);
  }

  /** A section over the budget that is nothing but list items: adjacent ranges from its start to its
    * end, each starting on visible text and fitting the budget. */
  ghost predicate PlainList(j: Job) {
    && ValidJob(j) && |j.text| / 4 > j.budget / 4 && j.ranges != []
    && j.ranges[0].lo == 0 && j.ranges[|j.ranges| - 1].hi == |j.text|
    && (forall k :: 0 <= k < |j.ranges| ==>
          Visible(j.text, j.ranges[k].lo) && j.ranges[k].hi - j.ranges[k].lo < j.budget)
    && (forall a, b :: 0 <= a < b < |j.ranges| && b == a + 1 ==> j.ranges[a].hi == j.ranges[b].lo)
  }

  /** Over the budget, it has two items at least. */
  lemma PlainListsHaveTwo(j: Job)
    requires PlainList(j)
    ensures |j.ranges| >= 2
  {
    assert j.ranges[0].hi - j.ranges[0].lo < j.budget;
  }

  lemma {:induction false} ItemsInOrder(j: Job, a: nat, b: nat)
    requires PlainList(j) && a < b < |j.ranges|
    ensures j.ranges[a].hi <= j.ranges[b].lo
  {
    if a + 1 < b {
      ItemsInOrder(j, a, b - 1);
      assert j.ranges[b - 1].lo < j.ranges[b - 1].hi;
    }
  }

  lemma ItemsDisjoint(j: Job)
    requires PlainList(j)
    ensures Disjoint(j.ranges)
  {
    forall a, b | 0 <= a < |j.ranges| && 0 <= b < |j.ranges| && a != b
      ensures j.ranges[a].hi <= j.ranges[b].lo || j.ranges[b].hi <= j.ranges[a].lo
    {
      ItemsInOrder(j, if a < b then a else b, if a < b then b else a);
    }
  }

  /** The cursor after one window for each of the first `k` items. */
  ghost function AfterItems(j: Job, k: nat): Cursor
    requires k < |j.ranges|
  {
    Cursor(j.ranges[k].lo, seq(k, i requires 0 <= i < k => Span(j.ranges[i].lo, j.ranges[i].hi)))
  }

  lemma {:induction false} SkipEarlierItems(j: Job, k: nat, i: nat, prevEnd: Option<nat>)
    requires PlainList(j) && i <= k < |j.ranges|
    ensures var start, target := j.ranges[k].lo, Target(j, j.ranges[k].lo);
            SafeEnd(j.ranges, i, target, start, prevEnd) == SafeEnd(j.ranges, k, target, start, prevEnd)
    decreases k - i
  {
    if i < k {
      ItemsInOrder(j, i, k);
      assert j.ranges[k].lo < j.ranges[k].hi;
      SkipEarlierItems(j, k, i + 1, prevEnd);
    }
  }

  lemma ItemWindow(j: Job, k: nat)
    requires PlainList(j) && k + 1 < |j.ranges| && ValidCursor(j, AfterItems(j, k))
    ensures j.ranges[k].lo < j.ranges[k].hi == j.ranges[k + 1].lo
    ensures WindowEnd(j, AfterItems(j, k)) == j.ranges[k].hi
  {
    var c, r, r' := AfterItems(j, k), j.ranges[k], j.ranges[k + 1];
    ItemsDisjoint(j);
    assert r.lo < r.hi == r'.lo < r'.hi;
    SkipEarlierItems(j, k, 0, PrevEnd(c.spans));
    assert SafeEnd(j.ranges, k + 1, Target(j, r.lo), r.lo, PrevEnd(c.spans)) == Some(r.hi);
  }

  /** Every item but the last becomes one window. */
  lemma OneItem(j: Job, k: nat)
    requires PlainList(j) && k + 1 < |j.ranges|
    requires ValidCursor(j, AfterItems(j, k))
    ensures Step(j, AfterItems(j, k)) == AfterItems(j, k + 1)
  {
    var c, r := AfterItems(j, k), j.ranges[k];
    ItemsDisjoint(j);
    ItemWindow(j, k);
    assert j.text[r.lo..r.hi][0] == j.text[r.lo];
    var s, next := StepEmits(j, c);
    MaxEndOfItems(j, k);
    JumpLeaves(j.ranges, 0, next);
    assert r.lo < next <= r.hi;
    if next < r.hi { OneRangeInside(j.ranges, k, next); }
    assert Step(j, c).spans == AfterItems(j, k + 1).spans;
  }

  lemma OneRangeInside(ranges: seq<Range>, e: nat, x: int)
    requires Disjoint(ranges) && e < |ranges| && ranges[e].lo < x < ranges[e].hi
    ensures forall k :: 0 <= k < |ranges| && ranges[k].lo < x < ranges[k].hi ==> k == e
  {
  }

  lemma {:induction false} MaxEndOfItems(j: Job, k: nat)
    requires PlainList(j) && k < |j.ranges|
    ensures MaxEnd(AfterItems(j, k).spans) == j.ranges[k].lo
  {
    if k > 0 {
      var spans := AfterItems(j, k).spans;
      MaxEndOfItems(j, k - 1);
      assert spans[..k - 1] == AfterItems(j, k - 1).spans;
      assert j.ranges[k - 1].lo < j.ranges[k - 1].hi;
    }
  }

  lemma ItemsAreWindows(j: Job, k: nat)
    requires PlainList(j) && k < |j.ranges|
    ensures ValidCursor(j, AfterItems(j, k))
  {
    var c := AfterItems(j, k);
    forall i | 0 <= i < k ensures ValidSpan(j.text, c.spans[i]) {
      assert j.text[j.ranges[i].lo..j.ranges[i].hi][0] == j.text[j.ranges[i].lo];
    }
  }

  lemma {:induction false} RunReachesLastItem(j: Job, k: nat)
    requires PlainList(j) && k < |j.ranges|
    ensures ValidCursor(j, AfterItems(j, k)) && Run(j, ORIGIN) == Run(j, AfterItems(j, k))
  {
    ItemsAreWindows(j, k);
    if k == 0 {
      assert AfterItems(j, 0) == ORIGIN;
    } else {
      RunReachesLastItem(j, k - 1);
      OneItem(j, k - 1);
    }
  }

  /** The last item is cut to one character, and the cursor leaves for the end of the text. */
  lemma LastItem(j: Job, k: nat)
    requires PlainList(j) && k == |j.ranges| - 1 && ValidCursor(j, AfterItems(j, k))
    ensures Step(j, AfterItems(j, k)).start == |j.text|
    ensures MaxEnd(Step(j, AfterItems(j, k)).spans) == j.ranges[k].lo + 1
  {
    var c, r := AfterItems(j, k), j.ranges[k];
    ItemsDisjoint(j);
    MaxEndOfItems(j, k);
    assert r.lo < r.hi && AtEdge(j, c, k);
    OnEdgeEnd(j, c, k);
    assert j.text[r.lo..r.lo + 1] == [j.text[r.lo]];
    var s, next := StepEmits(j, c);
    JumpLeaves(j.ranges, 0, next);
    if r.lo + 1 < r.hi { OneRangeInside(j.ranges, k, r.lo + 1); }
  }

  /** A plain list that exceeds the budget has two or more items and always loses its last item, all but
    * the first character: the item's range ends exactly at the end of the text. */
  lemma PlainListLosesItsLastItem(j: Job)
    requires PlainList(j)
    ensures |j.ranges| >= 2
    ensures forall i :: j.ranges[|j.ranges| - 1].lo < i && Visible(j.text, i) ==> !Covered(j.text, Run(j, ORIGIN), i)
  {
    var k := |j.ranges| - 1;
    PlainListsHaveTwo(j);
    RunReachesLastItem(j, k);
    LastItem(j, k);
    var last := Step(j, AfterItems(j, k));
    assert Run(j, AfterItems(j, k)) == Run(j, last) == last.spans;
    EndsBelowMax(last.spans);
    forall i | j.ranges[k].lo < i && Visible(j.text, i) ensures !Covered(j.text, last.spans, i) {
      forall a | 0 <= a < |last.spans| ensures !Kept(j.text, last.spans[a], i) {
        KeptIffInside(j.text, last.spans[a], i);
      }
    }
  }

  // -------------------------------------------------------- ranges are not cut open

  ghost predicate HoldsVisible(j: Job, r: Range) {
    exists i :: r.lo <= i < r.hi && Visible(j.text, i)
  }

  /** No window starts or ends strictly inside a range. */
  ghost predicate CutsNothing(j: Job, spans: seq<Span>) {
    forall k :: 0 <= k < |spans| ==> !Inside(j.ranges, spans[k].start) && !Inside(j.ranges, spans[k].end)
  }

  /** A range that starts at or before the window ends exactly at the budget, and goes on behind the
    * window's first character. */
  ghost predicate EdgeCuts(j: Job, c: Cursor) {
    exists k :: AtEdge(j, c, k) && c.start + 1 < j.ranges[k].hi
  }

  ghost predicate AllHoldVisible(j: Job) {
    forall k :: 0 <= k < |j.ranges| ==> HoldsVisible(j, j.ranges[k])
  }

  lemma UncutEnd(j: Job, c: Cursor)
    requires ValidJob(j) && Disjoint(j.ranges) && c.start < |j.text| && !EdgeCuts(j, c)
    ensures !Inside(j.ranges, WindowEnd(j, c))
  {
    if e: nat :| AtEdge(j, c, e) {
      OnEdgeEnd(j, c, e);
      assert j.ranges[e].hi == c.start + 1;
    } else {
      OffEdgeEnd(j, c);
    }
  }

  lemma BlankCutsNothing(j: Job, c: Cursor)
    requires ValidJob(j) && c.start < |j.text| && BlankWindow(j, c) && AllHoldVisible(j)
    requires !Inside(j.ranges, c.start) && !Inside(j.ranges, WindowEnd(j, c))
    ensures !Inside(j.ranges, c.start + 1)
  {
    BlankWindowIsBlank(j, c);
    forall k | 0 <= k < |j.ranges| ensures !(j.ranges[k].lo < c.start + 1 < j.ranges[k].hi) {
      assert HoldsVisible(j, j.ranges[k]);
    }
  }

  /** The next window starts where a range ends, or inside no range, or at the end of the text. */
  lemma NextStartInsideNone(j: Job, c: Cursor)
    requires ValidJob(j) && Disjoint(j.ranges) && ValidCursor(j, c) && c.start < |j.text| && !BlankWindow(j, c)
    ensures !Inside(j.ranges, Step(j, c).start)
  {
    var s, next := StepEmits(j, c);
    JumpLeaves(j.ranges, 0, next);
  }

  lemma StepCutsNothing(j: Job, c: Cursor)
    requires ValidJob(j) && Disjoint(j.ranges) && ValidCursor(j, c) && c.start < |j.text|
    requires !Inside(j.ranges, c.start) && CutsNothing(j, c.spans)
    requires AllHoldVisible(j) && !EdgeCuts(j, c)
    ensures !Inside(j.ranges, Step(j, c).start) && CutsNothing(j, Step(j, c).spans)
  {
    WindowEndBounds(j, c);
    UncutEnd(j, c);
    if BlankWindow(j, c) {
      BlankCutsNothing(j, c);
    } else {
      var s, next := StepEmits(j, c);
      NextStartInsideNone(j, c);
    }
  }

  /** A window that starts strictly inside a range, with visible text of it ahead, is emitted sooner or later. */
  lemma {:induction false} InsideCuts(j: Job, c: Cursor, k: nat, p: nat)
    requires ValidJob(j) && ValidCursor(j, c) && k < |j.ranges|
    requires j.ranges[k].lo < c.start <= p < j.ranges[k].hi && Visible(j.text, p)
    ensures !CutsNothing(j, Run(j, c))
    decreases |j.text| - c.start
  {
    var d := Step(j, c);
    RunExtends(j, d);
    if BlankWindow(j, c) {
      BlankWindowIsBlank(j, c);
      InsideCuts(j, d, k, p);
    } else {
      var s, next := StepEmits(j, c);
      assert Run(j, c)[|c.spans|] == s && Inside(j.ranges, s.start);
    }
  }

  lemma EdgeRoundCuts(j: Job, c: Cursor)
    requires ValidJob(j) && Disjoint(j.ranges) && ValidCursor(j, c) && c.start < |j.text|
    requires AllHoldVisible(j) && !Inside(j.ranges, c.start) && EdgeCuts(j, c)
    ensures !CutsNothing(j, Run(j, c))
  {
    var k: nat :| AtEdge(j, c, k) && c.start + 1 < j.ranges[k].hi;
    var d := Step(j, c);
    OnEdgeEnd(j, c, k);
    RunExtends(j, d);
    if BlankWindow(j, c) {
      BlankWindowIsBlank(j, c);
      var i :| j.ranges[k].lo <= i < j.ranges[k].hi && Visible(j.text, i);
      InsideCuts(j, d, k, i);
    } else {
      var s, next := StepEmits(j, c);
      assert Run(j, c)[|c.spans|] == s && Inside(j.ranges, s.end);
    }
  }

  lemma {:induction false} CutsFrom(j: Job, c: Cursor)
    requires ValidJob(j) && Disjoint(j.ranges) && ValidCursor(j, c) && AllHoldVisible(j)
    requires !Inside(j.ranges, c.start) && CutsNothing(j, c.spans)
    ensures CutsNothing(j, Run(j, c)) <==> forall d :: d in Rounds(j, c) ==> !EdgeCuts(j, d)
    decreases |j.text| - c.start
  {
    if c.start < |j.text| {
      if EdgeCuts(j, c) {
        assert c in Rounds(j, c);
        EdgeRoundCuts(j, c);
      } else {
        StepCutsNothing(j, c);
        CutsFrom(j, Step(j, c));
      }
    }
  }

  /** With disjoint ranges that each hold visible text, no chunk starts or ends strictly inside a range
    * exactly when in no round a range that starts at or before the window ends exactly at the budget
    * and goes on behind the window's first character. Then no visible text is lost either. */
  lemma ProtectedRangesStayWhole(j: Job)
    requires ValidJob(j) && Disjoint(j.ranges) && AllHoldVisible(j)
    ensures CutsNothing(j, Run(j, ORIGIN)) <==> forall d :: d in Rounds(j, ORIGIN) ==> !EdgeCuts(j, d)
    ensures CutsNothing(j, Run(j, ORIGIN)) ==> forall d :: d in Rounds(j, ORIGIN) ==> !EdgeLoses(j, d)
  {
    CutsFrom(j, ORIGIN);
    assert forall d :: EdgeLoses(j, d) ==> EdgeCuts(j, d);
  }

  // ------------------------------------------- visible text of a range stays together

  /** Visible text of range `r` lies on both sides of position `x`. */
  ghost predicate Splits(text: string, r: Range, x: int) {
    exists p, q :: r.lo <= p < x <= q < r.hi && Visible(text, p) && Visible(text, q)
  }

  ghost predicate SplitsSome(j: Job, x: int) {
    exists k :: 0 <= k < |j.ranges| && Splits(j.text, j.ranges[k], x)
  }

  /** No window starts or ends between visible characters of one range. */
  ghost predicate KeepsTogether(j: Job, spans: seq<Span>) {
    forall k :: 0 <= k < |spans| ==> !SplitsSome(j, spans[k].start) && !SplitsSome(j, spans[k].end)
  }

  /** The window starts on visible text of a range that ends exactly at the budget, with more visible text of
    * the range behind its first character. */
  ghost predicate EdgeShaves(j: Job, c: Cursor) {
    Visible(j.text, c.start) && exists k :: AtEdge(j, c, k) && VisibleWithin(j.text, c.start + 1, j.ranges[k].hi)
  }

  ghost predicate VisibleWithin(text: string, from: int, upto: int) {
    exists i :: from <= i < upto && Visible(text, i)
  }

  lemma SplitsInside(j: Job, x: int)
    ensures !Inside(j.ranges, x) ==> !SplitsSome(j, x)
  {
  }

  lemma BlankSplitsNothing(j: Job, x: nat)
    requires x < |j.text| && IsSpace(j.text[x]) && !SplitsSome(j, x)
    ensures !SplitsSome(j, x + 1)
  {
    forall k | 0 <= k < |j.ranges| ensures !Splits(j.text, j.ranges[k], x + 1) {
      assert !Splits(j.text, j.ranges[k], x);
    }
  }

  /** Where a window ends at the edge without shaving anything off, its end splits nothing. */
  lemma EdgeEndSplitsNothing(j: Job, c: Cursor, e: nat)
    requires ValidJob(j) && Disjoint(j.ranges) && c.start < |j.text| && AtEdge(j, c, e)
    requires !VisibleWithin(j.text, c.start + 1, j.ranges[e].hi)
    ensures !SplitsSome(j, c.start + 1)
  {
    forall k | 0 <= k < |j.ranges| ensures !Splits(j.text, j.ranges[k], c.start + 1) {
      if k != e {
        assert j.ranges[k].hi <= j.ranges[e].lo || j.ranges[e].hi <= j.ranges[k].lo;
      }
    }
  }

  lemma WindowEndSplitsNothing(j: Job, c: Cursor)
    requires ValidJob(j) && Disjoint(j.ranges) && c.start < |j.text| && Visible(j.text, c.start) && !EdgeShaves(j, c)
    ensures !SplitsSome(j, WindowEnd(j, c))
  {
    if e: nat :| AtEdge(j, c, e) {
      OnEdgeEnd(j, c, e);
      EdgeEndSplitsNothing(j, c, e);
    } else {
      OffEdgeEnd(j, c);
      SplitsInside(j, WindowEnd(j, c));
    }
  }

  /** A window that is emitted although it starts on white space does not end at the edge. */
  lemma SpaceIsOffEdge(j: Job, c: Cursor)
    requires ValidJob(j) && Disjoint(j.ranges) && c.start < |j.text| && IsSpace(j.text[c.start])
    ensures (exists k :: AtEdge(j, c, k)) ==> BlankWindow(j, c)
  {
    forall e: nat | AtEdge(j, c, e) ensures BlankWindow(j, c) {
      OnEdgeEnd(j, c, e);
      assert j.text[c.start..c.start + 1] == [j.text[c.start]];
    }
  }

  lemma EndSplitsNothing(j: Job, c: Cursor)
    requires ValidJob(j) && Disjoint(j.ranges) && c.start < |j.text| && !BlankWindow(j, c) && !EdgeShaves(j, c)
    ensures !SplitsSome(j, WindowEnd(j, c))
  {
    if IsSpace(j.text[c.start]) {
      SpaceIsOffEdge(j, c);
      OffEdgeEnd(j, c);
      SplitsInside(j, WindowEnd(j, c));
    } else {
      WindowEndSplitsNothing(j, c);
    }
  }

  lemma StepKeepsTogether(j: Job, c: Cursor)
    requires ValidJob(j) && Disjoint(j.ranges) && ValidCursor(j, c) && c.start < |j.text|
    requires !SplitsSome(j, c.start) && KeepsTogether(j, c.spans) && !EdgeShaves(j, c)
    ensures !SplitsSome(j, Step(j, c).start) && KeepsTogether(j, Step(j, c).spans)
  {
    if BlankWindow(j, c) {
      BlankWindowIsBlank(j, c);
      BlankSplitsNothing(j, c.start);
    } else {
      var s, next := StepEmits(j, c);
      EndSplitsNothing(j, c);
      NextStartInsideNone(j, c);
      SplitsInside(j, Step(j, c).start);
    }
  }

  lemma VisibleStartIsNotBlank(j: Job, c: Cursor)
    requires ValidJob(j) && Visible(j.text, c.start)
    ensures !BlankWindow(j, c)
  {
    WindowEndBounds(j, c);
    assert j.text[c.start..WindowEnd(j, c)][0] == j.text[c.start];
  }

  lemma ShavingSplits(j: Job, c: Cursor)
    requires ValidJob(j) && Disjoint(j.ranges) && ValidCursor(j, c) && c.start < |j.text| && EdgeShaves(j, c)
    ensures !KeepsTogether(j, Run(j, c))
  {
    var k: nat :| AtEdge(j, c, k) && VisibleWithin(j.text, c.start + 1, j.ranges[k].hi);
    var i :| c.start + 1 <= i < j.ranges[k].hi && Visible(j.text, i);
    OnEdgeEnd(j, c, k);
    VisibleStartIsNotBlank(j, c);
    var s, next := StepEmits(j, c);
    RunExtends(j, Step(j, c));
    assert Run(j, c)[|c.spans|] == s && Splits(j.text, j.ranges[k], s.end);
  }

  lemma {:induction false} TogetherFrom(j: Job, c: Cursor)
    requires ValidJob(j) && Disjoint(j.ranges) && ValidCursor(j, c)
    requires !SplitsSome(j, c.start) && KeepsTogether(j, c.spans)
    ensures KeepsTogether(j, Run(j, c)) <==> forall d :: d in Rounds(j, c) ==> !EdgeShaves(j, d)
    decreases |j.text| - c.start
  {
    if c.start < |j.text| {
      if EdgeShaves(j, c) {
        assert c in Rounds(j, c);
        ShavingSplits(j, c);
      } else {
        StepKeepsTogether(j, c);
        TogetherFrom(j, Step(j, c));
      }
    }
  }

  /** With disjoint ranges, no chunk starts or ends between visible characters of one range exactly when in no
    * round the window starts on visible text of a range that ends exactly at the budget and holds more of it. */
  lemma VisibleTextStaysTogether(j: Job)
    requires ValidJob(j) && Disjoint(j.ranges)
    ensures KeepsTogether(j, Run(j, ORIGIN)) <==> forall d :: d in Rounds(j, ORIGIN) ==> !EdgeShaves(j, d)
    ensures KeepsTogether(j, Run(j, ORIGIN)) ==> forall d :: d in Rounds(j, ORIGIN) ==> !EdgeLoses(j, d)
  {
    SplitsInside(j, 0);
    TogetherFrom(j, ORIGIN);
    assert forall d :: EdgeLoses(j, d) ==> EdgeShaves(j, d);
  }

  /** The first window starts no later than the first visible character. */
  lemma {:induction false} FirstWindow(j: Job, c: Cursor, p: nat)
    requires ValidJob(j) && ValidCursor(j, c) && c.spans == [] && c.start <= p && Visible(j.text, p)
    ensures Run(j, c) != [] && Run(j, c)[0].start <= p
    decreases |j.text| - c.start
  {
    var d := Step(j, c);
    if BlankWindow(j, c) {
      BlankWindowIsBlank(j, c);
      FirstWindow(j, d, p);
    } else {
      var s, next := StepEmits(j, c);
      RunExtends(j, d);
      assert Run(j, c)[0] == d.spans[0] == s;
    }
  }

  // -------------------------------------------------------------- ranges inside ranges

  /** The text begins with a range that fits the budget, and the next range begins inside it, behind visible text. */
  ghost predicate NestedStart(j: Job) {
    && ValidJob(j) && |j.ranges| >= 2 && j.ranges[0].lo == 0 && j.ranges[0].hi < j.budget && j.ranges[0].hi < |j.text|
    && 0 < j.ranges[1].lo < j.ranges[0].hi && VisibleWithin(j.text, 0, j.ranges[1].lo)
  }

  /** The first window ends where the inner range begins, and the cursor leaves the outer range for its end. */
  lemma NestedStep(j: Job)
    requires NestedStart(j)
    ensures Step(j, ORIGIN) == Cursor(j.ranges[0].hi, [Span(0, j.ranges[1].lo)])
  {
    var outer, a := j.ranges[0], j.ranges[1].lo;
    var k: nat := 0;
    assert j.ranges[k + 1].lo < Target(j, 0);
    assert SafeEnd(j.ranges, k + 1, Target(j, 0), 0, None) == Some(a);
    assert SafeEnd(j.ranges, k, Target(j, 0), 0, None) == SafeEnd(j.ranges, k + 1, Target(j, 0), 0, None);
    assert WindowEnd(j, ORIGIN) == a;
    var i :| 0 <= i < a && Visible(j.text, i);
    assert j.text[0..a][i] == j.text[i];
    var s, next := StepEmits(j, ORIGIN);
    assert [] + [s] == [s] && MaxEnd([s][..0]) == 0;
    assert 0 < next <= a && Jump(j.ranges, 0, next) == outer.hi;
  }

  /** Then all visible text of the outer range from the inner one's beginning on is lost, whatever comes behind. */
  lemma NestedRangeLosesText(j: Job)
    requires NestedStart(j)
    ensures forall i :: j.ranges[1].lo <= i < j.ranges[0].hi && Visible(j.text, i) ==> !Covered(j.text, Run(j, ORIGIN), i)
  {
    var d := Step(j, ORIGIN);
    NestedStep(j);
    RunExtends(j, d);
    var spans := Run(j, ORIGIN);
    assert spans == Run(j, d) && spans[0] == d.spans[0];
    forall i | j.ranges[1].lo <= i < j.ranges[0].hi && Visible(j.text, i) ensures !Covered(j.text, spans, i) {
      forall k | 0 <= k < |spans| ensures !Kept(j.text, spans[k], i) {
        KeptIffInside(j.text, spans[k], i);
      }
    }
  }

  // --------------------------------------------------------------- order and size

  ghost predicate Ordered(j: Job, c: Cursor) {
    && (forall k :: 0 <= k < |c.spans| ==> c.spans[k].start < c.start)
    && (forall k :: 0 < k < |c.spans| ==> c.spans[k - 1].start < c.spans[k].start)
    && (forall k :: 0 <= k < |c.spans| && c.spans[k].end > c.spans[k].start + j.budget ==>
          exists i :: 0 <= i < |j.ranges| && j.ranges[i].hi == c.spans[k].end)
  }

  lemma {:induction false} RunOrdered(j: Job, c: Cursor)
    requires ValidJob(j) && ValidCursor(j, c) && Ordered(j, c)
    ensures Ordered(j, Cursor(|j.text|, Run(j, c)))
    decreases |j.text| - c.start
  {
    if c.start < |j.text| {
      WindowEndBounds(j, c);
      RunOrdered(j, Step(j, c));
    }
  }

  /** Chunks start in strictly increasing order, and only a protected range makes one exceed the budget. */
  lemma ChunksAreOrdered(j: Job)
    requires ValidJob(j)
    ensures var spans := Run(j, ORIGIN);
            && (forall k :: 0 < k < |spans| ==> spans[k - 1].start < spans[k].start)
            && (forall k :: 0 <= k < |spans| && spans[k].end > spans[k].start + j.budget ==>
                  exists i :: 0 <= i < |j.ranges| && j.ranges[i].hi == spans[k].end)
  {
    RunOrdered(j, ORIGIN);
  }
}
