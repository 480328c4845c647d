/** Workers, the outbox table and the graph as one step relation.
  *
  * Any number of workers run at once; each step is one committed transaction or one read. A worker may
  * crash between any two steps, a call may fail before or after it took effect, and clocks need not agree.
  */
module OutboxProtocol {
  import opened Wrappers
  import opened GraphStore
  import opened Outbox

  /** Where a worker is with an event: before the graph commit, after it, or about to report a failure. */
  datatype Phase = Holding | Projected | Failing

  datatype Work = Work(id: Id, payload: Payload, phase: Phase, seen: Option<Option<Row>>)

  datatype Entry =
    | ClaimedAt(id: Id, token: Token, at: int, expires: int)
    | CommittedAt(id: Id, commit: Commit)
    | CompletedAt(id: Id, token: Token)
    | FailedAt(id: Id, token: Token)

  datatype System = System(rows: Table, graph: Graph, next: Token, held: map<Token, Work>, log: seq<Entry>)

  /** Whether a call that takes effect is reported as done, and whether one that fails took effect. */
  datatype Fault = Fine | LostBefore | LostAfter

  datatype Step =
    | Add(event: Event)
    | ClaimOne(id: Id, worker: string, now: int, lease: int)
    | ProjectEvent(token: Token, now: int, fault: Fault)
    | ReadRow(token: Token)
    | MarkCompleted(token: Token, now: int, fault: Fault)
    | MarkFailed(token: Token, error: string, now: int, fault: Fault)
    | Crash(token: Token)

  predicate Enabled(s: System, st: Step) {
    match st
    case Add(e) => e.id !in s.rows
    case ClaimOne(id, _, now, _) => id in s.rows && Eligible(s.rows[id], now)
    case ProjectEvent(t, _, _) => t in s.held && s.held[t].phase == Holding
    case ReadRow(t) => t in s.held && s.held[t].phase != Holding
    case MarkCompleted(t, _, _) => t in s.held && s.held[t].phase == Projected && s.held[t].seen.Some?
    case MarkFailed(t, _, _, _) => t in s.held && s.held[t].phase == Failing && s.held[t].seen.Some?
    case Crash(t) => t in s.held
  }

  function After(s: System, st: Step): System
    requires Enabled(s, st)
  {
    match st
    case Add(e) => s.(rows := s.rows[e.id := NewRow(e)])
    case ClaimOne(id, worker, now, lease) => AfterClaim(s, id, worker, now, lease)
    case ProjectEvent(t, now, fault) => AfterProject(s, t, now, fault)
    case ReadRow(t) => s.(held := s.held[t := s.held[t].(seen := Some(Lookup(s.rows, s.held[t].id)))])
    case MarkCompleted(t, now, fault) => AfterComplete(s, t, now, fault)
    case MarkFailed(t, error, now, fault) => AfterFail(s, t, error, now, fault)
    case Crash(t) => s.(held := s.held - {t})
  }

  function AfterClaim(s: System, id: Id, worker: string, now: int, lease: int): System
    requires id in s.rows
  {
    var row := ClaimRow(s.rows[id], worker, s.next, now, lease);
    System(s.rows[id := row], s.graph, s.next + 1,
           s.held[s.next := Work(id, row.event.payload, Holding, None)],
           s.log + [ClaimedAt(id, s.next, now, row.leaseExpires.value)])
  }

  function AfterProject(s: System, t: Token, now: int, fault: Fault): System
    requires t in s.held
  {
    var w := s.held[t];
    if fault == LostBefore || !Projects(w.payload) then s.(held := s.held[t := w.(phase := Failing, seen := None)])
    else
      s.(graph := Project(s.graph, w.payload, now),
         held := s.held[t := w.(phase := if fault == Fine then Projected else Failing, seen := None)],
         log := s.log + [CommittedAt(w.id, Commit(w.payload, now))])
  }

  function AfterComplete(s: System, t: Token, now: int, fault: Fault): System
    requires t in s.held && s.held[t].seen.Some?
  {
    var w := s.held[t];
    var failing := s.held[t := w.(phase := Failing, seen := None)];
    var r := Complete(s.rows, w.id, t, w.seen.value, now);
    if fault == LostBefore || r.Err? then s.(held := failing)
    else
      s.(rows := r.value, held := if fault == Fine then s.held - {t} else failing,
         log := s.log + [CompletedAt(w.id, t)])
  }

  function AfterFail(s: System, t: Token, error: string, now: int, fault: Fault): System
    requires t in s.held && s.held[t].seen.Some?
  {
    var w := s.held[t];
    var r := Fail(s.rows, w.id, t, w.seen.value, error, now);
    if fault == LostBefore || r.Err? then s.(held := s.held - {t})
    else s.(rows := r.value, held := s.held - {t}, log := s.log + [FailedAt(w.id, t)])
  }

  /** The state after the steps, or nothing when one of them was not possible. */
  function Run(s: System, steps: seq<Step>): Option<System> {
    if steps == [] then Some(s)
    else
      match Run(s, steps[..|steps| - 1])
      case None => None
      case Some(mid) =>
        var last := steps[|steps| - 1];
        if Enabled(mid, last) then Some(After(mid, last)) else None
  }

  function Start(g: Graph): System {
    System(map[], g, 0, map[], [])
  }

  ghost predicate Reachable(g: Graph, s: System) {
    exists steps :: Run(Start(g), steps) == Some(s)
  }

  // ------------------------------------------------------- the life of one event

  /** What the log says about an event: free, leased under a token, done, or not a legal history. */
  datatype Life = Idle | Leased(token: Token, expires: int) | Done(token: Token) | Broken

  function Live(l: Life, e: Entry): Life {
    match e
    case ClaimedAt(_, t, at, expires) => if l.Idle? || (l.Leased? && l.expires <= at) then Leased(t, expires) else Broken
    case CommittedAt(_, _) => l
    case CompletedAt(_, t) => if l.Leased? && l.token == t then Done(t) else Broken
    case FailedAt(_, t) => if l.Leased? && l.token == t then Idle else Broken
  }

  function LifeOf(log: seq<Entry>, id: Id): Life {
    if log == [] then Idle
    else
      var before, e := LifeOf(log[..|log| - 1], id), log[|log| - 1];
      if e.id == id then Live(before, e) else before
  }

  function Claims(log: seq<Entry>, id: Id): nat {
    if log == [] then 0
    else
      var e := log[|log| - 1];
      Claims(log[..|log| - 1], id) + if e.ClaimedAt? && e.id == id then 1 else 0
  }

  function Commits(log: seq<Entry>): seq<Commit> {
    if log == [] then []
    else
      var e := log[|log| - 1];
      Commits(log[..|log| - 1]) + if e.CommittedAt? then [e.commit] else []
  }

  lemma Snoc(log: seq<Entry>, e: Entry, id: Id)
    ensures LifeOf(log + [e], id) == if e.id == id then Live(LifeOf(log, id), e) else LifeOf(log, id)
    ensures Claims(log + [e], id) == Claims(log, id) + if e.ClaimedAt? && e.id == id then 1 else 0
    ensures Commits(log + [e]) == Commits(log) + if e.CommittedAt? then [e.commit] else []
  {
    assert (log + [e])[..|log|] == log;
  }

  // -------------------------------------------------------------------- invariant

  /** A row is exactly what the life of its event says. */
  ghost predicate Matches(r: Row, l: Life) {
    match l
    case Idle => r.status == Pending && r.token == None
    case Leased(t, expires) => r.status == Claimed && r.token == Some(t) && r.leaseExpires == Some(expires)
    case Done(t) => r.status == Completed && r.token == Some(t)
    case Broken => false
  }

  ghost predicate RowsFollowLog(s: System) {
    && (forall e :: e in s.log ==> e.id in s.rows)
    && (forall id :: id in s.rows ==>
          Matches(s.rows[id], LifeOf(s.log, id)) && s.rows[id].attempts == Claims(s.log, id) && s.rows[id].event.id == id)
  }

  ghost predicate TokensAreOld(s: System) {
    && (forall t :: t in s.held ==> t < s.next)
    && (forall id :: id in s.rows && s.rows[id].token.Some? ==> s.rows[id].token.value < s.next)
  }

  ghost predicate CommittedIn(log: seq<Entry>, id: Id) {
    exists e :: e in log && e.CommittedAt? && e.id == id
  }

  ghost predicate WorkIsBacked(s: System) {
    forall t :: t in s.held ==>
      && s.held[t].id in s.rows
      && s.held[t].payload == s.rows[s.held[t].id].event.payload
      && (s.held[t].phase == Projected ==> CommittedIn(s.log, s.held[t].id))
  }

  ghost predicate CommitsAreBacked(s: System) {
    forall e :: e in s.log && e.CommittedAt? ==>
      e.id in s.rows && e.commit.payload == s.rows[e.id].event.payload && Projects(e.commit.payload)
  }

  ghost predicate CompletedIsCommitted(s: System) {
    forall id :: id in s.rows && s.rows[id].status == Completed ==> CommittedIn(s.log, id)
  }

  ghost predicate GraphIsCommits(g: Graph, s: System) {
    AllProject(Commits(s.log)) && s.graph == ProjectAll(g, Commits(s.log))
  }

  /** A row that was read under a token it still has was claimed as often as it is now. */
  ghost predicate ReadsAreSafe(s: System) {
    forall t :: t in s.held && s.held[t].seen.Some? && s.held[t].seen.value.Some? && s.held[t].id in s.rows ==>
      SameAttempts(s.held[t].seen.value.value, s.rows[s.held[t].id], t)
  }

  ghost predicate SameAttempts(seen: Row, now: Row, t: Token) {
    seen.token == Some(t) && now.token == Some(t) ==> seen.attempts == now.attempts
  }

  ghost predicate Inv(g: Graph, s: System) {
    && RowsFollowLog(s) && TokensAreOld(s) && WorkIsBacked(s) && CommitsAreBacked(s)
    && CompletedIsCommitted(s) && GraphIsCommits(g, s) && ReadsAreSafe(s)
  }

  /** What a step adds to the log. */
  function News(s: System, st: Step): (es: seq<Entry>)
    requires Enabled(s, st)
  {
    var log := After(s, st).log;
    if |log| == |s.log| + 1 then [log[|s.log|]] else []
  }

  lemma LogGrows(s: System, st: Step)
    requires Enabled(s, st)
    ensures After(s, st).log == s.log + News(s, st)
    ensures forall e :: e in s.log ==> e in After(s, st).log
    ensures forall e :: e in After(s, st).log ==> e in s.log || News(s, st) == [e]
    ensures forall id :: CommittedIn(s.log, id) ==> CommittedIn(After(s, st).log, id)
  {
  }

  /** How the row of an event changes with a log entry about it. */
  ghost predicate Moves(r: Row, e: Entry, r': Row) {
    && r'.event == r.event
    && match e
       case ClaimedAt(_, t, at, expires) =>
         && Eligible(r, at) && r'.status == Claimed && r'.token == Some(t) && r'.leaseExpires == Some(expires)
         && r'.attempts == r.attempts + 1
       case CommittedAt(_, _) => r' == r
       case CompletedAt(_, t) =>
         && r.status == Claimed && r.token == Some(t) && r'.status == Completed && r'.token == Some(t)
         && r'.attempts == r.attempts
       case FailedAt(_, t) =>
         && r.status == Claimed && r.token == Some(t) && r'.status == Pending && r'.token == None
         && r'.attempts == r.attempts
  }

  /** A row changes only with a log entry about its event. */
  lemma RowStep(s: System, st: Step, id: Id)
    requires Enabled(s, st) && id in s.rows
    ensures id in After(s, st).rows
    ensures
      || ((forall e :: e in News(s, st) ==> e.id != id) && After(s, st).rows[id] == s.rows[id])
      || (exists e :: News(s, st) == [e] && e.id == id && Moves(s.rows[id], e, After(s, st).rows[id]))
  {
    var news := News(s, st);
    if news != [] && news[0].id == id {
      assert Moves(s.rows[id], news[0], After(s, st).rows[id]);
    }
  }

  lemma NewRowStep(s: System, st: Step, id: Id)
    requires Enabled(s, st) && id !in s.rows && id in After(s, st).rows
    ensures News(s, st) == [] && After(s, st).rows[id].event.id == id && After(s, st).rows[id].attempts == 0
    ensures Matches(After(s, st).rows[id], Idle)
  {
  }

  lemma MovesMatch(r: Row, e: Entry, r': Row, l: Life)
    requires Matches(r, l) && Moves(r, e, r')
    ensures Matches(r', Live(l, e))
  {
  }

  lemma KeepRowsFollowLog(s: System, st: Step)
    requires RowsFollowLog(s) && WorkIsBacked(s) && Enabled(s, st)
    ensures RowsFollowLog(After(s, st))
  {
    var s' := After(s, st);
    LogGrows(s, st);
    forall e | e in s'.log ensures e.id in s'.rows {
      NewsIsKnown(s, st);
    }
    forall id | id in s'.rows
      ensures Matches(s'.rows[id], LifeOf(s'.log, id)) && s'.rows[id].attempts == Claims(s'.log, id)
      ensures s'.rows[id].event.id == id
    {
      if id in s.rows {
        RowStep(s, st, id);
        RowFollows(s.log, News(s, st), id, s.rows[id], s'.rows[id]);
      } else {
        NewRowStep(s, st, id);
        NoLifeYet(s.log, id);
      }
    }
  }

  lemma NewsIsKnown(s: System, st: Step)
    requires RowsFollowLog(s) && WorkIsBacked(s) && Enabled(s, st)
    ensures s.rows.Keys <= After(s, st).rows.Keys
    ensures forall e :: e in News(s, st) ==> e.id in After(s, st).rows
  {
  }

  lemma RowFollows(log: seq<Entry>, news: seq<Entry>, id: Id, r: Row, r': Row)
    requires |news| <= 1 && Matches(r, LifeOf(log, id)) && r.attempts == Claims(log, id) && r.event.id == id
    requires ((forall e :: e in news ==> e.id != id) && r' == r)
             || (exists e :: news == [e] && e.id == id && Moves(r, e, r'))
    ensures Matches(r', LifeOf(log + news, id)) && r'.attempts == Claims(log + news, id) && r'.event.id == id
  {
    if news == [] {
      assert log + news == log;
    } else {
      assert news == [news[0]] && news[0] in news;
      Snoc(log, news[0], id);
      if news[0].id == id {
        MovesMatch(r, news[0], r', LifeOf(log, id));
      }
    }
  }

  lemma {:induction false} NoLifeYet(log: seq<Entry>, id: Id)
    requires forall e :: e in log ==> e.id != id
    ensures LifeOf(log, id) == Idle && Claims(log, id) == 0
  {
    if log != [] {
      assert log[|log| - 1] in log;
      NoLifeYet(log[..|log| - 1], id);
    }
  }

  lemma KeepTokensAreOld(s: System, st: Step)
    requires TokensAreOld(s) && Enabled(s, st)
    ensures TokensAreOld(After(s, st))
  {
  }

  /** A worker keeps its event, and is past the graph commit only by committing. */
  lemma WorkStep(s: System, st: Step, t: Token)
    requires Enabled(s, st) && t in After(s, st).held
    ensures var w := After(s, st).held[t];
            || (t in s.held && w.id == s.held[t].id && w.payload == s.held[t].payload
                && (w.phase == Projected && s.held[t].phase != Projected ==>
                      exists e :: News(s, st) == [e] && e.CommittedAt? && e.id == w.id))
            || (w.id in s.rows && w.payload == s.rows[w.id].event.payload && w.phase == Holding)
  {
    if st.ProjectEvent? && st.token == t && After(s, st).held[t].phase == Projected {
      assert News(s, st) == [CommittedAt(s.held[t].id, Commit(s.held[t].payload, st.now))];
    }
  }

  lemma KeepWorkIsBacked(s: System, st: Step)
    requires WorkIsBacked(s) && Enabled(s, st)
    ensures WorkIsBacked(After(s, st))
  {
    var s' := After(s, st);
    LogGrows(s, st);
    forall t | t in s'.held
      ensures s'.held[t].id in s'.rows && s'.held[t].payload == s'.rows[s'.held[t].id].event.payload
      ensures s'.held[t].phase == Projected ==> CommittedIn(s'.log, s'.held[t].id)
    {
      WorkStep(s, st, t);
      RowStep(s, st, s'.held[t].id);
      if e :| News(s, st) == [e] {
        assert e in s'.log;
      }
    }
  }

  lemma KeepCommitsAreBacked(s: System, st: Step)
    requires CommitsAreBacked(s) && WorkIsBacked(s) && Enabled(s, st)
    ensures CommitsAreBacked(After(s, st))
  {
    var s' := After(s, st);
    LogGrows(s, st);
    forall id | id in s.rows ensures id in s'.rows && s'.rows[id].event == s.rows[id].event {
      RowStep(s, st, id);
    }
    CommitStep(s, st);
  }

  /** Only a graph commit changes the graph, and it projects what the worker holds. */
  lemma CommitStep(s: System, st: Step)
    requires Enabled(s, st)
    ensures var news := News(s, st);
            if news != [] && news[0].CommittedAt? then
              && Projects(news[0].commit.payload)
              && After(s, st).graph == Project(s.graph, news[0].commit.payload, news[0].commit.now)
              && st.ProjectEvent? && news[0].id == s.held[st.token].id
              && news[0].commit.payload == s.held[st.token].payload
            else After(s, st).graph == s.graph
  {
  }

  lemma KeepCompletedIsCommitted(s: System, st: Step)
    requires CompletedIsCommitted(s) && WorkIsBacked(s) && Enabled(s, st)
    ensures CompletedIsCommitted(After(s, st))
  {
    LogGrows(s, st);
  }

  lemma KeepGraphIsCommits(g: Graph, s: System, st: Step)
    requires GraphIsCommits(g, s) && Enabled(s, st)
    ensures GraphIsCommits(g, After(s, st))
  {
    LogGrows(s, st);
    CommitStep(s, st);
    GraphFollows(g, s.log, News(s, st), s.graph, After(s, st).graph);
  }

  lemma GraphFollows(g: Graph, log: seq<Entry>, news: seq<Entry>, before: Graph, after: Graph)
    requires AllProject(Commits(log)) && before == ProjectAll(g, Commits(log)) && |news| <= 1
    requires if news != [] && news[0].CommittedAt? then
               Projects(news[0].commit.payload)
               && after == Project(before, news[0].commit.payload, news[0].commit.now)
             else after == before
    ensures AllProject(Commits(log + news)) && after == ProjectAll(g, Commits(log + news))
  {
    if news == [] {
      assert log + news == log;
    } else {
      var e, cs := news[0], Commits(log);
      assert news == [e];
      Snoc(log, e, e.id);
      if e.CommittedAt? {
        ProjectSnoc(g, cs, e.commit);
      } else {
        assert Commits(log + news) == cs;
      }
    }
  }

  lemma KeepReadsAreSafe(s: System, st: Step)
    requires ReadsAreSafe(s) && TokensAreOld(s) && WorkIsBacked(s) && Enabled(s, st)
    ensures ReadsAreSafe(After(s, st))
  {
    var s' := After(s, st);
    forall t | t in s'.held && s'.held[t].seen.Some? && s'.held[t].seen.value.Some? && s'.held[t].id in s'.rows
      ensures SameAttempts(s'.held[t].seen.value.value, s'.rows[s'.held[t].id], t)
    {
      var id := s'.held[t].id;
      ReadStays(s, st, t);
      RowStep(s, st, id);
    }
  }

  /** What a worker has read is what it had read before, or the row as it is now. */
  lemma ReadStays(s: System, st: Step, t: Token)
    requires WorkIsBacked(s) && TokensAreOld(s) && Enabled(s, st) && t in After(s, st).held
    requires After(s, st).held[t].seen.Some?
    ensures t in s.held && t < s.next && After(s, st).held[t].id == s.held[t].id && s.held[t].id in s.rows
    ensures
      || After(s, st).held[t].seen == s.held[t].seen
      || (After(s, st).rows == s.rows && After(s, st).held[t].seen.value == Some(s.rows[s.held[t].id]))
  {
  }

  lemma StepKeepsInv(g: Graph, s: System, st: Step)
    requires Inv(g, s) && Enabled(s, st)
    ensures Inv(g, After(s, st))
  {
    KeepRowsFollowLog(s, st);
    KeepTokensAreOld(s, st);
    KeepWorkIsBacked(s, st);
    KeepCommitsAreBacked(s, st);
    KeepCompletedIsCommitted(s, st);
    KeepGraphIsCommits(g, s, st);
    KeepReadsAreSafe(s, st);
  }

  lemma {:induction false} RunKeepsInv(g: Graph, s: System, steps: seq<Step>, s': System)
    requires Inv(g, s) && Run(s, steps) == Some(s')
    ensures Inv(g, s')
  {
    if steps != [] {
      var mid := Run(s, steps[..|steps| - 1]).value;
      RunKeepsInv(g, s, steps[..|steps| - 1], mid);
      StepKeepsInv(g, mid, steps[|steps| - 1]);
    }
  }

  lemma ReachableInv(g: Graph, s: System)
    requires Reachable(g, s)
    ensures Inv(g, s)
  {
    var steps :| Run(Start(g), steps) == Some(s);
    RunKeepsInv(g, Start(g), steps, s);
  }

  // ------------------------------------------------------------ who may change a row

  /** Two claims of one event with no claim of it in between. */
  ghost predicate Consecutive(log: seq<Entry>, id: Id, i: int, j: int) {
    && 0 <= i < j < |log| && IsClaim(log[i], id) && IsClaim(log[j], id)
    && forall k :: i < k < j ==> !IsClaim(log[k], id)
  }

  predicate IsClaim(e: Entry, id: Id) {
    e.ClaimedAt? && e.id == id
  }

  lemma {:induction false} PrefixIsLegal(log: seq<Entry>, n: nat, id: Id)
    requires n <= |log| && LifeOf(log, id) != Broken
    ensures LifeOf(log[..n], id) != Broken
    decreases |log|
  {
    if n == |log| {
      assert log[..n] == log;
    } else {
      var init := log[..|log| - 1];
      PrefixIsLegal(init, n, id);
      assert init[..n] == log[..n];
    }
  }

  /** Up to the next claim, a lease lasts until it is given up or completed. */
  lemma {:induction false} LeaseLasts(log: seq<Entry>, id: Id, i: nat, n: nat)
    requires i < n <= |log| && IsClaim(log[i], id) && LifeOf(log[..n], id) != Broken
    requires forall k :: i < k < n ==> !IsClaim(log[k], id)
    ensures var l, t := LifeOf(log[..n], id), log[i].token;
            || (l == Leased(t, log[i].expires) && forall k :: i < k < n ==> log[k] != CompletedAt(id, t))
            || (l == Idle && (forall k :: i < k < n ==> log[k] != CompletedAt(id, t))
                && exists k :: i < k < n && log[k] == FailedAt(id, t))
            || l == Done(t)
    decreases n
  {
    assert log[..n] == log[..n - 1] + [log[n - 1]];
    Snoc(log[..n - 1], log[n - 1], id);
    if n - 1 > i {
      LeaseLasts(log, id, i, n - 1);
    }
  }

  lemma LifeIsLegal(g: Graph, s: System, id: Id)
    requires Inv(g, s)
    ensures LifeOf(s.log, id) != Broken
  {
    if id !in s.rows {
      NoLifeYet(s.log, id);
    }
  }

  /** Between two claims of an event the first was given up, or its lease had run out; and an event is
    * never claimed again once completed. */
  lemma ClaimsAreSeparated(g: Graph, s: System, id: Id, i: int, j: int)
    requires Reachable(g, s) && Consecutive(s.log, id, i, j)
    ensures s.log[i].expires <= s.log[j].at || exists k :: i < k < j && s.log[k] == FailedAt(id, s.log[i].token)
    ensures forall k :: i < k < j ==> s.log[k] != CompletedAt(id, s.log[i].token)
  {
    ReachableInv(g, s);
    LifeIsLegal(g, s, id);
    PrefixIsLegal(s.log, j + 1, id);
    PrefixIsLegal(s.log, j, id);
    assert s.log[..j + 1] == s.log[..j] + [s.log[j]];
    Snoc(s.log[..j], s.log[j], id);
    LeaseLasts(s.log, id, i, j);
  }

  /** A row changes only by a claim that finds it free or its lease run out, or by the worker that
    * holds its current token. */
  lemma OnlyTheHolderMarks(g: Graph, s: System, st: Step, id: Id)
    requires Reachable(g, s) && Enabled(s, st) && id in s.rows && After(s, st).rows[id] != s.rows[id]
    ensures
      || (st.ClaimOne? && st.id == id && match LifeOf(s.log, id)
          case Idle => true
          case Leased(_, expires) => expires <= st.now
          case _ => false)
      || ((st.MarkCompleted? || st.MarkFailed?) && st.token in s.held && s.held[st.token].id == id
          && LifeOf(s.log, id).Leased? && LifeOf(s.log, id).token == st.token)
  {
    ReachableInv(g, s);
    RowStep(s, st, id);
  }

  lemma CompletedStaysStep(s: System, st: Step, id: Id)
    requires Enabled(s, st) && id in s.rows && s.rows[id].status == Completed
    ensures id in After(s, st).rows && After(s, st).rows[id] == s.rows[id]
  {
    RowStep(s, st, id);
  }

  /** A completed row never changes again. */
  lemma {:induction false} CompletedIsFinal(s: System, steps: seq<Step>, s': System, id: Id)
    requires Run(s, steps) == Some(s') && id in s.rows && s.rows[id].status == Completed
    ensures id in s'.rows && s'.rows[id] == s.rows[id]
  {
    if steps != [] {
      var mid := Run(s, steps[..|steps| - 1]).value;
      CompletedIsFinal(s, steps[..|steps| - 1], mid, id);
      CompletedStaysStep(mid, steps[|steps| - 1], id);
    }
  }

  /** A token that a row does not carry any more never comes back to it. */
  lemma {:induction false} LostClaimsStayLost(s: System, steps: seq<Step>, s': System, id: Id, t: Token)
    requires Run(s, steps) == Some(s') && id in s.rows && t < s.next && s.rows[id].token != Some(t)
    ensures id in s'.rows && t < s'.next && s'.rows[id].token != Some(t)
  {
    if steps != [] {
      var mid, last := Run(s, steps[..|steps| - 1]).value, steps[|steps| - 1];
      LostClaimsStayLost(s, steps[..|steps| - 1], mid, id, t);
      LostClaimStep(mid, last, id, t);
    }
  }

  lemma LostClaimStep(s: System, st: Step, id: Id, t: Token)
    requires Enabled(s, st) && id in s.rows && t < s.next && s.rows[id].token != Some(t)
    ensures id in After(s, st).rows && t < After(s, st).next && After(s, st).rows[id].token != Some(t)
  {
    RowStep(s, st, id);
  }

  /** A worker whose claim is lost changes no row, whatever it read before. */
  lemma StaleWorkersAreRefused(s: System, st: Step)
    requires Enabled(s, st) && (st.MarkCompleted? || st.MarkFailed?)
    requires var id := s.held[st.token].id; id in s.rows ==> s.rows[id].token != Some(st.token)
    ensures After(s, st).rows == s.rows && After(s, st).log == s.log
  {
  }

  // --------------------------------------------------------- what completion means

  lemma {:induction false} CommitsOf(log: seq<Entry>, e: Entry)
    requires e in log && e.CommittedAt?
    ensures e.commit in Commits(log)
  {
    var init, last := log[..|log| - 1], log[|log| - 1];
    assert log == init + [last];
    if e in init {
      CommitsOf(init, e);
    }
  }

  lemma {:induction false} CommitHasEntry(log: seq<Entry>, c: Commit)
    requires c in Commits(log)
    ensures exists e :: e in log && e.CommittedAt? && e.commit == c
  {
    var init, last := log[..|log| - 1], log[|log| - 1];
    assert log == init + [last];
    if c in Commits(init) {
      CommitHasEntry(init, c);
    } else {
      assert last in log;
    }
  }

  function RowPayloads(s: System): set<Payload> {
    set id | id in s.rows :: s.rows[id].event.payload
  }

  lemma CommitsAreRows(g: Graph, s: System)
    requires Inv(g, s)
    ensures Payloads(Commits(s.log)) <= RowPayloads(s)
  {
    forall p | p in Payloads(Commits(s.log)) ensures p in RowPayloads(s) {
      var c :| c in Commits(s.log) && c.payload == p;
      CommitHasEntry(s.log, c);
    }
  }

  /** A completed event was committed to the graph and its node is there, with the event's content unless
    * another event of the outbox asks for the same node; so an event that the domain model refuses never
    * completes. */
  lemma CompletedIsInGraph(g: Graph, s: System, id: Id)
    requires Reachable(g, s) && id in s.rows && s.rows[id].status == Completed
    ensures CommittedIn(s.log, id) && Projects(s.rows[id].event.payload) && Shows(s.graph, s.rows[id].event.payload)
    ensures Unrivalled(RowPayloads(s), s.rows[id].event.payload) ==> Carries(s.graph, s.rows[id].event.payload)
  {
    ReachableInv(g, s);
    var e :| e in s.log && e.CommittedAt? && e.id == id;
    CommitsOf(s.log, e);
    ProjectedNodesStay(g, Commits(s.log), e.commit);
    CommitsAreRows(g, s);
    if Unrivalled(RowPayloads(s), s.rows[id].event.payload) {
      ProjectedContentStays(g, Commits(s.log), e.commit);
    }
  }

  ghost predicate Drained(s: System) {
    forall id :: id in s.rows ==> s.rows[id].status == Completed
  }

  lemma DrainedCommitsAll(g: Graph, s: System)
    requires Inv(g, s) && Drained(s)
    ensures Payloads(Commits(s.log)) == RowPayloads(s)
  {
    forall p | p in RowPayloads(s) ensures p in Payloads(Commits(s.log)) {
      var id :| id in s.rows && s.rows[id].event.payload == p;
      var e :| e in s.log && e.CommittedAt? && e.id == id;
      CommitsOf(s.log, e);
    }
    CommitsAreRows(g, s);
  }

  /** Two runs that have completed the same events leave the same nodes, however they were ordered,
    * interleaved, repeated, or cut short by crashes. */
  lemma DrainedRunsAgree(g: Graph, s: System, s': System)
    requires Reachable(g, s) && Reachable(g, s') && Drained(s) && Drained(s')
    requires RowPayloads(s) == RowPayloads(s') && Consistent(RowPayloads(s))
    ensures s.graph.entities == s'.graph.entities && s.graph.facts == s'.graph.facts
    ensures s.graph.mentions == s'.graph.mentions
  {
    ReachableInv(g, s);
    ReachableInv(g, s');
    DrainedCommitsAll(g, s);
    DrainedCommitsAll(g, s');
    NodesConverge(g, Commits(s.log), Commits(s'.log));
  }

  /** Exactly which edges the graph has: those of the start, and those that some event brings whose commit came when
    * the ends were known. */
  lemma EdgesFollowCommits(g: Graph, s: System, l: Link)
    requires Reachable(g, s)
    ensures Has(s.graph, l) <==> Has(g, l) || Brought(g, Commits(s.log), l)
  {
    ReachableInv(g, s);
    EdgesByOrder(g, Commits(s.log), l);
  }

  /** In both runs, or in neither, the fact was committed when its ends were known. */
  ghost predicate TiedAlike(g: Graph, cs: seq<Commit>, ds: seq<Commit>, p: Payload)
    requires p.FactCandidate?
  {
    && (Has(g, SubjectOf(p.subject, p.id))
        || (CommittedAfter(g, cs, p, {p.subject}) <==> CommittedAfter(g, ds, p, {p.subject})))
    && (Has(g, ObjectOf(p.id, p.object_))
        || (CommittedAfter(g, cs, p, {p.subject, p.object_}) <==> CommittedAfter(g, ds, p, {p.subject, p.object_})))
  }

  ghost predicate AllTiedAlike(g: Graph, cs: seq<Commit>, ds: seq<Commit>) {
    forall p :: p in Payloads(cs) && p.FactCandidate? ==> TiedAlike(g, cs, ds, p)
  }

  lemma SameTies(g: Graph, cs: seq<Commit>, ds: seq<Commit>, p: Payload, l: Link)
    requires p in Payloads(ds) && Ties(g, cs, p, l) && (p.FactCandidate? ==> TiedAlike(g, cs, ds, p))
    ensures Has(g, l) || Ties(g, ds, p, l)
  {
    if l.MentionedIn? {
      var c :| c in ds && c.payload == p;
      var i: nat :| i < |ds| && ds[i] == c;
      assert {} <= g.entities.Keys + EntityIds(Payloads(ds[..i]));
    }
  }

  lemma EdgeCarriesOver(g: Graph, cs: seq<Commit>, ds: seq<Commit>, l: Link)
    requires AllProject(cs) && AllProject(ds) && Payloads(cs) == Payloads(ds) && Has(ProjectAll(g, cs), l)
    requires AllTiedAlike(g, cs, ds)
    ensures Has(ProjectAll(g, ds), l)
  {
    EdgesByOrder(g, cs, l);
    EdgesByOrder(g, ds, l);
    if !Has(g, l) {
      var p :| p in Payloads(cs) && Ties(g, cs, p, l);
      SameTies(g, cs, ds, p, l);
    }
  }

  /** A new edge of a fact is brought by that fact only. */
  lemma OwnEdge(g: Graph, cs: seq<Commit>, p: Payload)
    requires AllProject(cs) && Consistent(Payloads(cs)) && p in Payloads(cs) && p.FactCandidate?
    ensures Has(ProjectAll(g, cs), SubjectOf(p.subject, p.id))
       <==> Has(g, SubjectOf(p.subject, p.id)) || CommittedAfter(g, cs, p, {p.subject})
    ensures Has(ProjectAll(g, cs), ObjectOf(p.id, p.object_))
       <==> Has(g, ObjectOf(p.id, p.object_)) || CommittedAfter(g, cs, p, {p.subject, p.object_})
  {
    EdgesByOrder(g, cs, SubjectOf(p.subject, p.id));
    EdgesByOrder(g, cs, ObjectOf(p.id, p.object_));
    forall q | q in Payloads(cs) && q.FactCandidate? && q.id == p.id ensures q == p {
      assert SameNode(p, q);
    }
    assert CommittedAfter(g, cs, p, {p.subject}) <==> Ties(g, cs, p, SubjectOf(p.subject, p.id));
    assert CommittedAfter(g, cs, p, {p.subject, p.object_}) <==> Ties(g, cs, p, ObjectOf(p.id, p.object_));
  }

  ghost predicate SameEdges(h: Graph, k: Graph) {
    forall l :: Has(h, l) <==> Has(k, l)
  }

  lemma AlikeHaveSameEdges(g: Graph, cs: seq<Commit>, ds: seq<Commit>)
    requires AllProject(cs) && AllProject(ds) && Payloads(cs) == Payloads(ds)
    requires AllTiedAlike(g, cs, ds) && AllTiedAlike(g, ds, cs)
    ensures SameEdges(ProjectAll(g, cs), ProjectAll(g, ds))
  {
    var h, k := ProjectAll(g, cs), ProjectAll(g, ds);
    forall l ensures Has(h, l) <==> Has(k, l) {
      if Has(h, l) {
        EdgeCarriesOver(g, cs, ds, l);
      } else if Has(k, l) {
        EdgeCarriesOver(g, ds, cs, l);
      }
    }
  }

  lemma SameEdgesAreAlike(g: Graph, cs: seq<Commit>, ds: seq<Commit>, p: Payload)
    requires AllProject(cs) && AllProject(ds) && Payloads(cs) == Payloads(ds) && Consistent(Payloads(cs))
    requires SameEdges(ProjectAll(g, cs), ProjectAll(g, ds)) && p in Payloads(cs) && p.FactCandidate?
    ensures TiedAlike(g, cs, ds, p)
  {
    OwnEdge(g, cs, p);
    OwnEdge(g, ds, p);
  }

  lemma AlikeIff(g: Graph, cs: seq<Commit>, ds: seq<Commit>)
    requires AllProject(cs) && AllProject(ds) && Payloads(cs) == Payloads(ds) && Consistent(Payloads(cs))
    ensures SameEdges(ProjectAll(g, cs), ProjectAll(g, ds)) <==> AllTiedAlike(g, cs, ds)
  {
    if AllTiedAlike(g, cs, ds) {
      AlikeHaveSameEdges(g, cs, ds);
    }
    if SameEdges(ProjectAll(g, cs), ProjectAll(g, ds)) {
      forall p | p in Payloads(cs) && p.FactCandidate? ensures TiedAlike(g, cs, ds, p) {
        SameEdgesAreAlike(g, cs, ds, p);
      }
    }
  }

  lemma SameLinks(h: Graph, k: Graph)
    requires SameEdges(h, k)
    ensures h.subjectOf == k.subjectOf && h.objects == k.objects && h.mentionedIn == k.mentionedIn
  {
    forall e ensures e in h.subjectOf <==> e in k.subjectOf {
      assert e == (e.0, e.1) && (Has(h, SubjectOf(e.0, e.1)) <==> Has(k, SubjectOf(e.0, e.1)));
    }
    forall e ensures e in h.objects <==> e in k.objects {
      assert e == (e.0, e.1) && (Has(h, ObjectOf(e.0, e.1)) <==> Has(k, ObjectOf(e.0, e.1)));
    }
    forall e ensures e in h.mentionedIn <==> e in k.mentionedIn {
      assert e == (e.0, e.1) && (Has(h, MentionedIn(e.0, e.1)) <==> Has(k, MentionedIn(e.0, e.1)));
    }
  }

  /** Two runs that have completed the same events leave the same graph, edges included, exactly when each fact that
    * lacks an edge at the start was committed after its ends in both runs or in neither. */
  lemma DrainedGraphsAgree(g: Graph, s: System, s': System)
    requires Reachable(g, s) && Reachable(g, s') && Drained(s) && Drained(s')
    requires RowPayloads(s) == RowPayloads(s') && Consistent(RowPayloads(s))
    ensures s.graph == s'.graph
       <==> forall p :: p in RowPayloads(s) && p.FactCandidate? ==> TiedAlike(g, Commits(s.log), Commits(s'.log), p)
  {
    ReachableInv(g, s);
    ReachableInv(g, s');
    DrainedCommitsAll(g, s);
    DrainedCommitsAll(g, s');
    DrainedRunsAgree(g, s, s');
    EntityKeys(g, Commits(s.log));
    EntityKeys(g, Commits(s'.log));
    AlikeIff(g, Commits(s.log), Commits(s'.log));
    if SameEdges(s.graph, s'.graph) {
      SameLinks(s.graph, s'.graph);
    }
  }

  // -------------------------------------------------------------------- progress

  /** The time from which an event can be claimed. */
  function FreeFrom(r: Row): int {
    if r.status == Claimed && r.leaseExpires.Some? && r.leaseExpires.value > r.availableAt then r.leaseExpires.value
    else r.availableAt
  }

  lemma {:induction false} LeasedWasClaimed(log: seq<Entry>, id: Id)
    requires LifeOf(log, id).Leased?
    ensures Claims(log, id) >= 1
  {
    if log != [] && LifeOf(log[..|log| - 1], id).Leased? {
      LeasedWasClaimed(log[..|log| - 1], id);
    }
  }

  /** `attempts` counts the claims, and an event is free from its retry time and lease expiry on. */
  lemma NeverStuck(g: Graph, s: System, id: Id, now: int)
    requires Reachable(g, s) && id in s.rows
    ensures s.rows[id].attempts == Claims(s.log, id)
    ensures s.rows[id].status == Claimed ==> s.rows[id].attempts >= 1
    ensures Eligible(s.rows[id], now) <==> s.rows[id].status != Completed && FreeFrom(s.rows[id]) <= now
  {
    ReachableInv(g, s);
    if LifeOf(s.log, id).Leased? {
      LeasedWasClaimed(s.log, id);
    }
  }

  /** The wait after an accepted failure counts the claims so far, although it is computed from a row
    * that may have been read long before. */
  lemma RetryCountsClaims(g: Graph, s: System, st: Step)
    requires Reachable(g, s) && Enabled(s, st) && st.MarkFailed? && After(s, st).rows != s.rows
    ensures var id := s.held[st.token].id;
            && id in s.rows && After(s, st).rows[id].availableAt == st.now + Delay(Claims(s.log, id)) * SECOND
            && 4 <= Delay(Claims(s.log, id)) <= 3600
  {
    ReachableInv(g, s);
    var id := s.held[st.token].id;
    NeverStuck(g, s, id, st.now);
    DelayBounds(s.rows[id].attempts, s.rows[id].attempts);
  }

  lemma RunOneMore(s: System, steps: seq<Step>, mid: System, st: Step)
    requires Run(s, steps) == Some(mid) && Enabled(mid, st)
    ensures Run(s, steps + [st]) == Some(After(mid, st))
  {
    assert (steps + [st])[..|steps|] == steps;
  }

  /** The steps of a worker that meets no fault. */
  function Happy(s: System, id: Id, worker: string, now: int, lease: int): seq<Step> {
    [ClaimOne(id, worker, now, lease), ProjectEvent(s.next, now, Fine), ReadRow(s.next), MarkCompleted(s.next, now, Fine)]
  }

  lemma HappyRun(s: System, id: Id, worker: string, now: int, lease: int)
    requires id in s.rows && Eligible(s.rows[id], now) && Projects(s.rows[id].event.payload) && s.next !in s.held
    ensures var r := Run(s, Happy(s, id, worker, now, lease));
            && r.Some? && id in r.value.rows && r.value.rows[id].status == Completed
            && r.value.rows == s.rows[id := r.value.rows[id]] && r.value.held == s.held
            && r.value.graph == Project(s.graph, s.rows[id].event.payload, now)
  {
    var st := Happy(s, id, worker, now, lease);
    RunOneMore(s, [], s, st[0]);
    var a := After(s, st[0]);
    RunOneMore(s, [] + [st[0]], a, st[1]);
    var b := After(a, st[1]);
    RunOneMore(s, [] + [st[0]] + [st[1]], b, st[2]);
    var c := After(b, st[2]);
    RunOneMore(s, [] + [st[0]] + [st[1]] + [st[2]], c, st[3]);
    assert [] + [st[0]] + [st[1]] + [st[2]] + [st[3]] == st;
    assert After(c, st[3]).held == s.held;
  }

  /** From every reachable state, an event that the domain model accepts can be completed as soon as it
    * is free, and completing it touches no other row. */
  lemma CanComplete(g: Graph, s: System, id: Id, worker: string, now: int, lease: int)
    requires Reachable(g, s) && id in s.rows && s.rows[id].status != Completed
    requires Projects(s.rows[id].event.payload) && FreeFrom(s.rows[id]) <= now
    ensures var r := Run(s, Happy(s, id, worker, now, lease));
            && r.Some? && id in r.value.rows && r.value.rows[id].status == Completed
            && r.value.rows == s.rows[id := r.value.rows[id]] && r.value.held == s.held
            && r.value.graph == Project(s.graph, s.rows[id].event.payload, now)
  {
    ReachableInv(g, s);
    NeverStuck(g, s, id, now);
    HappyRun(s, id, worker, now, lease);
  }

  // ---------------------------------------------------------------- claiming a batch

  /** One claim for each of the first `n` selected rows. */
  function ClaimSteps(ids: seq<Id>, n: nat, worker: string, now: int, lease: int): seq<Step>
    requires n <= |ids|
  {
    if n == 0 then [] else ClaimSteps(ids, n - 1, worker, now, lease) + [ClaimOne(ids[n - 1], worker, now, lease)]
  }

  /** The worker holds the first `n` selected events under the tokens from `first` on, and `held` as before. */
  ghost predicate Holds(s: System, ids: seq<Id>, n: nat, first: Token, s': System) {
    && n <= |ids| && (forall t :: t in s'.held <==> t in s.held || first <= t < first + n)
    && (forall t :: t in s.held && !(first <= t < first + n) ==> t in s'.held && s'.held[t] == s.held[t])
    && (forall i :: 0 <= i < n ==>
          && ids[i] in s.rows && first + i in s'.held
          && s'.held[first + i] == Work(ids[i], s.rows[ids[i]].event.payload, Holding, None))
  }

  ghost predicate Claimable(rows: Table, ids: seq<Id>, now: int) {
    Once(ids) && forall id :: id in ids ==> id in rows && Eligible(rows[id], now)
  }

  lemma StillEligible(rows: Table, ids: seq<Id>, k: nat, worker: string, first: Token, now: int, lease: int)
    requires Claimable(rows, ids, now) && k < |ids|
    ensures ids[k] in rows && Eligible(rows[ids[k]], now)
    ensures ClaimAll(rows, ids, k, worker, first, now, lease)[ids[k]] == rows[ids[k]]
  {
    NextUntouched(rows, ids, k, worker, first, now, lease);
    assert ids[k] in ids;
  }

  /** The first `n` selected rows are claimed, under tokens from `s.next` on, by a worker that holds them. */
  ghost predicate ClaimedBatch(s: System, ids: seq<Id>, n: nat, worker: string, now: int, lease: int, s': System) {
    && n <= |ids| && (forall id :: id in ids ==> id in s.rows)
    && s'.rows == ClaimAll(s.rows, ids, n, worker, s.next, now, lease) && s'.next == s.next + n
    && s'.graph == s.graph && Holds(s, ids, n, s.next, s')
  }

  lemma OneMoreClaim(s: System, ids: seq<Id>, n: nat, worker: string, now: int, lease: int, mid: System)
    requires 0 < n <= |ids| && ClaimedBatch(s, ids, n - 1, worker, now, lease, mid)
    requires ids[n - 1] in s.rows && Eligible(s.rows[ids[n - 1]], now)
    requires mid.rows.Keys == s.rows.Keys && mid.rows[ids[n - 1]] == s.rows[ids[n - 1]]
    ensures Enabled(mid, ClaimOne(ids[n - 1], worker, now, lease))
    ensures ClaimedBatch(s, ids, n, worker, now, lease, After(mid, ClaimOne(ids[n - 1], worker, now, lease)))
  {
    var id, after := ids[n - 1], After(mid, ClaimOne(ids[n - 1], worker, now, lease));
    assert after.held[mid.next] == Work(id, s.rows[id].event.payload, Holding, None);
    assert Holds(s, ids, n, s.next, after);
  }

  lemma ClaimsExtend(s: System, ids: seq<Id>, n: nat, worker: string, now: int, lease: int, mid: System)
      returns (s': System)
    requires 0 < n <= |ids| && Claimable(s.rows, ids, now)
    requires Run(s, ClaimSteps(ids, n - 1, worker, now, lease)) == Some(mid)
    requires ClaimedBatch(s, ids, n - 1, worker, now, lease, mid)
    ensures Run(s, ClaimSteps(ids, n, worker, now, lease)) == Some(s')
    ensures ClaimedBatch(s, ids, n, worker, now, lease, s')
  {
    var st := ClaimOne(ids[n - 1], worker, now, lease);
    StillEligible(s.rows, ids, n - 1, worker, s.next, now, lease);
    OneMoreClaim(s, ids, n, worker, now, lease, mid);
    RunOneMore(s, ClaimSteps(ids, n - 1, worker, now, lease), mid, st);
    s' := After(mid, st);
  }

  lemma {:induction false} ClaimsRun(s: System, ids: seq<Id>, n: nat, worker: string, now: int, lease: int)
      returns (s': System)
    requires Claimable(s.rows, ids, now) && n <= |ids|
    ensures Run(s, ClaimSteps(ids, n, worker, now, lease)) == Some(s')
    ensures ClaimedBatch(s, ids, n, worker, now, lease, s')
    decreases n
  {
    if n == 0 {
      s' := s;
    } else {
      var mid := ClaimsRun(s, ids, n - 1, worker, now, lease);
      s' := ClaimsExtend(s, ids, n, worker, now, lease, mid);
    }
  }

  /** Claiming a batch in one transaction is a run of single claims: every selected row is still free when
    * its turn comes, the rows and tokens are those of the batch, and the worker holds what it was handed. */
  lemma BatchIsRun(s: System, locked: set<Id>, limit: nat, ids: seq<Id>, worker: string, now: int, lease: int)
      returns (s': System)
    requires IsSelection(s.rows, locked, now, limit, ids)
    ensures Run(s, ClaimSteps(ids, |ids|, worker, now, lease)) == Some(s')
    ensures ClaimedBatch(s, ids, |ids|, worker, now, lease, s')
  {
    SelectedOnce(s.rows, locked, now, limit, ids);
    assert forall id :: id in ids ==> Outbox.Candidate(s.rows, locked, now, id);
    s' := ClaimsRun(s, ids, |ids|, worker, now, lease);
  }

  // -------------------------------------------------------------- one worker's code

  datatype Faults = Faults(project: Fault, complete: Fault, fail: Fault)

  /** What other sessions commit meanwhile: before the graph commit, and before each read and each update. */
  datatype Others = Others(graph: Graph -> Graph, read: Table -> Table, complete: Table -> Table,
                           reread: Table -> Table, fail: Table -> Table)

  function Meet(s: System, others: Table -> Table): System {
    s.(rows := others(s.rows))
  }

  /** Reading the row and completing it, with other sessions in between. */
  function Completing(s: System, t: Token, now: int, fault: Fault, o: Others): System
    requires t in s.held && s.held[t].phase == Projected
  {
    After(Meet(After(Meet(s, o.read), ReadRow(t)), o.complete), MarkCompleted(t, now, fault))
  }

  /** Reading the row and failing it, with other sessions in between. */
  function Reporting(s: System, t: Token, error: string, now: int, fault: Fault, o: Others): System
    requires t in s.held && s.held[t].phase == Failing
  {
    After(Meet(After(Meet(s, o.reread), ReadRow(t)), o.fail), MarkFailed(t, error, now, fault))
  }

  function Projecting(s: System, t: Token, now: int, fault: Fault, o: Others): System
    requires t in s.held && s.held[t].phase == Holding
  {
    After(s.(graph := o.graph(s.graph)), ProjectEvent(t, now, fault))
  }

  /** What a worker does with an event that it has claimed: protocol steps, with other sessions in between. */
  function AfterEvent(s: System, t: Token, now: int, error: string, f: Faults, o: Others): System
    requires t in s.held && s.held[t].phase == Holding
  {
    var a := Projecting(s, t, now, f.project, o);
    var b := if a.held[t].phase == Projected then Completing(a, t, now, f.complete, o) else a;
    if t in b.held then Reporting(b, t, error, now, f.fail, o) else b
  }

  const ALONE := Others(g => g, rows => rows, rows => rows, rows => rows, rows => rows)

  lemma CompletingIs(s: System, t: Token, now: int, fault: Fault, o: Others)
    requires t in s.held && s.held[t].phase == Projected
    ensures var (id, seen) := (s.held[t].id, o.read(s.rows));
            var r := Complete(o.complete(seen), id, t, Lookup(seen, id), now);
            var s' := Completing(s, t, now, fault, o);
            && s'.graph == s.graph && s'.rows == (if fault != LostBefore && r.Ok? then r.value else o.complete(seen))
            && s'.held == (if fault == Fine && r.Ok? then s.held - {t}
                           else s.held[t := s.held[t].(phase := Failing, seen := None)])
            && s'.log == s.log + if fault != LostBefore && r.Ok? then [CompletedAt(id, t)] else []
  {
  }

  lemma ReportingIs(s: System, t: Token, error: string, now: int, fault: Fault, o: Others)
    requires t in s.held && s.held[t].phase == Failing
    ensures var (id, seen) := (s.held[t].id, o.reread(s.rows));
            var r := Fail(o.fail(seen), id, t, Lookup(seen, id), error, now);
            var s' := Reporting(s, t, error, now, fault, o);
            && s'.graph == s.graph && s'.rows == (if fault != LostBefore && r.Ok? then r.value else o.fail(seen))
            && s'.held == s.held - {t}
            && s'.log == s.log + if fault != LostBefore && r.Ok? then [FailedAt(id, t)] else []
  {
  }

  /** Where a live claim ends up when no other session interferes: completed after a reported commit unless
    * the mark was lost, otherwise back in the queue unless that mark was lost too. Only a refused payload
    * or a lost call leaves the graph alone. */
  lemma EventOutcome(s: System, t: Token, now: int, error: string, f: Faults)
    requires t in s.held && s.held[t].phase == Holding && Guard(s.rows, s.held[t].id, t)
    ensures var (id, p) := (s.held[t].id, s.held[t].payload);
            var s' := AfterEvent(s, t, now, error, f, ALONE);
            && t !in s'.held
            && s'.graph == (if Projects(p) && f.project != LostBefore then Project(s.graph, p, now) else s.graph)
            && s'.rows ==
                 if Projects(p) && f.project == Fine && f.complete != LostBefore then
                   s.rows[id := CompleteRow(s.rows[id], now)]
                 else if f.fail != LostBefore then
                   s.rows[id := FailRow(s.rows[id], s.rows[id].attempts, error, now)]
                 else s.rows
  {
    FreshReadAccepts(s.rows, s.held[t].id, t, error, now);
    var a := Projecting(s, t, now, f.project, ALONE);
    if a.held[t].phase == Projected {
      CompletingIs(a, t, now, f.complete, ALONE);
      var b := Completing(a, t, now, f.complete, ALONE);
      if t in b.held {
        ReportingIs(b, t, error, now, f.fail, ALONE);
      }
    } else {
      ReportingIs(a, t, error, now, f.fail, ALONE);
    }
  }

  /** A mark under the token was accepted. */
  ghost predicate Closes(log: seq<Entry>, id: Id, t: Token) {
    CompletedAt(id, t) in log || FailedAt(id, t) in log
  }

  class OutboxGraphWorker {
    const outbox: OutboxRepository
    const graph: GraphRepository

    constructor (outbox: OutboxRepository, graph: GraphRepository)
      ensures this.outbox == outbox && this.graph == graph
    {
      this.outbox, this.graph := outbox, graph;
    }

    /** The state as the worker holding `claim` sees it. */
    function View(claim: Claim): System
      reads this, outbox, graph
    {
      System(outbox.rows, graph.Snapshot(), outbox.nextToken,
             map[claim.token := Work(claim.event.id, claim.event.payload, Holding, None)], [])
    }

    /** Projects the event and completes its row; any error on the way fails the row instead. A normal
      * return means that the claim was live when a mark was committed, and that the mark closed it. */
    method ProcessEvent(claim: Claim, now: int, error: string, f: Faults, o: Others) returns (raised: bool)
      modifies outbox, graph
      ensures outbox.rows == AfterEvent(old(View(claim)), claim.token, now, error, f, o).rows
      ensures graph.Snapshot() == AfterEvent(old(View(claim)), claim.token, now, error, f, o).graph
      ensures outbox.nextToken == old(outbox.nextToken)
      ensures !raised ==>
                Closes(AfterEvent(old(View(claim)), claim.token, now, error, f, o).log, claim.event.id, claim.token)
      ensures raised || !Guard(outbox.rows, claim.event.id, claim.token)
    {
      ghost var s, t := View(claim), claim.token;
      ghost var a := Projecting(s, t, now, f.project, o);
      raised := Submit(claim, now, f.project, o);
      assert raised <==> a.held[t].phase == Failing;
      if !raised {
        CompletingIs(a, t, now, f.complete, o);
        raised := Finish(claim, now, f.complete, o);
      }
      if raised {
        ghost var b := if a.held[t].phase == Projected then Completing(a, t, now, f.complete, o) else a;
        ReportingIs(b, t, error, now, f.fail, o);
        raised := Report(claim, now, error, f.fail, o);
      }
    }

    method Submit(claim: Claim, now: int, fault: Fault, o: Others) returns (raised: bool)
      modifies graph
      ensures var g := o.graph(old(graph.Snapshot()));
              var ok := fault != LostBefore && Projects(claim.event.payload);
              && graph.Snapshot() == (if ok then Project(g, claim.event.payload, now) else g)
              && raised == !(ok && fault == Fine)
    {
      graph.Become(o.graph(graph.Snapshot()));
      raised := fault == LostBefore;
      if !raised {
        var ok := graph.ProjectEvent(claim.event.payload, now);
        raised := !ok || fault == LostAfter;
      }
    }

    method Finish(claim: Claim, now: int, fault: Fault, o: Others) returns (raised: bool)
      modifies outbox
      ensures outbox.nextToken == old(outbox.nextToken)
      ensures var (id, t, seen) := (claim.event.id, claim.token, o.read(old(outbox.rows)));
              var r := Complete(o.complete(seen), id, t, Lookup(seen, id), now);
              && outbox.rows == (if fault != LostBefore && r.Ok? then r.value else o.complete(seen))
              && raised == !(fault == Fine && r.Ok?)
    {
      outbox.Become(o.read(outbox.rows));
      var seen := outbox.Get(claim.event.id);
      outbox.Become(o.complete(outbox.rows));
      raised := fault == LostBefore;
      if !raised {
        var r := outbox.MarkCompleted(claim.event.id, claim.token, seen, now);
        raised := r.Err? || fault == LostAfter;
      }
    }

    method Report(claim: Claim, now: int, error: string, fault: Fault, o: Others) returns (raised: bool)
      modifies outbox
      ensures outbox.nextToken == old(outbox.nextToken)
      ensures var (id, t, seen) := (claim.event.id, claim.token, o.reread(old(outbox.rows)));
              var r := Fail(o.fail(seen), id, t, Lookup(seen, id), error, now);
              && outbox.rows == (if fault != LostBefore && r.Ok? then r.value else o.fail(seen))
              && raised == !(fault == Fine && r.Ok?)
    {
      outbox.Become(o.reread(outbox.rows));
      var seen := outbox.Get(claim.event.id);
      outbox.Become(o.fail(outbox.rows));
      raised := fault == LostBefore;
      if !raised {
        var r := outbox.MarkFailed(claim.event.id, claim.token, seen, error, now);
        raised := r.Err? || fault == LostAfter;
      }
    }
  }
}
