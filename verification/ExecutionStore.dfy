/** Status changes of execution runs as compare-and-set updates. */
module ExecutionStore {
  import opened Wrappers
  import opened JsonValue

  type Id = int

  datatype RunStatus = Pending | Running | Succeeded | Failed | Cancelled

  datatype Run = Run(
    status: RunStatus, finishedAt: Option<int>, errorCode: Option<string>, errorMessage: Option<string>, output: Json)

  datatype StoreError = InvalidTransition | NotFound | Conflict | BadOutput(cause: JsonError) | NotAnObject

  function Allowed(s: RunStatus): set<RunStatus> {
    match s
    case Pending => {Running, Cancelled}
    case Running => {Succeeded, Failed, Cancelled}
    case _ => {}
  }

  predicate Terminal(s: RunStatus) {
    s in {Succeeded, Failed, Cancelled}
  }

  /** The output as the caller's objects are at the time of the call. */
  datatype Output = Output(heap: Heap, value: Value)

  /** One call: what the caller believes the status to be, and what it should become. */
  datatype Change = Change(
    id: Id, expected: RunStatus, target: RunStatus, errorCode: Option<string>, errorMessage: Option<string>,
    output: Option<Output>, now: int)

  ghost predicate Sound(c: Change) {
    c.output.Some? ==> Closed(c.output.value.heap) && InHeap(c.output.value.heap, c.output.value.value)
  }

  /** What is stored of an output: a copy, which must be an object. */
  ghost function Snapshot(o: Output): Result<Json, StoreError>
    requires Closed(o.heap) && InHeap(o.heap, o.value)
  {
    match Check(o.heap, o.value, {})
    case Err(e) => Err(BadOutput(e))
    case Ok(j) => if j.JDict? then Ok(j) else Err(NotAnObject)
  }

  /** What becomes of the output column. */
  ghost function NewOutput(r: Run, c: Change): Result<Json, StoreError>
    requires Sound(c)
  {
    if c.output.None? then Ok(r.output) else Snapshot(c.output.value)
  }

  function Changed(r: Run, c: Change, output: Json): Run {
    Run(c.target, if Terminal(c.target) then Some(c.now) else r.finishedAt,
        if c.errorCode.Some? then c.errorCode else r.errorCode,
        if c.errorMessage.Some? then c.errorMessage else r.errorMessage, output)
  }

  /** The transition is checked first, then the output, and only then the row. */
  ghost function Update(rows: map<Id, Run>, c: Change): Result<map<Id, Run>, StoreError>
    requires Sound(c)
  {
    if c.target !in Allowed(c.expected) then Err(InvalidTransition)
    else if c.output.Some? && Snapshot(c.output.value).Err? then Err(Snapshot(c.output.value).error)
    else if c.id !in rows then Err(NotFound)
    else if rows[c.id].status != c.expected then Err(Conflict)
    else Ok(rows[c.id := Changed(rows[c.id], c, NewOutput(rows[c.id], c).value)])
  }

  method TakeSnapshot(o: Output) returns (r: Result<Json, StoreError>)
    requires Closed(o.heap) && InHeap(o.heap, o.value)
    ensures r == Snapshot(o)
    ensures r.Ok? <==> exists t: Json :: t.JDict? && Unfolds(o.heap, o.value, t)
    ensures r.Ok? ==> r.value.JDict? && Unfolds(o.heap, o.value, r.value)
  {
    var validator := new Validator();
    var copy := validator.Validate(o.heap, o.value);
    forall t ensures copy == Ok(t) <==> Unfolds(o.heap, o.value, t) {
      CopiedIffUnfolds(o.heap, o.value, t);
    }
    if copy.Err? {
      return Err(BadOutput(copy.error));
    }
    r := if copy.value.JDict? then Ok(copy.value) else Err(NotAnObject);
  }

  class ExecutionRepository {
    var runs: map<Id, Run>

    /** The update matches the row on its status; only when none matched is the row read, to tell why. */
    method UpdateRunStatus(c: Change) returns (r: Result<Run, StoreError>)
      requires Sound(c)
      modifies this
      ensures match Update(old(runs), c)
              case Ok(after) => runs == after && c.id in runs && r == Ok(runs[c.id])
              case Err(e) => runs == old(runs) && r == Err(e)
    {
      if c.target !in Allowed(c.expected) {
        return Err(InvalidTransition);
      }
      var output: Option<Json> := None;
      if c.output.Some? {
        var snapshot := TakeSnapshot(c.output.value);
        if snapshot.Err? {
          return Err(snapshot.error);
        }
        output := Some(snapshot.value);
      }
      if c.id in runs && runs[c.id].status == c.expected {
        var run := runs[c.id].(status := c.target);
        if Terminal(c.target) {
          run := run.(finishedAt := Some(c.now));
        }
        if c.errorCode.Some? {
          run := run.(errorCode := c.errorCode);
        }
        if c.errorMessage.Some? {
          run := run.(errorMessage := c.errorMessage);
        }
        if output.Some? {
          run := run.(output := output.value);
        }
        runs := runs[c.id := run];
        return Ok(run);
      }
      if c.id !in runs {
        return Err(NotFound);
      }
      r := Err(Conflict);
    }
  }

  // ------------------------------------------------------------------ any interleaving

  ghost predicate AllSound(cs: seq<Change>) {
    forall i :: 0 <= i < |cs| ==> Sound(cs[i])
  }

  /** The table after the first `n` calls, in the order in which the database runs them. */
  ghost function After(rows: map<Id, Run>, cs: seq<Change>, n: nat): map<Id, Run>
    requires n <= |cs| && AllSound(cs)
  {
    if n == 0 then rows
    else
      var before := After(rows, cs, n - 1);
      match Update(before, cs[n - 1])
      case Ok(after) => after
      case Err(_) => before
  }

  /** Call `i` changed its run. */
  ghost predicate Accepted(rows: map<Id, Run>, cs: seq<Change>, i: nat)
    requires i < |cs| && AllSound(cs)
  {
    Update(After(rows, cs, i), cs[i]).Ok?
  }

  /** How many of the first `n` calls changed run `id`. */
  ghost function Changes(rows: map<Id, Run>, cs: seq<Change>, n: nat, id: Id): nat
    requires n <= |cs| && AllSound(cs)
  {
    if n == 0 then 0
    else Changes(rows, cs, n - 1, id) + if Accepted(rows, cs, n - 1) && cs[n - 1].id == id then 1 else 0
  }

  /** How far a run still can go. */
  function Rank(s: RunStatus): nat {
    match s
    case Pending => 2
    case Running => 1
    case _ => 0
  }

  /** Whoever calls in whatever order, a run changes at most twice, never after it is terminal, and a run
    * that became terminal has the time it finished. */
  lemma {:induction false} RunsOnlyAdvance(rows: map<Id, Run>, cs: seq<Change>, n: nat, id: Id)
    requires n <= |cs| && AllSound(cs) && id in rows
    ensures var after := After(rows, cs, n);
            && id in after && Changes(rows, cs, n, id) + Rank(after[id].status) <= Rank(rows[id].status) <= 2
            && (Terminal(rows[id].status) ==> after[id] == rows[id])
            && (Terminal(after[id].status) && after[id] != rows[id] ==> after[id].finishedAt.Some?)
            && (rows[id].output.JDict? ==> after[id].output.JDict?)
  {
    if n != 0 {
      RunsOnlyAdvance(rows, cs, n - 1, id);
    }
  }

  lemma {:induction false} RanksFall(rows: map<Id, Run>, cs: seq<Change>, m: nat, n: nat, id: Id)
    requires m <= n <= |cs| && AllSound(cs) && id in After(rows, cs, m)
    ensures id in After(rows, cs, n) && Rank(After(rows, cs, n)[id].status) <= Rank(After(rows, cs, m)[id].status)
    decreases n
  {
    if m < n {
      RanksFall(rows, cs, m, n - 1, id);
    }
  }

  /** Of all the calls that expect one status of one run, in any sequence of calls, at most one is accepted. */
  lemma OneWinnerPerStatus(rows: map<Id, Run>, cs: seq<Change>, i: nat, j: nat)
    requires i < j < |cs| && AllSound(cs) && cs[i].id == cs[j].id && cs[i].expected == cs[j].expected
    ensures !(Accepted(rows, cs, i) && Accepted(rows, cs, j))
  {
    if Accepted(rows, cs, i) {
      RanksFall(rows, cs, i + 1, j, cs[i].id);
    }
  }
}
