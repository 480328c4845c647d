/** The outbox table and the operations on it: claiming a batch under a lease, and closing a claim.
  *
  * A call reads the row first and then runs one guarded update. Other sessions may commit in between,
  * so what was read is passed in as `seen`, which may be out of date.
  */
module Outbox {
  import opened Basics
  import opened Wrappers
  import opened GraphStore

  type Token = nat

  /** Microseconds. */
  const SECOND := 1_000_000

  datatype Status = Pending | Claimed | Completed | Failed

  datatype Event = Event(id: Id, payload: Payload, createdAt: int)

  datatype Row = Row(
    event: Event, status: Status, attempts: nat, lastError: Option<string>, availableAt: int,
    claimedBy: Option<string>, token: Option<Token>, claimedAt: Option<int>, leaseExpires: Option<int>,
    completedAt: Option<int>)

  type Table = map<Id, Row>

  datatype MarkError = NotFound | InvalidToken | NotClaimed | ClaimLost

  // ------------------------------------------------------------------ row changes

  function NewRow(e: Event): Row {
    Row(e, Pending, 0, None, e.createdAt, None, None, None, None, None)
  }

  predicate Eligible(r: Row, now: int) {
    && (r.status == Pending || (r.status == Claimed && r.leaseExpires.Some? && r.leaseExpires.value <= now))
    && r.availableAt <= now
  }

  function ClaimRow(r: Row, worker: string, token: Token, now: int, lease: int): Row {
    r.(status := Claimed, claimedBy := Some(worker), token := Some(token), claimedAt := Some(now),
       leaseExpires := Some(now + lease * SECOND), attempts := r.attempts + 1)
  }

  function CompleteRow(r: Row, now: int): Row {
    r.(status := Completed, completedAt := Some(now), leaseExpires := None)
  }

  /** The retry time is computed from the attempts that the call read. */
  function FailRow(r: Row, attempts: nat, error: string, now: int): Row {
    r.(status := Pending, lastError := Some(Cut(error, 512)), claimedBy := None, token := None, claimedAt := None,
       leaseExpires := None, availableAt := now + Delay(attempts) * SECOND)
  }

  function Pow2(n: nat): nat {
    if n == 0 then 1 else 2 * Pow2(n - 1)
  }

  /** Exponential backoff in seconds, capped at an hour. */
  function Delay(attempts: nat): nat {
    var d := Pow2(attempts + 1);
    if d < 3600 then d else 3600
  }

  lemma {:induction false} Pow2Grows(m: nat, n: nat)
    requires m <= n
    ensures 1 <= Pow2(m) <= Pow2(n)
    ensures m < n ==> 2 * Pow2(m) <= Pow2(n)
    decreases n
  {
    if m < n {
      Pow2Grows(m, n - 1);
    } else if m > 0 {
      Pow2Grows(m - 1, n - 1);
    }
  }

  /** Later attempts never wait less, a first retry waits 4 seconds, and the cap is reached at attempt 11. */
  lemma DelayBounds(a: nat, b: nat)
    requires a <= b
    ensures Delay(a) <= Delay(b)
    ensures 1 <= a ==> 4 <= Delay(a) <= 3600
    ensures Delay(a) == 3600 <==> 11 <= a
  {
    Pow2Grows(a + 1, b + 1);
    assert Pow2(2) == 4;
    assert Pow2(6) == 64;
    assert Pow2(11) == 2048 by {
      assert Pow2(9) == 512;
    }
    assert Pow2(12) == 4096;
    if 1 <= a {
      Pow2Grows(2, a + 1);
    }
    if 11 <= a {
      Pow2Grows(12, a + 1);
    } else {
      Pow2Grows(a + 1, 11);
    }
  }

  // ------------------------------------------------------------------- selection

  /** What the claiming query may return: some eligible rows that no other transaction has locked,
    * oldest first, as many as there are up to the limit. */
  ghost predicate IsSelection(rows: Table, locked: set<Id>, now: int, limit: nat, ids: seq<Id>) {
    && |ids| <= limit
    && (forall i, j :: 0 <= i < j < |ids| ==> ids[i] != ids[j])
    && (forall id :: id in ids ==> id in rows && Candidate(rows, locked, now, id))
    && (forall i, j :: 0 <= i < j < |ids| ==> OlderOrEqual(rows, ids[i], ids[j]))
    && (forall id, k :: id in rows && id !in ids && Candidate(rows, locked, now, id) && k in ids ==>
          OlderOrEqual(rows, k, id))
    && ((exists id :: id in rows && id !in ids && Candidate(rows, locked, now, id)) ==> |ids| == limit)
  }

  predicate OlderOrEqual(rows: Table, a: Id, b: Id) {
    a in rows && b in rows && rows[a].event.createdAt <= rows[b].event.createdAt
  }

  predicate Candidate(rows: Table, locked: set<Id>, now: int, id: Id)
    requires id in rows
  {
    id !in locked && Eligible(rows[id], now)
  }

  lemma EmptyOrMember(pool: set<Id>)
    ensures pool == {} || exists id :: id in pool
  {
    if forall id :: id !in pool {
      assert pool == {};
    }
  }

  lemma {:induction false} OldestExists(rows: Table, pool: set<Id>) returns (oldest: Id)
    requires pool != {} && pool <= rows.Keys
    ensures oldest in pool && forall k :: k in pool ==> OlderOrEqual(rows, oldest, k)
    decreases pool
  {
    EmptyOrMember(pool);
    var id :| id in pool;
    var rest := pool - {id};
    if rest == {} {
      oldest := id;
      assert pool == {id};
    } else {
      var other := OldestExists(rows, rest);
      oldest := if OlderOrEqual(rows, other, id) then other else id;
      forall k | k in pool ensures OlderOrEqual(rows, oldest, k) {
        assert k == id || OlderOrEqual(rows, other, k);
      }
    }
  }

  /** The query always has an answer. */
  lemma {:induction false} SelectionExists(rows: Table, locked: set<Id>, now: int, limit: nat) returns (ids: seq<Id>)
    ensures IsSelection(rows, locked, now, limit, ids)
  {
    if limit == 0 {
      ids := [];
    } else {
      var fewer := SelectionExists(rows, locked, now, limit - 1);
      var pool := set id | id in rows && id !in fewer && Candidate(rows, locked, now, id);
      if pool == {} {
        ids := fewer;
        assert forall id :: id in rows && id !in ids && Candidate(rows, locked, now, id) ==> id in pool;
      } else {
        var next := OldestExists(rows, pool);
        ids := fewer + [next];
        assert forall id :: id in rows && id !in ids && Candidate(rows, locked, now, id) ==> id in pool;
        assert next in pool;
      }
    }
  }

  // -------------------------------------------------------------------- claiming

  /** The table after the first `n` selected rows were claimed with tokens `first`, `first + 1`, ... */
  function ClaimAll(rows: Table, ids: seq<Id>, n: nat, worker: string, first: Token, now: int, lease: int): Table
    requires n <= |ids| && forall id :: id in ids ==> id in rows
    ensures ClaimAll(rows, ids, n, worker, first, now, lease).Keys == rows.Keys
  {
    if n == 0 then rows
    else
      var done := ClaimAll(rows, ids, n - 1, worker, first, now, lease);
      var id := ids[n - 1];
      assert id in ids;
      done[id := ClaimRow(done[id], worker, first + n - 1, now, lease)]
  }

  ghost predicate Once(ids: seq<Id>) {
    forall i, j :: 0 <= i < j < |ids| ==> ids[i] != ids[j]
  }

  /** Every selected row is claimed once, under a token of its own, and no other row changes. */
  lemma {:induction false} ClaimAllExactly(rows: Table, ids: seq<Id>, n: nat, worker: string, first: Token, now: int,
                                           lease: int, id: Id)
    requires n <= |ids| && Once(ids) && (forall k :: k in ids ==> k in rows) && id in rows
    ensures var after := ClaimAll(rows, ids, n, worker, first, now, lease);
            && (id !in ids[..n] ==> after[id] == rows[id])
            && (forall i :: 0 <= i < n && ids[i] == id ==>
                  after[id] == ClaimRow(rows[id], worker, first + i, now, lease))
  {
    if n != 0 {
      ClaimAllExactly(rows, ids, n - 1, worker, first, now, lease, id);
      assert ids[..n] == ids[..n - 1] + [ids[n - 1]];
      if ids[n - 1] == id {
        assert id !in ids[..n - 1];
      }
    }
  }

  /** What a worker is handed. */
  datatype Claim = Claim(event: Event, token: Token, attempts: nat)

  function Tickets(rows: Table, ids: seq<Id>, n: nat, first: Token): (claims: seq<Claim>)
    requires n <= |ids| && forall id :: id in ids ==> id in rows
    ensures |claims| == n
    ensures forall i :: 0 <= i < n ==>
              ids[i] in rows && claims[i] == Claim(rows[ids[i]].event, first + i, rows[ids[i]].attempts + 1)
  {
    if n == 0 then []
    else
      var id := ids[n - 1];
      assert id in ids;
      Tickets(rows, ids, n - 1, first) + [Claim(rows[id].event, first + n - 1, rows[id].attempts + 1)]
  }

  lemma SelectedOnce(rows: Table, locked: set<Id>, now: int, limit: nat, ids: seq<Id>)
    requires IsSelection(rows, locked, now, limit, ids)
    ensures Once(ids) && forall id :: id in ids ==> id in rows
  {
  }

  lemma NextUntouched(rows: Table, ids: seq<Id>, k: nat, worker: string, first: Token, now: int, lease: int)
    requires k < |ids| && Once(ids) && forall id :: id in ids ==> id in rows
    ensures ids[k] in rows && ClaimAll(rows, ids, k, worker, first, now, lease)[ids[k]] == rows[ids[k]]
  {
    assert ids[k] in ids && ids[k] !in ids[..k];
    ClaimAllExactly(rows, ids, k, worker, first, now, lease, ids[k]);
  }

  // --------------------------------------------------------------------- closing

  /** The checks on the row that was read. */
  function Refusal(seen: Option<Row>, token: Token): Option<MarkError> {
    if seen.None? then Some(NotFound)
    else if seen.value.token != Some(token) then Some(InvalidToken)
    else if seen.value.status != Claimed then Some(NotClaimed)
    else None
  }

  /** The guard of the update itself, on the row as it is now. */
  predicate Guard(rows: Table, id: Id, token: Token) {
    id in rows && rows[id].status == Claimed && rows[id].token == Some(token)
  }

  function Complete(rows: Table, id: Id, token: Token, seen: Option<Row>, now: int): Result<Table, MarkError> {
    match Refusal(seen, token)
    case Some(e) => Err(e)
    case None => if Guard(rows, id, token) then Ok(rows[id := CompleteRow(rows[id], now)]) else Err(ClaimLost)
  }

  function Fail(rows: Table, id: Id, token: Token, seen: Option<Row>, error: string, now: int): Result<Table, MarkError>
  {
    match Refusal(seen, token)
    case Some(e) => Err(e)
    case None =>
      if Guard(rows, id, token) then Ok(rows[id := FailRow(rows[id], seen.value.attempts, error, now)])
      else Err(ClaimLost)
  }

  function Lookup(rows: Table, id: Id): Option<Row> {
    if id in rows then Some(rows[id]) else None
  }

  /** With nothing in between, a mark is accepted exactly for a live claim. */
  lemma FreshReadAccepts(rows: Table, id: Id, token: Token, error: string, now: int)
    ensures Complete(rows, id, token, Lookup(rows, id), now).Ok? <==> Guard(rows, id, token)
    ensures Fail(rows, id, token, Lookup(rows, id), error, now).Ok? <==> Guard(rows, id, token)
    ensures Complete(rows, id, token, Lookup(rows, id), now) != Err(ClaimLost)
  {
  }

  class OutboxRepository {
    var rows: Table
    var nextToken: Token

    constructor ()
      ensures rows == map[] && nextToken == 0
    {
      rows, nextToken := map[], 0;
    }

    method Add(e: Event) returns (ok: bool)
      modifies this
      ensures ok == (e.id !in old(rows)) && nextToken == old(nextToken)
      ensures rows == if ok then old(rows)[e.id := NewRow(e)] else old(rows)
    {
      ok := e.id !in rows;
      if ok {
        rows := rows[e.id := NewRow(e)];
      }
    }

    /** Other sessions have left the rows as `others`. */
    method Become(others: Table)
      modifies this
      ensures rows == others && nextToken == old(nextToken)
    {
      rows := others;
    }

    method Get(id: Id) returns (row: Option<Row>)
      ensures row == Lookup(rows, id)
    {
      row := if id in rows then Some(rows[id]) else None;
    }

    /** Claims the rows that the query returned, each under a token never used before. */
    method ClaimBatch(selected: seq<Id>, ghost locked: set<Id>, ghost limit: nat, worker: string, now: int, lease: int)
      returns (claimed: seq<Claim>)
      requires IsSelection(rows, locked, now, limit, selected)
      modifies this
      ensures forall id :: id in selected ==> id in old(rows)
      ensures rows == ClaimAll(old(rows), selected, |selected|, worker, old(nextToken), now, lease)
      ensures nextToken == old(nextToken) + |selected|
      ensures claimed == Tickets(old(rows), selected, |selected|, old(nextToken))
    {
      claimed := [];
      ghost var before, first := rows, nextToken;
      SelectedOnce(rows, locked, now, limit, selected);
      for k := 0 to |selected|
        invariant rows == ClaimAll(before, selected, k, worker, first, now, lease)
        invariant nextToken == first + k
        invariant claimed == Tickets(before, selected, k, first)
      {
        var id := selected[k];
        NextUntouched(before, selected, k, worker, first, now, lease);
        rows := rows[id := ClaimRow(rows[id], worker, nextToken, now, lease)];
        claimed := claimed + [Claim(rows[id].event, nextToken, rows[id].attempts)];
        nextToken := nextToken + 1;
      }
    }

    method MarkCompleted(id: Id, token: Token, seen: Option<Row>, now: int) returns (r: Result<(), MarkError>)
      modifies this
      ensures nextToken == old(nextToken)
      ensures match Complete(old(rows), id, token, seen, now)
              case Ok(after) => r == Ok(()) && rows == after
              case Err(e) => r == Err(e) && rows == old(rows)
    {
      if seen.None? {
        return Err(NotFound);
      }
      if seen.value.token != Some(token) {
        return Err(InvalidToken);
      }
      if seen.value.status != Claimed {
        return Err(NotClaimed);
      }
      if id in rows && rows[id].status == Claimed && rows[id].token == Some(token) {
        rows := rows[id := rows[id].(status := Completed, completedAt := Some(now), leaseExpires := None)];
        return Ok(());
      }
      r := Err(ClaimLost);
    }

    method MarkFailed(id: Id, token: Token, seen: Option<Row>, error: string, now: int)
      returns (r: Result<(), MarkError>)
      modifies this
      ensures nextToken == old(nextToken)
      ensures match Fail(old(rows), id, token, seen, error, now)
              case Ok(after) => r == Ok(()) && rows == after
              case Err(e) => r == Err(e) && rows == old(rows)
    {
      if seen.None? {
        return Err(NotFound);
      }
      if seen.value.token != Some(token) {
        return Err(InvalidToken);
      }
      if seen.value.status != Claimed {
        return Err(NotClaimed);
      }
      if id in rows && rows[id].status == Claimed && rows[id].token == Some(token) {
        rows := rows[id := rows[id].(
          status := Pending, lastError := Some(Cut(error, 512)), claimedBy := None, token := None,
          claimedAt := None, leaseExpires := None,
          availableAt := now + Delay(seen.value.attempts) * SECOND)];
        return Ok(());
      }
      r := Err(ClaimLost);
    }
  }
}
