/** Runs of concurrent ingestions, deletions and source changes over one database.
  *
  * A run is the sequence of its committed states. Each of a call's reads sees one of the states committed
  * before its write; a call that fails or rolls back commits nothing.
  */
module IngestionRuns {
  import opened Wrappers
  import opened Ingestion

  /** Which states the reads of a call saw. */
  datatype Times = Times(source: nat, checkpoint: nat, row: nat, version: nat, active: nat, activeVersion: nat)

  datatype Step =
    | Ingest(call: Call, at: Times)
    | DeleteDocument(key: Key)
    | SetSource(id: Id, source: Source)

  function Empty(): DB {
    DB(map[], map[], map[], map[], [], [])
  }

  predicate Timely(at: Times, now: nat) {
    at.source <= at.checkpoint <= at.row <= at.version <= at.active <= at.activeVersion <= now
  }

  function ReadsAt(states: seq<DB>, at: Times, now: nat): Reads
    requires Timely(at, now) && now < |states|
  {
    Reads(states[at.source], states[at.checkpoint], states[at.row], states[at.version], states[at.active],
          states[at.activeVersion])
  }

  ghost predicate CanTake(states: seq<DB>, n: nat, st: Step)
    requires n < |states|
  {
    match st
    case Ingest(call, at) => Timely(at, n) && FreshIds(states[n], call)
    case DeleteDocument(k) => k in states[n].docs
    case SetSource(_, _) => true
  }

  ghost function Next(states: seq<DB>, n: nat, st: Step, split: string -> seq<string>): DB
    requires n < |states| && CanTake(states, n, st)
  {
    match st
    case Ingest(call, at) => Apply(states[n], Decide(ReadsAt(states, at, n), call), call, split)
    case DeleteDocument(k) => Delete(states[n], k)
    case SetSource(id, source) => states[n].(sources := states[n].sources[id := source])
  }

  /** `states[n + 1]` follows from `states[..n + 1]` by `steps[n]`. */
  ghost predicate IsRun(states: seq<DB>, steps: seq<Step>, split: string -> seq<string>) {
    && |states| == |steps| + 1 && states[0] == Empty()
    && forall n :: 0 <= n < |steps| ==> Taken(states, steps, n, split)
  }

  ghost predicate Taken(states: seq<DB>, steps: seq<Step>, n: nat, split: string -> seq<string>)
    requires n < |steps| < |states|
  {
    CanTake(states, n, steps[n]) && states[n + 1] == Next(states, n, steps[n], split)
  }

  ghost predicate AllValid(states: seq<DB>, n: nat, split: string -> seq<string>)
    requires n < |states|
  {
    forall i :: 0 <= i <= n ==> Valid(states[i], split)
  }

  ghost predicate AllExtend(states: seq<DB>, n: nat)
    requires n < |states|
  {
    forall i, j :: 0 <= i <= j <= n ==> Extends(states[i], states[j])
  }

  /** All states up to `n` are valid, and earlier ones persist in later ones. */
  ghost predicate Good(states: seq<DB>, n: nat, split: string -> seq<string>)
    requires n < |states|
  {
    AllValid(states, n, split) && AllExtend(states, n)
  }

  /** What the states that a call read have in common with the one it commits on. */
  ghost predicate Behind(r: Reads, now: DB, split: string -> seq<string>) {
    && Sane(r.active) && Sane(r.activeVersion) && Valid(now, split)
    && Extends(r.source, now) && Extends(r.active, r.activeVersion) && Extends(r.active, now)
    && Extends(r.activeVersion, now)
  }

  lemma GoodReads(states: seq<DB>, n: nat, at: Times, split: string -> seq<string>)
    requires n < |states| && Good(states, n, split) && Timely(at, n)
    ensures Behind(ReadsAt(states, at, n), states[n], split)
  {
  }

  /** What one ingestion does to the state it commits on, whatever its reads saw. */
  ghost predicate Effect(db: DB, db': DB, o: Outcome, call: Call) {
    match o
    case Changed(_) =>
      if call.parsed.Some? then
        forall k :: HistoryOf(db', k)
                 == if k == call.key then Ingested(HistoryOf(db, k), call.checksum) else HistoryOf(db, k)
      else db' == db
    case _ => db' == db
  }

  lemma IngestStep(r: Reads, now: DB, call: Call, split: string -> seq<string>)
    requires Behind(r, now, split) && FreshIds(now, call)
    ensures var db' := Apply(now, Decide(r, call), call, split);
            Valid(db', split) && Extends(now, db') && Effect(now, db', Decide(r, call), call)
  {
    match Decide(r, call)
    case NoSource =>
    case Resumed(_) =>
    case Repeated(_, _) => RepeatedStep(r, now, call, split);
    case Changed(_) => ChangedStep(r, now, call, split);
  }

  lemma RepeatedStep(r: Reads, now: DB, call: Call, split: string -> seq<string>)
    requires Behind(r, now, split) && Decide(r, call).Repeated?
    ensures Apply(now, Decide(r, call), call, split) == now && Extends(now, now)
  {
    RepeatedIsIdle(r, now, call);
  }

  lemma ChangedStep(r: Reads, now: DB, call: Call, split: string -> seq<string>)
    requires Valid(now, split) && Extends(r.source, now) && Extends(r.active, now) && FreshIds(now, call)
    requires Decide(r, call).Changed?
    ensures var db' := Apply(now, Decide(r, call), call, split);
            Valid(db', split) && Extends(now, db') && Effect(now, db', Decide(r, call), call)
  {
    if call.parsed.Some? {
      SourceStays(r.source, now, call);
      ChangedOwnsDocument(r, now, call);
      CommitStep(now, call, Decide(r, call).document, call.parsed.value, split);
    }
  }

  lemma SourceStays(source: DB, now: DB, call: Call)
    requires Extends(source, now) && call.key.source in source.sources
    ensures call.key.source in now.sources
  {
  }

  lemma CommitStep(db: DB, call: Call, d: Id, p: Parsed, split: string -> seq<string>)
    requires Valid(db, split) && call.key.source in db.sources && !HasVersion(db, call.version)
    requires OwnId(db, call.key, DocumentId(db, call.key, d))
    ensures var db' := Write(db, call, d, p, split);
            && Valid(db', split) && Extends(db, db')
            && forall k :: HistoryOf(db', k)
                        == if k == call.key then Ingested(HistoryOf(db, k), call.checksum) else HistoryOf(db, k)
  {
    WriteKeepsValid(db, call, d, p, split);
    WriteExtends(db, call, d, p, split);
    forall k
      ensures HistoryOf(Write(db, call, d, p, split), k)
           == if k == call.key then Ingested(HistoryOf(db, k), call.checksum) else HistoryOf(db, k)
    {
      WriteHistory(db, call, d, p, split, k);
    }
  }

  lemma SourceKeepsValid(db: DB, id: Id, source: Source, split: string -> seq<string>)
    requires Valid(db, split)
    ensures var db' := db.(sources := db.sources[id := source]); Valid(db', split) && Extends(db, db')
  {
    var db' := db.(sources := db.sources[id := source]);
    assert SameRows(db, db');
    SameRowsKeepIds(db, db');
    SameRowsKeepContents(db, db', split);
    SameTablesKeepCurrent(db, db');
  }

  lemma SourceHistory(db: DB, id: Id, source: Source, k: Key)
    requires VersionIds(db)
    ensures HistoryOf(db.(sources := db.sources[id := source]), k) == HistoryOf(db, k)
  {
    if k in db.docs {
      OtherHistory(db, db.(sources := db.sources[id := source]), k);
    }
  }

  lemma StepIsGood(states: seq<DB>, n: nat, st: Step, split: string -> seq<string>)
    requires n < |states| && Good(states, n, split) && CanTake(states, n, st)
    ensures Valid(Next(states, n, st, split), split) && Extends(states[n], Next(states, n, st, split))
  {
    match st
    case Ingest(call, at) =>
      GoodReads(states, n, at, split);
      IngestStep(ReadsAt(states, at, n), states[n], call, split);
    case DeleteDocument(k) =>
      DeleteKeepsValid(states[n], k, split);
      DeleteExtends(states[n], k);
    case SetSource(id, source) => SourceKeepsValid(states[n], id, source, split);
  }

  /** In every state of every run: one version per checksum, the row names as current the only version
    * marked current, and each version has its chunks and its event exactly once. */
  lemma {:induction false} EveryStateIsValid(states: seq<DB>, steps: seq<Step>, split: string -> seq<string>, n: nat)
    requires IsRun(states, steps, split) && n <= |steps|
    ensures Good(states, n, split)
  {
    if n == 0 {
      EmptyIsGood(states, split);
    } else {
      EveryStateIsValid(states, steps, split, n - 1);
      TakenIsGood(states, steps, split, n - 1);
    }
  }

  lemma EmptyIsGood(states: seq<DB>, split: string -> seq<string>)
    requires states != [] && states[0] == Empty()
    ensures Good(states, 0, split)
  {
    EmptyIsValid(split);
    assert forall i :: 0 <= i <= 0 ==> states[i] == Empty();
    assert Extends(Empty(), Empty());
  }

  lemma EmptyIsValid(split: string -> seq<string>)
    ensures Valid(Empty(), split)
  {
    assert DocIds(Empty()) && VersionIds(Empty());
    assert CurrentIsMarked(Empty()) && CheckpointsAreRight(Empty()) && CheckpointsCover(Empty());
    assert WrittenOnce(Empty(), split);
  }

  lemma TakenIsGood(states: seq<DB>, steps: seq<Step>, split: string -> seq<string>, n: nat)
    requires IsRun(states, steps, split) && n < |steps| && Good(states, n, split)
    ensures Good(states, n + 1, split)
  {
    assert Taken(states, steps, n, split);
    StepIsGood(states, n, steps[n], split);
    OneMoreGood(states, n, split);
  }

  lemma OneMoreGood(states: seq<DB>, n: nat, split: string -> seq<string>)
    requires n + 1 < |states| && Good(states, n, split)
    requires Valid(states[n + 1], split) && Extends(states[n], states[n + 1])
    ensures Good(states, n + 1, split)
  {
    OneMoreExtends(states, n);
    OneMoreValid(states, n, split);
  }

  lemma OneMoreValid(states: seq<DB>, n: nat, split: string -> seq<string>)
    requires n + 1 < |states| && AllValid(states, n, split) && Valid(states[n + 1], split)
    ensures AllValid(states, n + 1, split)
  {
  }

  lemma OneMoreExtends(states: seq<DB>, n: nat)
    requires n + 1 < |states| && AllExtend(states, n) && Extends(states[n], states[n + 1])
    ensures AllExtend(states, n + 1)
  {
    forall i | 0 <= i <= n ensures Extends(states[i], states[n + 1]) {
      ExtendsAcross(states[i], states[n], states[n + 1]);
    }
    assert Extends(states[n + 1], states[n + 1]);
  }

  ghost predicate InForce(db: DB, k: Key, c: Checksum) {
    HistoryOf(db, k).current == Some(c)
  }

  /** Every ingestion takes effect at one instant between its start and its end: it appends its checksum
    * to the history when it commits, or its content was in force at a state that it read, or it fails
    * and changes nothing. */
  lemma EachIngestTakesEffect(states: seq<DB>, steps: seq<Step>, split: string -> seq<string>, n: nat)
    requires IsRun(states, steps, split) && n < |steps| && steps[n].Ingest?
    ensures var (call, at) := (steps[n].call, steps[n].at);
            && Timely(at, n)
            && var o := Decide(ReadsAt(states, at, n), call);
            && Effect(states[n], states[n + 1], o, call)
            && (o.Resumed? || o.Repeated? ==>
                  exists m :: at.source <= m <= n && InForce(states[m], call.key, call.checksum))
  {
    assert Taken(states, steps, n, split);
    EveryStateIsValid(states, steps, split, n);
    var (call, at) := (steps[n].call, steps[n].at);
    GoodReads(states, n, at, split);
    IngestStep(ReadsAt(states, at, n), states[n], call, split);
    GoodEarlyReads(states, n, at, split);
    ResumedHit(ReadsAt(states, at, n), call);
    RepeatedHit(ReadsAt(states, at, n), states[n], call, split);
  }

  /** The reads made before the last two checks. */
  ghost predicate BehindEarly(r: Reads) {
    && CheckpointsAreRight(r.checkpoint) && Sane(r.row) && Sane(r.version)
    && Extends(r.checkpoint, r.row) && Extends(r.row, r.version)
  }

  lemma GoodEarlyReads(states: seq<DB>, n: nat, at: Times, split: string -> seq<string>)
    requires n < |states| && Good(states, n, split) && Timely(at, n)
    ensures BehindEarly(ReadsAt(states, at, n))
  {
    assert Valid(states[at.checkpoint], split);
  }

  lemma ResumedResumes(r: Reads, call: Call)
    ensures Decide(r, call).Resumed? ==> Resumes(r, call)
  {
  }

  lemma ResumedHit(r: Reads, call: Call)
    requires BehindEarly(r)
    ensures Decide(r, call).Resumed? ==>
              InForce(r.row, call.key, call.checksum) || InForce(r.version, call.key, call.checksum)
  {
    ResumedResumes(r, call);
    if Resumes(r, call) {
      ResumedSawTheContent(r, call);
    }
  }

  lemma RepeatedHit(r: Reads, now: DB, call: Call, split: string -> seq<string>)
    requires Behind(r, now, split)
    ensures Decide(r, call).Repeated? ==> InForce(r.active, call.key, call.checksum)
  {
    if Decide(r, call).Repeated? {
      RepeatedSawTheContent(r, call);
    }
  }

  // ------------------------------------------------------------- one call at a time

  /** Every call reads the state that it commits on. */
  ghost predicate Sequential(steps: seq<Step>) {
    forall n :: 0 <= n < |steps| && steps[n].Ingest? ==> steps[n].at == Times(n, n, n, n, n, n)
  }

  function KnownSources(steps: seq<Step>, n: nat): set<Id>
    requires n <= |steps|
  {
    if n == 0 then {}
    else KnownSources(steps, n - 1) + if steps[n - 1].SetSource? then {steps[n - 1].id} else {}
  }

  /** What a step makes of a history, where `known` are the sources so far: an unreadable file only counts
    * when its content is in force already. */
  function Recorded(h: History, st: Step, known: set<Id>, k: Key): History {
    match st
    case Ingest(call, _) =>
      if call.key == k && k.source in known && (call.parsed.Some? || h.current == Some(call.checksum))
      then Ingested(h, call.checksum) else h
    case DeleteDocument(j) => if j == k then Deleted(h) else h
    case SetSource(_, _) => h
  }

  /** The history that the steps spell out. */
  function Replay(steps: seq<Step>, n: nat, k: Key): History
    requires n <= |steps|
  {
    if n == 0 then History({}, None)
    else Recorded(Replay(steps, n - 1, k), steps[n - 1], KnownSources(steps, n - 1), k)
  }

  lemma NowIsBehind(db: DB, split: string -> seq<string>)
    requires Valid(db, split)
    ensures Behind(Now(db), db, split)
  {
  }

  lemma SequentialOutcome(db: DB, call: Call, split: string -> seq<string>)
    requires Valid(db, split)
    ensures var o := Decide(Now(db), call);
            if call.key.source !in db.sources then o.NoSource?
            else if InForce(db, call.key, call.checksum)
            then o.Resumed? && call.checksum in HistoryOf(db, call.key).versions
            else o.Changed?
  {
    if call.key.source in db.sources {
      FreshReadsDecide(db, call);
      if HistoryOf(db, call.key).current == Some(call.checksum) {
        CurrentIsStored(db, call.key, call.checksum);
      }
    }
  }

  lemma CurrentIsStored(db: DB, k: Key, c: Checksum)
    requires VersionIds(db) && CurrentIsMarked(db) && HistoryOf(db, k).current == Some(c)
    ensures c in HistoryOf(db, k).versions
  {
    CurrentChecksum(db, k);
    assert (db.docs[k].id, c) in db.versions;
  }

  lemma SequentialStep(db: DB, call: Call, at: Times, split: string -> seq<string>, k: Key)
    requires Valid(db, split) && FreshIds(db, call)
    ensures var db' := Apply(db, Decide(Now(db), call), call, split);
            HistoryOf(db', k) == Recorded(HistoryOf(db, k), Ingest(call, at), db.sources.Keys, k)
  {
    NowIsBehind(db, split);
    IngestStep(Now(db), db, call, split);
    SequentialOutcome(db, call, split);
    EffectIsRecorded(db, Apply(db, Decide(Now(db), call), call, split), Decide(Now(db), call), call, at, k);
  }

  lemma EffectIsRecorded(db: DB, db': DB, o: Outcome, call: Call, at: Times, k: Key)
    requires Effect(db, db', o, call)
    requires if call.key.source !in db.sources then o.NoSource?
             else if InForce(db, call.key, call.checksum)
             then o.Resumed? && call.checksum in HistoryOf(db, call.key).versions
             else o.Changed?
    ensures HistoryOf(db', k) == Recorded(HistoryOf(db, k), Ingest(call, at), db.sources.Keys, k)
  {
    var h := HistoryOf(db, k);
    if o.Resumed? && call.key == k {
      assert h.versions + {call.checksum} == h.versions;
      assert Ingested(h, call.checksum) == h;
    }
  }

  /** Ingesting one call at a time refines the history: after any steps the versions of a locator are the
    * checksums ingested so far, and the one in force is the last, also after going back to an old content. */
  lemma {:induction false} SequentialRunsAreHistories(states: seq<DB>, steps: seq<Step>, split: string -> seq<string>,
                                                      n: nat, k: Key)
    requires IsRun(states, steps, split) && Sequential(steps) && n <= |steps|
    ensures HistoryOf(states[n], k) == Replay(steps, n, k) && states[n].sources.Keys == KnownSources(steps, n)
  {
    if n != 0 {
      SequentialRunsAreHistories(states, steps, split, n - 1, k);
      SequentialTaken(states, steps, split, n - 1, k);
    }
  }

  lemma SequentialTaken(states: seq<DB>, steps: seq<Step>, split: string -> seq<string>, n: nat, k: Key)
    requires IsRun(states, steps, split) && Sequential(steps) && n < |steps|
    ensures HistoryOf(states[n + 1], k) == Recorded(HistoryOf(states[n], k), steps[n], states[n].sources.Keys, k)
    ensures states[n + 1].sources.Keys == states[n].sources.Keys + if steps[n].SetSource? then {steps[n].id} else {}
  {
    EveryStateIsValid(states, steps, split, n);
    assert Taken(states, steps, n, split);
    SequentialNext(states, n, steps[n], split, k);
  }

  lemma SequentialNext(states: seq<DB>, n: nat, st: Step, split: string -> seq<string>, k: Key)
    requires n < |states| && Valid(states[n], split) && CanTake(states, n, st)
    requires st.Ingest? ==> st.at == Times(n, n, n, n, n, n)
    ensures var db' := Next(states, n, st, split);
            && HistoryOf(db', k) == Recorded(HistoryOf(states[n], k), st, states[n].sources.Keys, k)
            && db'.sources.Keys == states[n].sources.Keys + if st.SetSource? then {st.id} else {}
  {
    match st
    case Ingest(call, at) => SequentialStep(states[n], call, at, split, k);
    case DeleteDocument(j) => DeleteHistory(states[n], j, k);
    case SetSource(id, source) => SourceHistory(states[n], id, source, k);
  }
}
