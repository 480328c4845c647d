/** Document versions: what one ingestion of a file reads, decides and writes.
  *
  * The reads before the write are separate statements, so each may see a different committed state; the
  * write is one transaction. SHA-256 is taken to be injective, so a checksum stands for the file's bytes.
  */
module Ingestion {
  import opened Wrappers

  type Id = int
  type Checksum = int

  datatype Key = Key(source: Id, locator: string)

  datatype Source = Source(active: bool, tenant: string)

  datatype Doc = Doc(id: Id, title: string, mediaType: string, current: Option<Id>)

  datatype Version = Version(id: Id, content: string, isCurrent: bool)

  /** Only checkpoints of persisted versions are ever written. */
  datatype Checkpoint = Checkpoint(document: Id, version: Id)

  datatype ChunkRow = ChunkRow(document: Id, version: Id, ordinal: nat, text: string)

  datatype ParsedEvent = ParsedEvent(document: Id, version: Id, source: Id, tenant: string)

  /** Versions are keyed by the unique constraint on document and checksum. */
  datatype DB = DB(
    sources: map<Id, Source>, docs: map<Key, Doc>, versions: map<(Id, Checksum), Version>,
    checkpoints: map<(Key, Checksum), Checkpoint>, chunks: seq<ChunkRow>, events: seq<ParsedEvent>)

  datatype Parsed = Parsed(title: string, body: string)

  /** One call: the file's checksum, what the parser makes of its bytes (nothing when it raises), and the
    * new identifiers it would use. */
  datatype Call = Call(key: Key, checksum: Checksum, mediaType: string, parsed: Option<Parsed>, document: Id, version: Id)

  // ----------------------------------------------------------------------- reading

  ghost predicate IsRow(db: DB, document: Id, k: Key) {
    k in db.docs && db.docs[k].id == document
  }

  ghost function RowOf(db: DB, document: Id): Option<Key> {
    if k :| IsRow(db, document, k) then Some(k) else None
  }

  ghost predicate HasId(db: DB, document: Id, version: Id, c: Checksum) {
    (document, c) in db.versions && db.versions[(document, c)].id == version
  }

  /** The checksum of a version, looked up by its identifier. */
  ghost function ChecksumOf(db: DB, document: Id, version: Id): Option<Checksum> {
    if c :| HasId(db, document, version, c) then Some(c) else None
  }

  ghost predicate IsMarked(db: DB, document: Id, c: Checksum) {
    (document, c) in db.versions && db.versions[(document, c)].isCurrent
  }

  ghost function MarkedVersion(db: DB, document: Id): Option<Checksum> {
    if c :| IsMarked(db, document, c) then Some(c) else None
  }

  /** The checksum that reading a document gives: its row is read first, then a version. */
  ghost function GetDocument(row: DB, version: DB, document: Id): Option<Checksum> {
    match RowOf(row, document)
    case None => None
    case Some(k) =>
      match row.docs[k].current
      case Some(v) => ChecksumOf(version, document, v)
      case None => MarkedVersion(version, document)
  }

  function FindActive(db: DB, k: Key): Option<(Id, Id)> {
    if k in db.docs && k.source in db.sources && db.sources[k.source].active && db.docs[k].current.Some? then
      Some((db.docs[k].id, db.docs[k].current.value))
    else None
  }

  // ---------------------------------------------------------------------- deciding

  /** The states that the reads of one call see, in the order of the calls. */
  datatype Reads = Reads(source: DB, checkpoint: DB, row: DB, version: DB, active: DB, activeVersion: DB)

  datatype Outcome =
    | NoSource
    | Resumed(document: Id)
    | Repeated(document: Id, version: Id)
    | Changed(document: Id)

  ghost predicate Resumes(r: Reads, call: Call) {
    var at := (call.key, call.checksum);
    && at in r.checkpoint.checkpoints
    && GetDocument(r.row, r.version, r.checkpoint.checkpoints[at].document) == Some(call.checksum)
  }

  ghost function Decide(r: Reads, call: Call): Outcome {
    if call.key.source !in r.source.sources then NoSource
    else if Resumes(r, call) then Resumed(r.checkpoint.checkpoints[(call.key, call.checksum)].document)
    else
      match FindActive(r.active, call.key)
      case None => Changed(call.document)
      case Some(found) =>
        if ChecksumOf(r.activeVersion, found.0, found.1) == Some(call.checksum) then Repeated(found.0, found.1)
        else Changed(found.0)
  }

  // ----------------------------------------------------------------------- writing

  function Unmarked(versions: map<(Id, Checksum), Version>, document: Id): map<(Id, Checksum), Version> {
    map k | k in versions :: if k.0 == document then versions[k].(isCurrent := false) else versions[k]
  }

  /** The document row decides the identifier: a locator keeps the one it has. */
  function DocumentId(db: DB, k: Key, document: Id): Id {
    if k in db.docs then db.docs[k].id else document
  }

  /** A version is found again by its checksum; only an unknown checksum adds one. */
  function UpsertDocument(db: DB, call: Call, document: Id, p: Parsed): DB {
    var d := DocumentId(db, call.key, document);
    var at, versions := (d, call.checksum), Unmarked(db.versions, d);
    var v := if at in versions then versions[at].(isCurrent := true) else Version(call.version, p.body, true);
    db.(docs := db.docs[call.key := Doc(d, p.title, call.mediaType, Some(v.id))], versions := versions[at := v])
  }

  function UpsertCheckpoint(db: DB, call: Call, document: Id, version: Id): DB {
    db.(checkpoints := db.checkpoints[(call.key, call.checksum) := Checkpoint(document, version)])
  }

  function ChunkRows(document: Id, version: Id, texts: seq<string>, n: nat): (rows: seq<ChunkRow>)
    requires n <= |texts|
    ensures |rows| == n
  {
    if n == 0 then []
    else ChunkRows(document, version, texts, n - 1) + [ChunkRow(document, version, n - 1, texts[n - 1])]
  }

  function IsNew(db: DB, call: Call, document: Id): bool {
    (DocumentId(db, call.key, document), call.checksum) !in db.versions
  }

  /** The transaction of a call that found changed content; `split` is the chunker. */
  function Write(db: DB, call: Call, document: Id, p: Parsed, split: string -> seq<string>): DB
    requires call.key.source in db.sources
  {
    var d := DocumentId(db, call.key, document);
    var upserted := UpsertDocument(db, call, document, p);
    var v := upserted.versions[(d, call.checksum)].id;
    var noted := UpsertCheckpoint(upserted, call, d, v);
    if !IsNew(db, call, document) then noted
    else
      noted.(chunks := db.chunks + ChunkRows(d, v, split(p.body), |split(p.body)|),
             events := db.events + [ParsedEvent(d, v, call.key.source, db.sources[call.key.source].tenant)])
  }

  /** The state after the call; a parser error rolls the transaction back. */
  function Apply(db: DB, o: Outcome, call: Call, split: string -> seq<string>): DB {
    match o
    case Repeated(d, v) => UpsertCheckpoint(db, call, d, v)
    case Changed(d) =>
      if call.parsed.Some? && call.key.source in db.sources then Write(db, call, d, call.parsed.value, split) else db
    case _ => db
  }

  function Delete(db: DB, k: Key): DB
    requires k in db.docs
  {
    db.(docs := db.docs[k := db.docs[k].(current := None)], versions := Unmarked(db.versions, db.docs[k].id))
  }

  // --------------------------------------------------------------------- invariants

  ghost predicate DocIds(db: DB) {
    && (forall j, k :: j in db.docs && k in db.docs && db.docs[j].id == db.docs[k].id ==> j == k)
    && (forall at :: at in db.versions ==> RowOf(db, at.0).Some?)
    && (forall k :: k in db.docs ==> k.source in db.sources)
  }

  ghost predicate VersionIds(db: DB) {
    forall a, b :: a in db.versions && b in db.versions && db.versions[a].id == db.versions[b].id ==> a == b
  }

  /** `current` names the only version of the document that is marked current. */
  ghost predicate CurrentIsMarked(db: DB) {
    && (forall k, at :: k in db.docs && at in db.versions && at.0 == db.docs[k].id ==>
          (db.versions[at].isCurrent <==> db.docs[k].current == Some(db.versions[at].id)))
    && (forall k :: k in db.docs && db.docs[k].current.Some? ==> NamesVersion(db, k))
  }

  ghost predicate NamesVersion(db: DB, k: Key)
    requires k in db.docs && db.docs[k].current.Some?
  {
    exists c :: HasId(db, db.docs[k].id, db.docs[k].current.value, c)
  }

  /** A checkpoint names the document of its locator and the version of its checksum. */
  ghost predicate CheckpointsAreRight(db: DB) {
    forall at :: at in db.checkpoints ==>
      at.0 in db.docs && db.checkpoints[at].document == db.docs[at.0].id
      && HasId(db, db.docs[at.0].id, db.checkpoints[at].version, at.1)
  }

  /** There is a checkpoint for each version of each locator. */
  ghost predicate CheckpointsCover(db: DB) {
    forall k, c :: k in db.docs && (db.docs[k].id, c) in db.versions ==> (k, c) in db.checkpoints
  }

  /** The texts of the chunk rows of a version. */
  function TextsOf(rows: seq<ChunkRow>, n: nat, version: Id): seq<string>
    requires n <= |rows|
  {
    if n == 0 then []
    else TextsOf(rows, n - 1, version) + if rows[n - 1].version == version then [rows[n - 1].text] else []
  }

  function EventsOf(events: seq<ParsedEvent>, n: nat, version: Id): seq<ParsedEvent>
    requires n <= |events|
  {
    if n == 0 then []
    else EventsOf(events, n - 1, version) + if events[n - 1].version == version then [events[n - 1]] else []
  }

  ghost predicate HasVersion(db: DB, version: Id) {
    exists at :: at in db.versions && db.versions[at].id == version
  }

  /** Every version has its chunks once, and one event. */
  ghost predicate WrittenOnce(db: DB, split: string -> seq<string>) {
    && (forall at :: at in db.versions ==>
          && TextsOf(db.chunks, |db.chunks|, db.versions[at].id) == split(db.versions[at].content)
          && |EventsOf(db.events, |db.events|, db.versions[at].id)| == 1)
    && (forall r :: r in db.chunks ==> HasVersion(db, r.version))
    && (forall e :: e in db.events ==> HasVersion(db, e.version))
  }

  ghost predicate Sane(db: DB) {
    DocIds(db) && VersionIds(db) && CurrentIsMarked(db) && CheckpointsAreRight(db)
  }

  ghost predicate Valid(db: DB, split: string -> seq<string>) {
    Sane(db) && CheckpointsCover(db) && WrittenOnce(db, split)
  }

  /** Identifiers drawn by a call are new: documents and versions never share one with another call. */
  ghost predicate FreshIds(db: DB, call: Call) {
    RowOf(db, call.document) == None && !HasVersion(db, call.version)
  }

  // ------------------------------------------------------------------------ lookups

  lemma RowIsUnique(db: DB, k: Key)
    requires DocIds(db) && k in db.docs
    ensures RowOf(db, db.docs[k].id) == Some(k)
  {
    assert IsRow(db, db.docs[k].id, k);
  }

  lemma IdNamesOne(db: DB, d: Id, v: Id, c: Checksum)
    requires VersionIds(db)
    ensures ChecksumOf(db, d, v) == Some(c) <==> HasId(db, d, v, c)
  {
    if HasId(db, d, v, c) {
      var e := ChecksumOf(db, d, v).value;
      assert HasId(db, d, v, e);
      assert (d, c) == (d, e);
    }
  }

  lemma MarkedIsCurrent(db: DB, k: Key, c: Checksum)
    requires DocIds(db) && VersionIds(db) && CurrentIsMarked(db) && k in db.docs
    ensures MarkedVersion(db, db.docs[k].id) == Some(c)
       <==> db.docs[k].current.Some? && HasId(db, db.docs[k].id, db.docs[k].current.value, c)
  {
    var d := db.docs[k].id;
    if e :| IsMarked(db, d, e) {
      var m := MarkedVersion(db, d).value;
      assert IsMarked(db, d, m);
      assert db.docs[k].current == Some(db.versions[(d, m)].id);
      if HasId(db, d, db.docs[k].current.value, c) {
        assert (d, c) == (d, m);
      }
    } else if db.docs[k].current.Some? && HasId(db, d, db.docs[k].current.value, c) {
      assert IsMarked(db, d, c);
    }
  }

  // ------------------------------------------------------------------------ history

  /** What a locator's past amounts to: the checksums ever stored, and the one in force. */
  datatype History = History(versions: set<Checksum>, current: Option<Checksum>)

  ghost function HistoryOf(db: DB, k: Key): History {
    if k !in db.docs then History({}, None)
    else
      History(set at | at in db.versions && at.0 == db.docs[k].id :: at.1,
              if db.docs[k].current.None? then None else ChecksumOf(db, db.docs[k].id, db.docs[k].current.value))
  }

  function Ingested(h: History, c: Checksum): History {
    History(h.versions + {c}, Some(c))
  }

  function Deleted(h: History): History {
    h.(current := None)
  }

  // ------------------------------------------------------------- writing keeps all this

  /** How the upsert of checksum `c` changes the tables: document `d` of locator `k` gets version `c`. */
  ghost predicate Upserted(db: DB, db': DB, k: Key, d: Id, c: Checksum) {
    && db'.docs.Keys == db.docs.Keys + {k} && db'.versions.Keys == db.versions.Keys + {(d, c)}
    && (k in db.docs ==> db.docs[k].id == d)
    && db'.docs[k].id == d && db'.docs[k].current == Some(db'.versions[(d, c)].id) && db'.versions[(d, c)].isCurrent
    && (forall j :: j in db.docs && j != k ==> db'.docs[j] == db.docs[j])
    && (forall at :: at in db.versions ==>
          && db'.versions[at].id == db.versions[at].id && db'.versions[at].content == db.versions[at].content
          && db'.versions[at].isCurrent == (at == (d, c) || (at.0 != d && db.versions[at].isCurrent)))
    && db'.sources == db.sources
  }

  lemma UpsertShape(db: DB, call: Call, document: Id, p: Parsed)
    ensures var (d, c, db') := (DocumentId(db, call.key, document), call.checksum, UpsertDocument(db, call, document, p));
            && Upserted(db, db', call.key, d, c)
            && ((d, c) !in db.versions ==> db'.versions[(d, c)] == Version(call.version, p.body, true))
            && db'.chunks == db.chunks && db'.events == db.events && db'.checkpoints == db.checkpoints
  {
  }

  /** The document identifier belongs to this locator, or to none. */
  ghost predicate OwnId(db: DB, k: Key, d: Id) {
    if k in db.docs then db.docs[k].id == d else RowOf(db, d) == None
  }

  lemma OthersDiffer(db: DB, k: Key, d: Id, j: Key)
    requires DocIds(db) && OwnId(db, k, d) && j in db.docs && j != k
    ensures db.docs[j].id != d
  {
    assert IsRow(db, db.docs[j].id, j);
  }

  lemma UpsertKeepsDocIds(db: DB, db': DB, k: Key, d: Id, c: Checksum)
    requires DocIds(db) && k.source in db.sources && OwnId(db, k, d) && Upserted(db, db', k, d, c)
    ensures DocIds(db')
  {
    forall j | j in db.docs && j != k ensures db'.docs[j].id != d {
      OthersDiffer(db, k, d, j);
    }
    forall at | at in db'.versions ensures RowOf(db', at.0).Some? {
      if at in db.versions {
        var j := RowOf(db, at.0).value;
        assert IsRow(db, at.0, j) && IsRow(db', at.0, j);
      } else {
        assert IsRow(db', at.0, k);
      }
    }
  }

  lemma UpsertKeepsVersionIds(db: DB, db': DB, k: Key, d: Id, c: Checksum, v: Id)
    requires VersionIds(db) && !HasVersion(db, v) && Upserted(db, db', k, d, c)
    requires (d, c) !in db.versions ==> db'.versions[(d, c)].id == v
    ensures VersionIds(db')
  {
  }

  lemma UpsertKeepsCurrent(db: DB, db': DB, k: Key, d: Id, c: Checksum)
    requires DocIds(db) && VersionIds(db') && CurrentIsMarked(db) && OwnId(db, k, d) && Upserted(db, db', k, d, c)
    ensures CurrentIsMarked(db')
  {
    forall j, at | j in db'.docs && at in db'.versions && at.0 == db'.docs[j].id
      ensures db'.versions[at].isCurrent <==> db'.docs[j].current == Some(db'.versions[at].id)
    {
      if j != k {
        OthersDiffer(db, k, d, j);
      }
    }
    forall j | j in db'.docs && db'.docs[j].current.Some? ensures NamesVersion(db', j) {
      UpsertKeepsNames(db, db', k, d, c, j);
    }
  }

  lemma UpsertKeepsNames(db: DB, db': DB, k: Key, d: Id, c: Checksum, j: Key)
    requires CurrentIsMarked(db) && Upserted(db, db', k, d, c) && j in db'.docs && db'.docs[j].current.Some?
    ensures NamesVersion(db', j)
  {
    if j == k {
      assert HasId(db', d, db'.docs[k].current.value, c);
    } else {
      assert NamesVersion(db, j);
      var e :| HasId(db, db.docs[j].id, db.docs[j].current.value, e);
      assert HasId(db', db'.docs[j].id, db'.docs[j].current.value, e);
    }
  }

  lemma UpsertKeepsCheckpoints(db: DB, db': DB, k: Key, d: Id, c: Checksum)
    requires DocIds(db) && CheckpointsAreRight(db) && OwnId(db, k, d) && Upserted(db, db', k, d, c)
    requires db'.checkpoints == db.checkpoints[(k, c) := Checkpoint(d, db'.versions[(d, c)].id)]
    ensures CheckpointsAreRight(db')
  {
    forall at | at in db'.checkpoints
      ensures at.0 in db'.docs && db'.checkpoints[at].document == db'.docs[at.0].id
      ensures HasId(db', db'.docs[at.0].id, db'.checkpoints[at].version, at.1)
    {
      if at != (k, c) {
        assert HasId(db, db.docs[at.0].id, db.checkpoints[at].version, at.1);
      }
    }
  }

  lemma UpsertKeepsCover(db: DB, db': DB, k: Key, d: Id, c: Checksum)
    requires DocIds(db) && CheckpointsCover(db) && OwnId(db, k, d) && Upserted(db, db', k, d, c)
    requires db'.checkpoints == db.checkpoints[(k, c) := Checkpoint(d, db'.versions[(d, c)].id)]
    ensures CheckpointsCover(db')
  {
    forall j, e | j in db'.docs && (db'.docs[j].id, e) in db'.versions ensures (j, e) in db'.checkpoints {
      if j != k {
        OthersDiffer(db, k, d, j);
      } else if e != c {
        assert (d, e) in db.versions && RowOf(db, (d, e).0).Some?;
      }
    }
  }

  // ------------------------------------------------------------------- written once

  lemma {:induction false} TextsAppend(rows: seq<ChunkRow>, more: seq<ChunkRow>, n: nat, v: Id)
    requires n <= |more|
    ensures TextsOf(rows + more, |rows| + n, v) == TextsOf(rows, |rows|, v) + TextsOf(more, n, v)
  {
    if n == 0 {
      TextsPrefix(rows, rows + more, |rows|, v);
    } else {
      TextsAppend(rows, more, n - 1, v);
    }
  }

  lemma {:induction false} TextsPrefix(rows: seq<ChunkRow>, longer: seq<ChunkRow>, n: nat, v: Id)
    requires n <= |rows| && rows <= longer
    ensures TextsOf(rows, n, v) == TextsOf(longer, n, v)
  {
    if n != 0 {
      TextsPrefix(rows, longer, n - 1, v);
    }
  }

  lemma {:induction false} TextsNone(rows: seq<ChunkRow>, n: nat, v: Id)
    requires n <= |rows| && forall r :: r in rows ==> r.version != v
    ensures TextsOf(rows, n, v) == []
  {
    if n != 0 {
      assert rows[n - 1] in rows;
      TextsNone(rows, n - 1, v);
    }
  }

  lemma {:induction false} TextsWritten(d: Id, v: Id, texts: seq<string>, n: nat)
    requires n <= |texts|
    ensures TextsOf(ChunkRows(d, v, texts, n), n, v) == texts[..n]
    ensures forall r :: r in ChunkRows(d, v, texts, n) ==> r.version == v
  {
    if n != 0 {
      TextsWritten(d, v, texts, n - 1);
      TextsPrefix(ChunkRows(d, v, texts, n - 1), ChunkRows(d, v, texts, n), n - 1, v);
    }
  }

  lemma {:induction false} EventsNone(events: seq<ParsedEvent>, n: nat, v: Id)
    requires n <= |events| && forall e :: e in events ==> e.version != v
    ensures EventsOf(events, n, v) == []
  {
    if n != 0 {
      assert events[n - 1] in events;
      EventsNone(events, n - 1, v);
    }
  }

  lemma {:induction false} EventsPrefix(events: seq<ParsedEvent>, longer: seq<ParsedEvent>, n: nat, v: Id)
    requires n <= |events| && events <= longer
    ensures EventsOf(events, n, v) == EventsOf(longer, n, v)
  {
    if n != 0 {
      EventsPrefix(events, longer, n - 1, v);
    }
  }

  lemma EventsSnoc(events: seq<ParsedEvent>, e: ParsedEvent, v: Id)
    ensures EventsOf(events + [e], |events| + 1, v)
         == EventsOf(events, |events|, v) + if e.version == v then [e] else []
  {
    EventsPrefix(events, events + [e], |events|, v);
  }

  lemma HasVersionGrows(db: DB, db': DB, v: Id)
    requires HasVersion(db, v)
    requires forall at :: at in db.versions ==> at in db'.versions && db'.versions[at].id == db.versions[at].id
    ensures HasVersion(db', v)
  {
    var at :| at in db.versions && db.versions[at].id == v;
    assert at in db'.versions;
  }

  lemma WriteIsOnce(db: DB, call: Call, document: Id, p: Parsed, split: string -> seq<string>)
    requires WrittenOnce(db, split) && !HasVersion(db, call.version) && call.key.source in db.sources
    ensures WrittenOnce(Write(db, call, document, p, split), split)
  {
    var db' := Write(db, call, document, p, split);
    var at' := (DocumentId(db, call.key, document), call.checksum);
    UpsertShape(db, call, document, p);
    forall v | HasVersion(db, v) ensures HasVersion(db', v) {
      HasVersionGrows(db, db', v);
    }
    if IsNew(db, call, document) {
      OneMoreVersion(db, db', at', split);
    }
  }

  lemma OneMoreVersion(db: DB, db': DB, new_: (Id, Checksum), split: string -> seq<string>)
    requires WrittenOnce(db, split) && new_ !in db.versions && db'.versions.Keys == db.versions.Keys + {new_}
    requires !HasVersion(db, db'.versions[new_].id) && forall v :: HasVersion(db, v) ==> HasVersion(db', v)
    requires forall at :: at in db.versions ==>
               db'.versions[at].id == db.versions[at].id && db'.versions[at].content == db.versions[at].content
    requires var (d, v, texts) := (new_.0, db'.versions[new_].id, split(db'.versions[new_].content));
             && db'.chunks == db.chunks + ChunkRows(d, v, texts, |texts|)
             && exists e :: db'.events == db.events + [e] && e.version == v
    ensures WrittenOnce(db', split)
  {
    var (v, texts) := (db'.versions[new_].id, split(db'.versions[new_].content));
    var rows := ChunkRows(new_.0, v, texts, |texts|);
    var e :| db'.events == db.events + [e] && e.version == v;
    TextsWritten(new_.0, v, texts, |texts|);
    assert HasVersion(db', v);
    forall at | at in db'.versions
      ensures TextsOf(db'.chunks, |db'.chunks|, db'.versions[at].id) == split(db'.versions[at].content)
      ensures |EventsOf(db'.events, |db'.events|, db'.versions[at].id)| == 1
    {
      if at == new_ {
        NewTexts(db.chunks, new_.0, v, texts);
        NewEvent(db.events, e);
      } else {
        assert HasVersion(db, db'.versions[at].id);
        OldTexts(db.chunks, rows, db'.versions[at].id);
        EventsSnoc(db.events, e, db'.versions[at].id);
      }
    }
  }

  lemma NewTexts(rows: seq<ChunkRow>, d: Id, v: Id, texts: seq<string>)
    requires forall r :: r in rows ==> r.version != v
    ensures var all := rows + ChunkRows(d, v, texts, |texts|); TextsOf(all, |all|, v) == texts
  {
    TextsNone(rows, |rows|, v);
    TextsWritten(d, v, texts, |texts|);
    TextsAppend(rows, ChunkRows(d, v, texts, |texts|), |texts|, v);
    assert texts[..|texts|] == texts;
  }

  lemma OldTexts(rows: seq<ChunkRow>, more: seq<ChunkRow>, v: Id)
    requires forall r :: r in more ==> r.version != v
    ensures TextsOf(rows + more, |rows + more|, v) == TextsOf(rows, |rows|, v)
  {
    TextsNone(more, |more|, v);
    TextsAppend(rows, more, |more|, v);
  }

  lemma NewEvent(events: seq<ParsedEvent>, e: ParsedEvent)
    requires forall f :: f in events ==> f.version != e.version
    ensures EventsOf(events + [e], |events + [e]|, e.version) == [e]
  {
    EventsNone(events, |events|, e.version);
    EventsSnoc(events, e, e.version);
  }

  lemma WriteKeepsValid(db: DB, call: Call, document: Id, p: Parsed, split: string -> seq<string>)
    requires Valid(db, split) && call.key.source in db.sources && !HasVersion(db, call.version)
    requires OwnId(db, call.key, DocumentId(db, call.key, document))
    ensures Valid(Write(db, call, document, p, split), split)
  {
    var (k, d, c) := (call.key, DocumentId(db, call.key, document), call.checksum);
    var (up, db') := (UpsertDocument(db, call, document, p), Write(db, call, document, p, split));
    UpsertShape(db, call, document, p);
    assert Upserted(db, db', k, d, c);
    UpsertKeepsDocIds(db, db', k, d, c);
    UpsertKeepsVersionIds(db, db', k, d, c, call.version);
    UpsertKeepsCurrent(db, db', k, d, c);
    UpsertKeepsCheckpoints(db, db', k, d, c);
    UpsertKeepsCover(db, db', k, d, c);
    WriteIsOnce(db, call, document, p, split);
  }

  // --------------------------------------------------------- the history of a locator

  /** An upsert appends its checksum to the history of its own locator and makes it current. */
  lemma UpsertHistory(db: DB, db': DB, k: Key, d: Id, c: Checksum, j: Key)
    requires DocIds(db) && OwnId(db, k, d) && Upserted(db, db', k, d, c) && VersionIds(db) && VersionIds(db')
    ensures HistoryOf(db', j) == if j == k then Ingested(HistoryOf(db, k), c) else HistoryOf(db, j)
  {
    if j == k {
      IdNamesOne(db', d, db'.versions[(d, c)].id, c);
      var old_ := HistoryOf(db, k).versions;
      forall e ensures e in HistoryOf(db', k).versions <==> e in old_ || e == c {
        assert e in HistoryOf(db', k).versions <==> (d, e) in db'.versions;
        if (d, e) in db.versions {
          assert RowOf(db, (d, e).0).Some?;
        }
        assert e in old_ <==> (d, e) in db.versions;
      }
    } else if j in db.docs {
      OthersDiffer(db, k, d, j);
      OtherHistory(db, db', j);
    }
  }

  /** A locator whose rows stay has the history it had. */
  lemma OtherHistory(db: DB, db': DB, j: Key)
    requires j in db.docs && j in db'.docs && db'.docs[j].id == db.docs[j].id && db'.docs[j].current == db.docs[j].current
    requires VersionIds(db) && VersionIds(db')
    requires forall c :: (db.docs[j].id, c) in db'.versions <==> (db.docs[j].id, c) in db.versions
    requires forall c :: (db.docs[j].id, c) in db.versions ==>
               db'.versions[(db.docs[j].id, c)].id == db.versions[(db.docs[j].id, c)].id
    ensures HistoryOf(db', j) == HistoryOf(db, j)
  {
    var d := db.docs[j].id;
    forall e ensures e in HistoryOf(db', j).versions <==> e in HistoryOf(db, j).versions {
      assert e in HistoryOf(db', j).versions <==> (d, e) in db'.versions;
      assert e in HistoryOf(db, j).versions <==> (d, e) in db.versions;
    }
    if db.docs[j].current.Some? {
      SameLookup(db, db', d, db.docs[j].current.value);
    }
  }

  lemma SameLookup(db: DB, db': DB, d: Id, v: Id)
    requires VersionIds(db) && VersionIds(db') && forall c :: HasId(db', d, v, c) <==> HasId(db, d, v, c)
    ensures ChecksumOf(db', d, v) == ChecksumOf(db, d, v)
  {
    if c :| HasId(db, d, v, c) {
      IdNamesOne(db, d, v, c);
      IdNamesOne(db', d, v, c);
    }
  }

  lemma WriteHistory(db: DB, call: Call, document: Id, p: Parsed, split: string -> seq<string>, j: Key)
    requires Valid(db, split) && call.key.source in db.sources && !HasVersion(db, call.version)
    requires OwnId(db, call.key, DocumentId(db, call.key, document))
    ensures HistoryOf(Write(db, call, document, p, split), j)
         == if j == call.key then Ingested(HistoryOf(db, j), call.checksum) else HistoryOf(db, j)
  {
    UpsertShape(db, call, document, p);
    WriteKeepsValid(db, call, document, p, split);
    UpsertHistory(db, Write(db, call, document, p, split), call.key, DocumentId(db, call.key, document), call.checksum, j);
  }

  /** A call is told that it made a new version exactly when the checksum was never stored for the locator. */
  lemma NewIffUnseen(db: DB, call: Call, document: Id)
    requires DocIds(db) && OwnId(db, call.key, DocumentId(db, call.key, document))
    ensures IsNew(db, call, document) <==> call.checksum !in HistoryOf(db, call.key).versions
  {
    var d := DocumentId(db, call.key, document);
    if call.key in db.docs {
      assert call.checksum in HistoryOf(db, call.key).versions <==> (d, call.checksum) in db.versions;
    } else {
      forall at | at in db.versions ensures at.0 != d {
        assert RowOf(db, at.0).Some?;
      }
    }
  }

  /** Going back to an earlier content brings its version back: no version, chunk or event is added. */
  lemma RevertReusesVersion(db: DB, call: Call, p: Parsed, split: string -> seq<string>)
    requires Valid(db, split) && call.key in db.docs && call.checksum in HistoryOf(db, call.key).versions
    ensures var (d, db') := (db.docs[call.key].id, Write(db, call, db.docs[call.key].id, p, split));
            && (d, call.checksum) in db.versions
            && db'.docs[call.key].current == Some(db.versions[(d, call.checksum)].id)
            && db'.versions.Keys == db.versions.Keys && db'.chunks == db.chunks && db'.events == db.events
  {
    NewIffUnseen(db, call, db.docs[call.key].id);
  }

  /** The same rows, except for which versions are current. */
  ghost predicate SameRows(a: DB, b: DB) {
    && a.docs.Keys == b.docs.Keys && (forall k :: k in a.docs ==> b.docs[k].id == a.docs[k].id)
    && a.versions.Keys == b.versions.Keys
    && (forall at :: at in a.versions ==>
          b.versions[at].id == a.versions[at].id && b.versions[at].content == a.versions[at].content)
    && a.sources.Keys <= b.sources.Keys
    && a.checkpoints == b.checkpoints && a.chunks == b.chunks && a.events == b.events
  }

  lemma SameRowsKeepIds(a: DB, b: DB)
    requires SameRows(a, b)
    ensures DocIds(a) ==> DocIds(b)
    ensures VersionIds(a) ==> VersionIds(b)
    ensures CheckpointsAreRight(a) ==> CheckpointsAreRight(b)
    ensures CheckpointsCover(a) ==> CheckpointsCover(b)
  {
    forall d ensures RowOf(a, d).Some? ==> RowOf(b, d).Some? {
      if RowOf(a, d).Some? {
        assert IsRow(b, d, RowOf(a, d).value);
      }
    }
    forall d, v, c ensures HasId(b, d, v, c) <==> HasId(a, d, v, c) {
    }
  }

  lemma SameRowsKeepContents(a: DB, b: DB, split: string -> seq<string>)
    requires SameRows(a, b) && WrittenOnce(a, split)
    ensures WrittenOnce(b, split)
  {
    forall v | HasVersion(a, v) ensures HasVersion(b, v) {
      HasVersionGrows(a, b, v);
    }
  }

  lemma SameTablesKeepCurrent(a: DB, b: DB)
    requires a.docs == b.docs && a.versions == b.versions && CurrentIsMarked(a)
    ensures CurrentIsMarked(b)
  {
    forall j | j in b.docs && b.docs[j].current.Some? ensures NamesVersion(b, j) {
      assert NamesVersion(a, j);
      var c :| HasId(a, a.docs[j].id, a.docs[j].current.value, c);
      assert HasId(b, b.docs[j].id, b.docs[j].current.value, c);
    }
  }

  lemma DeleteKeepsValid(db: DB, k: Key, split: string -> seq<string>)
    requires Valid(db, split) && k in db.docs
    ensures Valid(Delete(db, k), split)
  {
    var db' := Delete(db, k);
    assert SameRows(db, db');
    SameRowsKeepIds(db, db');
    SameRowsKeepContents(db, db', split);
    DeleteKeepsCurrent(db, k);
  }

  lemma DeleteKeepsCurrent(db: DB, k: Key)
    requires DocIds(db) && CurrentIsMarked(db) && k in db.docs
    ensures CurrentIsMarked(Delete(db, k))
  {
    var db' := Delete(db, k);
    forall j | j in db'.docs && db'.docs[j].current.Some? ensures NamesVersion(db', j) {
      assert NamesVersion(db, j);
      var c :| HasId(db, db.docs[j].id, db.docs[j].current.value, c);
      assert HasId(db', db'.docs[j].id, db'.docs[j].current.value, c);
    }
  }

  lemma DeleteHistory(db: DB, k: Key, j: Key)
    requires DocIds(db) && VersionIds(db) && k in db.docs
    ensures HistoryOf(Delete(db, k), j) == if j == k then Deleted(HistoryOf(db, k)) else HistoryOf(db, j)
  {
    var db' := Delete(db, k);
    assert SameRows(db, db');
    SameRowsKeepIds(db, db');
    if j == k {
      var d := db.docs[k].id;
      forall e ensures e in HistoryOf(db', k).versions <==> e in HistoryOf(db, k).versions {
        assert e in HistoryOf(db', k).versions <==> (d, e) in db'.versions;
        assert e in HistoryOf(db, k).versions <==> (d, e) in db.versions;
      }
    } else if j in db.docs {
      OtherHistory(db, db', j);
    }
  }

  // -------------------------------------------------------------------- stale reads

  /** What never changes once committed: identifiers, contents and checkpoints. */
  ghost predicate Extends(a: DB, b: DB) {
    && a.sources.Keys <= b.sources.Keys
    && (forall k :: k in a.docs ==> k in b.docs && b.docs[k].id == a.docs[k].id)
    && (forall at :: at in a.versions ==>
          at in b.versions && b.versions[at].id == a.versions[at].id && b.versions[at].content == a.versions[at].content)
    && (forall at :: at in a.checkpoints ==> at in b.checkpoints && b.checkpoints[at] == a.checkpoints[at])
  }

  lemma HasIdStays(a: DB, b: DB, d: Id, v: Id, c: Checksum)
    requires Extends(a, b) && HasId(a, d, v, c)
    ensures HasId(b, d, v, c)
  {
  }

  lemma CurrentChecksum(db: DB, k: Key)
    requires VersionIds(db) && CurrentIsMarked(db) && k in db.docs && db.docs[k].current.Some?
    ensures HistoryOf(db, k).current.Some?
    ensures HasId(db, db.docs[k].id, db.docs[k].current.value, HistoryOf(db, k).current.value)
  {
    assert NamesVersion(db, k);
    var c :| HasId(db, db.docs[k].id, db.docs[k].current.value, c);
    IdNamesOne(db, db.docs[k].id, db.docs[k].current.value, c);
  }

  /** A version read after the row still is the one that the row named. */
  lemma LookupLater(a: DB, b: DB, k: Key)
    requires Sane(a) && Sane(b) && Extends(a, b) && k in a.docs && a.docs[k].current.Some?
    ensures ChecksumOf(b, a.docs[k].id, a.docs[k].current.value) == HistoryOf(a, k).current
  {
    CurrentChecksum(a, k);
    IdNamesOne(b, a.docs[k].id, a.docs[k].current.value, HistoryOf(a, k).current.value);
  }

  /** Reading a document in two statements gives the checksum that was current at one of them. */
  lemma GetDocumentIsCurrent(row: DB, version: DB, k: Key, c: Checksum)
    requires Sane(row) && Sane(version) && Extends(row, version) && k in row.docs
    requires GetDocument(row, version, row.docs[k].id) == Some(c)
    ensures HistoryOf(row, k).current == Some(c) || HistoryOf(version, k).current == Some(c)
  {
    RowIsUnique(row, k);
    if row.docs[k].current.Some? {
      LookupLater(row, version, k);
    } else {
      MarkedIsCurrent(version, k, c);
      IdNamesOne(version, version.docs[k].id, version.docs[k].current.value, c);
    }
  }

  lemma ExtendsAcross(a: DB, b: DB, c: DB)
    requires Extends(a, b) && Extends(b, c)
    ensures Extends(a, c)
  {
  }

  /** However stale its reads, a call that resumes saw its content current at one of them. */
  lemma ResumedSawTheContent(r: Reads, call: Call)
    requires CheckpointsAreRight(r.checkpoint) && Sane(r.row) && Sane(r.version)
    requires Extends(r.checkpoint, r.row) && Extends(r.row, r.version) && Resumes(r, call)
    ensures HistoryOf(r.row, call.key).current == Some(call.checksum)
            || HistoryOf(r.version, call.key).current == Some(call.checksum)
  {
    GetDocumentIsCurrent(r.row, r.version, call.key, call.checksum);
  }

  /** So did a call that finds its content in force already. */
  lemma RepeatedSawTheContent(r: Reads, call: Call)
    requires Sane(r.active) && Sane(r.activeVersion) && Extends(r.active, r.activeVersion)
    requires Decide(r, call).Repeated?
    ensures HistoryOf(r.active, call.key).current == Some(call.checksum)
    ensures call.key in r.active.docs
    ensures HasId(r.activeVersion, r.active.docs[call.key].id, Decide(r, call).version, call.checksum)
    ensures Decide(r, call).document == r.active.docs[call.key].id
  {
    LookupLater(r.active, r.activeVersion, call.key);
    IdNamesOne(r.activeVersion, Decide(r, call).document, Decide(r, call).version, call.checksum);
  }

  /** So a call that repeats a content writes the checkpoint that is already there. */
  lemma RepeatedIsIdle(r: Reads, now: DB, call: Call)
    requires Sane(r.active) && Sane(r.activeVersion) && CheckpointsAreRight(now) && CheckpointsCover(now)
    requires Extends(r.active, r.activeVersion) && Extends(r.active, now) && Extends(r.activeVersion, now)
    requires Decide(r, call).Repeated?
    ensures UpsertCheckpoint(now, call, Decide(r, call).document, Decide(r, call).version) == now
  {
    RepeatedSawTheContent(r, call);
    RepeatedChangesNothing(r.activeVersion, now, call, Decide(r, call).document, Decide(r, call).version);
  }

  lemma RepeatedChangesNothing(before: DB, now: DB, call: Call, d: Id, v: Id)
    requires CheckpointsAreRight(now) && CheckpointsCover(now) && Extends(before, now)
    requires call.key in now.docs && now.docs[call.key].id == d && HasId(before, d, v, call.checksum)
    ensures UpsertCheckpoint(now, call, d, v) == now
  {
    HasIdStays(before, now, d, v, call.checksum);
    var at := (call.key, call.checksum);
    assert at in now.checkpoints && HasId(now, d, now.checkpoints[at].version, call.checksum);
    assert now.checkpoints[at := Checkpoint(d, v)] == now.checkpoints;
  }

  /** A write after stale reads goes to the locator's own document. */
  lemma ChangedOwnsDocument(r: Reads, now: DB, call: Call)
    requires Extends(r.active, now) && FreshIds(now, call) && Decide(r, call).Changed?
    ensures OwnId(now, call.key, DocumentId(now, call.key, Decide(r, call).document))
  {
  }

  lemma WriteExtends(db: DB, call: Call, document: Id, p: Parsed, split: string -> seq<string>)
    requires CheckpointsAreRight(db) && call.key.source in db.sources
    requires OwnId(db, call.key, DocumentId(db, call.key, document))
    ensures Extends(db, Write(db, call, document, p, split))
  {
    var (d, c, db') := (DocumentId(db, call.key, document), call.checksum, Write(db, call, document, p, split));
    UpsertShape(db, call, document, p);
    if (call.key, c) in db.checkpoints {
      assert HasId(db, d, db.checkpoints[(call.key, c)].version, c);
      assert db.checkpoints[(call.key, c)].document == d;
    }
  }

  lemma DeleteExtends(db: DB, k: Key)
    requires k in db.docs
    ensures Extends(db, Delete(db, k))
  {
  }

  function Now(db: DB): Reads {
    Reads(db, db, db, db, db, db)
  }

  /** Without interference a call resumes exactly when its content is in force, and the second check for
    * an unchanged content never fires: it is for calls that race with one another. */
  lemma FreshReadsDecide(db: DB, call: Call)
    requires Sane(db) && CheckpointsCover(db) && call.key.source in db.sources
    ensures Decide(Now(db), call).Resumed? <==> HistoryOf(db, call.key).current == Some(call.checksum)
    ensures !Decide(Now(db), call).Repeated?
  {
    var (k, c) := (call.key, call.checksum);
    if Resumes(Now(db), call) {
      ResumedSawTheContent(Now(db), call);
    }
    if Decide(Now(db), call).Repeated? {
      RepeatedSawTheContent(Now(db), call);
    }
    if HistoryOf(db, k).current == Some(c) {
      InForceResumes(db, call);
    }
  }

  lemma InForceResumes(db: DB, call: Call)
    requires Sane(db) && CheckpointsCover(db) && HistoryOf(db, call.key).current == Some(call.checksum)
    ensures Resumes(Now(db), call)
  {
    var k := call.key;
    CurrentChecksum(db, k);
    RowIsUnique(db, k);
    IdNamesOne(db, db.docs[k].id, db.docs[k].current.value, call.checksum);
    assert (k, call.checksum) in db.checkpoints;
  }
}
