/** The ingestion of one file, as one caller runs it, against the tables it reads and writes. */
module IngestionService {
  import opened Wrappers
  import opened Ingestion

  datatype IngestError = SourceNotFound | NotParsed

  datatype IngestionResult = IngestionResult(document: Id, version: Id, createdNewVersion: bool)

  /** The unique index on current versions. */
  ghost predicate OneMarked(db: DB) {
    forall d, c, e :: IsMarked(db, d, c) && IsMarked(db, d, e) ==> c == e
  }

  lemma ValidHasOneMarked(db: DB)
    requires DocIds(db) && VersionIds(db) && CurrentIsMarked(db)
    ensures OneMarked(db)
  {
    forall d, c, e | IsMarked(db, d, c) && IsMarked(db, d, e) ensures c == e {
      assert RowOf(db, (d, c).0).Some? && IsRow(db, d, RowOf(db, d).value);
      assert db.versions[(d, c)].id == db.versions[(d, e)].id;
    }
  }

  lemma NoVersions(db: DB, d: Id)
    requires DocIds(db) && RowOf(db, d) == None
    ensures forall at :: at in db.versions ==> at.0 != d
  {
    forall at | at in db.versions ensures at.0 != d {
      assert RowOf(db, at.0).Some?;
    }
  }

  class Tables {
    var sources: map<Id, Source>
    var docs: map<Key, Doc>
    var versions: map<(Id, Checksum), Version>
    var checkpoints: map<(Key, Checksum), Checkpoint>
    var chunks: seq<ChunkRow>
    var events: seq<ParsedEvent>

    ghost function View(): DB
      reads this
    {
      DB(sources, docs, versions, checkpoints, chunks, events)
    }

    method GetDocumentVersion(document: Id, version: Id) returns (c: Option<Checksum>)
      requires VersionIds(View())
      ensures c == ChecksumOf(View(), document, version)
    {
      c := None;
      if at :| at in versions && at.0 == document && versions[at].id == version {
        IdNamesOne(View(), document, version, at.1);
        c := Some(at.1);
      } else {
        assert forall e :: HasId(View(), document, version, e) ==> (document, e) in versions;
      }
    }

    /** The checksum of the current version; a row without one falls back to the version marked current. */
    method GetDocument(document: Id) returns (c: Option<Checksum>)
      requires DocIds(View()) && VersionIds(View()) && OneMarked(View())
      ensures c == Ingestion.GetDocument(View(), View(), document)
    {
      c := None;
      if k :| k in docs && docs[k].id == document {
        RowIsUnique(View(), k);
        if docs[k].current.Some? {
          c := GetDocumentVersion(document, docs[k].current.value);
        } else if at :| at in versions && at.0 == document && versions[at].isCurrent {
          assert IsMarked(View(), document, at.1);
          c := Some(at.1);
        } else {
          assert forall e :: IsMarked(View(), document, e) ==> (document, e) in versions;
        }
      } else {
        assert forall j :: IsRow(View(), document, j) ==> j in docs;
      }
    }

    method FindActive(k: Key) returns (r: Option<(Id, Id)>)
      ensures r == Ingestion.FindActive(View(), k)
    {
      if k !in docs || k.source !in sources || !sources[k.source].active || docs[k].current.None? {
        return None;
      }
      r := Some((docs[k].id, docs[k].current.value));
    }

    /** Inserts the document and its version, or makes the stored version with this checksum current. */
    method UpsertDocument(call: Call, document: Id, p: Parsed) returns (d: Id, v: Id, isNew: bool)
      requires !HasVersion(View(), call.version)
      modifies this`docs, this`versions
      ensures View() == Ingestion.UpsertDocument(old(View()), call, document, p)
      ensures d == DocumentId(old(View()), call.key, document)
      ensures (d, call.checksum) in versions && v == versions[(d, call.checksum)].id
      ensures isNew == IsNew(old(View()), call, document)
    {
      d := if call.key in docs then docs[call.key].id else document;
      ghost var before := versions;
      versions := map k | k in versions :: if k.0 == d then versions[k].(isCurrent := false) else versions[k];
      if (d, call.checksum) in versions {
        versions := versions[(d, call.checksum) := versions[(d, call.checksum)].(isCurrent := true)];
        assert (d, call.checksum) in before && before[(d, call.checksum)].id == versions[(d, call.checksum)].id;
      } else {
        versions := versions[(d, call.checksum) := Version(call.version, p.body, true)];
      }
      v := versions[(d, call.checksum)].id;
      docs := docs[call.key := Doc(d, p.title, call.mediaType, Some(v))];
      isNew := v == call.version;
    }

    method DeleteDocument(document: Id)
      requires DocIds(View())
      modifies this`docs, this`versions
      ensures View() == match RowOf(old(View()), document)
                        case Some(k) => Delete(old(View()), k)
                        case None => old(View())
    {
      ghost var before := View();
      if k :| k in docs && docs[k].id == document {
        RowIsUnique(before, k);
        docs := docs[k := docs[k].(current := None)];
      } else {
        assert forall j :: IsRow(before, document, j) ==> j in docs;
        NoVersions(before, document);
      }
      versions := map at | at in versions :: if at.0 == document then versions[at].(isCurrent := false) else versions[at];
      assert RowOf(before, document).None? ==> versions == before.versions;
    }

    method CreateChunk(r: ChunkRow)
      modifies this`chunks
      ensures chunks == old(chunks) + [r]
    {
      chunks := chunks + [r];
    }
  }

  class IngestionService {
    const tables: Tables
    const split: string -> seq<string>

    constructor (tables: Tables, split: string -> seq<string>)
      ensures this.tables == tables && this.split == split
    {
      this.tables, this.split := tables, split;
    }

    /** Writes the chunks of a new version and its event. */
    method StoreParsed(call: Call, d: Id, v: Id, body: string)
      requires call.key.source in tables.sources
      modifies tables`chunks, tables`events
      ensures tables.chunks == old(tables.chunks) + ChunkRows(d, v, split(body), |split(body)|)
      ensures tables.events
           == old(tables.events) + [ParsedEvent(d, v, call.key.source, tables.sources[call.key.source].tenant)]
    {
      var texts := split(body);
      for n := 0 to |texts|
        invariant tables.chunks == old(tables.chunks) + ChunkRows(d, v, texts, n)
        invariant tables.events == old(tables.events)
      {
        tables.CreateChunk(ChunkRow(d, v, n, texts[n]));
      }
      tables.events := tables.events + [ParsedEvent(d, v, call.key.source, tables.sources[call.key.source].tenant)];
    }

    /** Ingests one file; afterwards its content is the one in force, unless the call fails and changes
      * nothing. A version is new exactly when its checksum was never stored for the locator. */
    method IngestFile(call: Call) returns (r: Result<IngestionResult, IngestError>)
      requires Sane(tables.View()) && FreshIds(tables.View(), call)
      modifies tables`docs, tables`versions, tables`checkpoints, tables`chunks, tables`events
      ensures tables.View() == Apply(old(tables.View()), Decide(Now(old(tables.View())), call), call, split)
      ensures r.Err? ==> tables.View() == old(tables.View())
      ensures r == Err(SourceNotFound) <==> call.key.source !in old(tables.sources)
      ensures r == Err(NotParsed) <==> Decide(Now(old(tables.View())), call).Changed? && call.parsed.None?
      ensures r.Ok? ==> Stored(tables.View(), call, r.value)
      ensures r.Ok? ==>
                (r.value.createdNewVersion <==> call.checksum !in HistoryOf(old(tables.View()), call.key).versions)
    {
      if call.key.source !in tables.sources {
        return Err(SourceNotFound);
      }
      var resumed := Resume(call);
      if resumed.Some? {
        return Ok(resumed.value);
      }
      var document := call.document;
      var found := tables.FindActive(call.key);
      if found.Some? {
        document := found.value.0;
        var current := tables.GetDocumentVersion(document, found.value.1);
        if current == Some(call.checksum) {
          RepeatedIsCurrent(tables.View(), call);
          tables.checkpoints := tables.checkpoints[(call.key, call.checksum) := Checkpoint(document, found.value.1)];
          return Ok(IngestionResult(document, found.value.1, false));
        }
      }
      if call.parsed.None? {
        return Err(NotParsed);
      }
      r := Change(call, document, call.parsed.value);
    }

    /** A persisted checkpoint whose document still has this content ends the call. */
    method Resume(call: Call) returns (r: Option<IngestionResult>)
      requires Sane(tables.View())
      ensures r.Some? <==> Resumes(Now(tables.View()), call)
      ensures r.Some? ==> Stored(tables.View(), call, r.value) && !r.value.createdNewVersion
      ensures r.Some? ==> call.checksum in HistoryOf(tables.View(), call.key).versions
    {
      var at := (call.key, call.checksum);
      if at !in tables.checkpoints {
        return None;
      }
      ValidHasOneMarked(tables.View());
      var document := tables.checkpoints[at].document;
      var existing := tables.GetDocument(document);
      if existing != Some(call.checksum) {
        return None;
      }
      ResumedIsCurrent(tables.View(), call);
      r := Some(IngestionResult(document, tables.docs[call.key].current.value, false));
    }

    /** The writing half of the transaction. */
    method Change(call: Call, document: Id, p: Parsed) returns (r: Result<IngestionResult, IngestError>)
      requires DocIds(tables.View()) && FreshIds(tables.View(), call) && call.key.source in tables.sources
      requires call.key in tables.docs || document == call.document
      modifies tables`docs, tables`versions, tables`checkpoints, tables`chunks, tables`events
      ensures tables.View() == Write(old(tables.View()), call, document, p, split)
      ensures r.Ok? && Stored(tables.View(), call, r.value)
      ensures r.value.createdNewVersion <==> call.checksum !in HistoryOf(old(tables.View()), call.key).versions
    {
      NewIffUnseen(tables.View(), call, document);
      UpsertShape(tables.View(), call, document, p);
      var d, v, isNew := tables.UpsertDocument(call, document, p);
      tables.checkpoints := tables.checkpoints[(call.key, call.checksum) := Checkpoint(d, v)];
      if isNew {
        StoreParsed(call, d, v, p.body);
      }
      r := Ok(IngestionResult(d, v, isNew));
    }
  }

  /** The reported document and version hold the content of the call and are in force. */
  ghost predicate Stored(db: DB, call: Call, r: IngestionResult) {
    && HasId(db, r.document, r.version, call.checksum)
    && call.key in db.docs && db.docs[call.key].id == r.document && db.docs[call.key].current == Some(r.version)
  }

  lemma ResumedIsCurrent(db: DB, call: Call)
    requires Sane(db) && Resumes(Now(db), call)
    ensures call.key in db.docs && db.docs[call.key].current.Some?
    ensures Stored(db, call, IngestionResult(db.checkpoints[(call.key, call.checksum)].document,
                                       db.docs[call.key].current.value, false))
    ensures call.checksum in HistoryOf(db, call.key).versions
  {
    ResumedSawTheContent(Now(db), call);
    CurrentChecksum(db, call.key);
    assert (db.docs[call.key].id, call.checksum) in db.versions;
  }

  lemma RepeatedIsCurrent(db: DB, call: Call)
    requires Sane(db) && Decide(Now(db), call).Repeated?
    ensures Stored(db, call, IngestionResult(Decide(Now(db), call).document, Decide(Now(db), call).version, false))
    ensures call.checksum in HistoryOf(db, call.key).versions
  {
    RepeatedSawTheContent(Now(db), call);
    assert (db.docs[call.key].id, call.checksum) in db.versions;
  }
}
