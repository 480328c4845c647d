/** Entity resolution: a mention is matched against the known entities of its type by string
  * similarity, and becomes a new entity when nothing comes close.
  *
  * `lower` stands for Python's `str.lower` and is left arbitrary: nothing below depends on how case
  * is folded, not even on its keeping lengths.
  */
module EntityResolver {
  import opened Basics
  import opened EditDistance
  import opened Text
  import opened Wrappers

  datatype Entity = Entity(id: nat, kind: string, name: string, aliases: seq<string>)

  datatype Config = Config(lower: string -> string, fuzzy: real, review: real, readOnly: bool)

  type Store = seq<Entity>

  const MIN_CANDIDATE_SIMILARITY := 0.5

  /** The graph query returns at most this many entities of a type. */
  const LIMIT := 100

  // ------------------------------------------------------------------- similarity

  predicate OccursAt(hay: string, needle: string, i: nat) {
    i + |needle| <= |hay| && hay[i..i + |needle|] == needle
  }

  predicate Contains(hay: string, needle: string) {
    exists i: nat :: i <= |hay| && OccursAt(hay, needle, i)
  }

  function Similarity(lower: string -> string, a: string, b: string): real {
    var la, lb := lower(a), lower(b);
    if la == lb then 1.0
    else if Contains(lb, la) || Contains(la, lb) then 0.9
    else if Max(|a|, |b|) == 0 then 0.0
    else 1.0 - Distance(la, lb) as real / Max(|a|, |b|) as real
  }

  method StringSimilarity(config: Config, a: string, b: string) returns (s: real)
    ensures s == Similarity(config.lower, a, b)
    ensures s <= 1.0 && (s == 1.0 <==> config.lower(a) == config.lower(b))
  {
    SimilarityOne(config.lower, a, b);
    var la, lb := config.lower(a), config.lower(b);
    if la == lb {
      return 1.0;
    }
    if Contains(lb, la) || Contains(la, lb) {
      return 0.9;
    }
    var lenMax := Max(|a|, |b|);
    if lenMax == 0 {
      return 0.0;
    }
    var dist := Levenshtein(la, lb);
    s := 1.0 - dist as real / lenMax as real;
  }

  lemma SimilaritySymmetric(lower: string -> string, a: string, b: string)
    ensures Similarity(lower, a, b) == Similarity(lower, b, a)
  {
    Symmetric(lower(a), lower(b));
  }

  lemma QuotientPositive(d: nat, n: nat)
    requires d > 0 && n > 0
    ensures d as real / n as real > 0.0
  {
  }

  /** Similarity reaches 1 exactly on case variants, and never exceeds it. */
  lemma SimilarityOne(lower: string -> string, a: string, b: string)
    ensures Similarity(lower, a, b) <= 1.0
    ensures Similarity(lower, a, b) == 1.0 <==> lower(a) == lower(b)
  {
    var la, lb := lower(a), lower(b);
    if la != lb && Max(|a|, |b|) != 0 {
      ZeroIffEqual(la, lb);
      QuotientPositive(Distance(la, lb), Max(|a|, |b|));
    }
  }

  // ------------------------------------------------------------------- candidates

  type Candidate = (Entity, real)

  function AliasCandidates(config: Config, surface: string, e: Entity, n: nat): seq<Candidate>
    requires n <= |e.aliases|
  {
    if n == 0 then []
    else
      var before := AliasCandidates(config, surface, e, n - 1);
      var sim := Similarity(config.lower, surface, e.aliases[n - 1]);
      if sim >= MIN_CANDIDATE_SIMILARITY then before + [(e, sim)] else before
  }

  function EntityCandidates(config: Config, surface: string, e: Entity): seq<Candidate> {
    var sim := Similarity(config.lower, surface, e.name);
    (if sim >= MIN_CANDIDATE_SIMILARITY then [(e, sim)] else []) + AliasCandidates(config, surface, e, |e.aliases|)
  }

  function Candidates(config: Config, surface: string, rows: seq<Entity>, n: nat): seq<Candidate>
    requires n <= |rows|
  {
    if n == 0 then [] else Candidates(config, surface, rows, n - 1) + EntityCandidates(config, surface, rows[n - 1])
  }

  method FindCandidates(config: Config, surface: string, rows: seq<Entity>) returns (results: seq<Candidate>)
    ensures results == Candidates(config, surface, rows, |rows|)
  {
    results := [];
    for k := 0 to |rows|
      invariant results == Candidates(config, surface, rows, k)
    {
      var e := rows[k];
      ghost var before := results;
      var sim := StringSimilarity(config, surface, e.name);
      if sim >= MIN_CANDIDATE_SIMILARITY {
        results := results + [(e, sim)];
      }
      ghost var named := if sim >= MIN_CANDIDATE_SIMILARITY then [(e, sim)] else [];
      for a := 0 to |e.aliases|
        invariant results == before + (named + AliasCandidates(config, surface, e, a))
      {
        sim := StringSimilarity(config, surface, e.aliases[a]);
        if sim >= MIN_CANDIDATE_SIMILARITY {
          results := results + [(e, sim)];
        }
      }
    }
  }

  /** A name that an entity goes by. */
  predicate Called(e: Entity, name: string) {
    name == e.name || name in e.aliases
  }

  lemma {:induction false} AliasCandidatesExactly(config: Config, surface: string, e: Entity, n: nat, c: Candidate)
    requires n <= |e.aliases|
    ensures c in AliasCandidates(config, surface, e, n)
       <==> c.0 == e && c.1 >= MIN_CANDIDATE_SIMILARITY
            && exists a :: a in e.aliases[..n] && c.1 == Similarity(config.lower, surface, a)
  {
    if n > 0 {
      AliasCandidatesExactly(config, surface, e, n - 1, c);
      assert e.aliases[..n] == e.aliases[..n - 1] + [e.aliases[n - 1]];
    }
  }

  lemma EntityCandidatesExactly(config: Config, surface: string, e: Entity, c: Candidate)
    ensures c in EntityCandidates(config, surface, e)
       <==> c.0 == e && c.1 >= MIN_CANDIDATE_SIMILARITY
            && exists a :: Called(e, a) && c.1 == Similarity(config.lower, surface, a)
  {
    AliasCandidatesExactly(config, surface, e, |e.aliases|, c);
    assert e.aliases[..|e.aliases|] == e.aliases;
    assert Called(e, e.name);
    if a :| a in e.aliases && c.1 == Similarity(config.lower, surface, a) {
      assert Called(e, a);
    }
  }

  /** The candidates are exactly the entities listed, with each score from the minimum on that a name or
    * an alias of theirs has. */
  lemma {:induction false} CandidatesExactly(config: Config, surface: string, rows: seq<Entity>, n: nat, c: Candidate)
    requires n <= |rows|
    ensures c in Candidates(config, surface, rows, n)
       <==> c.0 in rows[..n] && c.1 >= MIN_CANDIDATE_SIMILARITY
            && exists a :: Called(c.0, a) && c.1 == Similarity(config.lower, surface, a)
  {
    if n > 0 {
      CandidatesExactly(config, surface, rows, n - 1, c);
      EntityCandidatesExactly(config, surface, rows[n - 1], c);
      assert rows[..n] == rows[..n - 1] + [rows[n - 1]];
    }
  }

  /** `max(candidates, key=score)`: the first candidate with the highest score. */
  function Best(candidates: seq<Candidate>): (best: Candidate)
    requires candidates != []
    ensures best in candidates && forall c :: c in candidates ==> c.1 <= best.1
  {
    var n := |candidates| - 1;
    if n == 0 then candidates[0]
    else
      var best := Best(candidates[..n]);
      assert candidates == candidates[..n] + [candidates[n]];
      if candidates[n].1 > best.1 then candidates[n] else best
  }

  lemma {:induction false} CandidateScores(config: Config, surface: string, rows: seq<Entity>, n: nat)
    requires n <= |rows| && forall e :: e in rows ==> e.aliases == [e.name]
    ensures forall c :: c in Candidates(config, surface, rows, n) ==>
              c.0 in rows && c.1 == Similarity(config.lower, surface, c.0.name) && c.1 >= MIN_CANDIDATE_SIMILARITY
    ensures forall e :: e in rows[..n] && Similarity(config.lower, surface, e.name) >= MIN_CANDIDATE_SIMILARITY ==>
              (e, Similarity(config.lower, surface, e.name)) in Candidates(config, surface, rows, n)
  {
    if n > 0 {
      CandidateScores(config, surface, rows, n - 1);
      var e := rows[n - 1];
      assert AliasCandidates(config, surface, e, 0) == [];
      assert rows[..n] == rows[..n - 1] + [e];
    }
  }

  // --------------------------------------------------------------------- decision

  datatype Decision = Unusable | Found(entity: Entity) | Ambiguous | New

  function Decide(config: Config, surface: string, rows: seq<Entity>): Decision {
    var candidates := Candidates(config, surface, rows, |rows|);
    if surface == "" then Unusable
    else if candidates == [] then New
    else
      var best := Best(candidates);
      if best.1 >= config.fuzzy then Found(best.0)
      else if best.1 >= config.review then Ambiguous
      else New
  }

  function Created(id: nat, kind: string, surface: string): Entity {
    Entity(id, kind, surface, [surface])
  }

  /** The store after resolving one mention whose query answered `rows`. */
  function After(config: Config, store: Store, id: nat, surfaceForm: string, kind: string, rows: seq<Entity>): Store {
    var surface := Strip(surfaceForm);
    if Decide(config, surface, rows).New? && !config.readOnly then store + [Created(id, kind, surface)] else store
  }

  /** The resolver with the repository it writes to. Every call sets one new identifier aside. */
  class EntityResolutionService {
    const config: Config
    var entities: Store
    var nextId: nat

    constructor (config: Config)
      ensures this.config == config && entities == [] && nextId == 0
    {
      this.config := config;
      entities, nextId := [], 0;
    }

    method Resolve(surfaceForm: string, kind: string, rows: seq<Entity>) returns (resolved: Option<Entity>)
      modifies this
      ensures entities == After(config, old(entities), old(nextId), surfaceForm, kind, rows)
      ensures nextId == old(nextId) + 1
      ensures resolved == match Decide(config, Strip(surfaceForm), rows)
                          case Found(e) => Some(e)
                          case New => Some(Created(old(nextId), kind, Strip(surfaceForm)))
                          case _ => None
    {
      var id := nextId;
      nextId := nextId + 1;
      var surface := Strip(surfaceForm);
      if surface == "" {
        return None;
      }
      var candidates := FindCandidates(config, surface, rows);
      if candidates == [] {
        var created := CreateNew(id, surface, kind);
        return Some(created);
      }
      var best := Best(candidates);
      if best.1 >= config.fuzzy {
        return Some(best.0);
      }
      if best.1 >= config.review {
        return None;
      }
      var created := CreateNew(id, surface, kind);
      resolved := Some(created);
    }

    method CreateNew(id: nat, name: string, kind: string) returns (created: Entity)
      modifies this`entities
      ensures created == Created(id, kind, name)
      ensures entities == if config.readOnly then old(entities) else old(entities) + [created]
    {
      created := Entity(id, kind, name, [name]);
      if !config.readOnly {
        entities := entities + [created];
      }
    }
  }

  /** A whole history of calls on one service. */
  method ResolveAll(config: Config, calls: seq<Call>) returns (service: EntityResolutionService)
    ensures service.entities == Replay(config, calls)
  {
    service := new EntityResolutionService(config);
    for n := 0 to |calls|
      invariant service.config == config && service.nextId == n && service.entities == Replay(config, calls[..n])
    {
      assert calls[..n + 1][..n] == calls[..n];
      var _ := service.Resolve(calls[n].surfaceForm, calls[n].kind, calls[n].rows);
    }
    assert calls[..|calls|] == calls;
  }

  // ------------------------------------------------------------------- separation

  function OfKind(store: Store, kind: string): set<Entity> {
    set e | e in store && e.kind == kind
  }

  ghost predicate NoRepeats(rows: seq<Entity>) {
    forall a, b :: 0 <= a < b < |rows| ==> rows[a] != rows[b]
  }

  /** What the query for a type may answer: different entities of the type, up to the limit. */
  ghost predicate IsListing(store: Store, kind: string, rows: seq<Entity>) {
    && NoRepeats(rows)
    && (forall e :: e in rows ==> e in OfKind(store, kind))
    && |rows| == Min(LIMIT, |OfKind(store, kind)|)
  }

  lemma {:induction false} DistinctCount(rows: seq<Entity>, s: set<Entity>)
    requires NoRepeats(rows) && forall e :: e in rows ==> e in s
    ensures |rows| <= |s| && (|rows| == |s| ==> forall e :: e in s ==> e in rows)
  {
    if rows != [] {
      var init, last := rows[..|rows| - 1], rows[|rows| - 1];
      assert rows == init + [last];
      assert last in rows && last !in init;
      DistinctCount(init, s - {last});
    }
  }

  /** Up to the limit the query answers the whole type. */
  lemma ListingComplete(store: Store, kind: string, rows: seq<Entity>)
    requires IsListing(store, kind, rows) && |OfKind(store, kind)| <= LIMIT
    ensures forall e :: e in OfKind(store, kind) <==> e in rows
  {
    DistinctCount(rows, OfKind(store, kind));
  }

  function Bound(config: Config): real {
    var threshold := if config.fuzzy <= config.review then config.fuzzy else config.review;
    if threshold <= MIN_CANDIDATE_SIMILARITY then MIN_CANDIDATE_SIMILARITY else threshold
  }

  /** Different entities of the type are less similar than the bound. */
  ghost predicate Separated(config: Config, store: Store, kind: string) {
    forall a, b :: a in OfKind(store, kind) && b in OfKind(store, kind) && a != b
                   ==> Similarity(config.lower, a.name, b.name) < Bound(config)
  }

  ghost predicate WellFormed(store: Store, nextId: nat) {
    forall e :: e in store ==> e.aliases == [e.name] && e.id < nextId
  }

  /** A new entity is less similar than the bound to everything the query showed. */
  lemma NewIsFar(config: Config, surface: string, rows: seq<Entity>, e: Entity)
    requires Decide(config, surface, rows).New? && e in rows && forall r :: r in rows ==> r.aliases == [r.name]
    ensures Similarity(config.lower, surface, e.name) < Bound(config)
  {
    CandidateScores(config, surface, rows, |rows|);
    assert rows[..|rows|] == rows;
  }

  lemma AfterKeepsWellFormed(config: Config, store: Store, nextId: nat, surfaceForm: string, kind: string, rows: seq<Entity>)
    requires WellFormed(store, nextId)
    ensures WellFormed(After(config, store, nextId, surfaceForm, kind, rows), nextId + 1)
  {
  }

  lemma AfterKeepsSeparated(config: Config, store: Store, nextId: nat, surfaceForm: string, kind: string,
                            rows: seq<Entity>, other: string)
    requires WellFormed(store, nextId) && IsListing(store, kind, rows)
    requires |OfKind(store, kind)| <= LIMIT || other != kind
    requires Separated(config, store, other)
    ensures Separated(config, After(config, store, nextId, surfaceForm, kind, rows), other)
  {
    var after, surface := After(config, store, nextId, surfaceForm, kind, rows), Strip(surfaceForm);
    if after != store && other == kind {
      var newcomer := Created(nextId, kind, surface);
      ListingComplete(store, kind, rows);
      forall a, b | a in OfKind(after, kind) && b in OfKind(after, kind) && a != b
        ensures Similarity(config.lower, a.name, b.name) < Bound(config)
      {
        if a == newcomer {
          NewIsFar(config, surface, rows, b);
        } else if b == newcomer {
          NewIsFar(config, surface, rows, a);
          SimilaritySymmetric(config.lower, a.name, b.name);
        } else {
          assert a in OfKind(store, kind) && b in OfKind(store, kind);
        }
      }
    } else if after != store {
      assert OfKind(after, other) == OfKind(store, other);
    }
  }

  // ------------------------------------------------------------------ whole histories

  /** One call of the resolver, with the answer its query got. */
  datatype Call = Call(surfaceForm: string, kind: string, rows: seq<Entity>)

  /** The store after a history of calls on an empty one; the `n`th call would create entity `n`. */
  function Replay(config: Config, calls: seq<Call>): Store {
    if calls == [] then []
    else
      var n := |calls| - 1;
      After(config, Replay(config, calls[..n]), n, calls[n].surfaceForm, calls[n].kind, calls[n].rows)
  }

  /** Every call's query answered for the store as it then was. */
  ghost predicate Answered(config: Config, calls: seq<Call>) {
    calls == [] ||
    (var n := |calls| - 1;
     Answered(config, calls[..n]) && IsListing(Replay(config, calls[..n]), calls[n].kind, calls[n].rows))
  }

  lemma CountGrows(config: Config, store: Store, nextId: nat, call: Call, kind: string)
    requires WellFormed(store, nextId)
    ensures var after := After(config, store, nextId, call.surfaceForm, call.kind, call.rows);
            && |OfKind(store, kind)| <= |OfKind(after, kind)|
            && (after != store && kind == call.kind ==> |OfKind(after, kind)| == |OfKind(store, kind)| + 1)
  {
    var after := After(config, store, nextId, call.surfaceForm, call.kind, call.rows);
    if after != store {
      var newcomer := Created(nextId, call.kind, Strip(call.surfaceForm));
      assert newcomer !in store;
      if kind == call.kind {
        assert OfKind(after, kind) == OfKind(store, kind) + {newcomer};
      } else {
        assert OfKind(after, kind) == OfKind(store, kind);
      }
    }
  }

  /** After any history of calls from an empty repository, different entities of a type are less
    * similar than the bound, as long as the type has at most one entity more than a query returns. By
    * `ResolveAll`, the store of the history is what the calls leave behind. */
  lemma {:induction false} HistoriesAreSeparated(config: Config, calls: seq<Call>, kind: string)
    requires Answered(config, calls) && |OfKind(Replay(config, calls), kind)| <= LIMIT + 1
    ensures Separated(config, Replay(config, calls), kind) && WellFormed(Replay(config, calls), |calls|)
  {
    if calls != [] {
      var n := |calls| - 1;
      var before, call := Replay(config, calls[..n]), calls[n];
      HistoriesAreWellFormed(config, calls[..n]);
      CountGrows(config, before, n, call, kind);
      HistoriesAreSeparated(config, calls[..n], kind);
      AfterKeepsWellFormed(config, before, n, call.surfaceForm, call.kind, call.rows);
      if Replay(config, calls) != before {
        AfterKeepsSeparated(config, before, n, call.surfaceForm, call.kind, call.rows, kind);
      }
    }
  }

  lemma {:induction false} HistoriesAreWellFormed(config: Config, calls: seq<Call>)
    ensures WellFormed(Replay(config, calls), |calls|)
  {
    if calls != [] {
      var n := |calls| - 1;
      HistoriesAreWellFormed(config, calls[..n]);
      AfterKeepsWellFormed(config, Replay(config, calls[..n]), n, calls[n].surfaceForm, calls[n].kind, calls[n].rows);
    }
  }

  // ------------------------------------------------------------------- recognition

  /** In a separated store, a case variant of an entity's name is recognised as that entity exactly
    * when the threshold for a match does not exceed 1, whatever order the query answers in. */
  lemma VariantsAreRecognised(config: Config, store: Store, nextId: nat, e: Entity, surface: string, rows: seq<Entity>)
    requires WellFormed(store, nextId) && Separated(config, store, e.kind) && e in store
    requires IsListing(store, e.kind, rows) && |OfKind(store, e.kind)| <= LIMIT
    requires surface != "" && config.lower(surface) == config.lower(e.name)
    ensures Decide(config, surface, rows) == Found(e) <==> config.fuzzy <= 1.0
  {
    ListingComplete(store, e.kind, rows);
    var candidates := Candidates(config, surface, rows, |rows|);
    CandidateScores(config, surface, rows, |rows|);
    assert rows[..|rows|] == rows;
    SimilarityOne(config.lower, surface, e.name);
    assert (e, 1.0) in candidates;
    var best := Best(candidates);
    SimilarityOne(config.lower, surface, best.0.name);
    assert config.lower(best.0.name) == config.lower(e.name);
    SimilarityOne(config.lower, e.name, best.0.name);
    assert best.0 in OfKind(store, e.kind);
  }

  /** An entity is recognised by any case variant of its name after any further history of calls. */
  lemma RecognitionIsStable(config: Config, calls: seq<Call>, e: Entity, surface: string, rows: seq<Entity>)
    requires Answered(config, calls) && config.fuzzy <= 1.0
    requires e in Replay(config, calls) && |OfKind(Replay(config, calls), e.kind)| <= LIMIT
    requires IsListing(Replay(config, calls), e.kind, rows)
    requires surface != "" && config.lower(surface) == config.lower(e.name)
    ensures Decide(config, surface, rows) == Found(e)
  {
    HistoriesAreSeparated(config, calls, e.kind);
    VariantsAreRecognised(config, Replay(config, calls), |calls|, e, surface, rows);
  }

  // ---------------------------------------------------------------- past the limit

  lemma {:induction false} SomeOf(s: set<Entity>, n: nat) returns (rows: seq<Entity>)
    requires n <= |s|
    ensures |rows| == n && NoRepeats(rows) && forall e :: e in rows ==> e in s
  {
    if n == 0 {
      rows := [];
    } else {
      var e :| e in s;
      rows := SomeOf(s - {e}, n - 1);
      rows := rows + [e];
    }
  }

  /** Every entity of a type with more entities than a query returns can be left out of an answer, and its own name
    * then creates a second entity, which is as similar to it as can be. */
  lemma PastTheLimitNamesRepeat(config: Config, store: Store, nextId: nat, e: Entity) returns (rows: seq<Entity>)
    requires WellFormed(store, nextId) && Separated(config, store, e.kind) && !config.readOnly
    requires e in store && |OfKind(store, e.kind)| > LIMIT && Strip(e.name) == e.name != ""
    ensures IsListing(store, e.kind, rows)
    ensures var after := After(config, store, nextId, e.name, e.kind, rows);
            && after == store + [Created(nextId, e.kind, e.name)]
            && Created(nextId, e.kind, e.name) != e
            && Similarity(config.lower, e.name, Created(nextId, e.kind, e.name).name) == 1.0
  {
    rows := SomeOf(OfKind(store, e.kind) - {e}, LIMIT);
    FarRowsMakeNew(config, e.name, rows);
    SimilarityOne(config.lower, e.name, e.name);
  }

  lemma FarRowsMakeNew(config: Config, surface: string, rows: seq<Entity>)
    requires surface != "" && forall r :: r in rows ==> r.aliases == [r.name]
    requires forall r :: r in rows ==> Similarity(config.lower, surface, r.name) < Bound(config)
    ensures Decide(config, surface, rows).New?
  {
    CandidateScores(config, surface, rows, |rows|);
    var candidates := Candidates(config, surface, rows, |rows|);
    if candidates != [] {
      var best := Best(candidates);
      assert best.0 in rows;
    }
  }

  lemma {:induction false} StoredNamesAreStripped(config: Config, calls: seq<Call>)
    ensures forall e :: e in Replay(config, calls) ==> Strip(e.name) == e.name != ""
  {
    if calls != [] {
      var n := |calls| - 1;
      StoredNamesAreStripped(config, calls[..n]);
      StripTwice(calls[n].surfaceForm);
    }
  }

  /** Every admissible answer to every next call keeps the entities of the type apart. */
  ghost predicate StaysSeparated(config: Config, store: Store, nextId: nat, kind: string) {
    forall c: Call :: IsListing(store, c.kind, c.rows) ==>
      Separated(config, After(config, store, nextId, c.surfaceForm, c.kind, c.rows), kind)
  }

  lemma LooseBoundSeparates(config: Config, store: Store, kind: string)
    requires Bound(config) > 1.0
    ensures Separated(config, store, kind)
  {
    forall a, b | a in OfKind(store, kind) && b in OfKind(store, kind) && a != b
      ensures Similarity(config.lower, a.name, b.name) < Bound(config)
    {
      SimilarityOne(config.lower, a.name, b.name);
    }
  }

  lemma BreaksPastTheLimit(config: Config, store: Store, nextId: nat, kind: string)
    requires WellFormed(store, nextId) && Separated(config, store, kind) && !config.readOnly && Bound(config) <= 1.0
    requires |OfKind(store, kind)| > LIMIT && forall e :: e in store ==> Strip(e.name) == e.name != ""
    ensures !StaysSeparated(config, store, nextId, kind)
  {
    var some := SomeOf(OfKind(store, kind), 1);
    var e := some[0];
    assert e in some && e in OfKind(store, kind);
    var rows := PastTheLimitNamesRepeat(config, store, nextId, e);
    var c, newcomer := Call(e.name, kind, rows), Created(nextId, kind, e.name);
    var after := After(config, store, nextId, c.surfaceForm, c.kind, c.rows);
    assert newcomer in after && newcomer in OfKind(after, kind) && e in OfKind(after, kind);
    assert !Separated(config, after, kind) && IsListing(store, c.kind, c.rows);
  }

  /** After any history that left a type separated, every further call keeps it so exactly if the type has no more
    * entities than a query returns, or nothing is written, or the thresholds let no two entities be too similar. */
  lemma SeparationLastsIff(config: Config, calls: seq<Call>, kind: string)
    requires Answered(config, calls) && Separated(config, Replay(config, calls), kind)
    ensures StaysSeparated(config, Replay(config, calls), |calls|, kind)
       <==> |OfKind(Replay(config, calls), kind)| <= LIMIT || config.readOnly || Bound(config) > 1.0
  {
    var store := Replay(config, calls);
    HistoriesAreWellFormed(config, calls);
    StoredNamesAreStripped(config, calls);
    if |OfKind(store, kind)| <= LIMIT || config.readOnly || Bound(config) > 1.0 {
      forall c: Call | IsListing(store, c.kind, c.rows)
        ensures Separated(config, After(config, store, |calls|, c.surfaceForm, c.kind, c.rows), kind)
      {
        if Bound(config) > 1.0 {
          LooseBoundSeparates(config, After(config, store, |calls|, c.surfaceForm, c.kind, c.rows), kind);
        } else if !config.readOnly {
          AfterKeepsSeparated(config, store, |calls|, c.surfaceForm, c.kind, c.rows, kind);
        }
      }
    } else {
      BreaksPastTheLimit(config, store, |calls|, kind);
    }
  }

  // ------------------------------------------------------- the limit can be passed

  /** Names of one letter that has no case. */
  function Letter(i: nat): string
    requires i <= LIMIT
  {
    [(0x4E00 + i) as char]
  }

  function Letters(kind: string, n: nat): Store
    requires n <= LIMIT + 1
  {
    if n == 0 then [] else Letters(kind, n - 1) + [Created(n - 1, kind, Letter(n - 1))]
  }

  /** One call for each letter, each answered with all entities so far. */
  function LetterCalls(kind: string, n: nat): seq<Call>
    requires n <= LIMIT + 1
  {
    if n == 0 then [] else LetterCalls(kind, n - 1) + [Call(Letter(n - 1), kind, Letters(kind, n - 1))]
  }

  lemma {:induction false} LettersAre(kind: string, n: nat)
    requires n <= LIMIT + 1
    ensures |Letters(kind, n)| == n == |LetterCalls(kind, n)|
    ensures forall i :: 0 <= i < n ==> Letters(kind, n)[i] == Created(i, kind, Letter(i))
  {
    if n != 0 {
      LettersAre(kind, n - 1);
    }
  }

  lemma LettersDiffer(config: Config, i: nat, j: nat)
    requires i <= LIMIT && j <= LIMIT && i != j
    requires config.lower(Letter(i)) == Letter(i) && config.lower(Letter(j)) == Letter(j)
    ensures Similarity(config.lower, Letter(i), Letter(j)) == 0.0
  {
    assert Letter(i)[0] != Letter(j)[0];
    OneLetterDistance(Letter(i), Letter(j));
  }

  lemma OneLetterDistance(a: string, b: string)
    requires |a| == |b| == 1 && a != b
    ensures Distance(a, b) == 1 && !Contains(a, b) && !Contains(b, a)
  {
    Bounds(a, b);
    ZeroIffEqual(a, b);
  }

  lemma LettersListed(kind: string, n: nat)
    requires n <= LIMIT + 1
    ensures |OfKind(Letters(kind, n), kind)| == n
    ensures n <= LIMIT ==> IsListing(Letters(kind, n), kind, Letters(kind, n))
  {
    LettersAre(kind, n);
    var store := Letters(kind, n);
    forall a, b | 0 <= a < b < n ensures store[a] != store[b] {
      assert store[a].id == a && store[b].id == b;
    }
    DistinctCount(store, OfKind(store, kind));
    CountMembers(store, OfKind(store, kind));
  }

  lemma {:induction false} CountMembers(rows: seq<Entity>, s: set<Entity>)
    requires forall e :: e in s ==> e in rows
    ensures |s| <= |rows|
  {
    if rows != [] {
      var init, last := rows[..|rows| - 1], rows[|rows| - 1];
      assert rows == init + [last];
      CountMembers(init, s - {last});
    }
  }

  lemma LetterIsNew(config: Config, kind: string, n: nat)
    requires n <= LIMIT && forall i: nat :: i <= LIMIT ==> config.lower(Letter(i)) == Letter(i)
    ensures Strip(Letter(n)) == Letter(n) && Decide(config, Letter(n), Letters(kind, n)).New?
  {
    var store := Letters(kind, n);
    LettersAre(kind, n);
    TrimIs(Letter(n), 0, 1);
    forall r | r in store
      ensures r.aliases == [r.name] && Similarity(config.lower, Letter(n), r.name) < Bound(config)
    {
      var i: nat :| i < n && store[i] == r;
      LettersDiffer(config, n, i);
    }
    FarRowsMakeNew(config, Letter(n), store);
  }

  lemma OneMoreCall(config: Config, before: seq<Call>, call: Call)
    ensures var store := Replay(config, before);
            && Replay(config, before + [call])
               == After(config, store, |before|, call.surfaceForm, call.kind, call.rows)
            && (Answered(config, before + [call])
                <==> Answered(config, before) && IsListing(store, call.kind, call.rows))
  {
    var calls := before + [call];
    assert calls[..|calls| - 1] == before;
  }

  lemma OneMoreLetter(config: Config, kind: string, n: nat)
    requires n <= LIMIT && !config.readOnly && forall i: nat :: i <= LIMIT ==> config.lower(Letter(i)) == Letter(i)
    ensures After(config, Letters(kind, n), n, Letter(n), kind, Letters(kind, n)) == Letters(kind, n + 1)
    ensures IsListing(Letters(kind, n), kind, Letters(kind, n))
  {
    LettersListed(kind, n);
    LetterIsNew(config, kind, n);
  }

  lemma {:induction false} LettersReplay(config: Config, kind: string, n: nat)
    requires n <= LIMIT + 1 && !config.readOnly && forall i: nat :: i <= LIMIT ==> config.lower(Letter(i)) == Letter(i)
    ensures Answered(config, LetterCalls(kind, n)) && Replay(config, LetterCalls(kind, n)) == Letters(kind, n)
  {
    if n != 0 {
      LettersReplay(config, kind, n - 1);
      LettersAre(kind, n - 1);
      OneMoreLetter(config, kind, n - 1);
      OneMoreCall(config, LetterCalls(kind, n - 1), Call(Letter(n - 1), kind, Letters(kind, n - 1)));
    }
  }

  /** The limit can be passed: there is a history of calls, one for each of 101 one-letter names, after which the type
    * is still separated, and does not stay so. */
  lemma PastTheLimitIsReached(config: Config, kind: string)
    requires !config.readOnly && Bound(config) <= 1.0
    requires forall i: nat :: i <= LIMIT ==> config.lower(Letter(i)) == Letter(i)
    ensures var calls := LetterCalls(kind, LIMIT + 1);
            && Answered(config, calls) && Separated(config, Replay(config, calls), kind)
            && !StaysSeparated(config, Replay(config, calls), |calls|, kind)
  {
    var calls := LetterCalls(kind, LIMIT + 1);
    LettersReplay(config, kind, LIMIT + 1);
    LettersListed(kind, LIMIT + 1);
    HistoriesAreSeparated(config, calls, kind);
    SeparationLastsIff(config, calls, kind);
  }
}
