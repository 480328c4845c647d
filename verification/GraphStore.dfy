/** The knowledge graph that outbox events are projected to.
  *
  * Every write is a MERGE by identifier: it creates the node or overwrites its properties. Edges are
  * only ever added, and only between nodes that exist when the write runs.
  */
module GraphStore {
  import opened Wrappers

  type Id = int

  datatype EntityNode = EntityNode(kind: string, name: string, aliases: seq<string>, attributes: string)

  datatype MentionNode = MentionNode(chunk: Id, surfaceForm: string, candidateType: string)

  datatype FactStatus = Candidate | Verified | Rejected | Superseded

  datatype FactNode = FactNode(
    subject: Id, predicate_: string, object_: Id, status: FactStatus, evidence: seq<Id>,
    validFrom: Option<int>, validTo: Option<int>, observedAt: int, tenant: string, principals: seq<string>)

  datatype Graph = Graph(
    entities: map<Id, EntityNode>,
    facts: map<Id, FactNode>,
    mentions: map<Id, MentionNode>,
    chunks: set<Id>,
    subjectOf: set<(Id, Id)>,
    objects: set<(Id, Id)>,
    mentionedIn: set<(Id, Id)>)

  /** What an event asks for. `Unknown` types are skipped with a warning; a `Malformed` payload lacks a key. */
  datatype Payload =
    | EntityResolved(id: Id, entity: EntityNode)
    | EntityMentioned(id: Id, mention: MentionNode)
    | FactCandidate(id: Id, subject: Id, predicate_: string, object_: Id, status: FactStatus, evidence: seq<Id>,
                    validFrom: Option<int>, validTo: Option<int>, observedAt: Option<int>, tenant: string,
                    principals: seq<string>)
    | Unknown
    | Malformed

  // ------------------------------------------------------------------ single writes

  function MergeEntity(g: Graph, id: Id, e: EntityNode): Graph {
    g.(entities := g.entities[id := e])
  }

  /** The first edge needs the subject; the second is only tried after the first. */
  function MergeFact(g: Graph, id: Id, f: FactNode): Graph {
    var written := g.(facts := g.facts[id := f]);
    if f.subject !in g.entities then written
    else
      var linked := written.(subjectOf := g.subjectOf + {(f.subject, id)});
      if f.object_ !in g.entities then linked else linked.(objects := g.objects + {(id, f.object_)})
  }

  function MergeMention(g: Graph, id: Id, m: MentionNode): Graph {
    var written := g.(mentions := g.mentions[id := m]);
    if m.chunk !in g.chunks then written else written.(mentionedIn := g.mentionedIn + {(id, m.chunk)})
  }

  /** The fact a payload describes; one without an observation time is observed when projected. */
  function FactOf(p: Payload, now: int): FactNode
    requires p.FactCandidate?
  {
    FactNode(p.subject, p.predicate_, p.object_, p.status, p.evidence, p.validFrom, p.validTo,
             if p.observedAt.Some? then p.observedAt.value else now, p.tenant, p.principals)
  }

  /** The domain model refuses verified facts without evidence and empty validity intervals. */
  predicate Projects(p: Payload) {
    match p
    case Malformed => false
    case FactCandidate(_, _, _, _, status, evidence, from, to, _, _, _) =>
      && (status == Verified ==> evidence != [])
      && (from.Some? && to.Some? ==> from.value < to.value)
    case _ => true
  }

  /** The graph after projecting an event that the domain model accepts. */
  function Project(g: Graph, p: Payload, now: int): Graph
    requires Projects(p)
  {
    match p
    case EntityResolved(id, e) => MergeEntity(g, id, e)
    case EntityMentioned(id, m) => MergeMention(g, id, m)
    case FactCandidate(id, _, _, _, _, _, _, _, _, _, _) => MergeFact(g, id, FactOf(p, now))
    case Unknown => g
  }

  /** The repository whose writes run in a transaction of their own. */
  class GraphRepository {
    var entities: map<Id, EntityNode>
    var facts: map<Id, FactNode>
    var mentions: map<Id, MentionNode>
    var chunks: set<Id>
    var subjectOf: set<(Id, Id)>
    var objects: set<(Id, Id)>
    var mentionedIn: set<(Id, Id)>

    function Snapshot(): Graph
      reads this
    {
      Graph(entities, facts, mentions, chunks, subjectOf, objects, mentionedIn)
    }

    /** Other sessions have left the graph as `g`. */
    method Become(g: Graph)
      modifies this
      ensures Snapshot() == g
    {
      entities, facts, mentions, chunks := g.entities, g.facts, g.mentions, g.chunks;
      subjectOf, objects, mentionedIn := g.subjectOf, g.objects, g.mentionedIn;
    }

    method CreateEntity(id: Id, e: EntityNode)
      modifies this
      ensures Snapshot() == MergeEntity(old(Snapshot()), id, e)
    {
      entities := entities[id := e];
    }

    method CreateFact(id: Id, f: FactNode)
      modifies this
      ensures Snapshot() == MergeFact(old(Snapshot()), id, f)
    {
      facts := facts[id := f];
      if f.subject in entities {
        subjectOf := subjectOf + {(f.subject, id)};
        if f.object_ in entities {
          objects := objects + {(id, f.object_)};
        }
      }
    }

    method CreateMention(id: Id, m: MentionNode)
      modifies this
      ensures Snapshot() == MergeMention(old(Snapshot()), id, m)
    {
      mentions := mentions[id := m];
      if m.chunk in chunks {
        mentionedIn := mentionedIn + {(id, m.chunk)};
      }
    }

    /** Projects one event; a payload that the domain model refuses leaves the graph alone. */
    method ProjectEvent(p: Payload, now: int) returns (ok: bool)
      modifies this
      ensures ok == Projects(p)
      ensures Snapshot() == if ok then Project(old(Snapshot()), p, now) else old(Snapshot())
    {
      if !Projects(p) {
        return false;
      }
      match p {
        case EntityResolved(id, e) => CreateEntity(id, e);
        case EntityMentioned(id, m) => CreateMention(id, m);
        case FactCandidate(id, _, _, _, _, _, _, _, _, _, _) => CreateFact(id, FactOf(p, now));
        case Unknown =>
      }
      ok := true;
    }
  }

  // ------------------------------------------------------------ repeated projection

  /** An event projected at a time. */
  datatype Commit = Commit(payload: Payload, now: int)

  ghost predicate AllProject(cs: seq<Commit>) {
    forall c :: c in cs ==> Projects(c.payload)
  }

  function ProjectAll(g: Graph, cs: seq<Commit>): Graph
    requires AllProject(cs)
  {
    if cs == [] then g
    else
      var last := cs[|cs| - 1];
      assert last in cs;
      Project(ProjectAll(g, cs[..|cs| - 1]), last.payload, last.now)
  }

  lemma ProjectSnoc(g: Graph, cs: seq<Commit>, c: Commit)
    requires AllProject(cs) && Projects(c.payload)
    ensures AllProject(cs + [c]) && ProjectAll(g, cs + [c]) == Project(ProjectAll(g, cs), c.payload, c.now)
  {
    var more := cs + [c];
    assert more[..|more| - 1] == cs;
  }

  predicate Timed(p: Payload) {
    p.FactCandidate? ==> p.observedAt.Some?
  }

  /** Projecting an event again changes nothing, at whatever times, exactly when it brings its own
    * observation time. */
  lemma IdempotentIffTimed(g: Graph, p: Payload)
    requires Projects(p)
    ensures (forall t, u :: Project(Project(g, p, t), p, u) == Project(g, p, t)) <==> Timed(p)
  {
    if Timed(p) {
      forall t, u ensures Project(Project(g, p, t), p, u) == Project(g, p, t) {
        var once := Project(g, p, t);
        match p
        case EntityResolved(id, e) => assert once.entities[id := e] == once.entities;
        case EntityMentioned(id, m) => assert once.mentions[id := m] == once.mentions;
        case FactCandidate(id, _, _, _, _, _, _, _, _, _, _) => assert once.facts[id := FactOf(p, u)] == once.facts;
        case Unknown =>
      }
    } else {
      assert Project(Project(g, p, 0), p, 1).facts[p.id].observedAt == 1;
      assert Project(g, p, 0).facts[p.id].observedAt == 0;
    }
  }

  ghost predicate Grows(g: Graph, h: Graph) {
    && g.entities.Keys <= h.entities.Keys && g.facts.Keys <= h.facts.Keys && g.mentions.Keys <= h.mentions.Keys
    && g.chunks == h.chunks
    && g.subjectOf <= h.subjectOf && g.objects <= h.objects && g.mentionedIn <= h.mentionedIn
  }

  /** No sequence of projections loses a node or an edge. */
  lemma {:induction false} NothingIsLost(g: Graph, cs: seq<Commit>)
    requires AllProject(cs)
    ensures Grows(g, ProjectAll(g, cs))
  {
    if cs != [] {
      NothingIsLost(g, cs[..|cs| - 1]);
    }
  }

  /** The graph holds the node that an event asks for. */
  predicate Shows(g: Graph, p: Payload) {
    match p
    case EntityResolved(id, _) => id in g.entities
    case EntityMentioned(id, _) => id in g.mentions
    case FactCandidate(id, _, _, _, _, _, _, _, _, _, _) => id in g.facts
    case _ => true
  }

  lemma {:induction false} ProjectedNodesStay(g: Graph, cs: seq<Commit>, c: Commit)
    requires AllProject(cs) && c in cs
    ensures Shows(ProjectAll(g, cs), c.payload)
  {
    var init, last := cs[..|cs| - 1], cs[|cs| - 1];
    assert cs == init + [last];
    if c in init {
      ProjectedNodesStay(g, init, c);
    }
  }

  // --------------------------------------------------------------------- nodes

  function Payloads(cs: seq<Commit>): set<Payload> {
    set c | c in cs :: c.payload
  }

  lemma PayloadsSnoc(cs: seq<Commit>, c: Commit)
    ensures Payloads(cs + [c]) == Payloads(cs) + {c.payload}
  {
    forall p | p in Payloads(cs) + {c.payload} ensures p in Payloads(cs + [c]) {
      if p in Payloads(cs) {
        var d :| d in cs && d.payload == p;
        assert d in cs + [c];
      } else {
        assert c in cs + [c];
      }
    }
  }

  /** Events for one identifier carry equal payloads, and facts their observation time. */
  ghost predicate Consistent(ps: set<Payload>) {
    && (forall p :: p in ps ==> Projects(p) && Timed(p))
    && (forall p, q :: p in ps && q in ps && SameNode(p, q) ==> p == q)
  }

  predicate SameNode(p: Payload, q: Payload) {
    || (p.EntityResolved? && q.EntityResolved? && p.id == q.id)
    || (p.EntityMentioned? && q.EntityMentioned? && p.id == q.id)
    || (p.FactCandidate? && q.FactCandidate? && p.id == q.id)
  }

  /** The graph holds the node that an event asks for, with the event's content. */
  predicate Carries(g: Graph, p: Payload) {
    match p
    case EntityResolved(id, e) => id in g.entities && g.entities[id] == e
    case EntityMentioned(id, m) => id in g.mentions && g.mentions[id] == m
    case FactCandidate(id, _, _, _, _, _, _, _, _, _, _) => id in g.facts && g.facts[id] == FactOf(p, 0)
    case _ => true
  }

  /** No other event asks for the same node. */
  ghost predicate Unrivalled(ps: set<Payload>, p: Payload) {
    Timed(p) && forall q :: q in ps && SameNode(p, q) ==> q == p
  }

  /** A projected event's node keeps its content when no other event asks for the same node. */
  lemma {:induction false} ProjectedContentStays(g: Graph, cs: seq<Commit>, c: Commit)
    requires AllProject(cs) && c in cs && Unrivalled(Payloads(cs), c.payload)
    ensures Carries(ProjectAll(g, cs), c.payload)
  {
    var init, last := cs[..|cs| - 1], cs[|cs| - 1];
    assert cs == init + [last];
    PayloadsSnoc(init, last);
    if last.payload != c.payload {
      ProjectedContentStays(g, init, c);
    }
  }

  /** `after` is `before` with all of `writes` written. */
  ghost predicate Overwritten<V>(before: map<Id, V>, writes: set<(Id, V)>, after: map<Id, V>) {
    && (forall id :: id in after <==> id in before || Writes(writes, id))
    && (forall w :: w in writes ==> w.0 in after && after[w.0] == w.1)
    && (forall id :: id in before && !Writes(writes, id) ==> id in after && after[id] == before[id])
  }

  ghost predicate Writes<V>(writes: set<(Id, V)>, id: Id) {
    exists w :: w in writes && w.0 == id
  }

  lemma OverwriteStep<V>(before: map<Id, V>, writes: set<(Id, V)>, after: map<Id, V>, id: Id, v: V)
    requires Overwritten(before, writes, after) && forall w :: w in writes && w.0 == id ==> w.1 == v
    ensures Overwritten(before, writes + {(id, v)}, after[id := v])
  {
    var more := writes + {(id, v)};
    assert (id, v) in more;
    forall i ensures Writes(more, i) <==> Writes(writes, i) || i == id {
      if w :| w in writes && w.0 == i {
        assert w in more;
      }
    }
  }

  lemma OverwrittenUnique<V>(before: map<Id, V>, writes: set<(Id, V)>, m: map<Id, V>, n: map<Id, V>)
    requires Overwritten(before, writes, m) && Overwritten(before, writes, n)
    ensures m == n
  {
    forall id ensures id in m <==> id in n {
    }
    forall id | id in m ensures m[id] == n[id] {
      if w :| w in writes && w.0 == id {
        assert m[w.0] == w.1 == n[w.0];
      }
    }
  }

  function EntityWrites(ps: set<Payload>): set<(Id, EntityNode)> {
    set p | p in ps && p.EntityResolved? :: (p.id, p.entity)
  }

  function FactWrites(ps: set<Payload>): set<(Id, FactNode)> {
    set p | p in ps && p.FactCandidate? :: (p.id, FactOf(p, 0))
  }

  function MentionWrites(ps: set<Payload>): set<(Id, MentionNode)> {
    set p | p in ps && p.EntityMentioned? :: (p.id, p.mention)
  }

  lemma WritesStep(ps: set<Payload>, p: Payload)
    ensures EntityWrites(ps + {p}) == EntityWrites(ps) + if p.EntityResolved? then {(p.id, p.entity)} else {}
    ensures FactWrites(ps + {p}) == FactWrites(ps) + if p.FactCandidate? then {(p.id, FactOf(p, 0))} else {}
    ensures MentionWrites(ps + {p}) == MentionWrites(ps) + if p.EntityMentioned? then {(p.id, p.mention)} else {}
  {
    WritesMonotone(ps, ps + {p});
    assert p in ps + {p};
  }

  lemma WritesMonotone(ps: set<Payload>, qs: set<Payload>)
    requires ps <= qs
    ensures EntityWrites(ps) <= EntityWrites(qs) && FactWrites(ps) <= FactWrites(qs)
    ensures MentionWrites(ps) <= MentionWrites(qs)
  {
    forall w | w in EntityWrites(ps) ensures w in EntityWrites(qs) {
      var p :| p in ps && p.EntityResolved? && w == (p.id, p.entity);
      assert p in qs;
    }
    forall w | w in FactWrites(ps) ensures w in FactWrites(qs) {
      var p :| p in ps && p.FactCandidate? && w == (p.id, FactOf(p, 0));
      assert p in qs;
    }
    forall w | w in MentionWrites(ps) ensures w in MentionWrites(qs) {
      var p :| p in ps && p.EntityMentioned? && w == (p.id, p.mention);
      assert p in qs;
    }
  }

  /** The nodes of `h` are those of `g`, overwritten by what the events bring. */
  ghost predicate NodesAre(g: Graph, ps: set<Payload>, h: Graph) {
    && Overwritten(g.entities, EntityWrites(ps), h.entities)
    && Overwritten(g.facts, FactWrites(ps), h.facts)
    && Overwritten(g.mentions, MentionWrites(ps), h.mentions)
  }

  lemma EntitiesStep(before: map<Id, EntityNode>, ps: set<Payload>, h: Graph, p: Payload, now: int)
    requires Consistent(ps + {p}) && Overwritten(before, EntityWrites(ps), h.entities)
    ensures Overwritten(before, EntityWrites(ps + {p}), Project(h, p, now).entities)
  {
    WritesStep(ps, p);
    if p.EntityResolved? {
      forall w | w in EntityWrites(ps) && w.0 == p.id ensures w.1 == p.entity {
        var q :| q in ps && q.EntityResolved? && w == (q.id, q.entity);
        assert SameNode(p, q);
      }
      OverwriteStep(before, EntityWrites(ps), h.entities, p.id, p.entity);
    }
  }

  lemma FactsStep(before: map<Id, FactNode>, ps: set<Payload>, h: Graph, p: Payload, now: int)
    requires Consistent(ps + {p}) && Overwritten(before, FactWrites(ps), h.facts)
    ensures Overwritten(before, FactWrites(ps + {p}), Project(h, p, now).facts)
  {
    WritesStep(ps, p);
    if p.FactCandidate? {
      forall w | w in FactWrites(ps) && w.0 == p.id ensures w.1 == FactOf(p, 0) {
        var q :| q in ps && q.FactCandidate? && w == (q.id, FactOf(q, 0));
        assert SameNode(p, q);
      }
      assert Timed(p);
      OverwriteStep(before, FactWrites(ps), h.facts, p.id, FactOf(p, 0));
    }
  }

  lemma MentionsStep(before: map<Id, MentionNode>, ps: set<Payload>, h: Graph, p: Payload, now: int)
    requires Consistent(ps + {p}) && Overwritten(before, MentionWrites(ps), h.mentions)
    ensures Overwritten(before, MentionWrites(ps + {p}), Project(h, p, now).mentions)
  {
    WritesStep(ps, p);
    if p.EntityMentioned? {
      forall w | w in MentionWrites(ps) && w.0 == p.id ensures w.1 == p.mention {
        var q :| q in ps && q.EntityMentioned? && w == (q.id, q.mention);
        assert SameNode(p, q);
      }
      OverwriteStep(before, MentionWrites(ps), h.mentions, p.id, p.mention);
    }
  }

  lemma {:induction false} NodesAfter(g: Graph, cs: seq<Commit>)
    requires AllProject(cs) && Consistent(Payloads(cs))
    ensures NodesAre(g, Payloads(cs), ProjectAll(g, cs))
  {
    if cs != [] {
      var init, last := cs[..|cs| - 1], cs[|cs| - 1];
      assert cs == init + [last];
      PayloadsSnoc(init, last);
      NodesAfter(g, init);
      var ps, h := Payloads(init), ProjectAll(g, init);
      EntitiesStep(g.entities, ps, h, last.payload, last.now);
      FactsStep(g.facts, ps, h, last.payload, last.now);
      MentionsStep(g.mentions, ps, h, last.payload, last.now);
    }
  }

  /** The nodes depend only on which events were projected, not on their order, repetition or time. */
  lemma NodesConverge(g: Graph, cs: seq<Commit>, ds: seq<Commit>)
    requires AllProject(cs) && AllProject(ds)
    requires Payloads(cs) == Payloads(ds) && Consistent(Payloads(cs))
    ensures ProjectAll(g, cs).entities == ProjectAll(g, ds).entities
    ensures ProjectAll(g, cs).facts == ProjectAll(g, ds).facts
    ensures ProjectAll(g, cs).mentions == ProjectAll(g, ds).mentions
  {
    NodesAfter(g, cs);
    NodesAfter(g, ds);
    OverwrittenUnique(g.entities, EntityWrites(Payloads(cs)), ProjectAll(g, cs).entities, ProjectAll(g, ds).entities);
    OverwrittenUnique(g.facts, FactWrites(Payloads(cs)), ProjectAll(g, cs).facts, ProjectAll(g, ds).facts);
    OverwrittenUnique(g.mentions, MentionWrites(Payloads(cs)), ProjectAll(g, cs).mentions, ProjectAll(g, ds).mentions);
  }

  // --------------------------------------------------------------------- edges

  datatype Link = SubjectOf(entity: Id, fact: Id) | ObjectOf(fact: Id, entity: Id) | MentionedIn(mention: Id, chunk: Id)

  predicate Has(g: Graph, l: Link) {
    match l
    case SubjectOf(s, f) => (s, f) in g.subjectOf
    case ObjectOf(f, o) => (f, o) in g.objects
    case MentionedIn(m, c) => (m, c) in g.mentionedIn
  }

  /** The edge that a payload asks for, where the graph knows these entities and chunks. */
  predicate Asks(p: Payload, entities: set<Id>, chunks: set<Id>, l: Link) {
    match l
    case SubjectOf(s, f) => p.FactCandidate? && p.id == f && p.subject == s && s in entities
    case ObjectOf(f, o) => p.FactCandidate? && p.id == f && p.object_ == o && p.subject in entities && o in entities
    case MentionedIn(m, c) => p.EntityMentioned? && p.id == m && p.mention.chunk == c && c in chunks
  }

  /** One projection adds exactly the edges that its payload asks for in the graph it finds. */
  lemma ProjectLinks(g: Graph, p: Payload, now: int, l: Link)
    requires Projects(p)
    ensures Has(Project(g, p, now), l) <==> Has(g, l) || Asks(p, g.entities.Keys, g.chunks, l)
  {
  }

  /** Commit `i` asks for an edge whose ends its graph holds. */
  ghost predicate LinkedBy(g: Graph, cs: seq<Commit>, i: nat, l: Link)
    requires AllProject(cs) && i < |cs|
  {
    Asks(cs[i].payload, ProjectAll(g, cs[..i]).entities.Keys, ProjectAll(g, cs[..i]).chunks, l)
  }

  /** Exactly which edges a sequence of projections leaves: an edge to an entity that is projected
    * only later is missing until the fact is projected again. */
  lemma {:induction false} LinksExactly(g: Graph, cs: seq<Commit>, l: Link)
    requires AllProject(cs)
    ensures Has(ProjectAll(g, cs), l) <==> Has(g, l) || exists i: nat :: i < |cs| && LinkedBy(g, cs, i, l)
  {
    if cs != [] {
      var n := |cs| - 1;
      var init := cs[..n];
      LinksExactly(g, init, l);
      ProjectLinks(ProjectAll(g, init), cs[n].payload, cs[n].now, l);
      forall i: nat | i < n ensures LinkedBy(g, init, i, l) <==> LinkedBy(g, cs, i, l) {
        assert init[..i] == cs[..i];
      }
      var last := LinkedBy(g, cs, n, l);
    }
  }

  /** Some commit of `p` comes when all of `ends` are in the graph: from the start or by earlier commits. */
  ghost predicate CommittedAfter(g: Graph, cs: seq<Commit>, p: Payload, ends: set<Id>) {
    exists i: nat :: i < |cs| && cs[i].payload == p && ends <= g.entities.Keys + EntityIds(Payloads(cs[..i]))
  }

  /** The event brings the edge, given the order of the commits. */
  ghost predicate Ties(g: Graph, cs: seq<Commit>, p: Payload, l: Link) {
    match l
    case SubjectOf(s, f) => p.FactCandidate? && p.id == f && p.subject == s && CommittedAfter(g, cs, p, {s})
    case ObjectOf(f, o) => p.FactCandidate? && p.id == f && p.object_ == o && CommittedAfter(g, cs, p, {p.subject, o})
    case MentionedIn(m, c) => p.EntityMentioned? && p.id == m && p.mention.chunk == c && c in g.chunks
                              && CommittedAfter(g, cs, p, {})
  }

  lemma LinkedByTies(g: Graph, cs: seq<Commit>, i: nat, l: Link)
    requires AllProject(cs) && i < |cs| && LinkedBy(g, cs, i, l)
    ensures cs[i].payload in Payloads(cs) && Ties(g, cs, cs[i].payload, l)
  {
    EntityKeys(g, cs[..i]);
    assert cs[i] in cs;
    assert {} <= g.entities.Keys + EntityIds(Payloads(cs[..i]));
  }

  lemma TiesLinked(g: Graph, cs: seq<Commit>, p: Payload, l: Link) returns (i: nat)
    requires AllProject(cs) && Ties(g, cs, p, l)
    ensures i < |cs| && LinkedBy(g, cs, i, l)
  {
    var ends := match l case SubjectOf(s, f) => {s} case ObjectOf(f, o) => {p.subject, o} case MentionedIn(m, c) => {};
    i :| i < |cs| && cs[i].payload == p && ends <= g.entities.Keys + EntityIds(Payloads(cs[..i]));
    EntityKeys(g, cs[..i]);
  }

  /** Some event brings the edge. */
  ghost predicate Brought(g: Graph, cs: seq<Commit>, l: Link) {
    exists p :: p in Payloads(cs) && Ties(g, cs, p, l)
  }

  /** Which edges are there depends on which commits came when the ends were known. */
  lemma EdgesByOrder(g: Graph, cs: seq<Commit>, l: Link)
    requires AllProject(cs)
    ensures Has(ProjectAll(g, cs), l) <==> Has(g, l) || Brought(g, cs, l)
  {
    LinksExactly(g, cs, l);
    if i: nat :| i < |cs| && LinkedBy(g, cs, i, l) {
      LinkedByTies(g, cs, i, l);
    }
    if p :| p in Payloads(cs) && Ties(g, cs, p, l) {
      var i := TiesLinked(g, cs, p, l);
    }
  }

  lemma {:induction false} ProjectAppend(g: Graph, cs: seq<Commit>, ds: seq<Commit>)
    requires AllProject(cs) && AllProject(ds)
    ensures AllProject(cs + ds) && ProjectAll(g, cs + ds) == ProjectAll(ProjectAll(g, cs), ds)
  {
    if ds == [] {
      assert cs + ds == cs;
    } else {
      var n := |ds| - 1;
      assert (cs + ds)[..|cs + ds| - 1] == cs + ds[..n];
      ProjectAppend(g, cs, ds[..n]);
    }
  }

  ghost predicate Wanted(ps: set<Payload>, entities: set<Id>, chunks: set<Id>, l: Link) {
    exists p :: p in ps && Asks(p, entities, chunks, l)
  }

  /** The edges of `h` are those of `g` and those that the events ask for, given all entities of `h`. */
  ghost predicate EdgesAre(g: Graph, ps: set<Payload>, h: Graph) {
    forall l :: Has(h, l) <==> Has(g, l) || Wanted(ps, h.entities.Keys, h.chunks, l)
  }

  function EntityIds(ps: set<Payload>): set<Id> {
    set p | p in ps && p.EntityResolved? :: p.id
  }

  lemma {:induction false} EntityKeys(g: Graph, cs: seq<Commit>)
    requires AllProject(cs)
    ensures ProjectAll(g, cs).entities.Keys == g.entities.Keys + EntityIds(Payloads(cs))
    ensures ProjectAll(g, cs).chunks == g.chunks
  {
    if cs != [] {
      var init, last := cs[..|cs| - 1], cs[|cs| - 1];
      assert cs == init + [last];
      EntityKeys(g, init);
      PayloadsSnoc(init, last);
      EntityIdsStep(Payloads(init), last.payload);
      ProjectKeys(ProjectAll(g, init), last.payload, last.now);
    }
  }

  lemma ProjectKeys(g: Graph, p: Payload, now: int)
    requires Projects(p)
    ensures Project(g, p, now).entities.Keys == g.entities.Keys + if p.EntityResolved? then {p.id} else {}
    ensures Project(g, p, now).chunks == g.chunks
  {
  }

  lemma EntityIdsStep(ps: set<Payload>, p: Payload)
    ensures EntityIds(ps + {p}) == EntityIds(ps) + if p.EntityResolved? then {p.id} else {}
  {
    assert p in ps + {p};
    forall id | id in EntityIds(ps) ensures id in EntityIds(ps + {p}) {
      var q :| q in ps && q.EntityResolved? && q.id == id;
      assert q in ps + {p};
    }
  }

  lemma WantedStep(ps: set<Payload>, p: Payload, entities: set<Id>, chunks: set<Id>, l: Link)
    ensures Wanted(ps + {p}, entities, chunks, l) <==> Wanted(ps, entities, chunks, l) || Asks(p, entities, chunks, l)
  {
    assert p in ps + {p} && forall q :: q in ps ==> q in ps + {p};
  }

  lemma AsksMore(p: Payload, entities: set<Id>, more: set<Id>, chunks: set<Id>, l: Link)
    requires entities <= more && Asks(p, entities, chunks, l)
    ensures Asks(p, more, chunks, l)
  {
  }

  /** A sequence never makes an edge that its events do not ask for. */
  lemma {:induction false} NoOtherEdges(g: Graph, cs: seq<Commit>, known: set<Id>, l: Link)
    requires AllProject(cs) && ProjectAll(g, cs).entities.Keys <= known && Has(ProjectAll(g, cs), l)
    ensures Has(g, l) || Wanted(Payloads(cs), known, g.chunks, l)
  {
    if cs != [] {
      var init, last := cs[..|cs| - 1], cs[|cs| - 1];
      assert cs == init + [last];
      var mid := ProjectAll(g, init);
      EntityKeys(g, init);
      PayloadsSnoc(init, last);
      ProjectLinks(mid, last.payload, last.now, l);
      WantedStep(Payloads(init), last.payload, known, g.chunks, l);
      if Has(mid, l) {
        NoOtherEdges(g, init, known, l);
      } else {
        AsksMore(last.payload, mid.entities.Keys, known, g.chunks, l);
      }
    }
  }

  /** Once all the entities are there, a pass makes every edge that its events ask for. */
  lemma {:induction false} PassMakesEdges(g: Graph, cs: seq<Commit>, l: Link)
    requires AllProject(cs) && EntityIds(Payloads(cs)) <= g.entities.Keys
    requires Wanted(Payloads(cs), g.entities.Keys, g.chunks, l)
    ensures Has(ProjectAll(g, cs), l)
  {
    if cs != [] {
      var init, last := cs[..|cs| - 1], cs[|cs| - 1];
      assert cs == init + [last];
      PayloadsSnoc(init, last);
      EntityIdsStep(Payloads(init), last.payload);
      EntityKeys(g, init);
      ProjectLinks(ProjectAll(g, init), last.payload, last.now, l);
      WantedStep(Payloads(init), last.payload, g.entities.Keys, g.chunks, l);
      if Wanted(Payloads(init), g.entities.Keys, g.chunks, l) {
        PassMakesEdges(g, init, l);
      }
    }
  }

  lemma {:induction false} LinksGrow(g: Graph, cs: seq<Commit>, l: Link)
    requires AllProject(cs) && Has(g, l)
    ensures Has(ProjectAll(g, cs), l)
  {
    NothingIsLost(g, cs);
  }

  /** After two passes over the same events, in any two orders, every edge asked for is there and no other. */
  lemma SecondPassHeals(g: Graph, cs: seq<Commit>, ds: seq<Commit>)
    requires AllProject(cs) && AllProject(ds) && Payloads(cs) == Payloads(ds)
    ensures AllProject(cs + ds) && EdgesAre(g, Payloads(cs), ProjectAll(g, cs + ds))
  {
    var mid := ProjectAll(g, cs);
    var h := ProjectAll(mid, ds);
    ProjectAppend(g, cs, ds);
    EntityKeys(g, cs);
    EntityKeys(mid, ds);
    assert h.entities.Keys == mid.entities.Keys;
    forall l ensures Has(h, l) <==> Has(g, l) || Wanted(Payloads(cs), h.entities.Keys, h.chunks, l) {
      if Has(h, l) {
        NoOtherEdges(mid, ds, h.entities.Keys, l);
        if Has(mid, l) {
          NoOtherEdges(g, cs, h.entities.Keys, l);
        }
      } else {
        if Has(g, l) {
          LinksGrow(g, cs, l);
          LinksGrow(mid, ds, l);
        }
        if Wanted(Payloads(cs), h.entities.Keys, h.chunks, l) {
          PassMakesEdges(mid, ds, l);
        }
      }
    }
  }

  /** The whole graph after two passes depends only on which events were projected. */
  lemma TwoPassesConverge(g: Graph, cs: seq<Commit>, cs': seq<Commit>, ds: seq<Commit>, ds': seq<Commit>)
    requires AllProject(cs) && AllProject(cs') && AllProject(ds) && AllProject(ds')
    requires Payloads(cs) == Payloads(cs') == Payloads(ds) == Payloads(ds') && Consistent(Payloads(cs))
    ensures AllProject(cs + cs') && AllProject(ds + ds') && ProjectAll(g, cs + cs') == ProjectAll(g, ds + ds')
  {
    SecondPassHeals(g, cs, cs');
    SecondPassHeals(g, ds, ds');
    PayloadsConcat(cs, cs');
    PayloadsConcat(ds, ds');
    NodesConverge(g, cs + cs', ds + ds');
    EntityKeys(g, cs + cs');
    EntityKeys(g, ds + ds');
    EdgesUnique(g, Payloads(cs), ProjectAll(g, cs + cs'), ProjectAll(g, ds + ds'));
  }

  lemma EdgesUnique(g: Graph, ps: set<Payload>, h: Graph, k: Graph)
    requires EdgesAre(g, ps, h) && EdgesAre(g, ps, k) && h.entities == k.entities && h.chunks == k.chunks
    ensures h.subjectOf == k.subjectOf && h.objects == k.objects && h.mentionedIn == k.mentionedIn
  {
    forall l ensures Has(h, l) <==> Has(k, l) {
    }
    forall e ensures e in h.subjectOf <==> e in k.subjectOf {
      var l := SubjectOf(e.0, e.1);
      assert e == (e.0, e.1) && (Has(h, l) <==> Has(k, l));
    }
    forall e ensures e in h.objects <==> e in k.objects {
      var l := ObjectOf(e.0, e.1);
      assert e == (e.0, e.1) && (Has(h, l) <==> Has(k, l));
    }
    forall e ensures e in h.mentionedIn <==> e in k.mentionedIn {
      var l := MentionedIn(e.0, e.1);
      assert e == (e.0, e.1) && (Has(h, l) <==> Has(k, l));
    }
  }

  lemma PayloadsConcat(cs: seq<Commit>, ds: seq<Commit>)
    ensures Payloads(cs + ds) == Payloads(cs) + Payloads(ds)
  {
    forall p | p in Payloads(cs) + Payloads(ds) ensures p in Payloads(cs + ds) {
      var c :| c in cs + ds && c.payload == p;
    }
  }

  /** In a graph projected from consistent events, the edges of a fact agree with it. */
  lemma EdgesAgree(g: Graph, cs: seq<Commit>, f: Id, e: Id)
    requires g.facts == map[] && g.subjectOf == {} && g.objects == {}
    requires AllProject(cs) && Consistent(Payloads(cs))
    ensures var h := ProjectAll(g, cs);
            && ((e, f) in h.subjectOf ==> f in h.facts && h.facts[f].subject == e)
            && ((f, e) in h.objects ==> f in h.facts && h.facts[f].object_ == e)
  {
    var h := ProjectAll(g, cs);
    NodesAfter(g, cs);
    if (e, f) in h.subjectOf {
      NoOtherEdges(g, cs, h.entities.Keys, SubjectOf(e, f));
      var p :| p in Payloads(cs) && Asks(p, h.entities.Keys, g.chunks, SubjectOf(e, f));
      FactIsWritten(g, Payloads(cs), h, p);
    }
    if (f, e) in h.objects {
      NoOtherEdges(g, cs, h.entities.Keys, ObjectOf(f, e));
      var p :| p in Payloads(cs) && Asks(p, h.entities.Keys, g.chunks, ObjectOf(f, e));
      FactIsWritten(g, Payloads(cs), h, p);
    }
  }

  lemma FactIsWritten(g: Graph, ps: set<Payload>, h: Graph, p: Payload)
    requires NodesAre(g, ps, h) && p in ps && p.FactCandidate?
    ensures p.id in h.facts && h.facts[p.id] == FactOf(p, 0)
  {
    assert (p.id, FactOf(p, 0)) in FactWrites(ps);
  }

  /** One pass alone is not enough: a fact projected before its subject stays without the edge. */
  lemma OrderMattersForEdges(e: EntityNode)
    ensures var fact := FactCandidate(7, 1, "uses", 1, Candidate, [], None, None, Some(0), "t", []);
            var cs := [Commit(fact, 0), Commit(EntityResolved(1, e), 0)];
            var ds := [Commit(EntityResolved(1, e), 0), Commit(fact, 0)];
            var g := Graph(map[], map[], map[], {}, {}, {}, {});
            && AllProject(cs) && AllProject(ds)
            && ProjectAll(g, cs).subjectOf == {} && ProjectAll(g, ds).subjectOf == {(1, 7)}
  {
    var fact := FactCandidate(7, 1, "uses", 1, Candidate, [], None, None, Some(0), "t", []);
    var entity := EntityResolved(1, e);
    var g := Graph(map[], map[], map[], {}, {}, {}, {});
    var cs, ds := [Commit(fact, 0), Commit(entity, 0)], [Commit(entity, 0), Commit(fact, 0)];
    assert cs[..1] == [Commit(fact, 0)] && ds[..1] == [Commit(entity, 0)];
    assert [Commit(fact, 0)][..0] == [] && [Commit(entity, 0)][..0] == [];
    assert ProjectAll(g, cs[..1]) == Project(g, fact, 0);
    assert ProjectAll(g, ds[..1]) == Project(g, entity, 0);
  }
}
