/** Bounded breadth-first traversal of the knowledge graph from a seed entity.
  *
  * The graph may be cyclic and may hold parallel edges. A fact is expanded once per entity it is met at.
  */
module Traversal {
  import opened Wrappers
  import opened GraphStore

  datatype Fact = Fact(id: Id, node: FactNode)

  /** A match of `(s)-[:SUBJECT_OF]->(f)-[:OBJECT]->(o)`; edges of an overwritten fact may disagree with it. */
  datatype Match = Match(subject: Id, fact: Fact, object_: Id)

  /** `predicates` is the caller's list, of which only the first is used. */
  datatype Query = Query(
    predicates: seq<string>, validAt: Option<int>, maxDepth: int, principal: string, tenant: Option<string>)

  // --------------------------------------------------------------------- fact search

  const LIMIT := 100

  datatype Side = AsSubject | AsObject

  /** The filter of the fact query. An empty predicate or principal is no filter. */
  predicate Selected(q: Query, f: Fact) {
    && (q.predicates != [] && q.predicates[0] != "" ==> f.node.predicate_ == q.predicates[0])
    && f.node.status == Verified
    && (q.tenant.Some? ==> f.node.tenant == q.tenant.value)
    && (q.principal != "" ==> q.principal in f.node.principals || f.node.principals == [])
  }

  /** The first `LIMIT` selected facts among the first `n` matches, in the order of the store. */
  function FindFacts(g: seq<Match>, n: nat, e: Id, side: Side, q: Query): seq<Fact>
    requires n <= |g|
  {
    if n == 0 then []
    else
      var found, m := FindFacts(g, n - 1, e, side, q), g[n - 1];
      var here := if side.AsSubject? then m.subject == e else m.object_ == e;
      if |found| < LIMIT && here && Selected(q, m.fact) then found + [m.fact] else found
  }

  predicate ValidThen(f: Fact, at: Option<int>) {
    at.None?
    || (!(f.node.validFrom.Some? && f.node.validFrom.value > at.value)
        && !(f.node.validTo.Some? && f.node.validTo.value <= at.value))
  }

  ghost predicate ValidUpTo(f: Fact, t: int) {
    forall u :: u <= t ==> ValidThen(f, Some(u))
  }

  ghost predicate ValidFrom(f: Fact, t: int) {
    forall u :: t <= u ==> ValidThen(f, Some(u))
  }

  /** The times at which a fact is valid form an interval, which is empty exactly if the fact ends no later
    * than it starts. It begins at the start, runs up to but not into the end, and is open where they are missing. */
  lemma ValidTimesAreAnInterval(f: Fact)
    ensures ValidThen(f, None)
    ensures var (from, to) := (f.node.validFrom, f.node.validTo);
            && ((exists t :: ValidThen(f, Some(t))) <==> !(from.Some? && to.Some? && to.value <= from.value))
            && (forall t, u, v :: t <= u <= v && ValidThen(f, Some(t)) && ValidThen(f, Some(v)) ==> ValidThen(f, Some(u)))
            && ((exists t :: ValidUpTo(f, t)) <==> from == None) && ((exists t :: ValidFrom(f, t)) <==> to == None)
            && (forall t, u :: ValidThen(f, Some(t)) && !ValidThen(f, Some(u)) && u == t - 1 ==> from == Some(t))
            && (forall t, u :: ValidThen(f, Some(u)) && !ValidThen(f, Some(t)) && u == t - 1 ==> to == Some(t))
  {
    var from, to := f.node.validFrom, f.node.validTo;
    var first := if from.Some? then from.value else if to.Some? then to.value - 1 else 0;
    var last := if to.Some? then to.value - 1 else first;
    assert !(from.Some? && to.Some? && to.value <= from.value) ==> ValidThen(f, Some(first));
    assert from == None ==> ValidUpTo(f, first);
    assert to == None ==> ValidFrom(f, last);
    if from.Some? {
      forall t ensures !ValidUpTo(f, t) {
        assert !ValidThen(f, Some(if t < from.value then t else from.value - 1));
      }
    }
    if to.Some? {
      forall t ensures !ValidFrom(f, t) {
        assert !ValidThen(f, Some(if t > to.value then t else to.value));
      }
    }
  }

  /** A fact to follow and the entity it leads to. */
  datatype Hop = Hop(fact: Fact, next: Id)

  function Outwards(fs: seq<Fact>): (hops: seq<Hop>)
    ensures |hops| == |fs|
  {
    seq(|fs|, i requires 0 <= i < |fs| => Hop(fs[i], fs[i].node.object_))
  }

  function Inwards(fs: seq<Fact>): (hops: seq<Hop>)
    ensures |hops| == |fs|
  {
    seq(|fs|, i requires 0 <= i < |fs| => Hop(fs[i], fs[i].node.subject))
  }

  /** What an entity leads to: facts it is the subject of, then facts it is the object of. */
  function Hops(g: seq<Match>, q: Query, e: Id): seq<Hop> {
    Outwards(FindFacts(g, |g|, e, AsSubject, q)) + Inwards(FindFacts(g, |g|, e, AsObject, q))
  }

  // ---------------------------------------------------------------------- the search

  datatype Found = Found(fact: Fact, at: Id, depth: nat, path: seq<Id>, next: Id)

  datatype Item = Item(id: Id, depth: nat, path: seq<Id>)

  datatype State = State(results: seq<Found>, seen: set<(Id, Id)>, queue: seq<Item>)

  predicate Fresh(s: State, q: Query, e: Id, h: Hop) {
    (e, h.fact.id) !in s.seen && ValidThen(h.fact, q.validAt)
  }

  function Take(s: State, it: Item, h: Hop): State {
    var path := it.path + [h.fact.id];
    State(s.results + [Found(h.fact, it.id, it.depth, path, h.next)], s.seen + {(it.id, h.fact.id)},
          s.queue + [Item(h.next, it.depth + 1, path)])
  }

  /** After the first `k` hops from an entity. */
  function Visit(s: State, q: Query, it: Item, hops: seq<Hop>, k: nat): State
    requires k <= |hops|
  {
    if k == 0 then s
    else
      var t := Visit(s, q, it, hops, k - 1);
      if Fresh(t, q, it.id, hops[k - 1]) then Take(t, it, hops[k - 1]) else t
  }

  /** One round of the loop: the first item of the queue is expanded, unless it is too deep. */
  function Round(g: seq<Match>, q: Query, s: State): State
    requires s.queue != []
  {
    var it, rest := s.queue[0], s.(queue := s.queue[1..]);
    if it.depth > q.maxDepth then rest
    else
      var hops := Hops(g, q, it.id);
      Visit(rest, q, it, hops, |hops|)
  }

  // --------------------------------------------------------------------- termination

  /** Every (entity, fact) pair that a search can meet. */
  function Keys(g: seq<Match>): set<(Id, Id)> {
    (set m | m in g :: (m.subject, m.fact.id)) + (set m | m in g :: (m.object_, m.fact.id))
  }

  lemma {:induction false} FoundIn(g: seq<Match>, n: nat, e: Id, side: Side, q: Query, f: Fact)
    requires n <= |g| && f in FindFacts(g, n, e, side, q)
    ensures Selected(q, f)
    ensures exists m :: m in g && m.fact == f && (if side.AsSubject? then m.subject else m.object_) == e
    ensures (e, f.id) in Keys(g)
  {
    assert n > 0;
    var m := g[n - 1];
    if f in FindFacts(g, n - 1, e, side, q) {
      FoundIn(g, n - 1, e, side, q, f);
    } else {
      assert m in g && m.fact == f;
    }
  }

  /** Every fact that is followed passed the filters of the query and touches the entity it is met at. */
  lemma HopsAreSelected(g: seq<Match>, q: Query, e: Id, h: Hop)
    requires h in Hops(g, q, e)
    ensures Selected(q, h.fact) && (e, h.fact.id) in Keys(g)
    ensures exists m :: m in g && m.fact == h.fact && (m.subject == e || m.object_ == e)
  {
    var outs, ins := FindFacts(g, |g|, e, AsSubject, q), FindFacts(g, |g|, e, AsObject, q);
    var i :| 0 <= i < |outs| + |ins| && Hops(g, q, e)[i] == h;
    if i < |outs| {
      FoundIn(g, |g|, e, AsSubject, q, outs[i]);
    } else {
      FoundIn(g, |g|, e, AsObject, q, ins[i - |outs|]);
    }
  }

  function Unseen(g: seq<Match>, s: State): nat {
    |Keys(g) - s.seen| + |s.queue|
  }

  lemma TakeShrinks(g: seq<Match>, s: State, it: Item, h: Hop)
    requires (it.id, h.fact.id) in Keys(g) && (it.id, h.fact.id) !in s.seen
    ensures Unseen(g, Take(s, it, h)) == Unseen(g, s)
  {
    var key := (it.id, h.fact.id);
    assert Keys(g) - Take(s, it, h).seen == Keys(g) - s.seen - {key};
  }

  lemma {:induction false} VisitShrinks(g: seq<Match>, s: State, q: Query, it: Item, k: nat)
    requires k <= |Hops(g, q, it.id)|
    ensures Unseen(g, Visit(s, q, it, Hops(g, q, it.id), k)) == Unseen(g, s)
  {
    if k != 0 {
      VisitShrinks(g, s, q, it, k - 1);
      var hops := Hops(g, q, it.id);
      var t := Visit(s, q, it, hops, k - 1);
      if Fresh(t, q, it.id, hops[k - 1]) {
        HopsAreSelected(g, q, it.id, hops[k - 1]);
        TakeShrinks(g, t, it, hops[k - 1]);
      }
    }
  }

  /** Every round brings the search closer to its end, also on a cyclic graph. */
  lemma RoundShrinks(g: seq<Match>, q: Query, s: State)
    requires s.queue != []
    ensures Unseen(g, Round(g, q, s)) == Unseen(g, s) - 1
  {
    var it, rest := s.queue[0], s.(queue := s.queue[1..]);
    if it.depth <= q.maxDepth {
      VisitShrinks(g, rest, q, it, |Hops(g, q, it.id)|);
    }
  }

  /** The whole loop: until the queue is empty or there are `cap` results. */
  function Explore(g: seq<Match>, q: Query, s: State, cap: nat): State
    decreases Unseen(g, s)
  {
    if s.queue == [] || |s.results| >= cap then s
    else
      RoundShrinks(g, q, s);
      Explore(g, q, Round(g, q, s), cap)
  }

  function Start(seed: Id): State {
    State([], {}, [Item(seed, 1, [])])
  }

  // ------------------------------------------------------------------------ the code

  const MAX_FACTS := 50

  method IsTemporalValid(f: Fact, validAt: Option<int>) returns (ok: bool)
    ensures ok == ValidThen(f, validAt)
  {
    if validAt.None? {
      return true;
    }
    ok := !(f.node.validFrom.Some? && f.node.validFrom.value > validAt.value)
          && !(f.node.validTo.Some? && f.node.validTo.value <= validAt.value);
  }

  /** One of the two loops over facts: `before` hops of the entity were handled already. */
  method Expand(s: State, q: Query, it: Item, facts: seq<Fact>, side: Side, ghost hops: seq<Hop>, ghost before: nat,
                ghost start: State)
    returns (t: State)
    requires before + |facts| <= |hops| && s == Visit(start, q, it, hops, before)
    requires forall i :: 0 <= i < |facts| ==>
               hops[before + i] == Hop(facts[i], if side.AsSubject? then facts[i].node.object_ else facts[i].node.subject)
    ensures t == Visit(start, q, it, hops, before + |facts|)
  {
    var results, seen, queue := s.results, s.seen, s.queue;
    for i := 0 to |facts|
      invariant State(results, seen, queue) == Visit(start, q, it, hops, before + i)
    {
      var fact := facts[i];
      assert hops[before + i].fact == fact;
      var key := (it.id, fact.id);
      if key in seen {
        continue;
      }
      var valid := IsTemporalValid(fact, q.validAt);
      if !valid {
        continue;
      }
      seen := seen + {key};
      var next := if side.AsSubject? then fact.node.object_ else fact.node.subject;
      var path := it.path + [fact.id];
      results := results + [Found(fact, it.id, it.depth, path, next)];
      queue := queue + [Item(next, it.depth + 1, path)];
    }
    t := State(results, seen, queue);
  }

  method ExpandBothWays(g: seq<Match>, q: Query, s: State, it: Item) returns (t: State)
    ensures t == Visit(s, q, it, Hops(g, q, it.id), |Hops(g, q, it.id)|)
  {
    ghost var hops := Hops(g, q, it.id);
    var facts := FindFacts(g, |g|, it.id, AsSubject, q);
    var factsAsObject := FindFacts(g, |g|, it.id, AsObject, q);
    t := Expand(s, q, it, facts, AsSubject, hops, 0, s);
    t := Expand(t, q, it, factsAsObject, AsObject, hops, |facts|, s);
  }

  method Traverse(g: seq<Match>, q: Query, seed: Id) returns (results: seq<Found>)
    ensures results == Explore(g, q, Start(seed), MAX_FACTS).results
  {
    var s := Start(seed);
    while s.queue != [] && |s.results| < MAX_FACTS
      invariant Explore(g, q, s, MAX_FACTS) == Explore(g, q, Start(seed), MAX_FACTS)
      decreases Unseen(g, s)
    {
      RoundShrinks(g, q, s);
      var it := s.queue[0];
      ghost var before := s;
      s := s.(queue := s.queue[1..]);
      if it.depth <= q.maxDepth {
        s := ExpandBothWays(g, q, s, it);
      }
      assert s == Round(g, q, before);
    }
    results := s.results;
  }

  // ---------------------------------------------------------------- walks in the graph

  /** The first of the first `n` hops that follows a fact: later ones are skipped as seen. */
  function FirstHop(hops: seq<Hop>, n: nat, q: Query, f: Id): Option<Hop>
    requires n <= |hops|
  {
    if n == 0 then None
    else
      match FirstHop(hops, n - 1, q, f)
      case Some(h) => Some(h)
      case None => if hops[n - 1].fact.id == f && ValidThen(hops[n - 1].fact, q.validAt) then Some(hops[n - 1]) else None
  }

  function Follow(g: seq<Match>, q: Query, e: Id, f: Id): Option<Hop> {
    FirstHop(Hops(g, q, e), |Hops(g, q, e)|, q, f)
  }

  /** Where a walk of accepted facts ends, or nothing when it is not a walk from the seed. */
  function End(g: seq<Match>, q: Query, seed: Id, walk: seq<Id>): Option<Id> {
    if walk == [] then Some(seed)
    else
      match End(g, q, seed, walk[..|walk| - 1])
      case None => None
      case Some(e) =>
        match Follow(g, q, e, walk[|walk| - 1])
        case None => None
        case Some(h) => Some(h.next)
  }

  lemma EndSnoc(g: seq<Match>, q: Query, seed: Id, walk: seq<Id>, f: Id)
    ensures End(g, q, seed, walk + [f]) ==
              match End(g, q, seed, walk)
              case None => None
              case Some(e) => if Follow(g, q, e, f).Some? then Some(Follow(g, q, e, f).value.next) else None
  {
    assert (walk + [f])[..|walk|] == walk;
  }

  lemma {:induction false} FirstHopIsHop(hops: seq<Hop>, n: nat, q: Query, f: Id)
    requires n <= |hops| && FirstHop(hops, n, q, f).Some?
    ensures var h := FirstHop(hops, n, q, f).value; h in hops && h.fact.id == f && ValidThen(h.fact, q.validAt)
  {
    if FirstHop(hops, n - 1, q, f).Some? {
      FirstHopIsHop(hops, n - 1, q, f);
    }
  }

  lemma {:induction false} FirstHopExists(hops: seq<Hop>, n: nat, q: Query, h: Hop)
    requires n <= |hops| && h in hops[..n] && ValidThen(h.fact, q.validAt)
    ensures FirstHop(hops, n, q, h.fact.id).Some?
  {
    if h in hops[..n - 1] {
      FirstHopExists(hops, n - 1, q, h);
    } else {
      assert hops[..n] == hops[..n - 1] + [hops[n - 1]];
    }
  }

  lemma {:induction false} FirstHopStays(hops: seq<Hop>, m: nat, n: nat, q: Query, f: Id)
    requires m <= n <= |hops| && FirstHop(hops, m, q, f).Some?
    ensures FirstHop(hops, n, q, f) == FirstHop(hops, m, q, f)
    decreases n
  {
    if m < n {
      FirstHopStays(hops, m, n - 1, q, f);
    }
  }

  // ------------------------------------------------------------------------ soundness

  /** A result is the end of a walk from the seed, as long as it is deep. */
  ghost predicate GoodFound(g: seq<Match>, q: Query, seed: Id, r: Found) {
    && |r.path| == r.depth && 1 <= r.depth <= q.maxDepth
    && End(g, q, seed, r.path[..|r.path| - 1]) == Some(r.at)
    && r.path[|r.path| - 1] == r.fact.id
    && Follow(g, q, r.at, r.fact.id) == Some(Hop(r.fact, r.next))
  }

  ghost predicate GoodItem(g: seq<Match>, q: Query, seed: Id, it: Item) {
    it.depth == |it.path| + 1 && End(g, q, seed, it.path) == Some(it.id)
  }

  ghost predicate Sound(g: seq<Match>, q: Query, seed: Id, s: State) {
    && (forall r :: r in s.results ==> GoodFound(g, q, seed, r))
    && (forall it :: it in s.queue ==> GoodItem(g, q, seed, it))
  }

  /** The seen keys are those of the results, and no key has two results. */
  ghost predicate Keyed(s: State) {
    && (forall r :: r in s.results ==> (r.at, r.fact.id) in s.seen)
    && (forall e, f :: (e, f) in s.seen ==> HasKey(s, e, f))
    && (forall i, j :: 0 <= i < j < |s.results| ==> !SameKey(s.results[i], s.results[j]))
  }

  ghost predicate HasKey(s: State, e: Id, f: Id) {
    exists r :: r in s.results && r.at == e && r.fact.id == f
  }

  predicate SameKey(r: Found, t: Found) {
    r.at == t.at && r.fact.id == t.fact.id
  }

  lemma TakeIsSound(g: seq<Match>, q: Query, seed: Id, s: State, it: Item, h: Hop)
    requires Sound(g, q, seed, s) && GoodItem(g, q, seed, it) && it.depth <= q.maxDepth
    requires Follow(g, q, it.id, h.fact.id) == Some(h)
    ensures Sound(g, q, seed, Take(s, it, h))
  {
    var path := it.path + [h.fact.id];
    EndSnoc(g, q, seed, it.path, h.fact.id);
    assert path[..|path| - 1] == it.path;
  }

  lemma TakeIsKeyed(s: State, it: Item, h: Hop)
    requires Keyed(s) && (it.id, h.fact.id) !in s.seen
    ensures Keyed(Take(s, it, h))
  {
    var t := Take(s, it, h);
    var r := t.results[|s.results|];
    assert r in t.results;
    forall e, f | (e, f) in t.seen ensures HasKey(t, e, f) {
      if (e, f) in s.seen {
        var old_ :| old_ in s.results && old_.at == e && old_.fact.id == f;
        assert old_ in t.results;
      }
    }
    forall i | 0 <= i < |s.results| ensures !SameKey(s.results[i], r) {
      assert s.results[i] in s.results;
    }
  }

  /** Every hop among the first `k` is seen. */
  ghost predicate SeenUpTo(s: State, q: Query, e: Id, hops: seq<Hop>, k: nat)
    requires k <= |hops|
  {
    forall i :: 0 <= i < k && ValidThen(hops[i].fact, q.validAt) ==> (e, hops[i].fact.id) in s.seen
  }

  lemma TakeFreshIsSound(g: seq<Match>, q: Query, seed: Id, t: State, it: Item, hops: seq<Hop>, k: nat)
    requires hops == Hops(g, q, it.id) && 0 < k <= |hops| && Fresh(t, q, it.id, hops[k - 1])
    requires Sound(g, q, seed, t) && Keyed(t) && GoodItem(g, q, seed, it) && it.depth <= q.maxDepth
    requires SeenUpTo(t, q, it.id, hops, k - 1)
    ensures Sound(g, q, seed, Take(t, it, hops[k - 1])) && Keyed(Take(t, it, hops[k - 1]))
  {
    var h := hops[k - 1];
    NotYetFollowed(t, q, it.id, hops, k - 1, h.fact.id);
    FirstHopStays(hops, k, |hops|, q, h.fact.id);
    TakeIsSound(g, q, seed, t, it, h);
    TakeIsKeyed(t, it, h);
  }

  lemma {:induction false} VisitIsSound(g: seq<Match>, q: Query, seed: Id, s: State, it: Item, k: nat)
    requires k <= |Hops(g, q, it.id)|
    requires Sound(g, q, seed, s) && Keyed(s) && GoodItem(g, q, seed, it) && it.depth <= q.maxDepth
    ensures var t := Visit(s, q, it, Hops(g, q, it.id), k);
            Sound(g, q, seed, t) && Keyed(t) && SeenUpTo(t, q, it.id, Hops(g, q, it.id), k)
  {
    if k != 0 {
      VisitIsSound(g, q, seed, s, it, k - 1);
      var hops := Hops(g, q, it.id);
      var t := Visit(s, q, it, hops, k - 1);
      if Fresh(t, q, it.id, hops[k - 1]) {
        TakeFreshIsSound(g, q, seed, t, it, hops, k);
      }
    }
  }

  lemma {:induction false} NotYetFollowed(s: State, q: Query, e: Id, hops: seq<Hop>, k: nat, f: Id)
    requires k <= |hops| && SeenUpTo(s, q, e, hops, k) && (e, f) !in s.seen
    ensures FirstHop(hops, k, q, f) == None
  {
    if k != 0 {
      NotYetFollowed(s, q, e, hops, k - 1, f);
    }
  }

  // ---------------------------------------------------------------------------- order

  /** Depths never decrease along the results and the queue, which spans at most two levels. */
  ghost predicate Ordered(s: State) {
    && (forall i, j :: 0 <= i < j < |s.results| ==> s.results[i].depth <= s.results[j].depth)
    && (forall r, it :: r in s.results && it in s.queue ==> r.depth <= it.depth)
    && (forall i, j :: 0 <= i < j < |s.queue| ==> s.queue[i].depth <= s.queue[j].depth)
    && (forall a, b :: a in s.queue && b in s.queue ==> a.depth <= b.depth + 1)
  }

  /** While items of one depth are expanded: the queue holds that depth and the next. */
  ghost predicate OrderedAt(s: State, d: nat) {
    && (forall i, j :: 0 <= i < j < |s.results| ==> s.results[i].depth <= s.results[j].depth)
    && (forall r :: r in s.results ==> r.depth <= d)
    && (forall i, j :: 0 <= i < j < |s.queue| ==> s.queue[i].depth <= s.queue[j].depth)
    && (forall it :: it in s.queue ==> d <= it.depth <= d + 1)
  }

  lemma TakeIsOrdered(s: State, it: Item, h: Hop)
    requires OrderedAt(s, it.depth)
    ensures OrderedAt(Take(s, it, h), it.depth)
  {
    forall i | 0 <= i < |s.results| ensures s.results[i].depth <= it.depth {
      assert s.results[i] in s.results;
    }
    forall i | 0 <= i < |s.queue| ensures s.queue[i].depth <= it.depth + 1 {
      assert s.queue[i] in s.queue;
    }
  }

  lemma {:induction false} VisitIsOrdered(s: State, q: Query, it: Item, hops: seq<Hop>, k: nat)
    requires k <= |hops| && OrderedAt(s, it.depth)
    ensures OrderedAt(Visit(s, q, it, hops, k), it.depth)
  {
    if k != 0 {
      VisitIsOrdered(s, q, it, hops, k - 1);
      var t := Visit(s, q, it, hops, k - 1);
      if Fresh(t, q, it.id, hops[k - 1]) {
        TakeIsOrdered(t, it, hops[k - 1]);
      }
    }
  }

  lemma PopIsOrdered(s: State)
    requires Ordered(s) && s.queue != []
    ensures OrderedAt(s.(queue := s.queue[1..]), s.queue[0].depth)
  {
    var it, rest := s.queue[0], s.queue[1..];
    assert it in s.queue;
    forall x | x in rest ensures it.depth <= x.depth <= it.depth + 1 {
      assert x in s.queue;
    }
  }

  lemma RoundIsOrdered(g: seq<Match>, q: Query, s: State)
    requires Ordered(s) && s.queue != []
    ensures Ordered(Round(g, q, s))
  {
    var it, rest := s.queue[0], s.(queue := s.queue[1..]);
    PopIsOrdered(s);
    if it.depth <= q.maxDepth {
      VisitIsOrdered(rest, q, it, Hops(g, q, it.id), |Hops(g, q, it.id)|);
    }
  }

  // --------------------------------------------------------------------- completeness

  ghost predicate Reached(s: State, e: Id, f: Id, d: int) {
    exists r :: r in s.results && r.at == e && r.fact.id == f && r.depth <= d
  }

  ghost predicate Covered(g: seq<Match>, q: Query, s: State, e: Id, d: int) {
    d > q.maxDepth || forall h :: h in Hops(g, q, e) && ValidThen(h.fact, q.validAt) ==> Reached(s, e, h.fact.id, d)
  }

  ghost predicate Waiting(s: State, e: Id, d: int) {
    exists it :: it in s.queue && it.id == e && it.depth == d
  }

  /** An entity met at a depth is in the queue, or its facts were found at that depth or before. */
  ghost predicate Owed(g: seq<Match>, q: Query, s: State, e: Id, d: int) {
    Waiting(s, e, d) || Covered(g, q, s, e, d)
  }

  ghost predicate Closed(g: seq<Match>, q: Query, seed: Id, s: State) {
    Owed(g, q, s, seed, 1) && forall r :: r in s.results ==> Owed(g, q, s, r.next, r.depth + 1)
  }

  ghost predicate Inv(g: seq<Match>, q: Query, seed: Id, s: State) {
    Sound(g, q, seed, s) && Keyed(s) && Ordered(s) && Closed(g, q, seed, s)
  }

  lemma {:induction false} VisitGrows(s: State, q: Query, it: Item, hops: seq<Hop>, k: nat)
    requires k <= |hops|
    ensures s.results <= Visit(s, q, it, hops, k).results && s.queue <= Visit(s, q, it, hops, k).queue
    ensures |Visit(s, q, it, hops, k).results| <= |s.results| + k
    ensures forall r :: r in Visit(s, q, it, hops, k).results && r !in s.results ==>
              Waiting(Visit(s, q, it, hops, k), r.next, r.depth + 1)
  {
    if k != 0 {
      VisitGrows(s, q, it, hops, k - 1);
      var t, h := Visit(s, q, it, hops, k - 1), hops[k - 1];
      if Fresh(t, q, it.id, h) {
        TakeGrows(t, it, h);
      }
    }
  }

  lemma TakeGrows(s: State, it: Item, h: Hop)
    ensures s.results <= Take(s, it, h).results && s.queue <= Take(s, it, h).queue
    ensures forall e, d :: Waiting(s, e, d) ==> Waiting(Take(s, it, h), e, d)
    ensures Waiting(Take(s, it, h), h.next, it.depth + 1)
  {
    var t := Take(s, it, h);
    assert t.queue[|s.queue|] in t.queue;
    forall e, d | Waiting(s, e, d) ensures Waiting(t, e, d) {
      var x :| x in s.queue && x.id == e && x.depth == d;
      assert x in t.queue;
    }
  }

  lemma CoveredStays(g: seq<Match>, q: Query, s: State, t: State, e: Id, d: int)
    requires Covered(g, q, s, e, d) && s.results <= t.results
    ensures Covered(g, q, t, e, d)
  {
    if d <= q.maxDepth {
      forall h | h in Hops(g, q, e) && ValidThen(h.fact, q.validAt) ensures Reached(t, e, h.fact.id, d) {
        var r :| r in s.results && r.at == e && r.fact.id == h.fact.id && r.depth <= d;
        assert r in t.results;
      }
    }
  }

  /** Expanding an entity finds everything it leads to. */
  lemma VisitCovers(g: seq<Match>, q: Query, seed: Id, s: State, it: Item)
    requires Sound(g, q, seed, s) && Keyed(s) && OrderedAt(s, it.depth)
    requires GoodItem(g, q, seed, it) && it.depth <= q.maxDepth
    ensures var hops := Hops(g, q, it.id); Covered(g, q, Visit(s, q, it, hops, |hops|), it.id, it.depth)
  {
    var hops := Hops(g, q, it.id);
    var t := Visit(s, q, it, hops, |hops|);
    VisitIsSound(g, q, seed, s, it, |hops|);
    VisitIsOrdered(s, q, it, hops, |hops|);
    forall h | h in hops && ValidThen(h.fact, q.validAt) ensures Reached(t, it.id, h.fact.id, it.depth) {
      var i :| 0 <= i < |hops| && hops[i] == h;
      assert HasKey(t, it.id, h.fact.id);
    }
  }

  lemma PopKeepsRest(g: seq<Match>, q: Query, seed: Id, s: State)
    requires Inv(g, q, seed, s) && s.queue != []
    ensures var rest := s.(queue := s.queue[1..]);
            Sound(g, q, seed, rest) && Keyed(rest) && GoodItem(g, q, seed, s.queue[0])
  {
    assert s.queue[0] in s.queue;
    forall it | it in s.queue[1..] ensures it in s.queue {
    }
  }

  lemma OwedStays(g: seq<Match>, q: Query, seed: Id, s: State, e: Id, d: int)
    requires Inv(g, q, seed, s) && s.queue != [] && Owed(g, q, s, e, d)
    ensures Owed(g, q, Round(g, q, s), e, d)
  {
    var it, rest, t := s.queue[0], s.(queue := s.queue[1..]), Round(g, q, s);
    var hops := Hops(g, q, it.id);
    PopKeepsRest(g, q, seed, s);
    PopIsOrdered(s);
    VisitGrows(rest, q, it, hops, |hops|);
    if Covered(g, q, s, e, d) {
      CoveredStays(g, q, s, t, e, d);
    } else {
      var x :| x in s.queue && x.id == e && x.depth == d;
      if x in s.queue[1..] {
        assert x in t.queue;
      } else {
        assert x == it;
        if it.depth <= q.maxDepth {
          VisitCovers(g, q, seed, rest, it);
        }
      }
    }
  }

  lemma RoundIsClosed(g: seq<Match>, q: Query, seed: Id, s: State)
    requires Inv(g, q, seed, s) && s.queue != []
    ensures Closed(g, q, seed, Round(g, q, s))
  {
    var it, rest, t := s.queue[0], s.(queue := s.queue[1..]), Round(g, q, s);
    OwedStays(g, q, seed, s, seed, 1);
    forall r | r in t.results ensures Owed(g, q, t, r.next, r.depth + 1) {
      if r in s.results {
        OwedStays(g, q, seed, s, r.next, r.depth + 1);
      } else {
        VisitGrows(rest, q, it, Hops(g, q, it.id), |Hops(g, q, it.id)|);
      }
    }
  }

  lemma RoundKeepsInv(g: seq<Match>, q: Query, seed: Id, s: State)
    requires Inv(g, q, seed, s) && s.queue != []
    ensures Inv(g, q, seed, Round(g, q, s))
  {
    RoundIsClosed(g, q, seed, s);
    RoundIsOrdered(g, q, s);
    PopKeepsRest(g, q, seed, s);
    var it, rest := s.queue[0], s.(queue := s.queue[1..]);
    if it.depth <= q.maxDepth {
      VisitIsSound(g, q, seed, rest, it, |Hops(g, q, it.id)|);
    }
  }

  lemma {:induction false} ExploreKeepsInv(g: seq<Match>, q: Query, seed: Id, s: State, cap: nat)
    requires Inv(g, q, seed, s)
    ensures var t := Explore(g, q, s, cap); Inv(g, q, seed, t) && (t.queue == [] || |t.results| >= cap)
    decreases Unseen(g, s)
  {
    if s.queue != [] && |s.results| < cap {
      RoundShrinks(g, q, s);
      RoundKeepsInv(g, q, seed, s);
      ExploreKeepsInv(g, q, seed, Round(g, q, s), cap);
    }
  }

  lemma StartInv(g: seq<Match>, q: Query, seed: Id)
    ensures Inv(g, q, seed, Start(seed))
  {
    var s := Start(seed);
    assert s.queue[0] in s.queue;
    assert Waiting(s, seed, 1);
  }

  // -------------------------------------------------------------------------- theorems

  function Search(g: seq<Match>, q: Query, seed: Id, cap: nat): seq<Found> {
    Explore(g, q, Start(seed), cap).results
  }

  /** Each result is the end of a walk of accepted facts whose length is its depth; results come nearest
    * first; and no (entity, fact) pair comes twice. */
  lemma ResultsAreWalks(g: seq<Match>, q: Query, seed: Id, cap: nat)
    ensures forall r :: r in Search(g, q, seed, cap) ==> GoodFound(g, q, seed, r)
    ensures forall i, j :: 0 <= i < j < |Search(g, q, seed, cap)| ==>
              Search(g, q, seed, cap)[i].depth <= Search(g, q, seed, cap)[j].depth
              && !SameKey(Search(g, q, seed, cap)[i], Search(g, q, seed, cap)[j])
  {
    StartInv(g, q, seed);
    ExploreKeepsInv(g, q, seed, Start(seed), cap);
  }

  /** A fact of the graph that a query accepts. */
  ghost predicate Accepted(g: seq<Match>, q: Query, f: Id) {
    exists m :: m in g && m.fact.id == f && Selected(q, m.fact) && ValidThen(m.fact, q.validAt)
  }

  /** Every fact on the path of a result, not only the last, passed the filters. */
  lemma {:induction false} PathsAreAccepted(g: seq<Match>, q: Query, seed: Id, walk: seq<Id>)
    requires End(g, q, seed, walk).Some?
    ensures forall f :: f in walk ==> Accepted(g, q, f)
  {
    if walk != [] {
      var init, last := walk[..|walk| - 1], walk[|walk| - 1];
      assert walk == init + [last];
      PathsAreAccepted(g, q, seed, init);
      var e := End(g, q, seed, init).value;
      var hops := Hops(g, q, e);
      FirstHopIsHop(hops, |hops|, q, last);
      HopsAreSelected(g, q, e, Follow(g, q, e, last).value);
    }
  }

  /** In an exhausted search every walk that is not too long has its last step among the results, no
    * deeper than the walk is long. */
  lemma {:induction false} WalksAreFound(g: seq<Match>, q: Query, seed: Id, s: State, walk: seq<Id>)
    requires Sound(g, q, seed, s) && Closed(g, q, seed, s) && s.queue == []
    requires 1 <= |walk| <= q.maxDepth && End(g, q, seed, walk).Some?
    ensures Reached(s, End(g, q, seed, walk[..|walk| - 1]).value, walk[|walk| - 1], |walk|)
  {
    var init, f := walk[..|walk| - 1], walk[|walk| - 1];
    if init == [] {
      CoveredReaches(g, q, s, seed, 1, f);
    } else {
      WalksAreFound(g, q, seed, s, init);
      OneStepFurther(g, q, seed, s, init, f);
    }
  }

  lemma OneStepFurther(g: seq<Match>, q: Query, seed: Id, s: State, walk: seq<Id>, f: Id)
    requires Sound(g, q, seed, s) && Closed(g, q, seed, s) && s.queue == [] && |walk| < q.maxDepth
    requires walk != [] && End(g, q, seed, walk).Some? && Follow(g, q, End(g, q, seed, walk).value, f).Some?
    requires Reached(s, End(g, q, seed, walk[..|walk| - 1]).value, walk[|walk| - 1], |walk|)
    ensures Reached(s, End(g, q, seed, walk).value, f, |walk| + 1)
  {
    var r :| r in s.results && r.at == End(g, q, seed, walk[..|walk| - 1]).value && r.fact.id == walk[|walk| - 1]
             && r.depth <= |walk|;
    assert GoodFound(g, q, seed, r);
    assert Owed(g, q, s, r.next, r.depth + 1);
    CoveredReaches(g, q, s, r.next, r.depth + 1, f);
  }

  lemma CoveredReaches(g: seq<Match>, q: Query, s: State, e: Id, d: nat, f: Id)
    requires Covered(g, q, s, e, d) && d <= q.maxDepth && Follow(g, q, e, f).Some?
    ensures Reached(s, e, f, d)
  {
    FirstHopIsHop(Hops(g, q, e), |Hops(g, q, e)|, q, f);
  }

  lemma BelowTheCap(g: seq<Match>, q: Query, seed: Id, cap: nat)
    requires |Search(g, q, seed, cap)| < cap
    ensures var s := Explore(g, q, Start(seed), cap);
            Sound(g, q, seed, s) && Closed(g, q, seed, s) && Ordered(s) && s.queue == []
  {
    StartInv(g, q, seed);
    ExploreKeepsInv(g, q, seed, Start(seed), cap);
  }

  ghost predicate FirstAbout(rs: seq<Found>, i: int, f: Id) {
    0 <= i < |rs| && rs[i].fact.id == f && forall j :: 0 <= j < i ==> rs[j].fact.id != f
  }

  /** A walk of accepted facts from the seed whose last fact is `f`. */
  ghost predicate LeadsTo(g: seq<Match>, q: Query, seed: Id, walk: seq<Id>, f: Id) {
    walk != [] && walk[|walk| - 1] == f && End(g, q, seed, walk).Some?
  }

  /** Below the cap, the first occurrence of a fact carries a walk to it, and none is shorter. */
  lemma NearestWalksFirst(g: seq<Match>, q: Query, seed: Id, cap: nat, i: int, f: Id, walk: seq<Id>)
    requires |Search(g, q, seed, cap)| < cap && FirstAbout(Search(g, q, seed, cap), i, f)
    requires LeadsTo(g, q, seed, walk, f)
    ensures var r := Search(g, q, seed, cap)[i];
            LeadsTo(g, q, seed, r.path, f) && |r.path| == r.depth && r.depth <= |walk|
  {
    BelowTheCap(g, q, seed, cap);
    var s := Explore(g, q, Start(seed), cap);
    FoundLeadsTo(g, q, seed, s, i);
    if |walk| <= q.maxDepth {
      WalksAreFound(g, q, seed, s, walk);
      EarliestIsNearest(s, i, End(g, q, seed, walk[..|walk| - 1]).value, f, |walk|);
    }
  }

  lemma FoundLeadsTo(g: seq<Match>, q: Query, seed: Id, s: State, i: int)
    requires Sound(g, q, seed, s) && 0 <= i < |s.results|
    ensures var r := s.results[i];
            LeadsTo(g, q, seed, r.path, r.fact.id) && |r.path| == r.depth && 1 <= r.depth <= q.maxDepth
  {
    assert s.results[i] in s.results;
    assert GoodFound(g, q, seed, s.results[i]);
  }

  lemma EarliestIsNearest(s: State, i: int, e: Id, f: Id, d: nat)
    requires Ordered(s) && FirstAbout(s.results, i, f) && Reached(s, e, f, d)
    ensures s.results[i].depth <= d
  {
    var r :| r in s.results && r.at == e && r.fact.id == f && r.depth <= d;
    var j :| 0 <= j < |s.results| && s.results[j] == r;
    assert i <= j;
  }

  /** Below the cap, the facts returned are exactly those that some walk of accepted facts of at most
    * `maxDepth` steps leads to. */
  lemma ReachableFactsAreReturned(g: seq<Match>, q: Query, seed: Id, cap: nat, f: Id)
    requires |Search(g, q, seed, cap)| < cap
    ensures (exists r :: r in Search(g, q, seed, cap) && r.fact.id == f)
       <==> (exists walk :: LeadsTo(g, q, seed, walk, f) && |walk| <= q.maxDepth)
  {
    BelowTheCap(g, q, seed, cap);
    var s := Explore(g, q, Start(seed), cap);
    if r :| r in s.results && r.fact.id == f {
      var i :| 0 <= i < |s.results| && s.results[i] == r;
      FoundLeadsTo(g, q, seed, s, i);
    }
    if walk :| LeadsTo(g, q, seed, walk, f) && |walk| <= q.maxDepth {
      WalksAreFound(g, q, seed, s, walk);
    }
  }

  /** The edges agree with the facts, and a fact is one node. */
  ghost predicate Tidy(g: seq<Match>) {
    && (forall m :: m in g ==> m.subject == m.fact.node.subject && m.object_ == m.fact.node.object_)
    && (forall m, n :: m in g && n in g && m.fact.id == n.fact.id ==> m.fact == n.fact)
  }

  lemma TidyHop(g: seq<Match>, q: Query, e: Id, h: Hop)
    requires Tidy(g) && h in Hops(g, q, e)
    ensures e == h.fact.node.subject || e == h.fact.node.object_
    ensures h.next == if e == h.fact.node.subject then h.fact.node.object_ else h.fact.node.subject
  {
    var outs, ins := FindFacts(g, |g|, e, AsSubject, q), FindFacts(g, |g|, e, AsObject, q);
    var i :| 0 <= i < |outs| + |ins| && Hops(g, q, e)[i] == h;
    if i < |outs| {
      FoundIn(g, |g|, e, AsSubject, q, outs[i]);
    } else {
      FoundIn(g, |g|, e, AsObject, q, ins[i - |outs|]);
    }
  }

  /** When edges agree with facts, skipping a seen key skips nothing: the walks are all walks. */
  lemma EveryHopIsFollowed(g: seq<Match>, q: Query, e: Id, h: Hop)
    requires Tidy(g) && h in Hops(g, q, e) && ValidThen(h.fact, q.validAt)
    ensures Follow(g, q, e, h.fact.id) == Some(h)
  {
    var hops := Hops(g, q, e);
    assert hops[..|hops|] == hops;
    FirstHopExists(hops, |hops|, q, h);
    FirstHopIsHop(hops, |hops|, q, h.fact.id);
    var k := Follow(g, q, e, h.fact.id).value;
    HopsAreSelected(g, q, e, h);
    HopsAreSelected(g, q, e, k);
    TidyHop(g, q, e, h);
    TidyHop(g, q, e, k);
  }

  /** A fact is met at its subject and at its object, so no three results are about one fact. */
  lemma AtMostTwice(g: seq<Match>, q: Query, seed: Id, cap: nat, i: int, j: int, k: int)
    requires Tidy(g) && 0 <= i < j < k < |Search(g, q, seed, cap)|
    ensures var rs := Search(g, q, seed, cap); rs[i].fact.id != rs[j].fact.id || rs[j].fact.id != rs[k].fact.id
  {
    var rs := Search(g, q, seed, cap);
    ResultsAreWalks(g, q, seed, cap);
    forall n | n in [i, j, k]
      ensures (rs[n].at == rs[n].fact.node.subject || rs[n].at == rs[n].fact.node.object_)
      ensures exists m :: m in g && m.fact == rs[n].fact
    {
      assert GoodFound(g, q, seed, rs[n]);
      var hops := Hops(g, q, rs[n].at);
      FirstHopIsHop(hops, |hops|, q, rs[n].fact.id);
      HopsAreSelected(g, q, rs[n].at, Hop(rs[n].fact, rs[n].next));
      TidyHop(g, q, rs[n].at, Hop(rs[n].fact, rs[n].next));
    }
    assert i in [i, j, k] && j in [i, j, k] && k in [i, j, k];
  }

  lemma {:induction false} ExploreGrows(g: seq<Match>, q: Query, s: State, cap: nat)
    ensures s.results <= Explore(g, q, s, cap).results
    decreases Unseen(g, s)
  {
    if s.queue != [] && |s.results| < cap {
      RoundShrinks(g, q, s);
      ExploreGrows(g, q, Round(g, q, s), cap);
      RoundGrows(g, q, s);
    }
  }

  lemma {:induction false} FewFacts(g: seq<Match>, n: nat, e: Id, side: Side, q: Query)
    requires n <= |g|
    ensures |FindFacts(g, n, e, side, q)| <= LIMIT
  {
    if n != 0 {
      FewFacts(g, n - 1, e, side, q);
    }
  }

  lemma RoundGrows(g: seq<Match>, q: Query, s: State)
    requires s.queue != []
    ensures s.results <= Round(g, q, s).results && |Round(g, q, s).results| <= |s.results| + 2 * LIMIT
  {
    var it, rest := s.queue[0], s.(queue := s.queue[1..]);
    VisitGrows(rest, q, it, Hops(g, q, it.id), |Hops(g, q, it.id)|);
    FewFacts(g, |g|, it.id, AsSubject, q);
    FewFacts(g, |g|, it.id, AsObject, q);
  }

  /** A smaller cap gives a prefix of what a larger one gives; the cap is checked between entities, so
    * it is overshot by fewer than 200 results. */
  lemma {:induction false} CapCutsAPrefix(g: seq<Match>, q: Query, s: State, cap: nat, more: nat)
    requires cap <= more
    ensures Explore(g, q, s, cap).results <= Explore(g, q, s, more).results
    ensures |s.results| < cap + 2 * LIMIT ==> |Explore(g, q, s, cap).results| < cap + 2 * LIMIT
    decreases Unseen(g, s)
  {
    if s.queue != [] && |s.results| < cap {
      RoundShrinks(g, q, s);
      RoundGrows(g, q, s);
      CapCutsAPrefix(g, q, Round(g, q, s), cap, more);
    } else {
      ExploreGrows(g, q, s, more);
    }
  }

  // ------------------------------------------------------------------- several seeds

  datatype Evidence = Evidence(
    id: Id, source: Id, chunk: Option<Id>, path: seq<Id>, validFrom: Option<int>, validTo: Option<int>,
    principals: seq<string>)

  function EvidenceOf(r: Found): Evidence {
    var f := r.fact.node;
    Evidence(r.fact.id, if f.evidence != [] then f.evidence[0] else r.fact.id,
             if f.evidence != [] then Some(f.evidence[0]) else None, r.path, f.validFrom, f.validTo, f.principals)
  }

  /** The results of the first `n` seeds, one seed after the other. */
  function Gathered(g: seq<Match>, q: Query, seeds: seq<Id>, n: nat): seq<Found>
    requires n <= |seeds|
  {
    if n == 0 then [] else Gathered(g, q, seeds, n - 1) + Search(g, q, seeds[n - 1], MAX_FACTS)
  }

  ghost predicate AboutBefore(rs: seq<Found>, n: nat, f: Id)
    requires n <= |rs|
  {
    exists i :: 0 <= i < n && rs[i].fact.id == f
  }

  /** Evidence for the facts among the first `n` results, each where it first occurs. */
  ghost function FirstPerFact(rs: seq<Found>, n: nat): seq<Evidence>
    requires n <= |rs|
  {
    if n == 0 then []
    else if AboutBefore(rs, n - 1, rs[n - 1].fact.id) then FirstPerFact(rs, n - 1)
    else FirstPerFact(rs, n - 1) + [EvidenceOf(rs[n - 1])]
  }

  lemma {:induction false} OnlyFactsFound(rs: seq<Found>, n: nat, e: Evidence)
    requires n <= |rs| && e in FirstPerFact(rs, n)
    ensures AboutBefore(rs, n, e.id)
  {
    if n != 0 && e in FirstPerFact(rs, n - 1) {
      OnlyFactsFound(rs, n - 1, e);
    }
  }

  /** No fact gives two pieces of evidence, whichever seeds it is found from. */
  lemma {:induction false} EachFactOnce(rs: seq<Found>, n: nat, i: int, j: int)
    requires n <= |rs| && 0 <= i < j < |FirstPerFact(rs, n)|
    ensures FirstPerFact(rs, n)[i].id != FirstPerFact(rs, n)[j].id
  {
    var before := FirstPerFact(rs, n - 1);
    if j < |before| {
      EachFactOnce(rs, n - 1, i, j);
    } else {
      OnlyFactsFound(rs, n - 1, before[i]);
    }
  }

  /** Every fact found gives the evidence of its first occurrence. */
  lemma {:induction false} FirstOccurrenceIsKept(rs: seq<Found>, n: nat, i: nat)
    requires i < n <= |rs| && !AboutBefore(rs, i, rs[i].fact.id)
    ensures EvidenceOf(rs[i]) in FirstPerFact(rs, n)
  {
    if i < n - 1 {
      FirstOccurrenceIsKept(rs, n - 1, i);
    }
  }

  ghost predicate Knows(seen: set<Id>, rs: seq<Found>, n: nat)
    requires n <= |rs|
  {
    forall f :: f in seen <==> AboutBefore(rs, n, f)
  }

  ghost predicate Collected(results: seq<Evidence>, seen: set<Id>, rs: seq<Found>) {
    results == FirstPerFact(rs, |rs|) && Knows(seen, rs, |rs|)
  }

  method AddEvidence(facts: seq<Found>, before: seq<Evidence>, known: set<Id>, ghost gathered: seq<Found>)
    returns (results: seq<Evidence>, seen: set<Id>)
    requires Collected(before, known, gathered)
    ensures Collected(results, seen, gathered + facts)
  {
    results, seen := before, known;
    ghost var all, n := gathered + facts, |gathered|;
    FirstPerFactPrefix(gathered, all, n, known);
    for i := 0 to |facts|
      invariant results == FirstPerFact(all, n + i) && Knows(seen, all, n + i)
    {
      var r := facts[i];
      assert all[n + i] == r;
      if r.fact.id !in seen {
        seen := seen + {r.fact.id};
        results := results + [EvidenceOf(r)];
      }
    }
  }

  method RetrieveEvidence(g: seq<Match>, q: Query, seeds: seq<Id>) returns (results: seq<Evidence>)
    ensures results == FirstPerFact(Gathered(g, q, seeds, |seeds|), |Gathered(g, q, seeds, |seeds|)|)
  {
    results := [];
    var seen: set<Id> := {};
    ghost var gathered: seq<Found> := [];
    for n := 0 to |seeds|
      invariant gathered == Gathered(g, q, seeds, n)
      invariant Collected(results, seen, gathered)
    {
      var facts := Traverse(g, q, seeds[n]);
      results, seen := AddEvidence(facts, results, seen, gathered);
      gathered := gathered + facts;
    }
  }

  lemma {:induction false} FirstPerFactPrefix(rs: seq<Found>, more: seq<Found>, n: nat, seen: set<Id>)
    requires n <= |rs| && rs <= more
    ensures FirstPerFact(rs, n) == FirstPerFact(more, n)
    ensures Knows(seen, rs, n) <==> Knows(seen, more, n)
  {
    forall f ensures AboutBefore(rs, n, f) <==> AboutBefore(more, n, f) {
    }
    if n != 0 {
      FirstPerFactPrefix(rs, more, n - 1, seen);
    }
  }

  // ------------------------------------------------------ over a graph that was projected

  /** A row of `(s)-[:SUBJECT_OF]->(f)-[:OBJECT]->(o)` in a graph. */
  predicate IsMatch(h: Graph, m: Match) {
    && (m.subject, m.fact.id) in h.subjectOf && (m.fact.id, m.object_) in h.objects
    && m.fact.id in h.facts && m.fact.node == h.facts[m.fact.id]
  }

  /** The rows of a graph, each once, in some order. */
  ghost predicate MatchesOf(h: Graph, g: seq<Match>) {
    (forall m :: m in g <==> IsMatch(h, m)) && forall i, j :: 0 <= i < j < |g| ==> g[i] != g[j]
  }

  /** What consistent events leave in a graph that held no fact is tidy, in whatever order and however often they
    * were projected. */
  lemma ProjectedIsTidy(start: Graph, cs: seq<Commit>, g: seq<Match>)
    requires start.facts == map[] && start.subjectOf == {} && start.objects == {}
    requires AllProject(cs) && Consistent(Payloads(cs)) && MatchesOf(ProjectAll(start, cs), g)
    ensures Tidy(g)
  {
    forall m | m in g ensures m.subject == m.fact.node.subject && m.object_ == m.fact.node.object_ {
      EdgesAgree(start, cs, m.fact.id, m.subject);
      EdgesAgree(start, cs, m.fact.id, m.object_);
    }
  }

  /** Only the fact itself asks for its edges. */
  lemma WantedByFact(ps: set<Payload>, entities: set<Id>, chunks: set<Id>, p: Payload)
    requires Consistent(ps) && p in ps && p.FactCandidate?
    ensures Wanted(ps, entities, chunks, SubjectOf(p.subject, p.id)) <==> p.subject in entities
    ensures Wanted(ps, entities, chunks, ObjectOf(p.id, p.object_)) <==> p.subject in entities && p.object_ in entities
  {
    assert Asks(p, entities, chunks, SubjectOf(p.subject, p.id)) <==> p.subject in entities;
    assert Asks(p, entities, chunks, ObjectOf(p.id, p.object_)) <==> p.subject in entities && p.object_ in entities;
    forall q | q in ps && q.FactCandidate? && q.id == p.id ensures q == p {
      assert SameNode(p, q);
    }
  }

  lemma FactRow(start: Graph, ps: set<Payload>, h: Graph, p: Payload)
    requires start.subjectOf == {} && start.objects == {} && EdgesAre(start, ps, h) && p.FactCandidate?
    requires p.id in h.facts && h.facts[p.id] == FactOf(p, 0)
    ensures IsMatch(h, Match(p.subject, Fact(p.id, FactOf(p, 0)), p.object_))
       <==> && Wanted(ps, h.entities.Keys, h.chunks, SubjectOf(p.subject, p.id))
            && Wanted(ps, h.entities.Keys, h.chunks, ObjectOf(p.id, p.object_))
  {
    assert Has(h, SubjectOf(p.subject, p.id)) <==> (p.subject, p.id) in h.subjectOf;
    assert Has(h, ObjectOf(p.id, p.object_)) <==> (p.id, p.object_) in h.objects;
  }

  lemma EdgesAfterTwoPasses(start: Graph, cs: seq<Commit>, ds: seq<Commit>)
    requires AllProject(cs) && AllProject(ds) && Payloads(cs) == Payloads(ds)
    ensures AllProject(cs + ds) && EdgesAre(start, Payloads(cs), ProjectAll(start, cs + ds))
    ensures Payloads(cs + ds) == Payloads(cs)
    ensures ProjectAll(start, cs + ds).entities.Keys == start.entities.Keys + EntityIds(Payloads(cs))
  {
    SecondPassHeals(start, cs, ds);
    PayloadsConcat(cs, ds);
    EntityKeys(start, cs + ds);
  }

  lemma FactAfter(start: Graph, cs: seq<Commit>, p: Payload)
    requires AllProject(cs) && Consistent(Payloads(cs)) && p in Payloads(cs) && p.FactCandidate?
    ensures p.id in ProjectAll(start, cs).facts && ProjectAll(start, cs).facts[p.id] == FactOf(p, 0)
  {
    NodesAfter(start, cs);
    FactIsWritten(start, Payloads(cs), ProjectAll(start, cs), p);
  }

  /** After two passes over consistent events, a fact is a row exactly if both its ends are known entities. */
  lemma FactsAreMatched(start: Graph, cs: seq<Commit>, ds: seq<Commit>, h: Graph, g: seq<Match>, p: Payload)
    requires AllProject(cs) && AllProject(ds) && Payloads(cs) == Payloads(ds) && Consistent(Payloads(cs))
    requires start.subjectOf == {} && start.objects == {}
    requires AllProject(cs + ds) && h == ProjectAll(start, cs + ds) && MatchesOf(h, g)
    requires p in Payloads(cs) && p.FactCandidate?
    ensures Match(p.subject, Fact(p.id, FactOf(p, 0)), p.object_) in g
       <==> p.subject in start.entities.Keys + EntityIds(Payloads(cs))
            && p.object_ in start.entities.Keys + EntityIds(Payloads(cs))
  {
    EdgesAfterTwoPasses(start, cs, ds);
    FactAfter(start, cs + ds, p);
    WantedByFact(Payloads(cs), h.entities.Keys, h.chunks, p);
    FactRow(start, Payloads(cs), h, p);
  }
}
