/** Fusion of vector, keyword and graph evidence, with one result per source. */
module HybridFusion {
  import opened Basics
  import opened Wrappers
  import opened StableSort
  import opened Fusion

  const GRAPH_WEIGHT: real := 1.5

  datatype GraphItem = GraphItem(
    id: Id, source: Id, content: string, path: set<Id>, validFrom: Option<int>, validTo: Option<int>,
    principals: seq<string>)

  /** A dictionary entry; chunks have no graph score, and draw a new evidence identifier. */
  datatype Item = Item(
    evidence: Option<Id>, source: Id, document: Option<Id>, version: Option<Id>, chunk: Option<Id>, content: string,
    vectorScore: Option<real>, keywordScore: Option<real>, graphScore: Option<real>, score: real,
    path: set<Id>, validFrom: Option<int>, validTo: Option<int>, principals: seq<string>)

  datatype RetrievalMethod = ByGraph | ByVector | ByKeyword

  datatype Evidence = Evidence(
    id: Option<Id>, source: Id, document: Option<Id>, version: Option<Id>, chunk: Option<Id>, content: string,
    retrievedBy: RetrievalMethod, vectorScore: Option<real>, path: set<Id>, validFrom: Option<int>,
    validTo: Option<int>, principals: seq<string>)

  /** Adding to a chunk's missing graph score raises; so does evidence whose validity is empty. */
  datatype FusionError = MixedIdentifiers | EmptyValidity

  function ItemScore(it: Item): real {
    it.score
  }

  function ItemSource(it: Item): Id {
    it.source
  }

  // ---------------------------------------------------------------------------- board

  datatype Board = Board(order: seq<Id>, table: map<Id, Item>)

  function PutItem(b: Board, id: Id, it: Item): Board {
    Board(if id in b.table then b.order else b.order + [id], b.table[id := it])
  }

  function FromVector(c: Chunk): Item {
    Item(None, c.source, c.document, c.version, Some(c.id), c.content, c.vectorScore, None, None, 0.0, {}, None, None,
         c.principals)
  }

  function FromKeyword(c: Chunk): Item {
    Item(None, c.source, c.document, c.version, Some(c.id), c.content, None, c.keywordScore, None, 0.0, {}, None, None,
         c.principals)
  }

  function ChunkHit(b: Board, id: Id, new_: Item, rank: nat): Board
    requires rank > 0
  {
    var it := if id in b.table then b.table[id] else new_;
    PutItem(b, id, it.(score := it.score + Recip(RRF_K + rank)))
  }

  function VectorBoard(cs: seq<Chunk>, n: nat): Board
    requires n <= |cs|
  {
    if n == 0 then Board([], map[]) else ChunkHit(VectorBoard(cs, n - 1), cs[n - 1].id, FromVector(cs[n - 1]), n)
  }

  function KeywordBoard(b: Board, cs: seq<Chunk>, n: nat): Board
    requires n <= |cs|
  {
    if n == 0 then b else ChunkHit(KeywordBoard(b, cs, n - 1), cs[n - 1].id, FromKeyword(cs[n - 1]), n)
  }

  function GraphContribution(rank: nat): real
    requires rank > 0
  {
    Recip(RRF_K + rank) * GRAPH_WEIGHT
  }

  function FromGraph(g: GraphItem, rank: nat): Item
    requires rank > 0
  {
    Item(Some(g.id), g.source, None, None, None, g.content, None, None, Some(GraphContribution(rank)),
         GraphContribution(rank), g.path, g.validFrom, g.validTo, g.principals)
  }

  function Earlier(a: Option<int>, b: Option<int>): Option<int> {
    if b.Some? && (a.None? || b.value < a.value) then b else a
  }

  function Later(a: Option<int>, b: Option<int>): Option<int> {
    if b.Some? && (a.None? || b.value > a.value) then b else a
  }

  /** Repeated graph evidence widens the validity and joins the paths. */
  function Merged(it: Item, g: GraphItem, rank: nat): Item
    requires rank > 0 && it.graphScore.Some?
  {
    it.(score := it.score + GraphContribution(rank), graphScore := Some(it.graphScore.value + GraphContribution(rank)),
        path := it.path + g.path, validFrom := Earlier(it.validFrom, g.validFrom), validTo := Later(it.validTo, g.validTo))
  }

  function GraphHit(b: Board, g: GraphItem, rank: nat): Option<Board>
    requires rank > 0
  {
    if g.id !in b.table then Some(PutItem(b, g.id, FromGraph(g, rank)))
    else if b.table[g.id].graphScore.None? then None
    else Some(PutItem(b, g.id, Merged(b.table[g.id], g, rank)))
  }

  function GraphBoard(b: Board, gs: seq<GraphItem>, n: nat): Option<Board>
    requires n <= |gs|
  {
    if n == 0 then Some(b)
    else
      match GraphBoard(b, gs, n - 1)
      case None => None
      case Some(before) => GraphHit(before, gs[n - 1], n)
  }

  function ChunkBoard(vector: seq<Chunk>, keyword: seq<Chunk>): Board {
    KeywordBoard(VectorBoard(vector, |vector|), keyword, |keyword|)
  }

  ghost predicate Orderly(b: Board) {
    && (forall i, j :: 0 <= i < j < |b.order| ==> b.order[i] != b.order[j])
    && (forall id :: id in b.order <==> id in b.table)
    && (forall i :: 0 <= i < |b.order| ==> b.order[i] in b.table)
  }

  lemma PutIsOrderly(b: Board, id: Id, it: Item)
    requires Orderly(b)
    ensures Orderly(PutItem(b, id, it))
  {
    var b' := PutItem(b, id, it);
    forall i | 0 <= i < |b.order| && id !in b.table ensures b.order[i] != id {
      assert b.order[i] in b.order;
    }
    forall j ensures j in b'.order <==> j in b'.table {
      assert j in b'.order <==> j in b.order || j == id;
    }
  }

  function Items(b: Board): (its: seq<Item>)
    requires Orderly(b)
    ensures |its| == |b.order|
  {
    seq(|b.order|, i requires 0 <= i < |b.order| && b.order[i] in b.table => b.table[b.order[i]])
  }

  function BoardScore(b: Board, id: Id): real {
    if id in b.table then b.table[id].score else 0.0
  }

  // ------------------------------------------------------------------- the three passes

  lemma ChunkHitIs(b: Board, id: Id, new_: Item, rank: nat, x: Id)
    requires rank > 0 && Orderly(b) && new_.score == 0.0
    ensures var b' := ChunkHit(b, id, new_, rank);
            && Orderly(b') && (x in b'.table <==> x in b.table || x == id)
            && BoardScore(b', x) == BoardScore(b, x) + if x == id then Recip(RRF_K + rank) else 0.0
  {
    var it := if id in b.table then b.table[id] else new_;
    PutIsOrderly(b, id, it.(score := it.score + Recip(RRF_K + rank)));
  }

  lemma {:induction false} VectorBoardIs(cs: seq<Chunk>, n: nat, id: Id)
    requires n <= |cs|
    ensures var b := VectorBoard(cs, n);
            Orderly(b) && (id in b.table <==> id in Ids(cs)[..n]) && BoardScore(b, id) == Total(Ids(cs), n, id, RRF_K)
  {
    if n != 0 {
      VectorBoardIs(cs, n - 1, id);
      ChunkHitIs(VectorBoard(cs, n - 1), cs[n - 1].id, FromVector(cs[n - 1]), n, id);
      IdsSnoc(cs, n, id);
    }
  }

  lemma {:induction false} KeywordBoardIs(b: Board, cs: seq<Chunk>, n: nat, id: Id)
    requires n <= |cs| && Orderly(b)
    ensures var b' := KeywordBoard(b, cs, n);
            && Orderly(b') && (id in b'.table <==> id in b.table || id in Ids(cs)[..n])
            && BoardScore(b', id) == BoardScore(b, id) + Total(Ids(cs), n, id, RRF_K)
  {
    if n != 0 {
      KeywordBoardIs(b, cs, n - 1, id);
      ChunkHitIs(KeywordBoard(b, cs, n - 1), cs[n - 1].id, FromKeyword(cs[n - 1]), n, id);
      IdsSnoc(cs, n, id);
    }
  }

  lemma ChunkBoardIs(vector: seq<Chunk>, keyword: seq<Chunk>, id: Id)
    ensures var b := ChunkBoard(vector, keyword);
            && Orderly(b) && (id in b.table <==> id in Ids(vector) || id in Ids(keyword))
            && BoardScore(b, id) == Score(vector, keyword, id, RRF_K)
  {
    VectorBoardIs(vector, |vector|, id);
    KeywordBoardIs(VectorBoard(vector, |vector|), keyword, |keyword|, id);
    assert Ids(vector)[..|vector|] == Ids(vector) && Ids(keyword)[..|keyword|] == Ids(keyword);
  }

  /** Items of chunks, which have neither a graph score nor a validity. */
  ghost predicate ChunksOnly(b: Board) {
    forall id :: id in b.table ==>
      b.table[id].chunk == Some(id) && b.table[id].evidence == None && b.table[id].graphScore == None
      && b.table[id].validFrom == None
  }

  lemma {:induction false} VectorBoardHasChunks(cs: seq<Chunk>, n: nat)
    requires n <= |cs|
    ensures ChunksOnly(VectorBoard(cs, n))
  {
    if n != 0 {
      VectorBoardHasChunks(cs, n - 1);
    }
  }

  lemma {:induction false} KeywordBoardHasChunks(b: Board, cs: seq<Chunk>, n: nat)
    requires n <= |cs| && ChunksOnly(b)
    ensures ChunksOnly(KeywordBoard(b, cs, n))
  {
    if n != 0 {
      KeywordBoardHasChunks(b, cs, n - 1);
    }
  }

  function GraphId(g: GraphItem): Id {
    g.id
  }

  function GraphIds(gs: seq<GraphItem>): seq<Id> {
    Mapped(gs, GraphId)
  }

  function PathsOf(gs: seq<GraphItem>, n: nat, id: Id): set<Id>
    requires n <= |gs|
  {
    if n == 0 then {} else PathsOf(gs, n - 1, id) + if gs[n - 1].id == id then gs[n - 1].path else {}
  }

  function EarliestOf(gs: seq<GraphItem>, n: nat, id: Id): Option<int>
    requires n <= |gs|
  {
    if n == 0 then None
    else if gs[n - 1].id == id then Earlier(EarliestOf(gs, n - 1, id), gs[n - 1].validFrom)
    else EarliestOf(gs, n - 1, id)
  }

  function LatestOf(gs: seq<GraphItem>, n: nat, id: Id): Option<int>
    requires n <= |gs|
  {
    if n == 0 then None
    else if gs[n - 1].id == id then Later(LatestOf(gs, n - 1, id), gs[n - 1].validTo)
    else LatestOf(gs, n - 1, id)
  }

  /** The first piece of evidence with this identifier, which says where it comes from. */
  function FirstPiece(gs: seq<GraphItem>, n: nat, id: Id): Option<GraphItem>
    requires n <= |gs|
  {
    if n == 0 then None
    else if FirstPiece(gs, n - 1, id).Some? then FirstPiece(gs, n - 1, id)
    else if gs[n - 1].id == id then Some(gs[n - 1])
    else None
  }

  lemma {:induction false} NothingYet(gs: seq<GraphItem>, n: nat, id: Id)
    requires n <= |gs| && id !in GraphIds(gs)[..n]
    ensures PathsOf(gs, n, id) == {} && EarliestOf(gs, n, id) == None && LatestOf(gs, n, id) == None
    ensures FirstPiece(gs, n, id) == None
  {
    if n != 0 {
      GraphIdsSnoc(gs, n, id);
      NothingYet(gs, n - 1, id);
    }
  }

  lemma GraphIdsSnoc(gs: seq<GraphItem>, n: nat, id: Id)
    requires 0 < n <= |gs|
    ensures GraphIds(gs)[n - 1] == gs[n - 1].id
    ensures id in GraphIds(gs)[..n] <==> id in GraphIds(gs)[..n - 1] || id == gs[n - 1].id
  {
    assert GraphIds(gs)[..n] == GraphIds(gs)[..n - 1] + [gs[n - 1].id];
  }

  ghost predicate Clash(b: Board, gs: seq<GraphItem>, n: nat)
    requires n <= |gs|
  {
    exists i :: 0 <= i < n && gs[i].id in b.table
  }

  predicate DescribedBy(it: Item, piece: Option<GraphItem>) {
    && piece.Some? && it.source == piece.value.source && it.content == piece.value.content
    && it.principals == piece.value.principals
    && it.document == None && it.version == None && it.chunk == None && it.vectorScore == None && it.keywordScore == None
  }

  /** What the graph pass makes of one identifier: a chunk's item stays, a fact's item joins its evidence. */
  ghost predicate GraphEntry(b: Board, b': Board, gs: seq<GraphItem>, n: nat, id: Id)
    requires n <= |gs|
  {
    && (id in b'.table <==> id in b.table || id in GraphIds(gs)[..n])
    && BoardScore(b', id) == BoardScore(b, id) + GRAPH_WEIGHT * Total(GraphIds(gs), n, id, RRF_K)
    && (id in b.table ==> b'.table[id] == b.table[id])
    && (id in b'.table && id !in b.table ==>
          && DescribedBy(b'.table[id], FirstPiece(gs, n, id))
          && b'.table[id].graphScore == Some(b'.table[id].score) && b'.table[id].evidence == Some(id)
          && b'.table[id].path == PathsOf(gs, n, id)
          && b'.table[id].validFrom == EarliestOf(gs, n, id) && b'.table[id].validTo == LatestOf(gs, n, id))
  }

  lemma GraphHitIs(b: Board, mid: Board, gs: seq<GraphItem>, n: nat, id: Id)
    requires 0 < n <= |gs| && ChunksOnly(b) && Orderly(mid)
    requires GraphEntry(b, mid, gs, n - 1, id) && GraphEntry(b, mid, gs, n - 1, gs[n - 1].id)
    ensures GraphHit(mid, gs[n - 1], n).None? <==> gs[n - 1].id in b.table
    ensures GraphHit(mid, gs[n - 1], n).Some? ==>
              Orderly(GraphHit(mid, gs[n - 1], n).value) && GraphEntry(b, GraphHit(mid, gs[n - 1], n).value, gs, n, id)
  {
    var g := gs[n - 1];
    GraphIdsSnoc(gs, n, id);
    if g.id !in mid.table {
      NothingYet(gs, n - 1, g.id);
      PutIsOrderly(mid, g.id, FromGraph(g, n));
    } else if mid.table[g.id].graphScore.Some? {
      PutIsOrderly(mid, g.id, Merged(mid.table[g.id], g, n));
    }
  }

  lemma ClashNext(b: Board, gs: seq<GraphItem>, n: nat)
    requires 0 < n <= |gs|
    ensures Clash(b, gs, n) <==> Clash(b, gs, n - 1) || gs[n - 1].id in b.table
  {
  }

  /** The graph pass raises exactly when some graph evidence shares its identifier with a chunk. */
  lemma {:induction false} GraphBoardIs(b: Board, gs: seq<GraphItem>, n: nat, id: Id)
    requires n <= |gs| && Orderly(b) && ChunksOnly(b)
    ensures GraphBoard(b, gs, n).None? <==> Clash(b, gs, n)
    ensures GraphBoard(b, gs, n).Some? ==>
              Orderly(GraphBoard(b, gs, n).value) && GraphEntry(b, GraphBoard(b, gs, n).value, gs, n, id)
  {
    if n != 0 {
      GraphBoardIs(b, gs, n - 1, id);
      GraphBoardIs(b, gs, n - 1, gs[n - 1].id);
      ClashNext(b, gs, n);
      match GraphBoard(b, gs, n - 1)
      case None =>
      case Some(before) =>
        assert GraphBoard(b, gs, n) == GraphHit(before, gs[n - 1], n);
        GraphHitIs(b, before, gs, n, id);
    }
  }

  // ---------------------------------------------------------------------------- result

  function MethodOf(it: Item): RetrievalMethod {
    if it.graphScore.Some? && it.graphScore.value != 0.0 then ByGraph
    else if it.vectorScore.Some? && it.vectorScore.value != 0.0 then ByVector
    else ByKeyword
  }

  predicate NeverValid(it: Item) {
    it.validFrom.Some? && it.validTo.Some? && it.validTo.value <= it.validFrom.value
  }

  function EvidenceOf(it: Item): Evidence {
    Evidence(it.evidence, it.source, it.document, it.version, it.chunk, it.content, MethodOf(it), it.vectorScore, it.path,
             it.validFrom, it.validTo, it.principals)
  }

  function Ranked(b: Board): seq<Item>
    requires Orderly(b)
  {
    Sort(Items(b), |b.order|, ItemScore)
  }

  /** The items that are kept: the first of each source in the ranking. */
  ghost function Kept(b: Board): seq<Item>
    requires Orderly(b)
  {
    SortLength(Items(b), |b.order|, ItemScore);
    FirstOfKind(Ranked(b), |b.order|, ItemSource)
  }

  ghost predicate Reports(b: Board, r: Result<seq<Evidence>, FusionError>)
    requires Orderly(b)
  {
    if exists it :: it in Kept(b) && NeverValid(it) then r == Err(EmptyValidity)
    else
      && r.Ok? && |r.value| == |Kept(b)|
      && forall i :: 0 <= i < |Kept(b)| ==> r.value[i] == EvidenceOf(Kept(b)[i])
  }

  method CountVectorItems(vector: seq<Chunk>) returns (order: seq<Id>, table: map<Id, Item>)
    ensures Board(order, table) == VectorBoard(vector, |vector|)
  {
    order, table := [], map[];
    for i := 0 to |vector|
      invariant Board(order, table) == VectorBoard(vector, i)
    {
      var c := vector[i];
      if c.id !in table {
        order := order + [c.id];
        table := table[c.id := FromVector(c)];
      }
      table := table[c.id := table[c.id].(score := table[c.id].score + Recip(RRF_K + (i + 1)))];
    }
  }

  method CountKeywordItems(b: Board, keyword: seq<Chunk>) returns (order: seq<Id>, table: map<Id, Item>)
    ensures Board(order, table) == KeywordBoard(b, keyword, |keyword|)
  {
    order, table := b.order, b.table;
    for i := 0 to |keyword|
      invariant Board(order, table) == KeywordBoard(b, keyword, i)
    {
      var c := keyword[i];
      if c.id !in table {
        order := order + [c.id];
        table := table[c.id := FromKeyword(c)];
      }
      table := table[c.id := table[c.id].(score := table[c.id].score + Recip(RRF_K + (i + 1)))];
    }
  }

  method CountGraphItems(b: Board, graph: seq<GraphItem>) returns (r: Option<Board>)
    ensures r == GraphBoard(b, graph, |graph|)
  {
    var order, table := b.order, b.table;
    for i := 0 to |graph|
      invariant GraphBoard(b, graph, i) == Some(Board(order, table))
    {
      var g := graph[i];
      if g.id !in table {
        order := order + [g.id];
        table := table[g.id := FromGraph(g, i + 1)];
      } else if table[g.id].graphScore.None? {
        GraphFailsForGood(b, graph, i + 1, |graph|);
        return None;
      } else {
        table := table[g.id := Merged(table[g.id], g, i + 1)];
      }
    }
    r := Some(Board(order, table));
  }

  lemma {:induction false} GraphFailsForGood(b: Board, gs: seq<GraphItem>, m: nat, n: nat)
    requires m <= n <= |gs| && GraphBoard(b, gs, m) == None
    ensures GraphBoard(b, gs, n) == None
    decreases n - m
  {
    if m < n {
      assert GraphBoard(b, gs, m + 1) == None;
      GraphFailsForGood(b, gs, m + 1, n);
    }
  }

  method OnePerSource(ranked: seq<Item>) returns (r: Result<seq<Evidence>, FusionError>)
    ensures var kept := FirstOfKind(ranked, |ranked|, ItemSource);
            if exists it :: it in kept && NeverValid(it) then r == Err(EmptyValidity)
            else r.Ok? && |r.value| == |kept| && forall i :: 0 <= i < |kept| ==> r.value[i] == EvidenceOf(kept[i])
  {
    var found: seq<Evidence> := [];
    var seen: set<Id> := {};
    for n := 0 to |ranked|
      invariant forall x :: x in seen <==> KindBefore(ranked, n, ItemSource, x)
      invariant |found| == |FirstOfKind(ranked, n, ItemSource)|
      invariant forall i :: 0 <= i < |found| ==> found[i] == EvidenceOf(FirstOfKind(ranked, n, ItemSource)[i])
      invariant forall it :: it in FirstOfKind(ranked, n, ItemSource) ==> !NeverValid(it)
    {
      var it := ranked[n];
      assert ItemSource(it) == it.source;
      if it.source !in seen {
        seen := seen + {it.source};
        if NeverValid(it) {
          FirstOfKindGrows(ranked, n + 1, |ranked|);
          assert it in FirstOfKind(ranked, n + 1, ItemSource);
          return Err(EmptyValidity);
        }
        found := found + [EvidenceOf(it)];
      }
    }
    r := Ok(found);
  }

  lemma {:induction false} FirstOfKindGrows(s: seq<Item>, m: nat, n: nat)
    requires m <= n <= |s|
    ensures FirstOfKind(s, m, ItemSource) <= FirstOfKind(s, n, ItemSource)
    decreases n
  {
    if m < n {
      FirstOfKindGrows(s, m, n - 1);
    }
  }

  method HybridRrfFusion(vector: seq<Chunk>, keyword: seq<Chunk>, graph: seq<GraphItem>)
    returns (r: Result<seq<Evidence>, FusionError>)
    ensures match GraphBoard(ChunkBoard(vector, keyword), graph, |graph|)
            case None => r == Err(MixedIdentifiers)
            case Some(b) => Orderly(b) && Reports(b, r)
    ensures r == Err(MixedIdentifiers) <==> SharesIdentifier(vector, keyword, graph)
    ensures r == Err(EmptyValidity) <==> !SharesIdentifier(vector, keyword, graph) && EmptiedLeads(vector, keyword, graph)
  {
    var order, table := CountVectorItems(vector);
    order, table := CountKeywordItems(Board(order, table), keyword);
    var counted := CountGraphItems(Board(order, table), graph);
    MixedIdentifiersRaise(vector, keyword, graph);
    if counted.None? {
      return Err(MixedIdentifiers);
    }
    BoardIsOrderly(vector, keyword, graph);
    var b := counted.value;
    var ranked := Ranked(b);
    r := OnePerSource(ranked);
    SortLength(Items(b), |b.order|, ItemScore);
    EmptyValidityRaises(vector, keyword, graph, b, r);
  }

  lemma BoardIsOrderly(vector: seq<Chunk>, keyword: seq<Chunk>, graph: seq<GraphItem>)
    ensures Orderly(ChunkBoard(vector, keyword)) && ChunksOnly(ChunkBoard(vector, keyword))
    ensures var r := GraphBoard(ChunkBoard(vector, keyword), graph, |graph|); r.Some? ==> Orderly(r.value)
  {
    ChunkBoardIs(vector, keyword, 0);
    VectorBoardHasChunks(vector, |vector|);
    KeywordBoardHasChunks(VectorBoard(vector, |vector|), keyword, |keyword|);
    GraphBoardIs(ChunkBoard(vector, keyword), graph, |graph|, 0);
  }

  // -------------------------------------------------------------------------- theorems

  ghost predicate SharesIdentifier(vector: seq<Chunk>, keyword: seq<Chunk>, graph: seq<GraphItem>) {
    exists g :: g in graph && (g.id in Ids(vector) || g.id in Ids(keyword))
  }

  /** The fusion raises over mixed identifiers exactly when graph evidence shares its own with a chunk. */
  lemma MixedIdentifiersRaise(vector: seq<Chunk>, keyword: seq<Chunk>, graph: seq<GraphItem>)
    ensures GraphBoard(ChunkBoard(vector, keyword), graph, |graph|).None? <==> SharesIdentifier(vector, keyword, graph)
  {
    var b := ChunkBoard(vector, keyword);
    BoardIsOrderly(vector, keyword, graph);
    GraphBoardIs(b, graph, |graph|, 0);
    forall g | g in graph ensures g.id in b.table <==> g.id in Ids(vector) || g.id in Ids(keyword) {
      ChunkBoardIs(vector, keyword, g.id);
    }
    if i :| 0 <= i < |graph| && graph[i].id in b.table {
      assert graph[i] in graph;
    }
  }

  /** The sum over the ranks of an identifier, graph ranks weighing half as much again. */
  function FinalScore(vector: seq<Chunk>, keyword: seq<Chunk>, graph: seq<GraphItem>, id: Id): real {
    Score(vector, keyword, id, RRF_K) + GRAPH_WEIGHT * Total(GraphIds(graph), |graph|, id, RRF_K)
  }

  /** The score of an identifier adds up all its ranks, those of graph evidence half as much again. */
  lemma FinalScores(vector: seq<Chunk>, keyword: seq<Chunk>, graph: seq<GraphItem>, id: Id)
    requires GraphBoard(ChunkBoard(vector, keyword), graph, |graph|).Some?
    ensures var b := GraphBoard(ChunkBoard(vector, keyword), graph, |graph|).value;
            && (id in b.table <==> id in Ids(vector) || id in Ids(keyword) || id in GraphIds(graph))
            && BoardScore(b, id) == FinalScore(vector, keyword, graph, id)
  {
    BoardIsOrderly(vector, keyword, graph);
    ChunkBoardIs(vector, keyword, id);
    GraphBoardIs(ChunkBoard(vector, keyword), graph, |graph|, id);
    assert GraphIds(graph)[..|graph|] == GraphIds(graph);
  }

  /** Exactly one item per source is kept, none of its source scores more, and they come highest first. */
  lemma OneBestPerSource(b: Board)
    requires Orderly(b)
    ensures Distinct(Kept(b), ItemSource) && Descending(Kept(b), ItemScore)
    ensures forall id :: id in b.table ==> HasBest(b, b.table[id])
    ensures forall it :: it in Kept(b) ==> exists id :: id in b.table && b.table[id] == it
  {
    var items, ranked, n := Items(b), Ranked(b), |b.order|;
    SortLength(items, n, ItemScore);
    SortIsDescending(items, n, ItemScore);
    FirstOfKindIsDistinct(ranked, n, ItemSource);
    FirstOfKindIsDescending(ranked, n, ItemSource, ItemScore);
    assert ranked[..n] == ranked && items[..n] == items;
    forall id | id in b.table ensures HasBest(b, b.table[id]) {
      var i :| 0 <= i < n && b.order[i] == id;
      SortKeepsMembers(items, n, ItemScore, items[i]);
      assert items[i] in items;
      BestOfKind(b, items[i]);
    }
    forall it | it in Kept(b) ensures exists id :: id in b.table && b.table[id] == it {
      FirstOfKindIsPart(ranked, n, ItemSource, it);
      SortKeepsMembers(items, n, ItemScore, it);
      var i :| 0 <= i < n && items[i] == it;
      assert b.order[i] in b.table;
    }
  }

  /** Some kept item has the source of `it` and scores at least as much. */
  ghost predicate HasBest(b: Board, it: Item)
    requires Orderly(b)
  {
    exists best :: best in Kept(b) && best.source == it.source && best.score >= it.score
  }

  lemma BestOfKind(b: Board, it: Item)
    requires Orderly(b) && it in Ranked(b)
    ensures HasBest(b, it)
  {
    var ranked, n := Ranked(b), |b.order|;
    SortLength(Items(b), n, ItemScore);
    SortIsDescending(Items(b), n, ItemScore);
    assert ranked[..n] == ranked;
    var j :| 0 <= j < n && ranked[j] == it;
    assert ItemSource(ranked[j]) == it.source;
    FirstOfKindCovers(ranked, n, ItemSource, it.source);
    var best :| best in FirstOfKind(ranked, n, ItemSource) && ItemSource(best) == it.source;
    FirstOfKindIsBest(ranked, n, ItemSource, ItemScore, best, it);
    assert best in Kept(b) && ItemScore(best) >= ItemScore(it);
  }

  // ------------------------------------------------------- agreement with two-way fusion

  predicate SameChunk(f: Fused, it: Item) {
    it.chunk == Some(f.id) && it.source == f.source && it.content == f.content && it.document == f.document
    && it.version == f.version && it.principals == f.principals && it.score == f.score
  }

  ghost predicate SameBoard(t: Tally, b: Board) {
    && t.order == b.order && t.table.Keys == b.table.Keys
    && forall id :: id in t.table ==> SameChunk(t.table[id], b.table[id])
  }

  lemma HitsAgree(t: Tally, b: Board, c: Chunk, rank: nat)
    requires SameBoard(t, b) && rank > 0
    ensures SameBoard(VectorHit(t, c, rank, RRF_K), ChunkHit(b, c.id, FromVector(c), rank))
    ensures SameBoard(KeywordHit(t, c, rank, RRF_K), ChunkHit(b, c.id, FromKeyword(c), rank))
  {
  }

  lemma {:induction false} VectorPassesAgree(cs: seq<Chunk>, n: nat)
    requires n <= |cs|
    ensures SameBoard(VectorPass(cs, n, RRF_K), VectorBoard(cs, n))
  {
    if n != 0 {
      VectorPassesAgree(cs, n - 1);
      HitsAgree(VectorPass(cs, n - 1, RRF_K), VectorBoard(cs, n - 1), cs[n - 1], n);
    }
  }

  lemma {:induction false} KeywordPassesAgree(t: Tally, b: Board, cs: seq<Chunk>, n: nat)
    requires n <= |cs| && SameBoard(t, b)
    ensures SameBoard(KeywordPass(t, cs, n, RRF_K), KeywordBoard(b, cs, n))
  {
    if n != 0 {
      KeywordPassesAgree(t, b, cs, n - 1);
      HitsAgree(KeywordPass(t, cs, n - 1, RRF_K), KeywordBoard(b, cs, n - 1), cs[n - 1], n);
    }
  }

  function FusedSource(f: Fused): Id {
    f.source
  }

  /** Without graph evidence, the hybrid fusion keeps the chunks of the two-way fusion, in its order, that
    * are the first of their source there. */
  lemma WithoutGraphItIsTwoWayFusion(vector: seq<Chunk>, keyword: seq<Chunk>)
    ensures Orderly(ChunkBoard(vector, keyword))
    ensures GraphBoard(ChunkBoard(vector, keyword), [], 0) == Some(ChunkBoard(vector, keyword))
    ensures var fused := Fuse(vector, keyword, RRF_K);
            var firsts := FirstOfKind(fused, |fused|, FusedSource);
            var kept := Kept(ChunkBoard(vector, keyword));
            |kept| == |firsts| && forall i :: 0 <= i < |kept| ==> SameChunk(firsts[i], kept[i])
  {
    var t, b := Tallied(vector, keyword, RRF_K), ChunkBoard(vector, keyword);
    BoardIsOrderly(vector, keyword, []);
    TalliedIs(vector, keyword, RRF_K, 0);
    VectorPassesAgree(vector, |vector|);
    KeywordPassesAgree(VectorPass(vector, |vector|, RRF_K), VectorBoard(vector, |vector|), keyword, |keyword|);
    var es, its, n := Entries(t), Items(b), |b.order|;
    SortMatches(es, ScoreOf, its, ItemScore, n, SameChunk);
    FirstOfKindMatches(Sort(es, n, ScoreOf), FusedSource, Sort(its, n, ItemScore), ItemSource, n, SameChunk);
  }

  // ------------------------------------------------------------- which items are kept

  /** An item carries the identifier it is stored under. */
  predicate Identified(it: Item, id: Id) {
    it.chunk == Some(id) || (it.chunk == None && it.evidence == Some(id))
  }

  lemma FinalEntry(vector: seq<Chunk>, keyword: seq<Chunk>, graph: seq<GraphItem>, b: Board, id: Id)
    requires GraphBoard(ChunkBoard(vector, keyword), graph, |graph|) == Some(b)
    ensures Orderly(b) && ChunksOnly(ChunkBoard(vector, keyword))
    ensures GraphEntry(ChunkBoard(vector, keyword), b, graph, |graph|, id)
    ensures id in b.table ==> Identified(b.table[id], id)
  {
    BoardIsOrderly(vector, keyword, graph);
    GraphBoardIs(ChunkBoard(vector, keyword), graph, |graph|, id);
  }

  /** The identifiers in the order of their first appearance. */
  function Firsts(ids: seq<Id>, n: nat): seq<Id>
    requires n <= |ids|
  {
    if n == 0 then []
    else if ids[n - 1] in Firsts(ids, n - 1) then Firsts(ids, n - 1)
    else Firsts(ids, n - 1) + [ids[n - 1]]
  }

  /** The source that came with the first appearance of an identifier. */
  function FirstSource(ids: seq<Id>, sources: seq<Id>, n: nat, id: Id): Option<Id>
    requires n <= |ids| == |sources|
  {
    if n == 0 then None
    else if FirstSource(ids, sources, n - 1, id).Some? then FirstSource(ids, sources, n - 1, id)
    else if ids[n - 1] == id then Some(sources[n - 1])
    else None
  }

  /** The board lists the identifiers by first appearance, and `id` with the source that came with it. */
  ghost predicate Placed(b: Board, ids: seq<Id>, sources: seq<Id>, n: nat, id: Id)
    requires n <= |ids| == |sources|
  {
    && b.order == Firsts(ids, n) && (id in Firsts(ids, n) <==> id in b.table)
    && FirstSource(ids, sources, n, id) == if id in b.table then Some(b.table[id].source) else None
  }

  ghost predicate AllPlaced(b: Board, ids: seq<Id>, sources: seq<Id>, n: nat)
    requires n <= |ids| == |sources|
  {
    forall id {:trigger Placed(b, ids, sources, n, id)} :: Placed(b, ids, sources, n, id)
  }

  lemma PutIsPlaced(b: Board, b': Board, ids: seq<Id>, sources: seq<Id>, n: nat, it: Item, id: Id)
    requires n < |ids| == |sources| && Placed(b, ids, sources, n, id) && Placed(b, ids, sources, n, ids[n])
    requires b' == PutItem(b, ids[n], it)
    requires it.source == if ids[n] in b.table then b.table[ids[n]].source else sources[n]
    ensures Placed(b', ids, sources, n + 1, id)
  {
  }

  lemma {:induction false} VectorIsPlaced(cs: seq<Chunk>, n: nat, ids: seq<Id>, sources: seq<Id>, id: Id)
    requires n <= |cs| <= |ids| == |sources|
    requires forall i {:trigger cs[i]} :: 0 <= i < |cs| ==> ids[i] == cs[i].id && sources[i] == cs[i].source
    ensures Placed(VectorBoard(cs, n), ids, sources, n, id)
  {
    if n != 0 {
      var b, b', c := VectorBoard(cs, n - 1), VectorBoard(cs, n), cs[n - 1];
      VectorIsPlaced(cs, n - 1, ids, sources, id);
      VectorIsPlaced(cs, n - 1, ids, sources, c.id);
      PutIsPlaced(b, b', ids, sources, n - 1, b'.table[c.id], id);
    }
  }

  lemma {:induction false} KeywordIsPlaced(b: Board, cs: seq<Chunk>, n: nat, ids: seq<Id>, sources: seq<Id>, at: nat,
                                           id: Id)
    requires n <= |cs| && at + |cs| <= |ids| == |sources| && AllPlaced(b, ids, sources, at)
    requires forall i {:trigger cs[i]} :: 0 <= i < |cs| ==> ids[at + i] == cs[i].id && sources[at + i] == cs[i].source
    ensures Placed(KeywordBoard(b, cs, n), ids, sources, at + n, id)
  {
    if n != 0 {
      var before, after, c := KeywordBoard(b, cs, n - 1), KeywordBoard(b, cs, n), cs[n - 1];
      KeywordIsPlaced(b, cs, n - 1, ids, sources, at, id);
      KeywordIsPlaced(b, cs, n - 1, ids, sources, at, c.id);
      assert ids[at + (n - 1)] == c.id;
      PutIsPlaced(before, after, ids, sources, at + (n - 1), after.table[c.id], id);
    }
  }

  lemma {:induction false} GraphIsPlaced(b: Board, gs: seq<GraphItem>, n: nat, ids: seq<Id>, sources: seq<Id>, at: nat,
                                         id: Id)
    requires n <= |gs| && at + |gs| <= |ids| == |sources| && AllPlaced(b, ids, sources, at)
    requires forall i {:trigger gs[i]} :: 0 <= i < |gs| ==> ids[at + i] == gs[i].id && sources[at + i] == gs[i].source
    requires GraphBoard(b, gs, n).Some?
    ensures Placed(GraphBoard(b, gs, n).value, ids, sources, at + n, id)
  {
    if n != 0 {
      var before, after, g := GraphBoard(b, gs, n - 1).value, GraphBoard(b, gs, n).value, gs[n - 1];
      GraphIsPlaced(b, gs, n - 1, ids, sources, at, id);
      GraphIsPlaced(b, gs, n - 1, ids, sources, at, g.id);
      assert ids[at + (n - 1)] == g.id;
      PutIsPlaced(before, after, ids, sources, at + (n - 1), after.table[g.id], id);
    }
  }

  function ChunkSource(c: Chunk): Id {
    c.source
  }

  function GraphSource(g: GraphItem): Id {
    g.source
  }

  function AllIds(vector: seq<Chunk>, keyword: seq<Chunk>, graph: seq<GraphItem>): seq<Id> {
    Ids(vector) + Ids(keyword) + GraphIds(graph)
  }

  function AllSources(vector: seq<Chunk>, keyword: seq<Chunk>, graph: seq<GraphItem>): seq<Id> {
    Mapped(vector, ChunkSource) + Mapped(keyword, ChunkSource) + Mapped(graph, GraphSource)
  }

  ghost predicate Parts(ids: seq<Id>, sources: seq<Id>, vector: seq<Chunk>, keyword: seq<Chunk>, graph: seq<GraphItem>) {
    var v, w := |vector|, |keyword|;
    && |ids| == |sources| == v + w + |graph|
    && (forall i {:trigger vector[i]} :: 0 <= i < v ==> ids[i] == vector[i].id && sources[i] == vector[i].source)
    && (forall i {:trigger keyword[i]} :: 0 <= i < w ==>
          ids[v + i] == keyword[i].id && sources[v + i] == keyword[i].source)
    && (forall i {:trigger graph[i]} :: 0 <= i < |graph| ==>
          ids[v + w + i] == graph[i].id && sources[v + w + i] == graph[i].source)
  }

  lemma AllAreParts(vector: seq<Chunk>, keyword: seq<Chunk>, graph: seq<GraphItem>)
    ensures Parts(AllIds(vector, keyword, graph), AllSources(vector, keyword, graph), vector, keyword, graph)
  {
  }

  lemma ChunksArePlaced(vector: seq<Chunk>, keyword: seq<Chunk>, graph: seq<GraphItem>, ids: seq<Id>, sources: seq<Id>)
    requires Parts(ids, sources, vector, keyword, graph)
    ensures AllPlaced(ChunkBoard(vector, keyword), ids, sources, |vector| + |keyword|)
  {
    var b, at := VectorBoard(vector, |vector|), |vector| + |keyword|;
    forall x ensures Placed(b, ids, sources, |vector|, x) {
      VectorIsPlaced(vector, |vector|, ids, sources, x);
    }
    forall x ensures Placed(ChunkBoard(vector, keyword), ids, sources, at, x) {
      KeywordIsPlaced(b, keyword, |keyword|, ids, sources, |vector|, x);
    }
  }

  lemma FinalIsPlaced(vector: seq<Chunk>, keyword: seq<Chunk>, graph: seq<GraphItem>, before: Board, b: Board,
                      ids: seq<Id>, sources: seq<Id>, id: Id)
    requires Parts(ids, sources, vector, keyword, graph)
    requires AllPlaced(before, ids, sources, |vector| + |keyword|) && GraphBoard(before, graph, |graph|) == Some(b)
    ensures Placed(b, ids, sources, |ids|, id)
  {
    GraphIsPlaced(before, graph, |graph|, ids, sources, |vector| + |keyword|, id);
  }

  function SourceOf(vector: seq<Chunk>, keyword: seq<Chunk>, graph: seq<GraphItem>, id: Id): Option<Id> {
    FirstSource(AllIds(vector, keyword, graph), AllSources(vector, keyword, graph), |AllIds(vector, keyword, graph)|, id)
  }

  /** A higher score ranks first, and of equal scores the identifier that appeared first. */
  ghost predicate Outranks(vector: seq<Chunk>, keyword: seq<Chunk>, graph: seq<GraphItem>, a: Id, b: Id) {
    var x, y := FinalScore(vector, keyword, graph, a), FinalScore(vector, keyword, graph, b);
    var ids := AllIds(vector, keyword, graph);
    x > y || (x == y && Before(Firsts(ids, |ids|), a, b))
  }

  /** No other identifier of its source outranks it. */
  ghost predicate LeadsItsSource(vector: seq<Chunk>, keyword: seq<Chunk>, graph: seq<GraphItem>, id: Id) {
    && id in AllIds(vector, keyword, graph)
    && forall other :: other in AllIds(vector, keyword, graph) && Outranks(vector, keyword, graph, other, id)
         ==> SourceOf(vector, keyword, graph, other) != SourceOf(vector, keyword, graph, id)
  }

  lemma {:induction false} FirstsAre(ids: seq<Id>, n: nat, id: Id)
    requires n <= |ids|
    ensures id in Firsts(ids, n) <==> id in ids[..n]
  {
    if n != 0 {
      FirstsAre(ids, n - 1, id);
      assert ids[..n] == ids[..n - 1] + [ids[n - 1]];
    }
  }

  /** What the board knows of an identifier is what the inputs say. */
  ghost predicate Identical(vector: seq<Chunk>, keyword: seq<Chunk>, graph: seq<GraphItem>, b: Board, id: Id) {
    && (id in b.table <==> id in AllIds(vector, keyword, graph))
    && BoardScore(b, id) == FinalScore(vector, keyword, graph, id)
    && (id in b.table ==> Identified(b.table[id], id) && SourceOf(vector, keyword, graph, id) == Some(b.table[id].source))
  }

  lemma FinalIdentified(vector: seq<Chunk>, keyword: seq<Chunk>, graph: seq<GraphItem>, b: Board, id: Id)
    requires GraphBoard(ChunkBoard(vector, keyword), graph, |graph|) == Some(b)
    ensures Orderly(b) && (id in b.table ==> Identified(b.table[id], id))
  {
    FinalEntry(vector, keyword, graph, b, id);
  }

  lemma FinalPlaces(vector: seq<Chunk>, keyword: seq<Chunk>, graph: seq<GraphItem>, b: Board, ids: seq<Id>,
                    sources: seq<Id>, id: Id)
    requires GraphBoard(ChunkBoard(vector, keyword), graph, |graph|) == Some(b)
    requires Parts(ids, sources, vector, keyword, graph)
    ensures b.order == Firsts(ids, |ids|) && (id in b.table <==> id in ids)
    ensures id in b.table ==> FirstSource(ids, sources, |ids|, id) == Some(b.table[id].source)
  {
    ChunksArePlaced(vector, keyword, graph, ids, sources);
    FinalIsPlaced(vector, keyword, graph, ChunkBoard(vector, keyword), b, ids, sources, id);
    FirstsAre(ids, |ids|, id);
    assert ids[..|ids|] == ids;
  }

  lemma FinalSource(vector: seq<Chunk>, keyword: seq<Chunk>, graph: seq<GraphItem>, b: Board, id: Id)
    requires GraphBoard(ChunkBoard(vector, keyword), graph, |graph|) == Some(b)
    ensures var ids := AllIds(vector, keyword, graph); b.order == Firsts(ids, |ids|) && (id in b.table <==> id in ids)
    ensures id in b.table ==> SourceOf(vector, keyword, graph, id) == Some(b.table[id].source)
  {
    AllAreParts(vector, keyword, graph);
    FinalPlaces(vector, keyword, graph, b, AllIds(vector, keyword, graph), AllSources(vector, keyword, graph), id);
  }

  lemma FinalIs(vector: seq<Chunk>, keyword: seq<Chunk>, graph: seq<GraphItem>, b: Board, id: Id)
    requires GraphBoard(ChunkBoard(vector, keyword), graph, |graph|) == Some(b)
    ensures Orderly(b) && Identical(vector, keyword, graph, b, id)
    ensures b.order == Firsts(AllIds(vector, keyword, graph), |AllIds(vector, keyword, graph)|)
  {
    FinalIdentified(vector, keyword, graph, b, id);
    FinalScores(vector, keyword, graph, id);
    FinalSource(vector, keyword, graph, b, id);
  }

  function Itself(it: Item): Item {
    it
  }

  ghost predicate AllIdentified(b: Board) {
    forall id :: id in b.table ==> Identified(b.table[id], id)
  }

  lemma RankedIs(b: Board)
    requires Orderly(b) && AllIdentified(b)
    ensures |Ranked(b)| == |b.order| && Distinct(Ranked(b), Itself)
    ensures forall it :: it in Ranked(b) <==> exists id :: id in b.table && b.table[id] == it
  {
    var items, n := Items(b), |b.order|;
    SortLength(items, n, ItemScore);
    SortIsDistinct(items, n, ItemScore, Itself);
    assert items[..n] == items;
    forall it ensures it in Ranked(b) <==> exists id :: id in b.table && b.table[id] == it {
      SortKeepsMembers(items, n, ItemScore, it);
      if it in items {
        var i :| 0 <= i < n && items[i] == it;
        assert b.order[i] in b.table;
      }
      if id :| id in b.table && b.table[id] == it {
        var i :| 0 <= i < n && b.order[i] == id;
        assert items[i] == it;
      }
    }
  }

  /** What ranks before what, by the scores and the order of the board. */
  ghost predicate RanksBefore(b: Board, x: Id, y: Id) {
    BoardScore(b, x) > BoardScore(b, y) || (BoardScore(b, x) == BoardScore(b, y) && Before(b.order, x, y))
  }

  lemma RankedBefore(b: Board, x: Id, y: Id)
    requires Orderly(b) && x in b.table && y in b.table && x != y && RanksBefore(b, x, y)
    ensures Before(Ranked(b), b.table[x], b.table[y])
  {
    var items, n := Items(b), |b.order|;
    var i, j: nat;
    if BoardScore(b, x) > BoardScore(b, y) {
      i :| 0 <= i < n && b.order[i] == x;
      j :| 0 <= j < n && b.order[j] == y;
    } else {
      i, j :| 0 <= i < j < n && b.order[i] == x && b.order[j] == y;
    }
    SortOrders(items, n, ItemScore, i, j);
  }

  lemma OneComesBefore(b: Board, x: Id, y: Id)
    requires Orderly(b) && x in b.table && y in b.table && x != y
    ensures Before(b.order, x, y) || Before(b.order, y, x)
  {
    var i :| 0 <= i < |b.order| && b.order[i] == x;
    var j :| 0 <= j < |b.order| && b.order[j] == y;
    assert i < j || j < i;
  }

  lemma NotEarlier(s: seq<Item>, i: nat)
    requires i < |s| && Distinct(s, Itself)
    ensures s[i] !in s[..i]
  {
    forall k | 0 <= k < i ensures s[k] != s[i] {
      assert Itself(s[k]) != Itself(s[i]);
    }
  }

  lemma BeforeIsIndex(s: seq<Item>, i: nat, j: nat)
    requires i < |s| && j < |s| && Distinct(s, Itself)
    ensures Before(s, s[i], s[j]) <==> i < j
  {
    if Before(s, s[i], s[j]) {
      var p, q :| 0 <= p < q < |s| && s[p] == s[i] && s[q] == s[j];
      assert Itself(s[p]) == Itself(s[i]) && Itself(s[q]) == Itself(s[j]);
    }
  }

  /** The first of a kind is an item that no other of its kind comes before. */
  lemma {:induction false} FirstOfKindIff(s: seq<Item>, n: nat, i: nat)
    requires i < n <= |s| && Distinct(s, Itself)
    ensures s[i] in FirstOfKind(s, n, ItemSource) <==> !KindBefore(s, i, ItemSource, s[i].source)
  {
    if i < n - 1 {
      FirstOfKindIff(s, n - 1, i);
      assert Itself(s[i]) != Itself(s[n - 1]);
    } else {
      NotEarlier(s, i);
      if s[i] in FirstOfKind(s, n - 1, ItemSource) {
        FirstOfKindIsPart(s, n - 1, ItemSource, s[i]);
      }
    }
  }

  lemma RankedIff(b: Board, x: Id, y: Id, i: nat, j: nat)
    requires Orderly(b) && AllIdentified(b) && x in b.table && y in b.table
    requires i < |Ranked(b)| && j < |Ranked(b)| && Ranked(b)[i] == b.table[x] && Ranked(b)[j] == b.table[y]
    ensures RanksBefore(b, x, y) <==> i < j
  {
    RankedIs(b);
    if x != y {
      BeforeIsIndex(Ranked(b), i, j);
      BeforeIsIndex(Ranked(b), j, i);
      OneComesBefore(b, x, y);
      if RanksBefore(b, x, y) {
        RankedBefore(b, x, y);
      } else {
        RankedBefore(b, y, x);
      }
    } else {
      assert Itself(Ranked(b)[i]) == Itself(Ranked(b)[j]);
    }
  }

  lemma KeptOnBoard(b: Board, id: Id)
    requires Orderly(b) && AllIdentified(b) && id in b.table
    ensures b.table[id] in Kept(b)
       <==> forall other :: other in b.table && RanksBefore(b, other, id) ==> b.table[other].source != b.table[id].source
  {
    RankedIs(b);
    var ranked, n, it := Ranked(b), |b.order|, b.table[id];
    assert it in ranked;
    var i :| 0 <= i < n && ranked[i] == it;
    FirstOfKindIff(ranked, n, i);
    if KindBefore(ranked, i, ItemSource, it.source) {
      var k :| 0 <= k < i && ItemSource(ranked[k]) == it.source;
      assert ranked[k] in ranked;
      var other :| other in b.table && b.table[other] == ranked[k];
      RankedIff(b, other, id, k, i);
    }
    forall other | other in b.table && RanksBefore(b, other, id) && b.table[other].source == it.source
      ensures KindBefore(ranked, i, ItemSource, it.source)
    {
      assert b.table[other] in ranked;
      var k :| 0 <= k < n && ranked[k] == b.table[other];
      RankedIff(b, other, id, k, i);
      assert ItemSource(ranked[k]) == it.source;
    }
  }

  /** The items kept are exactly those of the identifiers that no identifier of their source outranks. */
  lemma KeptLead(vector: seq<Chunk>, keyword: seq<Chunk>, graph: seq<GraphItem>, b: Board, id: Id)
    requires GraphBoard(ChunkBoard(vector, keyword), graph, |graph|) == Some(b)
    ensures Orderly(b) && (id in b.table && b.table[id] in Kept(b) <==> LeadsItsSource(vector, keyword, graph, id))
  {
    FinalIs(vector, keyword, graph, b, id);
    forall other ensures Identical(vector, keyword, graph, b, other) {
      FinalIs(vector, keyword, graph, b, other);
    }
    assert AllIdentified(b) by {
      forall other | other in b.table ensures Identified(b.table[other], other) {
        assert Identical(vector, keyword, graph, b, other);
      }
    }
    assert Identical(vector, keyword, graph, b, id);
    if id in b.table {
      KeptOnBoard(b, id);
      assert forall other :: Identical(vector, keyword, graph, b, other) ==>
        (Outranks(vector, keyword, graph, other, id) <==> RanksBefore(b, other, id));
    }
  }

  // ---------------------------------------------------------------- merged validity

  lemma {:induction false} ValidityOnce(gs: seq<GraphItem>, n: nat, i: nat)
    requires i < n <= |gs| && Unrepeated(gs)
    ensures EarliestOf(gs, n, gs[i].id) == gs[i].validFrom && LatestOf(gs, n, gs[i].id) == gs[i].validTo
    ensures PathsOf(gs, n, gs[i].id) == gs[i].path && FirstPiece(gs, n, gs[i].id) == Some(gs[i])
  {
    if i == n - 1 {
      forall a | 0 <= a < n - 1 ensures GraphIds(gs)[a] != gs[i].id {
      }
      NothingYet(gs, n - 1, gs[i].id);
    } else {
      ValidityOnce(gs, n - 1, i);
    }
  }

  /** Each start and each end of the pieces with this identifier counts towards its merged validity. */
  lemma {:induction false} MergedValidityIs(gs: seq<GraphItem>, n: nat, id: Id, t: int)
    requires n <= |gs|
    ensures EarliestOf(gs, n, id).Some? && EarliestOf(gs, n, id).value <= t
       <==> exists i :: 0 <= i < n && gs[i].id == id && gs[i].validFrom.Some? && gs[i].validFrom.value <= t
    ensures LatestOf(gs, n, id).Some? && LatestOf(gs, n, id).value >= t
       <==> exists i :: 0 <= i < n && gs[i].id == id && gs[i].validTo.Some? && gs[i].validTo.value >= t
  {
    if n != 0 {
      MergedValidityIs(gs, n - 1, id, t);
      assert gs[n - 1] == gs[n - 1];
    }
  }

  /** Some pieces with this identifier start and some end, and all ends come no later than all starts. */
  ghost predicate Emptied(gs: seq<GraphItem>, id: Id) {
    && (exists i :: 0 <= i < |gs| && gs[i].id == id && gs[i].validFrom.Some?)
    && (exists i :: 0 <= i < |gs| && gs[i].id == id && gs[i].validTo.Some?)
    && forall i, j :: 0 <= i < |gs| && 0 <= j < |gs| && gs[i].id == gs[j].id == id ==>
         gs[i].validFrom.None? || gs[j].validTo.None? || gs[j].validTo.value <= gs[i].validFrom.value
  }

  lemma EmptiedIs(gs: seq<GraphItem>, id: Id)
    ensures var from, to := EarliestOf(gs, |gs|, id), LatestOf(gs, |gs|, id);
            from.Some? && to.Some? && to.value <= from.value <==> Emptied(gs, id)
  {
    var from, to := EarliestOf(gs, |gs|, id), LatestOf(gs, |gs|, id);
    forall i | 0 <= i < |gs| && gs[i].id == id
      ensures gs[i].validFrom.Some? ==> from.Some? && from.value <= gs[i].validFrom.value
      ensures gs[i].validTo.Some? ==> to.Some? && to.value >= gs[i].validTo.value
    {
      if gs[i].validFrom.Some? {
        MergedValidityIs(gs, |gs|, id, gs[i].validFrom.value);
      }
      if gs[i].validTo.Some? {
        MergedValidityIs(gs, |gs|, id, gs[i].validTo.value);
      }
    }
    if from.Some? {
      MergedValidityIs(gs, |gs|, id, from.value);
    }
    if to.Some? {
      MergedValidityIs(gs, |gs|, id, to.value);
    }
  }

  /** The evidence of some fact loses its validity by merging, and no identifier of its source outranks it. */
  ghost predicate EmptiedLeads(vector: seq<Chunk>, keyword: seq<Chunk>, graph: seq<GraphItem>) {
    exists id :: id in GraphIds(graph) && Emptied(graph, id) && LeadsItsSource(vector, keyword, graph, id)
  }

  lemma NotAChunk(vector: seq<Chunk>, keyword: seq<Chunk>, graph: seq<GraphItem>, id: Id)
    requires GraphBoard(ChunkBoard(vector, keyword), graph, |graph|).Some? && id in GraphIds(graph)
    ensures id !in ChunkBoard(vector, keyword).table
  {
    BoardIsOrderly(vector, keyword, graph);
    GraphBoardIs(ChunkBoard(vector, keyword), graph, |graph|, id);
    var i :| 0 <= i < |graph| && GraphIds(graph)[i] == id;
    assert graph[i].id == id;
  }

  lemma FinalValidity(vector: seq<Chunk>, keyword: seq<Chunk>, graph: seq<GraphItem>, b: Board, id: Id)
    requires GraphBoard(ChunkBoard(vector, keyword), graph, |graph|) == Some(b)
    ensures id in GraphIds(graph) ==>
              && id in b.table && b.table[id].validFrom == EarliestOf(graph, |graph|, id)
              && b.table[id].validTo == LatestOf(graph, |graph|, id)
    ensures id in b.table && id !in GraphIds(graph) ==> b.table[id].validFrom == None
  {
    FinalEntry(vector, keyword, graph, b, id);
    assert GraphIds(graph)[..|graph|] == GraphIds(graph);
    if id in GraphIds(graph) {
      NotAChunk(vector, keyword, graph, id);
    }
  }

  lemma NeverValidIs(vector: seq<Chunk>, keyword: seq<Chunk>, graph: seq<GraphItem>, b: Board, id: Id)
    requires GraphBoard(ChunkBoard(vector, keyword), graph, |graph|) == Some(b)
    ensures id in b.table && NeverValid(b.table[id]) <==> id in GraphIds(graph) && Emptied(graph, id)
  {
    FinalValidity(vector, keyword, graph, b, id);
    EmptiedIs(graph, id);
  }

  lemma KeptEmptied(vector: seq<Chunk>, keyword: seq<Chunk>, graph: seq<GraphItem>, b: Board, id: Id)
    requires GraphBoard(ChunkBoard(vector, keyword), graph, |graph|) == Some(b) && Orderly(b)
    ensures id in b.table && b.table[id] in Kept(b) && NeverValid(b.table[id])
       <==> id in GraphIds(graph) && Emptied(graph, id) && LeadsItsSource(vector, keyword, graph, id)
  {
    NeverValidIs(vector, keyword, graph, b, id);
    KeptLead(vector, keyword, graph, b, id);
  }

  lemma KeptIsStored(b: Board, it: Item)
    requires Orderly(b) && it in Kept(b)
    ensures exists id :: id in b.table && b.table[id] == it
  {
    OneBestPerSource(b);
  }

  /** The fusion raises over an empty validity exactly when the evidence of some fact loses its validity by
    * merging and nothing of its source outranks it. */
  lemma EmptyValidityRaises(vector: seq<Chunk>, keyword: seq<Chunk>, graph: seq<GraphItem>, b: Board,
                            r: Result<seq<Evidence>, FusionError>)
    requires GraphBoard(ChunkBoard(vector, keyword), graph, |graph|) == Some(b) && Orderly(b) && Reports(b, r)
    ensures r == Err(EmptyValidity) <==> EmptiedLeads(vector, keyword, graph)
  {
    forall it | it in Kept(b) && NeverValid(it) ensures EmptiedLeads(vector, keyword, graph) {
      KeptIsStored(b, it);
      var id :| id in b.table && b.table[id] == it;
      KeptEmptied(vector, keyword, graph, b, id);
    }
    if EmptiedLeads(vector, keyword, graph) {
      var id :| id in GraphIds(graph) && Emptied(graph, id) && LeadsItsSource(vector, keyword, graph, id);
      KeptEmptied(vector, keyword, graph, b, id);
    }
  }

  predicate Unrepeated(graph: seq<GraphItem>) {
    forall i, j :: 0 <= i < j < |graph| ==> graph[i].id != graph[j].id
  }

  predicate EmptyPiece(g: GraphItem) {
    g.validFrom.Some? && g.validTo.Some? && g.validTo.value <= g.validFrom.value
  }

  lemma NeverEmptied(graph: seq<GraphItem>, id: Id)
    requires Unrepeated(graph) && (forall g :: g in graph ==> !EmptyPiece(g)) && id in GraphIds(graph)
    ensures !Emptied(graph, id)
  {
    var p :| 0 <= p < |graph| && GraphIds(graph)[p] == id;
    assert graph[p] in graph && forall i :: 0 <= i < |graph| && graph[i].id == id ==> i == p;
  }

  /** Unrepeated evidence of which no piece is empty never makes the fusion raise. */
  lemma UnrepeatedNeverRaises(vector: seq<Chunk>, keyword: seq<Chunk>, graph: seq<GraphItem>, b: Board,
                              r: Result<seq<Evidence>, FusionError>)
    requires Unrepeated(graph) && forall g :: g in graph ==> !EmptyPiece(g)
    requires GraphBoard(ChunkBoard(vector, keyword), graph, |graph|) == Some(b) && Orderly(b) && Reports(b, r)
    ensures r.Ok?
  {
    EmptyValidityRaises(vector, keyword, graph, b, r);
    forall id | id in GraphIds(graph) ensures !Emptied(graph, id) {
      NeverEmptied(graph, id);
    }
  }

  function EvidenceOfFact(g: GraphItem): Evidence {
    Evidence(Some(g.id), g.source, None, None, None, g.content, ByGraph, None, g.path, g.validFrom, g.validTo,
             g.principals)
  }

  lemma OneHitScores(graph: seq<GraphItem>, i: nat)
    requires i < |graph| && Unrepeated(graph)
    ensures Total(GraphIds(graph), |graph|, graph[i].id, RRF_K) > 0.0
  {
    TotalOnce(GraphIds(graph), |graph|, i, RRF_K);
    RecipDecreases(RRF_K + i + 1, RRF_K + i + 1);
  }

  /** The item of an identifier with one piece of evidence describes that piece. */
  lemma OnePieceIsEvidence(chunks: Board, b: Board, graph: seq<GraphItem>, i: nat)
    requires i < |graph| && graph[i].id in b.table && graph[i].id !in chunks.table
    requires GraphEntry(chunks, b, graph, |graph|, graph[i].id)
    requires Total(GraphIds(graph), |graph|, graph[i].id, RRF_K) > 0.0
    requires FirstPiece(graph, |graph|, graph[i].id) == Some(graph[i])
    requires PathsOf(graph, |graph|, graph[i].id) == graph[i].path
    requires EarliestOf(graph, |graph|, graph[i].id) == graph[i].validFrom
    requires LatestOf(graph, |graph|, graph[i].id) == graph[i].validTo
    ensures EvidenceOf(b.table[graph[i].id]) == EvidenceOfFact(graph[i])
  {
  }

  lemma UnrepeatedItem(vector: seq<Chunk>, keyword: seq<Chunk>, graph: seq<GraphItem>, b: Board, i: nat)
    requires i < |graph| && Unrepeated(graph)
    requires GraphBoard(ChunkBoard(vector, keyword), graph, |graph|) == Some(b)
    ensures graph[i].id in b.table && EvidenceOf(b.table[graph[i].id]) == EvidenceOfFact(graph[i])
  {
    var ids, id := GraphIds(graph), graph[i].id;
    assert ids[..|graph|] == ids && ids[i] == id;
    FinalEntry(vector, keyword, graph, b, id);
    NotAChunk(vector, keyword, graph, id);
    ValidityOnce(graph, |graph|, i);
    OneHitScores(graph, i);
    OnePieceIsEvidence(ChunkBoard(vector, keyword), b, graph, i);
  }

  /** Only the item of a fact carries its identifier as that of the evidence. */
  lemma EvidenceIdIs(vector: seq<Chunk>, keyword: seq<Chunk>, graph: seq<GraphItem>, b: Board, id: Id)
    requires GraphBoard(ChunkBoard(vector, keyword), graph, |graph|) == Some(b) && id in b.table
    ensures b.table[id].evidence.Some? ==> b.table[id].evidence.value == id
  {
    FinalEntry(vector, keyword, graph, b, id);
  }

  lemma ReturnedIs(b: Board, r: Result<seq<Evidence>, FusionError>, e: Evidence) returns (it: Item)
    requires Orderly(b) && Reports(b, r) && r.Ok? && e in r.value
    ensures it in Kept(b) && e == EvidenceOf(it)
  {
    var k :| 0 <= k < |r.value| && r.value[k] == e;
    it := Kept(b)[k];
  }

  lemma KeptIsReturned(b: Board, r: Result<seq<Evidence>, FusionError>, it: Item)
    requires Orderly(b) && Reports(b, r) && r.Ok? && it in Kept(b)
    ensures EvidenceOf(it) in r.value
  {
    var k :| 0 <= k < |Kept(b)| && Kept(b)[k] == it;
    assert r.value[k] == EvidenceOf(it);
  }

  /** Without repeats, a piece of graph evidence is returned unchanged, exactly if nothing of its source outranks it. */
  lemma UnrepeatedEvidenceIsKept(vector: seq<Chunk>, keyword: seq<Chunk>, graph: seq<GraphItem>, b: Board,
                                 r: Result<seq<Evidence>, FusionError>, i: nat)
    requires i < |graph| && Unrepeated(graph)
    requires GraphBoard(ChunkBoard(vector, keyword), graph, |graph|) == Some(b) && Orderly(b) && Reports(b, r) && r.Ok?
    ensures EvidenceOfFact(graph[i]) in r.value <==> LeadsItsSource(vector, keyword, graph, graph[i].id)
    ensures forall e :: e in r.value && e.id == Some(graph[i].id) ==> e == EvidenceOfFact(graph[i])
  {
    var g := graph[i];
    UnrepeatedItem(vector, keyword, graph, b, i);
    KeptLead(vector, keyword, graph, b, g.id);
    forall e | e in r.value && e.id == Some(g.id) ensures e == EvidenceOfFact(g) && b.table[g.id] in Kept(b) {
      var it := ReturnedIs(b, r, e);
      KeptIsStored(b, it);
      var id :| id in b.table && b.table[id] == it;
      EvidenceIdIs(vector, keyword, graph, b, id);
    }
    if b.table[g.id] in Kept(b) {
      KeptIsReturned(b, r, b.table[g.id]);
    }
  }

  /** Merging can empty a validity that neither piece of evidence had empty: the fusion then raises. */
  lemma MergingCanEmptyValidity(g: GraphItem, t: int)
    ensures var early, late := g.(validFrom := None, validTo := Some(t)), g.(validFrom := Some(t), validTo := None);
            && !EmptyPiece(early) && !EmptyPiece(late)
            && GraphBoard(ChunkBoard([], []), [early, late], 2).Some?
            && var b := GraphBoard(ChunkBoard([], []), [early, late], 2).value;
               && Orderly(b) && Reports(b, Err(EmptyValidity))
               && forall r :: Reports(b, r) ==> r == Err(EmptyValidity)
  {
    var early, late := g.(validFrom := None, validTo := Some(t)), g.(validFrom := Some(t), validTo := None);
    var gs, ids := [early, late], AllIds([], [], [early, late]);
    MixedIdentifiersRaise([], [], gs);
    BoardIsOrderly([], [], gs);
    assert ids == [g.id, g.id];
    FirstsAre(ids, 1, g.id);
    assert |ids[..1]| == 1 && ids[..1][0] == g.id;
    assert Firsts(ids, 0) == [] && Firsts(ids, 1) == [g.id] && Firsts(ids, 2) == Firsts(ids, 1);
    assert gs[0].id == gs[1].id == g.id && GraphIds(gs)[0] == g.id;
    assert LeadsItsSource([], [], gs, g.id);
    assert Emptied(gs, g.id);
    KeptEmptied([], [], gs, GraphBoard(ChunkBoard([], []), gs, 2).value, g.id);
  }
}
