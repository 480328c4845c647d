/** Reciprocal rank fusion of a vector ranking and a keyword ranking. */
module Fusion {
  import opened Basics
  import opened Wrappers
  import opened StableSort

  type Id = int

  const RRF_K: nat := 60

  datatype Chunk = Chunk(
    id: Id, source: Id, document: Option<Id>, version: Option<Id>, content: string,
    vectorScore: Option<real>, keywordScore: Option<real>, principals: seq<string>)

  datatype Fused = Fused(
    id: Id, source: Id, document: Option<Id>, version: Option<Id>, content: string,
    vectorScore: Option<real>, keywordScore: Option<real>, score: real, principals: seq<string>)

  function ScoreOf(f: Fused): real {
    f.score
  }

  /** One ranked hit's contribution. */
  function Recip(n: nat): real
    requires n > 0
  {
    1.0 / (n as real)
  }

  lemma RecipDecreases(m: nat, n: nat)
    requires 0 < m <= n
    ensures 0.0 < Recip(n) <= Recip(m)
    ensures m < n ==> Recip(n) < Recip(m)
  {
    var x, y := m as real, n as real;
    assert 1.0 / x - 1.0 / y == (y - x) / (x * y);
    assert x * y > 0.0;
  }

  // -------------------------------------------------------------------------- tallies

  /** A dictionary that remembers the order in which its keys were added. */
  datatype Tally = Tally(order: seq<Id>, table: map<Id, Fused>)

  function NewEntry(c: Chunk): Fused {
    Fused(c.id, c.source, c.document, c.version, c.content, None, None, 0.0, c.principals)
  }

  function Entry(t: Tally, c: Chunk): Fused {
    if c.id in t.table then t.table[c.id] else NewEntry(c)
  }

  function Put(t: Tally, id: Id, e: Fused): Tally {
    Tally(if id in t.table then t.order else t.order + [id], t.table[id := e])
  }

  function VectorHit(t: Tally, c: Chunk, rank: nat, k: nat): Tally
    requires rank > 0
  {
    var e := Entry(t, c);
    Put(t, c.id, e.(score := e.score + Recip(k + rank), vectorScore := c.vectorScore))
  }

  function KeywordHit(t: Tally, c: Chunk, rank: nat, k: nat): Tally
    requires rank > 0
  {
    var e := Entry(t, c);
    Put(t, c.id, e.(score := e.score + Recip(k + rank), keywordScore := c.keywordScore))
  }

  function VectorPass(cs: seq<Chunk>, n: nat, k: nat): Tally
    requires n <= |cs|
  {
    if n == 0 then Tally([], map[]) else VectorHit(VectorPass(cs, n - 1, k), cs[n - 1], n, k)
  }

  function KeywordPass(t: Tally, cs: seq<Chunk>, n: nat, k: nat): Tally
    requires n <= |cs|
  {
    if n == 0 then t else KeywordHit(KeywordPass(t, cs, n - 1, k), cs[n - 1], n, k)
  }

  function Tallied(vector: seq<Chunk>, keyword: seq<Chunk>, k: nat): Tally {
    KeywordPass(VectorPass(vector, |vector|, k), keyword, |keyword|, k)
  }

  ghost predicate WellFormed(t: Tally) {
    && (forall i, j :: 0 <= i < j < |t.order| ==> t.order[i] != t.order[j])
    && (forall id :: id in t.order <==> id in t.table)
    && (forall i :: 0 <= i < |t.order| ==> t.order[i] in t.table)
    && (forall id :: id in t.table ==> t.table[id].id == id)
  }

  lemma PutIsWellFormed(t: Tally, id: Id, e: Fused)
    requires WellFormed(t) && e.id == id
    ensures WellFormed(Put(t, id, e))
  {
    var t' := Put(t, id, e);
    forall i | 0 <= i < |t.order| && id !in t.table ensures t.order[i] != id {
      assert t.order[i] in t.order;
    }
    forall j ensures j in t'.order <==> j in t'.table {
      assert j in t'.order <==> j in t.order || j == id;
    }
  }

  function Entries(t: Tally): (es: seq<Fused>)
    requires WellFormed(t)
    ensures |es| == |t.order|
  {
    seq(|t.order|, i requires 0 <= i < |t.order| && t.order[i] in t.table => t.table[t.order[i]])
  }

  function ChunkId(c: Chunk): Id {
    c.id
  }

  function Ids(cs: seq<Chunk>): seq<Id> {
    Mapped(cs, ChunkId)
  }

  /** The contributions of an identifier at the first `n` positions of a ranking. */
  function Total(ids: seq<Id>, n: nat, id: Id, k: nat): real
    requires n <= |ids|
  {
    if n == 0 then 0.0 else Total(ids, n - 1, id, k) + if ids[n - 1] == id then Recip(k + n) else 0.0
  }

  // ------------------------------------------------------------------- what is tallied

  function ScoreAt(t: Tally, id: Id): real {
    if id in t.table then t.table[id].score else 0.0
  }

  lemma HitsAdd(t: Tally, c: Chunk, rank: nat, k: nat, id: Id)
    requires rank > 0 && WellFormed(t)
    ensures var more := if id == c.id then Recip(k + rank) else 0.0;
            && ScoreAt(VectorHit(t, c, rank, k), id) == ScoreAt(t, id) + more
            && ScoreAt(KeywordHit(t, c, rank, k), id) == ScoreAt(t, id) + more
    ensures id in VectorHit(t, c, rank, k).table <==> id in t.table || id == c.id
    ensures id in KeywordHit(t, c, rank, k).table <==> id in t.table || id == c.id
    ensures WellFormed(VectorHit(t, c, rank, k)) && WellFormed(KeywordHit(t, c, rank, k))
  {
    var e := Entry(t, c);
    var score := e.score + Recip(k + rank);
    PutIsWellFormed(t, c.id, e.(score := score, vectorScore := c.vectorScore));
    PutIsWellFormed(t, c.id, e.(score := score, keywordScore := c.keywordScore));
  }

  lemma IdsSnoc(cs: seq<Chunk>, n: nat, id: Id)
    requires 0 < n <= |cs|
    ensures Ids(cs)[n - 1] == cs[n - 1].id && (id in Ids(cs)[..n] <==> id in Ids(cs)[..n - 1] || id == cs[n - 1].id)
  {
    assert Ids(cs)[..n] == Ids(cs)[..n - 1] + [cs[n - 1].id];
  }

  lemma {:induction false} VectorPassIs(cs: seq<Chunk>, n: nat, k: nat, id: Id)
    requires n <= |cs|
    ensures var t := VectorPass(cs, n, k);
            WellFormed(t) && (id in t.table <==> id in Ids(cs)[..n]) && ScoreAt(t, id) == Total(Ids(cs), n, id, k)
  {
    if n != 0 {
      VectorPassIs(cs, n - 1, k, id);
      HitsAdd(VectorPass(cs, n - 1, k), cs[n - 1], n, k, id);
      IdsSnoc(cs, n, id);
    }
  }

  lemma {:induction false} KeywordPassIs(t: Tally, cs: seq<Chunk>, n: nat, k: nat, id: Id)
    requires n <= |cs| && WellFormed(t)
    ensures var t' := KeywordPass(t, cs, n, k);
            && WellFormed(t') && (id in t'.table <==> id in t.table || id in Ids(cs)[..n])
            && ScoreAt(t', id) == ScoreAt(t, id) + Total(Ids(cs), n, id, k)
  {
    if n != 0 {
      KeywordPassIs(t, cs, n - 1, k, id);
      HitsAdd(KeywordPass(t, cs, n - 1, k), cs[n - 1], n, k, id);
      IdsSnoc(cs, n, id);
    }
  }

  function Score(vector: seq<Chunk>, keyword: seq<Chunk>, id: Id, k: nat): real {
    Total(Ids(vector), |vector|, id, k) + Total(Ids(keyword), |keyword|, id, k)
  }

  lemma TalliedIs(vector: seq<Chunk>, keyword: seq<Chunk>, k: nat, id: Id)
    ensures var t := Tallied(vector, keyword, k);
            && WellFormed(t) && (id in t.table <==> id in Ids(vector) || id in Ids(keyword))
            && (id in t.table ==> t.table[id].score == Score(vector, keyword, id, k))
  {
    VectorPassIs(vector, |vector|, k, id);
    KeywordPassIs(VectorPass(vector, |vector|, k), keyword, |keyword|, k, id);
    assert Ids(vector)[..|vector|] == Ids(vector) && Ids(keyword)[..|keyword|] == Ids(keyword);
  }

  /** The fused ranking. */
  function Fuse(vector: seq<Chunk>, keyword: seq<Chunk>, k: nat): seq<Fused> {
    TalliedIs(vector, keyword, k, 0);
    var es := Entries(Tallied(vector, keyword, k));
    Sort(es, |es|, ScoreOf)
  }

  // -------------------------------------------------------------------------- the code

  method CountVector(vector: seq<Chunk>, k: nat) returns (order: seq<Id>, table: map<Id, Fused>)
    ensures Tally(order, table) == VectorPass(vector, |vector|, k)
  {
    order, table := [], map[];
    for i := 0 to |vector|
      invariant Tally(order, table) == VectorPass(vector, i, k)
    {
      var c := vector[i];
      if c.id !in table {
        order := order + [c.id];
        table := table[c.id := NewEntry(c)];
      }
      table := table[c.id := table[c.id].(score := table[c.id].score + Recip(k + (i + 1)))];
      table := table[c.id := table[c.id].(vectorScore := c.vectorScore)];
    }
  }

  method CountKeyword(t: Tally, keyword: seq<Chunk>, k: nat) returns (order: seq<Id>, table: map<Id, Fused>)
    ensures Tally(order, table) == KeywordPass(t, keyword, |keyword|, k)
  {
    order, table := t.order, t.table;
    for i := 0 to |keyword|
      invariant Tally(order, table) == KeywordPass(t, keyword, i, k)
    {
      var c := keyword[i];
      if c.id !in table {
        order := order + [c.id];
        table := table[c.id := NewEntry(c)];
      }
      table := table[c.id := table[c.id].(score := table[c.id].score + Recip(k + (i + 1)))];
      table := table[c.id := table[c.id].(keywordScore := c.keywordScore)];
    }
  }

  method ReciprocalRankFusion(vector: seq<Chunk>, keyword: seq<Chunk>, k: nat) returns (fused: seq<Fused>)
    ensures fused == Fuse(vector, keyword, k) && Descending(fused, ScoreOf) && Distinct(fused, IdOf)
  {
    FusionIsComplete(vector, keyword, k);
    FusionHasNoRepeats(vector, keyword, k);
    var order, table := CountVector(vector, k);
    order, table := CountKeyword(Tally(order, table), keyword, k);
    TalliedIs(vector, keyword, k, 0);
    var entries := Entries(Tally(order, table));
    fused := Sort(entries, |entries|, ScoreOf);
  }

  // -------------------------------------------------------------------------- theorems

  /** Each identifier of either ranking comes once, with the sum of its contributions, highest first. */
  lemma FusionIsComplete(vector: seq<Chunk>, keyword: seq<Chunk>, k: nat)
    ensures var fs := Fuse(vector, keyword, k);
            && (forall id :: (exists f :: f in fs && f.id == id) <==> id in Ids(vector) || id in Ids(keyword))
            && (forall f :: f in fs ==> f.score == Score(vector, keyword, f.id, k))
            && Descending(fs, ScoreOf)
  {
    var t, fs := Tallied(vector, keyword, k), Fuse(vector, keyword, k);
    TalliedIs(vector, keyword, k, 0);
    var es := Entries(t);
    SortIsDescending(es, |es|, ScoreOf);
    forall f | f in fs ensures f.id in t.table && f == t.table[f.id] && f.score == Score(vector, keyword, f.id, k) {
      SortKeepsMembers(es, |es|, ScoreOf, f);
      var i :| 0 <= i < |es| && es[i] == f;
      assert t.order[i] in t.order;
      TalliedIs(vector, keyword, k, f.id);
    }
    forall id ensures (exists f :: f in fs && f.id == id) <==> id in Ids(vector) || id in Ids(keyword) {
      TalliedIs(vector, keyword, k, id);
      if id in t.table {
        var i :| 0 <= i < |t.order| && t.order[i] == id;
        SortKeepsMembers(es, |es|, ScoreOf, es[i]);
        assert es[i] in es[..|es|] && es[i].id == id;
      }
    }
  }

  function IdOf(f: Fused): Id {
    f.id
  }

  /** No identifier comes twice. */
  lemma FusionHasNoRepeats(vector: seq<Chunk>, keyword: seq<Chunk>, k: nat)
    ensures Distinct(Fuse(vector, keyword, k), IdOf)
  {
    var t := Tallied(vector, keyword, k);
    TalliedIs(vector, keyword, k, 0);
    forall i | 0 <= i < |t.order| ensures t.table[t.order[i]].id == t.order[i] {
      assert t.order[i] in t.order;
    }
    SortIsDistinct(Entries(t), |t.order|, ScoreOf, IdOf);
  }

  // --------------------------------------------------------------------------- fields

  function FirstOf(cs: seq<Chunk>, n: nat, id: Id): Option<Chunk>
    requires n <= |cs|
  {
    if n == 0 then None
    else if FirstOf(cs, n - 1, id).Some? then FirstOf(cs, n - 1, id)
    else if cs[n - 1].id == id then Some(cs[n - 1])
    else None
  }

  function LastOf(cs: seq<Chunk>, n: nat, id: Id): Option<Chunk>
    requires n <= |cs|
  {
    if n == 0 then None else if cs[n - 1].id == id then Some(cs[n - 1]) else LastOf(cs, n - 1, id)
  }

  predicate Describes(f: Fused, c: Chunk) {
    f.id == c.id && f.source == c.source && f.document == c.document && f.version == c.version
    && f.content == c.content && f.principals == c.principals
  }

  function VectorScoreOf(c: Option<Chunk>): Option<real> {
    if c.Some? then c.value.vectorScore else None
  }

  function KeywordScoreOf(c: Option<Chunk>): Option<real> {
    if c.Some? then c.value.keywordScore else None
  }

  /** The entry of `id` after the vector pass, given the first and the last vector result for it. */
  ghost predicate AfterVector(t: Tally, id: Id, first: Option<Chunk>, last: Option<Chunk>) {
    && (id in t.table <==> first.Some?) && (id in t.table <==> last.Some?)
    && (id in t.table && first.Some? ==>
          Describes(t.table[id], first.value) && t.table[id].keywordScore == None
          && t.table[id].vectorScore == VectorScoreOf(last))
  }

  lemma {:induction false} VectorFields(cs: seq<Chunk>, n: nat, k: nat, id: Id)
    requires n <= |cs|
    ensures AfterVector(VectorPass(cs, n, k), id, FirstOf(cs, n, id), LastOf(cs, n, id))
  {
    if n != 0 {
      VectorFields(cs, n - 1, k, id);
    }
  }

  /** The entry of `id` after the keyword pass over what the vector pass left. */
  ghost predicate AfterKeyword(t: Tally, t': Tally, id: Id, first: Option<Chunk>, last: Option<Chunk>) {
    && (id in t'.table <==> id in t.table || first.Some?) && (first.Some? <==> last.Some?)
    && (id in t.table && id in t'.table ==>
          && t'.table[id].(score := 0.0, keywordScore := None) == t.table[id].(score := 0.0, keywordScore := None)
          && t'.table[id].keywordScore == if last.Some? then KeywordScoreOf(last) else t.table[id].keywordScore)
    && (id !in t.table && id in t'.table && first.Some? ==>
          Describes(t'.table[id], first.value) && t'.table[id].vectorScore == None
          && t'.table[id].keywordScore == KeywordScoreOf(last))
  }

  lemma {:induction false} KeywordFields(t: Tally, cs: seq<Chunk>, n: nat, k: nat, id: Id)
    requires n <= |cs|
    ensures AfterKeyword(t, KeywordPass(t, cs, n, k), id, FirstOf(cs, n, id), LastOf(cs, n, id))
  {
    if n != 0 {
      KeywordFields(t, cs, n - 1, k, id);
    }
  }

  /** A fused item is described by the first chunk with its identifier, vector results first; each of its
    * two scores is that of the last such chunk of that ranking. */
  ghost predicate FieldsOf(f: Fused, v: Option<Chunk>, w: Option<Chunk>, lastV: Option<Chunk>, lastW: Option<Chunk>) {
    && (v.Some? || w.Some?) && Describes(f, if v.Some? then v.value else w.value)
    && f.vectorScore == VectorScoreOf(lastV) && f.keywordScore == KeywordScoreOf(lastW)
  }

  lemma JoinFields(t: Tally, t': Tally, id: Id, v: Option<Chunk>, w: Option<Chunk>, lastV: Option<Chunk>,
                   lastW: Option<Chunk>)
    requires AfterVector(t, id, v, lastV) && AfterKeyword(t, t', id, w, lastW) && id in t'.table
    ensures FieldsOf(t'.table[id], v, w, lastV, lastW)
  {
  }

  lemma FieldsComeFromChunks(vector: seq<Chunk>, keyword: seq<Chunk>, k: nat, id: Id)
    requires id in Tallied(vector, keyword, k).table
    ensures FieldsOf(Tallied(vector, keyword, k).table[id],
                     FirstOf(vector, |vector|, id), FirstOf(keyword, |keyword|, id),
                     LastOf(vector, |vector|, id), LastOf(keyword, |keyword|, id))
  {
    var t := VectorPass(vector, |vector|, k);
    VectorFields(vector, |vector|, k, id);
    KeywordFields(t, keyword, |keyword|, k, id);
    JoinFields(t, Tallied(vector, keyword, k), id, FirstOf(vector, |vector|, id), FirstOf(keyword, |keyword|, id),
               LastOf(vector, |vector|, id), LastOf(keyword, |keyword|, id));
  }

  // ------------------------------------------------------------------------ dominance

  ghost predicate NoRepeats(ids: seq<Id>) {
    forall i, j :: 0 <= i < j < |ids| ==> ids[i] != ids[j]
  }

  /** Wherever `b` is ranked, `a` is ranked before it. */
  ghost predicate Leads(ids: seq<Id>, a: Id, b: Id) {
    forall j :: 0 <= j < |ids| && ids[j] == b ==> exists i :: 0 <= i < j && ids[i] == a
  }

  lemma {:induction false} TotalAbsent(ids: seq<Id>, n: nat, id: Id, k: nat)
    requires n <= |ids| && id !in ids[..n]
    ensures Total(ids, n, id, k) == 0.0
  {
    if n != 0 {
      assert ids[n - 1] in ids[..n];
      TotalAbsent(ids, n - 1, id, k);
    }
  }

  lemma {:induction false} TotalOnce(ids: seq<Id>, n: nat, i: nat, k: nat)
    requires i < n <= |ids| && NoRepeats(ids)
    ensures Total(ids, n, ids[i], k) == Recip(k + i + 1)
  {
    if i == n - 1 {
      assert ids[i] !in ids[..i];
      TotalAbsent(ids, i, ids[i], k);
    } else {
      TotalOnce(ids, n - 1, i, k);
    }
  }

  lemma {:induction false} TotalIsPositive(ids: seq<Id>, n: nat, id: Id, k: nat)
    requires n <= |ids|
    ensures Total(ids, n, id, k) >= 0.0
  {
    if n != 0 {
      TotalIsPositive(ids, n - 1, id, k);
      RecipDecreases(k + n, k + n);
    }
  }

  lemma LeaderScoresMore(ids: seq<Id>, a: Id, b: Id, k: nat)
    requires NoRepeats(ids) && Leads(ids, a, b)
    ensures Total(ids, |ids|, a, k) >= Total(ids, |ids|, b, k)
    ensures b in ids ==> Total(ids, |ids|, a, k) > Total(ids, |ids|, b, k)
  {
    if b in ids {
      var j :| 0 <= j < |ids| && ids[j] == b;
      var i :| 0 <= i < j && ids[i] == a;
      TotalOnce(ids, |ids|, i, k);
      TotalOnce(ids, |ids|, j, k);
      RecipDecreases(k + i + 1, k + j + 1);
    } else {
      assert ids[..|ids|] == ids;
      TotalAbsent(ids, |ids|, b, k);
      TotalIsPositive(ids, |ids|, a, k);
    }
  }

  /** An item ranked before another wherever the other is ranked comes before it in the fused ranking. */
  lemma DominanceIsRespected(vector: seq<Chunk>, keyword: seq<Chunk>, k: nat, a: Id, b: Id)
    requires NoRepeats(Ids(vector)) && NoRepeats(Ids(keyword))
    requires Leads(Ids(vector), a, b) && Leads(Ids(keyword), a, b)
    requires b in Ids(vector) || b in Ids(keyword)
    ensures exists i, j :: 0 <= i < j < |Fuse(vector, keyword, k)|
              && Fuse(vector, keyword, k)[i].id == a && Fuse(vector, keyword, k)[j].id == b
  {
    LeaderScoresMore(Ids(vector), a, b, k);
    LeaderScoresMore(Ids(keyword), a, b, k);
    var t := Tallied(vector, keyword, k);
    TalliedIs(vector, keyword, k, a);
    TalliedIs(vector, keyword, k, b);
    assert a in t.order && b in t.order;
    var i :| 0 <= i < |t.order| && t.order[i] == a;
    var j :| 0 <= j < |t.order| && t.order[j] == b;
    var es := Entries(t);
    SortOrders(es, |es|, ScoreOf, i, j);
    var x, y :| 0 <= x < y < |Fuse(vector, keyword, k)| && Fuse(vector, keyword, k)[x] == es[i]
                && Fuse(vector, keyword, k)[y] == es[j];
  }
}
