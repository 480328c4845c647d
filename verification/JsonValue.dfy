/** Validating and copying a JSON value out of an object graph that may share containers or be cyclic. */
module JsonValue {
  import opened Wrappers

  type Address = nat

  datatype Float = Finite(value: real) | NotANumber | Infinite

  /** A Python object: a leaf, a container by its identity, or something JSON does not know. */
  datatype Value =
    | Null
    | Bool(bool_: bool)
    | Int(int_: int)
    | Number(float: Float)
    | Str(text: string)
    | Ref(at: Address)
    | Foreign

  datatype Key = Name(name: string) | NotAString

  datatype Container = List(items: seq<Value>) | Dict(entries: seq<(Key, Value)>)

  type Heap = map<Address, Container>

  datatype Json =
    | JNull
    | JBool(bool_: bool)
    | JInt(int_: int)
    | JNumber(value: real)
    | JStr(text: string)
    | JList(items: seq<Json>)
    | JDict(entries: seq<(string, Json)>)

  datatype JsonError = NotFinite | Cycle | KeyNotString | NotJson

  /** Every reference leads to a container. */
  ghost predicate Closed(h: Heap) {
    forall a, v :: a in h && v in Children(h[a]) ==> InHeap(h, v)
  }

  predicate InHeap(h: Heap, v: Value) {
    v.Ref? ==> v.at in h
  }

  function Values(es: seq<(Key, Value)>): (vs: seq<Value>)
    ensures |vs| == |es| && forall i :: 0 <= i < |es| ==> vs[i] == es[i].1
  {
    seq(|es|, i requires 0 <= i < |es| => es[i].1)
  }

  function Children(c: Container): seq<Value> {
    match c
    case List(items) => items
    case Dict(entries) => Values(entries)
  }

  // ------------------------------------------------------------------------- checking

  function Leaf(v: Value): Result<Json, JsonError>
    requires !v.Ref?
  {
    match v
    case Null => Ok(JNull)
    case Bool(b) => Ok(JBool(b))
    case Int(i) => Ok(JInt(i))
    case Str(s) => Ok(JStr(s))
    case Number(f) => if f.Finite? then Ok(JNumber(f.value)) else Err(NotFinite)
    case Foreign => Err(NotJson)
  }

  function Left(h: Heap, seen: set<Address>): nat {
    |h.Keys - seen|
  }

  lemma LeftShrinks(h: Heap, seen: set<Address>, a: Address)
    requires a in h && a !in seen
    ensures Left(h, seen + {a}) < Left(h, seen)
  {
    assert h.Keys - (seen + {a}) == h.Keys - seen - {a};
  }

  /** The copy of a value, or the first error met; `seen` are the containers around it. */
  ghost function Check(h: Heap, v: Value, seen: set<Address>): Result<Json, JsonError>
    requires Closed(h) && InHeap(h, v)
    decreases Left(h, seen), 0
  {
    if !v.Ref? then Leaf(v)
    else if v.at in seen then Err(Cycle)
    else
      LeftShrinks(h, seen, v.at);
      match h[v.at]
      case List(items) =>
        (match CheckItems(h, v.at, |items|, seen + {v.at})
         case Ok(js) => Ok(JList(js))
         case Err(e) => Err(e))
      case Dict(entries) =>
        (match CheckEntries(h, v.at, |entries|, seen + {v.at})
         case Ok(es) => Ok(JDict(es))
         case Err(e) => Err(e))
  }

  /** The copies of the first `n` items of the list at `a`. */
  ghost function CheckItems(h: Heap, a: Address, n: nat, seen: set<Address>): Result<seq<Json>, JsonError>
    requires Closed(h) && a in h && h[a].List? && n <= |h[a].items|
    decreases Left(h, seen), n
  {
    if n == 0 then Ok([])
    else
      match CheckItems(h, a, n - 1, seen)
      case Err(e) => Err(e)
      case Ok(js) =>
        assert h[a].items[n - 1] in Children(h[a]);
        match Check(h, h[a].items[n - 1], seen)
        case Err(e) => Err(e)
        case Ok(j) => Ok(js + [j])
  }

  /** The copies of the first `n` entries of the dictionary at `a`; a key is looked at before its value. */
  ghost function CheckEntries(h: Heap, a: Address, n: nat, seen: set<Address>): Result<seq<(string, Json)>, JsonError>
    requires Closed(h) && a in h && h[a].Dict? && n <= |h[a].entries|
    decreases Left(h, seen), n
  {
    if n == 0 then Ok([])
    else
      match CheckEntries(h, a, n - 1, seen)
      case Err(e) => Err(e)
      case Ok(es) =>
        var entry := h[a].entries[n - 1];
        assert Values(h[a].entries)[n - 1] == entry.1;
        assert entry.1 in Children(h[a]);
        if !entry.0.Name? then Err(KeyNotString)
        else
          match Check(h, entry.1, seen)
          case Err(e) => Err(e)
          case Ok(j) => Ok(es + [(entry.0.name, j)])
  }

  class Validator {
    /** The containers around the value being copied, shared by all calls of one validation. */
    var seen: set<Address>

    constructor ()
      ensures seen == {}
    {
      seen := {};
    }

    /** However it ends, `seen` is as it was. */
    method Validate(h: Heap, v: Value) returns (r: Result<Json, JsonError>)
      requires Closed(h) && InHeap(h, v)
      modifies this
      ensures r == Check(h, v, old(seen)) && seen == old(seen)
      decreases Left(h, seen), 0
    {
      if !v.Ref? {
        return Leaf(v);
      }
      if v.at in seen {
        return Err(Cycle);
      }
      LeftShrinks(h, seen, v.at);
      seen := seen + {v.at};
      match h[v.at] {
        case List(items) =>
          var js := CopyItems(h, v.at);
          r := if js.Ok? then Ok(JList(js.value)) else Err(js.error);
        case Dict(entries) =>
          var es := CopyEntries(h, v.at);
          r := if es.Ok? then Ok(JDict(es.value)) else Err(es.error);
      }
      seen := seen - {v.at};
    }

    method CopyItems(h: Heap, a: Address) returns (r: Result<seq<Json>, JsonError>)
      requires Closed(h) && a in h && h[a].List?
      modifies this
      ensures r == CheckItems(h, a, |h[a].items|, old(seen)) && seen == old(seen)
      decreases Left(h, seen), 1
    {
      var items := h[a].items;
      var js: seq<Json> := [];
      for n := 0 to |items|
        invariant seen == old(seen)
        invariant CheckItems(h, a, n, seen) == Ok(js)
      {
        assert items[n] in Children(h[a]);
        var j := Validate(h, items[n]);
        if j.Err? {
          ItemErrorStays(h, a, n + 1, |items|, seen);
          return Err(j.error);
        }
        js := js + [j.value];
      }
      r := Ok(js);
    }

    method CopyEntries(h: Heap, a: Address) returns (r: Result<seq<(string, Json)>, JsonError>)
      requires Closed(h) && a in h && h[a].Dict?
      modifies this
      ensures r == CheckEntries(h, a, |h[a].entries|, old(seen)) && seen == old(seen)
      decreases Left(h, seen), 1
    {
      var entries := h[a].entries;
      var es: seq<(string, Json)> := [];
      for n := 0 to |entries|
        invariant seen == old(seen)
        invariant CheckEntries(h, a, n, seen) == Ok(es)
      {
        assert Values(entries)[n] == entries[n].1;
        assert entries[n].1 in Children(h[a]);
        if !entries[n].0.Name? {
          EntryErrorStays(h, a, n + 1, |entries|, seen);
          return Err(KeyNotString);
        }
        var j := Validate(h, entries[n].1);
        if j.Err? {
          EntryErrorStays(h, a, n + 1, |entries|, seen);
          return Err(j.error);
        }
        es := es + [(entries[n].0.name, j.value)];
      }
      r := Ok(es);
    }
  }

  lemma {:induction false} ItemErrorStays(h: Heap, a: Address, m: nat, n: nat, seen: set<Address>)
    requires Closed(h) && a in h && h[a].List? && m <= n <= |h[a].items| && CheckItems(h, a, m, seen).Err?
    ensures CheckItems(h, a, n, seen) == CheckItems(h, a, m, seen)
    decreases n
  {
    if m < n {
      ItemErrorStays(h, a, m, n - 1, seen);
    }
  }

  lemma {:induction false} EntryErrorStays(h: Heap, a: Address, m: nat, n: nat, seen: set<Address>)
    requires Closed(h) && a in h && h[a].Dict? && m <= n <= |h[a].entries| && CheckEntries(h, a, m, seen).Err?
    ensures CheckEntries(h, a, n, seen) == CheckEntries(h, a, m, seen)
    decreases n
  {
    if m < n {
      EntryErrorStays(h, a, m, n - 1, seen);
    }
  }

  // ------------------------------------------------------------------------ unfolding

  /** `t` is the finite tree that `v` unfolds to. */
  ghost predicate Unfolds(h: Heap, v: Value, t: Json)
    decreases t
  {
    match t
    case JList(js) =>
      && v.Ref? && v.at in h && h[v.at].List? && |h[v.at].items| == |js|
      && forall i :: 0 <= i < |js| ==> Unfolds(h, h[v.at].items[i], js[i])
    case JDict(es) =>
      && v.Ref? && v.at in h && h[v.at].Dict? && |h[v.at].entries| == |es|
      && forall i :: 0 <= i < |es| ==>
           h[v.at].entries[i].0 == Name(es[i].0) && Unfolds(h, h[v.at].entries[i].1, es[i].1)
    case _ => !v.Ref? && Leaf(v) == Ok(t)
  }

  /** The result is the unfolding of the input. */
  lemma {:induction false} CheckUnfolds(h: Heap, v: Value, seen: set<Address>)
    requires Closed(h) && InHeap(h, v) && Check(h, v, seen).Ok?
    ensures Unfolds(h, v, Check(h, v, seen).value)
    decreases Left(h, seen), 0
  {
    if v.Ref? {
      LeftShrinks(h, seen, v.at);
      if h[v.at].List? {
        ItemsUnfold(h, v.at, |h[v.at].items|, seen + {v.at});
      } else {
        EntriesUnfold(h, v.at, |h[v.at].entries|, seen + {v.at});
      }
    }
  }

  lemma {:induction false} ItemsUnfold(h: Heap, a: Address, n: nat, seen: set<Address>)
    requires Closed(h) && a in h && h[a].List? && n <= |h[a].items| && CheckItems(h, a, n, seen).Ok?
    ensures var js := CheckItems(h, a, n, seen).value;
            |js| == n && forall i :: 0 <= i < n ==> Unfolds(h, h[a].items[i], js[i])
    decreases Left(h, seen), n
  {
    if n != 0 {
      ItemsUnfold(h, a, n - 1, seen);
      assert h[a].items[n - 1] in Children(h[a]);
      CheckUnfolds(h, h[a].items[n - 1], seen);
    }
  }

  lemma {:induction false} EntriesUnfold(h: Heap, a: Address, n: nat, seen: set<Address>)
    requires Closed(h) && a in h && h[a].Dict? && n <= |h[a].entries| && CheckEntries(h, a, n, seen).Ok?
    ensures var es := CheckEntries(h, a, n, seen).value;
            && |es| == n
            && forall i :: 0 <= i < n ==>
                 h[a].entries[i].0 == Name(es[i].0) && Unfolds(h, h[a].entries[i].1, es[i].1)
    decreases Left(h, seen), n
  {
    if n != 0 {
      EntriesUnfold(h, a, n - 1, seen);
      assert Values(h[a].entries)[n - 1] == h[a].entries[n - 1].1;
      assert h[a].entries[n - 1].1 in Children(h[a]);
      CheckUnfolds(h, h[a].entries[n - 1].1, seen);
    }
  }

  /** A value unfolds to one tree at most. */
  lemma {:induction false} UnfoldingIsUnique(h: Heap, v: Value, t: Json, u: Json)
    requires Unfolds(h, v, t) && Unfolds(h, v, u)
    ensures t == u
    decreases t
  {
    match t
    case JList(js) =>
      forall i | 0 <= i < |js| ensures js[i] == u.items[i] {
        UnfoldingIsUnique(h, h[v.at].items[i], js[i], u.items[i]);
      }
    case JDict(es) =>
      forall i | 0 <= i < |es| ensures es[i] == u.entries[i] {
        UnfoldingIsUnique(h, h[v.at].entries[i].1, es[i].1, u.entries[i].1);
      }
    case _ =>
  }

  function Sum(js: seq<Json>, n: nat): nat
    requires n <= |js|
    decreases js, n
  {
    if n == 0 then 0 else Sum(js, n - 1) + Size(js[n - 1])
  }

  function SumEntries(es: seq<(string, Json)>, n: nat): nat
    requires n <= |es|
    decreases es, n
  {
    if n == 0 then 0
    else
      var e := es[n - 1];
      assert (e decreases to e.1) && (es decreases to e);
      SumEntries(es, n - 1) + Size(e.1)
  }

  function Size(t: Json): nat
    decreases t
  {
    match t
    case JList(js) => 1 + Sum(js, |js|)
    case JDict(es) => 1 + SumEntries(es, |es|)
    case _ => 1
  }

  lemma {:induction false} ItemIsSmaller(js: seq<Json>, n: nat, i: nat)
    requires i < n <= |js|
    ensures Size(js[i]) <= Sum(js, n)
  {
    if i < n - 1 {
      ItemIsSmaller(js, n - 1, i);
    }
  }

  lemma {:induction false} EntryIsSmaller(es: seq<(string, Json)>, n: nat, i: nat)
    requires i < n <= |es|
    ensures Size(es[i].1) <= SumEntries(es, n)
  {
    if i < n - 1 {
      EntryIsSmaller(es, n - 1, i);
    }
  }

  /** The containers around a value unfold to larger trees than it does. */
  ghost predicate Around(h: Heap, seen: set<Address>, size: nat) {
    forall a :: a in seen ==> exists u :: Unfolds(h, Ref(a), u) && Size(u) > size
  }

  lemma AroundItem(h: Heap, seen: set<Address>, a: Address, t: Json, size: nat)
    requires Around(h, seen, Size(t)) && Unfolds(h, Ref(a), t) && size < Size(t)
    ensures Around(h, seen + {a}, size)
  {
    forall b | b in seen + {a} ensures exists u :: Unfolds(h, Ref(b), u) && Size(u) > size {
      if b in seen {
        var u :| Unfolds(h, Ref(b), u) && Size(u) > Size(t);
      }
    }
  }

  /** A value with a finite unfolding is copied, shared containers or not. */
  lemma {:induction false} UnfoldingIsCopied(h: Heap, v: Value, seen: set<Address>, t: Json)
    requires Closed(h) && InHeap(h, v) && Unfolds(h, v, t) && Around(h, seen, Size(t))
    ensures Check(h, v, seen) == Ok(t)
    decreases Size(t), 0
  {
    if v.Ref? {
      if v.at in seen {
        var u :| Unfolds(h, Ref(v.at), u) && Size(u) > Size(t);
        UnfoldingIsUnique(h, v, t, u);
      } else if t.JList? {
        ItemsAreCopied(h, v.at, |t.items|, seen, t);
        assert t.items[..|t.items|] == t.items;
      } else {
        EntriesAreCopied(h, v.at, |t.entries|, seen, t);
        assert t.entries[..|t.entries|] == t.entries;
      }
    }
  }

  lemma {:induction false} ItemsAreCopied(h: Heap, a: Address, n: nat, seen: set<Address>, t: Json)
    requires Closed(h) && t.JList? && Unfolds(h, Ref(a), t) && Around(h, seen, Size(t)) && n <= |t.items|
    ensures CheckItems(h, a, n, seen + {a}) == Ok(t.items[..n])
    decreases Size(t), 0, n
  {
    if n != 0 {
      ItemsAreCopied(h, a, n - 1, seen, t);
      ItemIsSmaller(t.items, |t.items|, n - 1);
      AroundItem(h, seen, a, t, Size(t.items[n - 1]));
      assert h[a].items[n - 1] in Children(h[a]);
      UnfoldingIsCopied(h, h[a].items[n - 1], seen + {a}, t.items[n - 1]);
      assert t.items[..n] == t.items[..n - 1] + [t.items[n - 1]];
    }
  }

  lemma {:induction false} EntryIsCopied(h: Heap, a: Address, i: nat, seen: set<Address>, t: Json)
    requires Closed(h) && t.JDict? && Unfolds(h, Ref(a), t) && Around(h, seen, Size(t)) && i < |t.entries|
    ensures h[a].entries[i].0 == Name(t.entries[i].0) && InHeap(h, h[a].entries[i].1)
    ensures Check(h, h[a].entries[i].1, seen + {a}) == Ok(t.entries[i].1)
    decreases Size(t), 0, 0
  {
    EntryIsSmaller(t.entries, |t.entries|, i);
    AroundItem(h, seen, a, t, Size(t.entries[i].1));
    assert Values(h[a].entries)[i] == h[a].entries[i].1;
    assert h[a].entries[i].1 in Children(h[a]);
    UnfoldingIsCopied(h, h[a].entries[i].1, seen + {a}, t.entries[i].1);
  }

  lemma {:induction false} EntriesAreCopied(h: Heap, a: Address, n: nat, seen: set<Address>, t: Json)
    requires Closed(h) && t.JDict? && Unfolds(h, Ref(a), t) && Around(h, seen, Size(t)) && n <= |t.entries|
    ensures CheckEntries(h, a, n, seen + {a}) == Ok(t.entries[..n])
    decreases Size(t), 0, n
  {
    if n != 0 {
      EntriesAreCopied(h, a, n - 1, seen, t);
      EntryIsCopied(h, a, n - 1, seen, t);
      var e := t.entries[n - 1];
      assert e == (e.0, e.1);
      assert t.entries[..n] == t.entries[..n - 1] + [t.entries[n - 1]];
    }
  }

  /** A value is copied to a tree exactly when it unfolds to it. */
  lemma CopiedIffUnfolds(h: Heap, v: Value, t: Json)
    requires Closed(h) && InHeap(h, v)
    ensures Check(h, v, {}) == Ok(t) <==> Unfolds(h, v, t)
  {
    if Check(h, v, {}) == Ok(t) {
      CheckUnfolds(h, v, {});
    }
    if Unfolds(h, v, t) {
      UnfoldingIsCopied(h, v, {}, t);
    }
  }

  /** Validating a copy, wherever it is stored, gives the same tree. */
  lemma ValidatingAgain(h: Heap, v: Value, stored: Heap, copy: Value)
    requires Closed(h) && InHeap(h, v) && Closed(stored) && InHeap(stored, copy) && Check(h, v, {}).Ok?
    requires Unfolds(stored, copy, Check(h, v, {}).value)
    ensures Check(stored, copy, {}) == Check(h, v, {})
  {
    CopiedIffUnfolds(stored, copy, Check(h, v, {}).value);
  }

  // --------------------------------------------------------------------------- cycles

  /** A walk from a value through containers, each holding a reference to the next. */
  ghost predicate Chain(h: Heap, v: Value, c: seq<Address>) {
    && c != [] && v == Ref(c[0]) && (forall a :: a in c ==> a in h)
    && forall i, j :: 0 <= i < j < |c| && j == i + 1 ==> Ref(c[j]) in Children(h[c[i]])
  }

  /** The leaves and keys of one container are those of JSON; numbers are finite. */
  ghost predicate LegalHere(c: Container) {
    && (forall v :: v in Children(c) && !v.Ref? ==> Leaf(v).Ok?)
    && (c.Dict? ==> forall e :: e in c.entries ==> e.0.Name?)
  }

  /** The walk meets none of `seen`, nothing twice, and ends at a legal container. */
  ghost predicate GoodChain(h: Heap, c: seq<Address>, seen: set<Address>)
    requires c != [] && c[|c| - 1] in h
  {
    && (forall a :: a in c ==> a !in seen)
    && (forall i, j :: 0 <= i < j < |c| ==> c[i] != c[j])
    && LegalHere(h[c[|c| - 1]])
  }

  lemma {:induction false} ItemsOkEach(h: Heap, a: Address, n: nat, seen: set<Address>, i: nat)
    requires Closed(h) && a in h && h[a].List? && i < n <= |h[a].items| && CheckItems(h, a, n, seen).Ok?
    ensures h[a].items[i] in Children(h[a]) && Check(h, h[a].items[i], seen).Ok?
  {
    if i < n - 1 {
      ItemsOkEach(h, a, n - 1, seen, i);
    }
  }

  lemma {:induction false} EntriesOkEach(h: Heap, a: Address, n: nat, seen: set<Address>, i: nat)
    requires Closed(h) && a in h && h[a].Dict? && i < n <= |h[a].entries| && CheckEntries(h, a, n, seen).Ok?
    ensures h[a].entries[i].1 in Children(h[a]) && h[a].entries[i].0.Name? && Check(h, h[a].entries[i].1, seen).Ok?
  {
    assert Values(h[a].entries)[i] == h[a].entries[i].1;
    if i < n - 1 {
      EntriesOkEach(h, a, n - 1, seen, i);
    }
  }

  /** A container that is copied has legal leaves and keys, and its children are copied inside it. */
  lemma CopiedContainer(h: Heap, a: Address, seen: set<Address>)
    requires Closed(h) && a in h && Check(h, Ref(a), seen).Ok?
    ensures a !in seen && LegalHere(h[a])
    ensures forall v :: v in Children(h[a]) ==> InHeap(h, v) && Check(h, v, seen + {a}).Ok?
  {
    var inner := seen + {a};
    if h[a].List? {
      forall v | v in Children(h[a]) ensures Check(h, v, inner).Ok? {
        var i :| 0 <= i < |h[a].items| && h[a].items[i] == v;
        ItemsOkEach(h, a, |h[a].items|, inner, i);
      }
    } else {
      forall v | v in Children(h[a]) ensures Check(h, v, inner).Ok? {
        var i :| 0 <= i < |h[a].entries| && Values(h[a].entries)[i] == v;
        EntriesOkEach(h, a, |h[a].entries|, inner, i);
      }
      forall e | e in h[a].entries ensures e.0.Name? {
        var i :| 0 <= i < |h[a].entries| && h[a].entries[i] == e;
        EntriesOkEach(h, a, |h[a].entries|, inner, i);
      }
    }
  }

  lemma ChainTail(h: Heap, v: Value, c: seq<Address>)
    requires Chain(h, v, c) && |c| > 1
    ensures Chain(h, Ref(c[1]), c[1..]) && Ref(c[1]) in Children(h[c[0]])
  {
    var tail := c[1..];
    forall i, j | 0 <= i < j < |tail| && j == i + 1 ensures Ref(tail[j]) in Children(h[tail[i]]) {
      assert tail[i] == c[i + 1] && tail[j] == c[j + 1];
    }
  }

  lemma {:induction false} CopiedChainsAreGood(h: Heap, v: Value, seen: set<Address>, c: seq<Address>)
    requires Closed(h) && InHeap(h, v) && Check(h, v, seen).Ok? && Chain(h, v, c)
    ensures GoodChain(h, c, seen)
    decreases |c|
  {
    CopiedContainer(h, c[0], seen);
    if |c| > 1 {
      ChainTail(h, v, c);
      var tail := c[1..];
      CopiedChainsAreGood(h, Ref(c[1]), seen + {c[0]}, tail);
      assert c == [c[0]] + tail;
      forall i, j | 0 <= i < j < |c| ensures c[i] != c[j] {
        assert c[j] == tail[j - 1] && tail[j - 1] in tail;
        assert i > 0 ==> c[i] == tail[i - 1];
      }
    }
  }

  lemma {:induction false} ItemError(h: Heap, a: Address, n: nat, seen: set<Address>) returns (v: Value)
    requires Closed(h) && a in h && h[a].List? && n <= |h[a].items| && CheckItems(h, a, n, seen).Err?
    ensures v in Children(h[a]) && InHeap(h, v) && Check(h, v, seen).Err?
  {
    if CheckItems(h, a, n - 1, seen).Err? {
      v := ItemError(h, a, n - 1, seen);
    } else {
      v := h[a].items[n - 1];
      assert v in Children(h[a]);
    }
  }

  lemma {:induction false} EntryError(h: Heap, a: Address, n: nat, seen: set<Address>) returns (e: (Key, Value))
    requires Closed(h) && a in h && h[a].Dict? && n <= |h[a].entries| && CheckEntries(h, a, n, seen).Err?
    ensures e in h[a].entries && e.1 in Children(h[a]) && InHeap(h, e.1)
    ensures e.0.Name? ==> Check(h, e.1, seen).Err?
  {
    if CheckEntries(h, a, n - 1, seen).Err? {
      e := EntryError(h, a, n - 1, seen);
    } else {
      e := h[a].entries[n - 1];
      assert Values(h[a].entries)[n - 1] == e.1;
      assert e.1 in Children(h[a]);
    }
  }

  /** Every failure has a walk to blame: to a container around it, in a circle, or to something illegal. */
  lemma {:induction false} FailureHasChain(h: Heap, v: Value, seen: set<Address>) returns (c: seq<Address>)
    requires Closed(h) && InHeap(h, v) && v.Ref? && Check(h, v, seen).Err?
    ensures Chain(h, v, c) && !GoodChain(h, c, seen)
    decreases Left(h, seen)
  {
    var a := v.at;
    c := [a];
    if a !in seen && LegalHere(h[a]) {
      LeftShrinks(h, seen, a);
      var child: Value;
      if h[a].List? {
        child := ItemError(h, a, |h[a].items|, seen + {a});
      } else {
        var e := EntryError(h, a, |h[a].entries|, seen + {a});
        child := e.1;
      }
      var tail := FailureHasChain(h, child, seen + {a});
      c := [a] + tail;
      LongerChain(h, a, tail, seen);
    }
  }

  lemma PrependChain(h: Heap, a: Address, tail: seq<Address>)
    requires a in h && tail != [] && Chain(h, Ref(tail[0]), tail) && Ref(tail[0]) in Children(h[a])
    ensures Chain(h, Ref(a), [a] + tail)
  {
    var c := [a] + tail;
    forall i, j | 0 <= i < j < |c| && j == i + 1 ensures Ref(c[j]) in Children(h[c[i]]) {
      assert i > 0 ==> c[i] == tail[i - 1] && c[j] == tail[j - 1];
    }
  }

  lemma LongerChain(h: Heap, a: Address, tail: seq<Address>, seen: set<Address>)
    requires a in h && tail != [] && Chain(h, Ref(tail[0]), tail) && Ref(tail[0]) in Children(h[a])
    requires !GoodChain(h, tail, seen + {a})
    ensures Chain(h, Ref(a), [a] + tail) && !GoodChain(h, [a] + tail, seen)
  {
    PrependChain(h, a, tail);
    if GoodChain(h, [a] + tail, seen) {
      GoodTail(h, a, tail, seen);
    }
  }

  lemma GoodTail(h: Heap, a: Address, tail: seq<Address>, seen: set<Address>)
    requires tail != [] && tail[|tail| - 1] in h && GoodChain(h, [a] + tail, seen)
    ensures GoodChain(h, tail, seen + {a})
  {
    var c := [a] + tail;
    assert forall i :: 0 <= i < |tail| ==> c[i + 1] == tail[i];
    forall b | b in tail ensures b !in seen + {a} {
      var i :| 0 <= i < |tail| && tail[i] == b;
      assert c[0] != c[i + 1] && c[i + 1] in c;
    }
    forall i, j | 0 <= i < j < |tail| ensures tail[i] != tail[j] {
      assert c[i + 1] != c[j + 1];
    }
    assert c[|c| - 1] == tail[|tail| - 1];
  }

  /** Validation succeeds exactly when no cycle can be reached and every leaf and key is legal. */
  lemma ValidIffAcyclicAndLegal(h: Heap, v: Value)
    requires Closed(h) && InHeap(h, v)
    ensures Check(h, v, {}).Ok? <==>
              if v.Ref? then forall c :: Chain(h, v, c) ==> GoodChain(h, c, {}) else Leaf(v).Ok?
  {
    if v.Ref? {
      if Check(h, v, {}).Ok? {
        forall c | Chain(h, v, c) ensures GoodChain(h, c, {}) {
          CopiedChainsAreGood(h, v, {}, c);
        }
      } else {
        var c := FailureHasChain(h, v, {});
      }
    }
  }
}
