/** Sorting by a score, highest first; equal scores keep their order. */
module StableSort {
  /** Puts `x` behind everything that scores at least as much. */
  function Insert<T>(x: T, s: seq<T>, key: T -> real): seq<T> {
    if s == [] || key(s[|s| - 1]) >= key(x) then s + [x]
    else Insert(x, s[..|s| - 1], key) + [s[|s| - 1]]
  }

  function Sort<T>(s: seq<T>, n: nat, key: T -> real): seq<T>
    requires n <= |s|
  {
    if n == 0 then [] else Insert(s[n - 1], Sort(s, n - 1, key), key)
  }

  ghost predicate Descending<T>(s: seq<T>, key: T -> real) {
    forall i, j :: 0 <= i < j < |s| ==> key(s[i]) >= key(s[j])
  }

  lemma {:induction false} InsertKeepsMembers<T>(x: T, s: seq<T>, key: T -> real, a: T)
    ensures a in Insert(x, s, key) <==> a in s || a == x
    ensures |Insert(x, s, key)| == |s| + 1
  {
    if s != [] && key(s[|s| - 1]) < key(x) {
      assert s == s[..|s| - 1] + [s[|s| - 1]];
      InsertKeepsMembers(x, s[..|s| - 1], key, a);
    }
  }

  lemma {:induction false} InsertIsDescending<T>(x: T, s: seq<T>, key: T -> real)
    requires Descending(s, key)
    ensures Descending(Insert(x, s, key), key)
  {
    if s != [] && key(s[|s| - 1]) < key(x) {
      var init, last := s[..|s| - 1], s[|s| - 1];
      InsertIsDescending(x, init, key);
      var r := Insert(x, init, key);
      forall i | 0 <= i < |r| ensures key(r[i]) >= key(last) {
        InsertKeepsMembers(x, init, key, r[i]);
        assert r[i] in r;
        if r[i] in init {
          var k :| 0 <= k < |init| && init[k] == r[i];
          assert s[k] == r[i];
        }
      }
    }
  }

  lemma {:induction false} SortIsDescending<T>(s: seq<T>, n: nat, key: T -> real)
    requires n <= |s|
    ensures Descending(Sort(s, n, key), key)
  {
    if n != 0 {
      SortIsDescending(s, n - 1, key);
      InsertIsDescending(s[n - 1], Sort(s, n - 1, key), key);
    }
  }

  lemma {:induction false} SortKeepsMembers<T>(s: seq<T>, n: nat, key: T -> real, a: T)
    requires n <= |s|
    ensures a in Sort(s, n, key) <==> a in s[..n]
    ensures |Sort(s, n, key)| == n
  {
    if n != 0 {
      SortKeepsMembers(s, n - 1, key, a);
      InsertKeepsMembers(s[n - 1], Sort(s, n - 1, key), key, a);
      assert s[..n] == s[..n - 1] + [s[n - 1]];
    }
  }

  lemma {:induction false} SortLength<T>(s: seq<T>, n: nat, key: T -> real)
    requires n <= |s|
    ensures |Sort(s, n, key)| == n
  {
    if n != 0 {
      SortLength(s, n - 1, key);
      InsertKeepsMembers(s[n - 1], Sort(s, n - 1, key), key, s[n - 1]);
    }
  }

  lemma {:induction false} InsertAdds<T>(x: T, s: seq<T>, key: T -> real)
    ensures multiset(Insert(x, s, key)) == multiset(s) + multiset{x}
  {
    if s != [] && key(s[|s| - 1]) < key(x) {
      assert s == s[..|s| - 1] + [s[|s| - 1]];
      InsertAdds(x, s[..|s| - 1], key);
    }
  }

  lemma PrefixAdds<T>(s: seq<T>, n: nat)
    requires n < |s|
    ensures multiset(s[..n + 1]) == multiset(s[..n]) + multiset{s[n]}
  {
    assert s[..n + 1] == s[..n] + [s[n]];
  }

  /** Sorting only reorders. */
  lemma {:induction false} SortPermutes<T>(s: seq<T>, n: nat, key: T -> real)
    requires n <= |s|
    ensures multiset(Sort(s, n, key)) == multiset(s[..n])
  {
    if n != 0 {
      SortPermutes(s, n - 1, key);
      InsertAdds(s[n - 1], Sort(s, n - 1, key), key);
      PrefixAdds(s, n - 1);
    }
  }

  ghost predicate Before<T(!new)>(s: seq<T>, a: T, b: T) {
    exists i, j :: 0 <= i < j < |s| && s[i] == a && s[j] == b
  }

  lemma {:induction false} InsertKeepsOrder<T(!new)>(x: T, s: seq<T>, key: T -> real, a: T, b: T)
    requires Before(s, a, b)
    ensures Before(Insert(x, s, key), a, b)
  {
    var i, j :| 0 <= i < j < |s| && s[i] == a && s[j] == b;
    var r := Insert(x, s, key);
    if s == [] || key(s[|s| - 1]) >= key(x) {
      assert r[i] == a && r[j] == b;
    } else {
      var init := s[..|s| - 1];
      if j < |s| - 1 {
        assert init[i] == a && init[j] == b;
        InsertKeepsOrder(x, init, key, a, b);
        var k, l :| 0 <= k < l < |Insert(x, init, key)| && Insert(x, init, key)[k] == a && Insert(x, init, key)[l] == b;
        assert r[k] == a && r[l] == b;
      } else {
        assert init[i] == a;
        InsertKeepsMembers(x, init, key, a);
        var k :| 0 <= k < |Insert(x, init, key)| && Insert(x, init, key)[k] == a;
        assert r[k] == a && r[|r| - 1] == b;
      }
    }
  }

  lemma {:induction false} InsertPlaces<T(!new)>(x: T, s: seq<T>, key: T -> real, a: T)
    requires a in s && Descending(s, key)
    ensures if key(a) >= key(x) then Before(Insert(x, s, key), a, x) else Before(Insert(x, s, key), x, a)
  {
    var r := Insert(x, s, key);
    var last := s[|s| - 1];
    if key(last) >= key(x) {
      var i :| 0 <= i < |s| && s[i] == a;
      assert r[i] == a && r[|s|] == x;
    } else {
      var init := s[..|s| - 1];
      assert s == init + [last];
      var t := Insert(x, init, key);
      InsertKeepsMembers(x, init, key, x);
      if a in init {
        InsertPlaces(x, init, key, a);
        if key(a) >= key(x) {
          var i, j :| 0 <= i < j < |t| && t[i] == a && t[j] == x;
          assert r[i] == a && r[j] == x;
        } else {
          var i, j :| 0 <= i < j < |t| && t[i] == x && t[j] == a;
          assert r[i] == x && r[j] == a;
        }
      } else {
        var i :| 0 <= i < |t| && t[i] == x;
        assert r[i] == x && r[|r| - 1] == last;
      }
    }
  }

  /** A higher score comes first, and of equal scores the earlier one. */
  lemma {:induction false} SortOrders<T(!new)>(s: seq<T>, n: nat, key: T -> real, i: nat, j: nat)
    requires i < n <= |s| && j < n && i != j
    requires key(s[i]) > key(s[j]) || (key(s[i]) == key(s[j]) && i < j)
    ensures Before(Sort(s, n, key), s[i], s[j])
  {
    var t := Sort(s, n - 1, key);
    SortIsDescending(s, n - 1, key);
    if i < n - 1 && j < n - 1 {
      SortOrders(s, n - 1, key, i, j);
      InsertKeepsOrder(s[n - 1], t, key, s[i], s[j]);
    } else {
      var a := if i == n - 1 then s[j] else s[i];
      assert a in s[..n - 1];
      SortKeepsMembers(s, n - 1, key, a);
      InsertPlaces(s[n - 1], t, key, a);
    }
  }

  ghost predicate Distinct<T, I>(s: seq<T>, f: T -> I) {
    forall i, j :: 0 <= i < j < |s| ==> f(s[i]) != f(s[j])
  }

  lemma {:induction false} InsertIsDistinct<T, I>(x: T, s: seq<T>, key: T -> real, f: T -> I)
    requires Distinct(s, f) && forall a :: a in s ==> f(a) != f(x)
    ensures Distinct(Insert(x, s, key), f)
  {
    if s == [] || key(s[|s| - 1]) >= key(x) {
      forall i | 0 <= i < |s| ensures f(s[i]) != f(x) {
        assert s[i] in s;
      }
    } else {
      var init, last := s[..|s| - 1], s[|s| - 1];
      assert last in s;
      InsertIsDistinct(x, init, key, f);
      var r := Insert(x, init, key);
      forall i | 0 <= i < |r| ensures f(r[i]) != f(last) {
        InsertKeepsMembers(x, init, key, r[i]);
        if r[i] in init {
          var k :| 0 <= k < |init| && init[k] == r[i];
          assert s[k] == r[i];
        }
      }
    }
  }

  /** Items that differ still do when sorted. */
  lemma {:induction false} SortIsDistinct<T, I>(s: seq<T>, n: nat, key: T -> real, f: T -> I)
    requires n <= |s| && Distinct(s, f)
    ensures Distinct(Sort(s, n, key), f)
  {
    if n != 0 {
      SortIsDistinct(s, n - 1, key, f);
      forall a | a in Sort(s, n - 1, key) ensures f(a) != f(s[n - 1]) {
        SortKeepsMembers(s, n - 1, key, a);
      }
      InsertIsDistinct(s[n - 1], Sort(s, n - 1, key), key, f);
    }
  }

  lemma {:induction false} InsertMatches<T, U>(x: T, s: seq<T>, key: T -> real, y: U, t: seq<U>, key': U -> real,
                                               rel: (T, U) -> bool)
    requires |s| == |t| && rel(x, y) && key(x) == key'(y)
    requires forall i :: 0 <= i < |s| ==> rel(s[i], t[i]) && key(s[i]) == key'(t[i])
    ensures |Insert(x, s, key)| == |Insert(y, t, key')| == |s| + 1
    ensures forall i :: 0 <= i <= |s| ==>
              rel(Insert(x, s, key)[i], Insert(y, t, key')[i]) && key(Insert(x, s, key)[i]) == key'(Insert(y, t, key')[i])
  {
    if s != [] && key(s[|s| - 1]) < key(x) {
      InsertMatches(x, s[..|s| - 1], key, y, t[..|t| - 1], key', rel);
    }
  }

  /** Lists that agree item by item, scores included, still do when sorted. */
  lemma {:induction false} SortMatches<T, U>(s: seq<T>, key: T -> real, t: seq<U>, key': U -> real, n: nat,
                                             rel: (T, U) -> bool)
    requires n <= |s| == |t| && forall i :: 0 <= i < |s| ==> rel(s[i], t[i]) && key(s[i]) == key'(t[i])
    ensures |Sort(s, n, key)| == |Sort(t, n, key')| == n
    ensures forall i :: 0 <= i < n ==>
              rel(Sort(s, n, key)[i], Sort(t, n, key')[i]) && key(Sort(s, n, key)[i]) == key'(Sort(t, n, key')[i])
  {
    if n != 0 {
      SortMatches(s, key, t, key', n - 1, rel);
      InsertMatches(s[n - 1], Sort(s, n - 1, key), key, t[n - 1], Sort(t, n - 1, key'), key', rel);
    }
  }

  // -------------------------------------------------------------- the first of each kind

  ghost predicate KindBefore<T, I>(s: seq<T>, n: nat, f: T -> I, x: I)
    requires n <= |s|
  {
    exists i :: 0 <= i < n && f(s[i]) == x
  }

  /** The items of the first `n` that come before any other of their kind. */
  ghost function FirstOfKind<T, I>(s: seq<T>, n: nat, f: T -> I): seq<T>
    requires n <= |s|
  {
    if n == 0 then []
    else if KindBefore(s, n - 1, f, f(s[n - 1])) then FirstOfKind(s, n - 1, f)
    else FirstOfKind(s, n - 1, f) + [s[n - 1]]
  }

  lemma {:induction false} FirstOfKindIsPart<T, I>(s: seq<T>, n: nat, f: T -> I, a: T)
    requires n <= |s| && a in FirstOfKind(s, n, f)
    ensures a in s[..n] && KindBefore(s, n, f, f(a))
  {
    assert s[..n] == s[..n - 1] + [s[n - 1]];
    if a in FirstOfKind(s, n - 1, f) {
      FirstOfKindIsPart(s, n - 1, f, a);
    } else {
      assert a == s[n - 1];
    }
  }

  lemma {:induction false} FirstOfKindCovers<T, I>(s: seq<T>, n: nat, f: T -> I, x: I)
    requires n <= |s| && KindBefore(s, n, f, x)
    ensures exists a :: a in FirstOfKind(s, n, f) && f(a) == x
  {
    if KindBefore(s, n - 1, f, x) {
      FirstOfKindCovers(s, n - 1, f, x);
    } else {
      assert f(s[n - 1]) == x && s[n - 1] in FirstOfKind(s, n, f);
    }
  }

  lemma {:induction false} FirstOfKindIsDistinct<T, I>(s: seq<T>, n: nat, f: T -> I)
    requires n <= |s|
    ensures Distinct(FirstOfKind(s, n, f), f)
  {
    if n != 0 {
      FirstOfKindIsDistinct(s, n - 1, f);
      var before := FirstOfKind(s, n - 1, f);
      forall i | 0 <= i < |before| ensures KindBefore(s, n - 1, f, f(before[i])) {
        FirstOfKindIsPart(s, n - 1, f, before[i]);
      }
    }
  }

  /** In a sorted list the first of a kind is the best of its kind. */
  lemma {:induction false} FirstOfKindIsBest<T, I>(s: seq<T>, n: nat, f: T -> I, key: T -> real, a: T, b: T)
    requires n <= |s| && Descending(s, key) && a in FirstOfKind(s, n, f) && b in s[..n] && f(a) == f(b)
    ensures key(a) >= key(b)
  {
    assert s[..n] == s[..n - 1] + [s[n - 1]];
    if a in FirstOfKind(s, n - 1, f) {
      if b in s[..n - 1] {
        FirstOfKindIsBest(s, n - 1, f, key, a, b);
      } else {
        FirstOfKindIsPart(s, n - 1, f, a);
        var i :| 0 <= i < n - 1 && s[i] == a;
      }
    } else {
      var j :| 0 <= j < n && s[j] == b;
      assert j == n - 1;
    }
  }

  lemma {:induction false} FirstOfKindIsDescending<T, I>(s: seq<T>, n: nat, f: T -> I, key: T -> real)
    requires n <= |s| && Descending(s, key)
    ensures Descending(FirstOfKind(s, n, f), key)
  {
    if n != 0 {
      FirstOfKindIsDescending(s, n - 1, f, key);
      var before := FirstOfKind(s, n - 1, f);
      forall i | 0 <= i < |before| ensures key(before[i]) >= key(s[n - 1]) {
        FirstOfKindIsPart(s, n - 1, f, before[i]);
        var j :| 0 <= j < n - 1 && s[j] == before[i];
      }
    }
  }

  lemma {:induction false} FirstOfKindMatches<T, U, I>(s: seq<T>, f: T -> I, t: seq<U>, f': U -> I, n: nat,
                                                       rel: (T, U) -> bool)
    requires n <= |s| == |t| && forall i :: 0 <= i < |s| ==> rel(s[i], t[i]) && f(s[i]) == f'(t[i])
    ensures |FirstOfKind(s, n, f)| == |FirstOfKind(t, n, f')|
    ensures forall i :: 0 <= i < |FirstOfKind(s, n, f)| ==> rel(FirstOfKind(s, n, f)[i], FirstOfKind(t, n, f')[i])
  {
    if n != 0 {
      FirstOfKindMatches(s, f, t, f', n - 1, rel);
      var x := f(s[n - 1]);
      if i :| 0 <= i < n - 1 && f(s[i]) == x {
        assert f'(t[i]) == x;
      }
      if i :| 0 <= i < n - 1 && f'(t[i]) == x {
        assert f(s[i]) == x;
      }
    }
  }
}
