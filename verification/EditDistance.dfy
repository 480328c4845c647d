/** The edit distance behind entity resolution.
  *
  * An edit script turns one string into another by keeping, replacing, inserting and deleting
  * characters; the distance is the cost of a cheapest script. `Levenshtein` is the two-row loop of
  * the resolver; it is proved to return that cost, and the distance is proved to be a metric.
  */
module EditDistance {
  import opened Basics

  /** A script is read from the right end of both strings. */
  datatype Script =
    | Done
    | Keep(rest: Script)
    | Replace(rest: Script)
    | Insert(rest: Script)
    | Delete(rest: Script)

  function Cost(s: Script): nat {
    match s
    case Done => 0
    case Keep(r) => Cost(r)
    case Replace(r) => 1 + Cost(r)
    case Insert(r) => 1 + Cost(r)
    case Delete(r) => 1 + Cost(r)
  }

  function Init(s: string): string
    requires s != ""
  {
    s[..|s| - 1]
  }

  function Last(s: string): char
    requires s != ""
  {
    s[|s| - 1]
  }

  /** Script `s` turns `a` into `b`. Only `Keep` demands equal characters. */
  predicate Turns(s: Script, a: string, b: string) {
    match s
    case Done => a == "" && b == ""
    case Keep(r) => a != "" && b != "" && Last(a) == Last(b) && Turns(r, Init(a), Init(b))
    case Replace(r) => a != "" && b != "" && Turns(r, Init(a), Init(b))
    case Insert(r) => b != "" && Turns(r, a, Init(b))
    case Delete(r) => a != "" && Turns(r, Init(a), b)
  }

  /** The recurrence that the loop tabulates. */
  function Distance(a: string, b: string): nat
    decreases |a| + |b|
  {
    if a == "" then |b|
    else if b == "" then |a|
    else Cheapest(Distance(Init(a), b), Distance(a, Init(b)), Distance(Init(a), Init(b)), Last(a) != Last(b))
  }

  /** The three ways to reach a cell: from above, from the left, or along the diagonal. */
  function Cheapest(up: nat, left: nat, diagonal: nat, differ: bool): nat {
    Min(Min(up + 1, left + 1), diagonal + if differ then 1 else 0)
  }

  // ------------------------------------------------------------ shortest script

  function BestScript(a: string, b: string): Script
    decreases |a| + |b|
  {
    if a == "" && b == "" then Done
    else if a == "" then Insert(BestScript(a, Init(b)))
    else if b == "" then Delete(BestScript(Init(a), b))
    else if Distance(a, b) == Distance(Init(a), b) + 1 then Delete(BestScript(Init(a), b))
    else if Distance(a, b) == Distance(a, Init(b)) + 1 then Insert(BestScript(a, Init(b)))
    else if Last(a) == Last(b) then Keep(BestScript(Init(a), Init(b)))
    else Replace(BestScript(Init(a), Init(b)))
  }

  lemma {:induction false} BestScriptReaches(a: string, b: string)
    ensures Turns(BestScript(a, b), a, b)
    ensures Cost(BestScript(a, b)) == Distance(a, b)
    decreases |a| + |b|
  {
    if a != "" { BestScriptReaches(Init(a), b); }
    if b != "" { BestScriptReaches(a, Init(b)); }
    if a != "" && b != "" { BestScriptReaches(Init(a), Init(b)); }
  }

  lemma {:induction false} NoScriptIsCheaper(s: Script, a: string, b: string)
    requires Turns(s, a, b)
    ensures Distance(a, b) <= Cost(s)
  {
    match s
    case Done =>
    case Keep(r) => NoScriptIsCheaper(r, Init(a), Init(b));
    case Replace(r) => NoScriptIsCheaper(r, Init(a), Init(b));
    case Insert(r) => NoScriptIsCheaper(r, a, Init(b));
    case Delete(r) => NoScriptIsCheaper(r, Init(a), b);
  }

  /** `d` is the cost of a shortest edit script from `a` to `b`. */
  ghost predicate IsShortest(d: nat, a: string, b: string) {
    && (exists s :: Turns(s, a, b) && Cost(s) == d)
    && (forall s :: Turns(s, a, b) ==> d <= Cost(s))
  }

  lemma DistanceIsShortest(a: string, b: string)
    ensures IsShortest(Distance(a, b), a, b)
  {
    BestScriptReaches(a, b);
    forall s | Turns(s, a, b) ensures Distance(a, b) <= Cost(s) {
      NoScriptIsCheaper(s, a, b);
    }
  }

  // ------------------------------------------------------------------- a metric

  lemma {:induction false} Symmetric(a: string, b: string)
    ensures Distance(a, b) == Distance(b, a)
    decreases |a| + |b|
  {
    if a != "" && b != "" {
      Symmetric(Init(a), b);
      Symmetric(a, Init(b));
      Symmetric(Init(a), Init(b));
    }
  }

  lemma {:induction false} ZeroIffEqual(a: string, b: string)
    ensures Distance(a, b) == 0 <==> a == b
    decreases |a| + |b|
  {
    if a != "" && b != "" {
      ZeroIffEqual(Init(a), Init(b));
      assert a == Init(a) + [Last(a)] && b == Init(b) + [Last(b)];
    }
  }

  /** Running one script after another costs at most the sum: the step at each position is read off both. */
  lemma {:induction false} Compose(s: Script, t: Script, a: string, b: string, c: string) returns (u: Script)
    requires Turns(s, a, b) && Turns(t, b, c)
    ensures Turns(u, a, c) && Cost(u) <= Cost(s) + Cost(t)
    decreases s, t
  {
    if s.Delete? {
      u := Compose(s.rest, t, Init(a), b, c);
      u := Delete(u);
    } else if t.Insert? {
      u := Compose(s, t.rest, a, b, Init(c));
      u := Insert(u);
    } else if s.Done? {
      u := Done;
    } else if s.Insert? && t.Delete? {
      u := Compose(s.rest, t.rest, a, Init(b), c);
    } else if s.Insert? {
      u := Compose(s.rest, t.rest, a, Init(b), Init(c));
      u := Insert(u);
    } else if t.Delete? {
      u := Compose(s.rest, t.rest, Init(a), Init(b), c);
      u := Delete(u);
    } else {
      u := Compose(s.rest, t.rest, Init(a), Init(b), Init(c));
      u := if s.Keep? && t.Keep? then Keep(u) else Replace(u);
    }
  }

  lemma Triangle(a: string, b: string, c: string)
    ensures Distance(a, c) <= Distance(a, b) + Distance(b, c)
  {
    BestScriptReaches(a, b);
    BestScriptReaches(b, c);
    var u := Compose(BestScript(a, b), BestScript(b, c), a, b, c);
    NoScriptIsCheaper(u, a, c);
  }

  function AbsDiff(x: nat, y: nat): nat {
    if x <= y then y - x else x - y
  }

  lemma {:induction false} Bounds(a: string, b: string)
    ensures AbsDiff(|a|, |b|) <= Distance(a, b) <= Max(|a|, |b|)
    decreases |a| + |b|
  {
    if a != "" && b != "" {
      Bounds(Init(a), b);
      Bounds(a, Init(b));
      Bounds(Init(a), Init(b));
    }
  }

  // ------------------------------------------------------------------- the loop

  function Cell(a: string, b: string, i: nat, j: nat): nat
    requires i <= |a| && j <= |b|
  {
    Distance(a[..i], b[..j])
  }

  /** Row `i` of the table: distances from the first `i` characters of `a` to every prefix of `b`. */
  ghost predicate IsRow(row: seq<nat>, a: string, b: string, i: nat, width: nat)
    requires i <= |a| && width <= |b| + 1
  {
    |row| == width && forall j :: 0 <= j < width ==> row[j] == Cell(a, b, i, j)
  }

  lemma CellRule(a: string, b: string, i: nat, j: nat)
    requires i < |a| && j < |b|
    ensures Cell(a, b, i + 1, j + 1)
         == Cheapest(Cell(a, b, i, j + 1), Cell(a, b, i + 1, j), Cell(a, b, i, j), a[i] != b[j])
  {
    var x, y := a[..i + 1], b[..j + 1];
    assert x != "" && y != "" && Last(x) == a[i] && Last(y) == b[j];
    assert Init(x) == a[..i] && Init(y) == b[..j];
  }

  /** One round of the outer loop. */
  method NextRow(a: string, b: string, i: nat, prev: seq<nat>) returns (curr: seq<nat>)
    requires i < |a| && IsRow(prev, a, b, i, |b| + 1)
    ensures IsRow(curr, a, b, i + 1, |b| + 1)
  {
    curr := [i + 1];
    for j := 0 to |b|
      invariant IsRow(curr, a, b, i + 1, j + 1)
    {
      CellRule(a, b, i, j);
      curr := curr + [Cheapest(prev[j + 1], curr[j], prev[j], a[i] != b[j])];
    }
  }

  /** The two-row tabulation. The longer string is walked by rows, so the call swaps its arguments
    * when the first is the shorter one; that is sound because the distance is symmetric. */
  method Levenshtein(a: string, b: string) returns (d: nat)
    ensures d == Distance(a, b)
    ensures IsShortest(d, a, b)
    decreases if |a| < |b| then 1 else 0
  {
    DistanceIsShortest(a, b);
    if |a| < |b| {
      Symmetric(a, b);
      d := Levenshtein(b, a);
      return;
    }
    if |b| == 0 {
      return |a|;
    }
    var prev: seq<nat> := seq(|b| + 1, i => i);
    for i := 0 to |a|
      invariant IsRow(prev, a, b, i, |b| + 1)
    {
      prev := NextRow(a, b, i, prev);
    }
    assert a[..|a|] == a && b[..|b|] == b;
    d := prev[|prev| - 1];
  }
}
