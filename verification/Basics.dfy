/** Small functions that several modules share. */
module Basics {
  function Min(x: int, y: int): int {
    if x <= y then x else y
  }

  function Max(x: int, y: int): int {
    if x <= y then y else x
  }

  /** At most the first `n` characters. */
  function Cut(s: string, n: nat): string {
    if |s| <= n then s else s[..n]
  }

  function Mapped<T, U>(s: seq<T>, f: T -> U): (r: seq<U>)
    ensures |r| == |s| && forall i :: 0 <= i < |s| ==> r[i] == f(s[i])
  {
    seq(|s|, i requires 0 <= i < |s| => f(s[i]))
  }
}
