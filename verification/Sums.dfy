/** Sums over the threads 0 .. n-1. */
module Sums {

  function SumUpTo(n: nat, f: nat -> int): int {
    if n == 0 then 0 else SumUpTo(n - 1, f) + f(n - 1)
  }

  lemma {:induction false} SumSame(n: nat, f: nat -> int, g: nat -> int)
    requires forall t: nat :: t < n ==> g(t) == f(t)
    ensures SumUpTo(n, g) == SumUpTo(n, f)
  {
    if n > 0 {
      SumSame(n - 1, f, g);
    }
  }

  lemma {:induction false} SumZero(n: nat, f: nat -> int)
    requires forall t: nat :: t < n ==> f(t) == 0
    ensures SumUpTo(n, f) == 0
  {
    if n > 0 {
      SumZero(n - 1, f);
    }
  }

  /** Only thread t's part differs, by d. */
  lemma {:induction false} SumChange(n: nat, f: nat -> int, g: nat -> int, t: nat, d: int)
    requires t < n && g(t) == f(t) + d
    requires forall u: nat :: u < n && u != t ==> g(u) == f(u)
    ensures SumUpTo(n, g) == SumUpTo(n, f) + d
  {
    if t < n - 1 {
      SumChange(n - 1, f, g, t, d);
    } else {
      SumSame(n - 1, f, g);
    }
  }
}
