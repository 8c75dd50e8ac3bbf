/** Finite sums over an index range, used to state conservation laws. */
module Sums {

  /** f(0) + ... + f(n-1). */
  function Sum(n: nat, f: nat -> int): int {
    if n == 0 then 0 else Sum(n - 1, f) + f(n - 1)
  }

  lemma {:induction false} SumSame(n: nat, f: nat -> int, g: nat -> int)
    requires forall i: nat | i < n :: f(i) == g(i)
    ensures Sum(n, f) == Sum(n, g)
  {
    if n > 0 { SumSame(n - 1, f, g); }
  }

  lemma {:induction false} SumPlus(n: nat, f: nat -> int, g: nat -> int, h: nat -> int)
    requires forall i: nat | i < n :: h(i) == f(i) + g(i)
    ensures Sum(n, h) == Sum(n, f) + Sum(n, g)
  {
    if n > 0 { SumPlus(n - 1, f, g, h); }
  }

  lemma {:induction false} SumZero(n: nat, f: nat -> int)
    requires forall i: nat | i < n :: f(i) == 0
    ensures Sum(n, f) == 0
  {
    if n > 0 { SumZero(n - 1, f); }
  }

  /** Two summands that differ at one index only. */
  lemma {:induction false} SumPoint(n: nat, k: nat, f: nat -> int, g: nat -> int)
    requires k < n
    requires forall i: nat | i < n && i != k :: f(i) == g(i)
    ensures Sum(n, f) == Sum(n, g) + f(k) - g(k)
  {
    if k == n - 1 {
      SumSame(n - 1, f, g);
    } else {
      SumPoint(n - 1, k, f, g);
    }
  }

  /** A summand that is zero but at one index. */
  lemma SumSingle(n: nat, k: nat, f: nat -> int)
    requires k < n && forall i: nat | i < n && i != k :: f(i) == 0
    ensures Sum(n, f) == f(k)
  {
    var zero := (i: nat) => 0;
    SumZero(n, zero);
    SumPoint(n, k, f, zero);
  }

  /** Two summands that differ at two distinct indices only. */
  lemma SumTwoPoints(n: nat, k: nat, l: nat, f: nat -> int, g: nat -> int)
    requires k < n && l < n && k != l
    requires forall i: nat | i < n && i != k && i != l :: f(i) == g(i)
    ensures Sum(n, f) == Sum(n, g) + f(k) - g(k) + f(l) - g(l)
  {
    var m := (i: nat) => if i == k then f(k) else g(i);
    SumPoint(n, l, f, m);
    SumPoint(n, k, m, g);
  }

  /** The sum of row i of f. */
  function Row(m: nat, f: (nat, nat) -> int): nat -> int {
    (i: nat) => Sum(m, (j: nat) => f(i, j))
  }

  /** f with rows and columns exchanged. */
  function Flip(f: (nat, nat) -> int): (nat, nat) -> int {
    (i: nat, j: nat) => f(j, i)
  }

  /** Rows first or columns first. */
  lemma {:induction false} SumSwap(n: nat, m: nat, f: (nat, nat) -> int)
    ensures Sum(n, Row(m, f)) == Sum(m, Row(n, Flip(f)))
  {
    if n == 0 {
      SumZero(m, Row(0, Flip(f)));
    } else {
      SumSwap(n - 1, m, f);
      var last := (j: nat) => f(n - 1, j);
      forall j: nat | j < m ensures Row(n, Flip(f))(j) == Row(n - 1, Flip(f))(j) + last(j) {
        SumSame(n - 1, (i: nat) => Flip(f)(j, i), (i: nat) => Flip(f)(j, i));
      }
      SumPlus(m, Row(n - 1, Flip(f)), last, Row(n, Flip(f)));
      SumSame(m, last, (j: nat) => f(n - 1, j));
    }
  }
}
