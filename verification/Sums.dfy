/** Finite sums, used as termination measures of the protocols. */
module Sums {

  function Sum(n: nat, f: nat -> nat): nat {
    if n == 0 then 0 else Sum(n - 1, f) + f(n - 1)
  }

  lemma {:induction false} SumSame(n: nat, f: nat -> nat, g: nat -> nat)
    requires forall i: nat | i < n :: f(i) == g(i)
    ensures Sum(n, f) == Sum(n, g)
  {
    if n == 0 {
    } else {
      SumSame(n - 1, f, g);
    }
  }

  /** Changing one term of a sum by some amount changes the sum by that amount. */
  lemma {:induction false} SumChange(n: nat, f: nat -> nat, g: nat -> nat, j: nat)
    requires j < n
    requires forall i: nat | i < n && i != j :: f(i) == g(i)
    ensures Sum(n, f) + g(j) == Sum(n, g) + f(j)
  {
    if j == n - 1 {
      SumSame(n - 1, f, g);
    } else {
      SumChange(n - 1, f, g, j);
    }
  }

  /** The same for a double sum. */
  lemma GridChange(n: nat, m: nat, f: (nat, nat) -> nat, g: (nat, nat) -> nat, a: nat, b: nat)
    requires a < n && b < m
    requires forall i: nat, j: nat | i < n && j < m && (i, j) != (a, b) :: f(i, j) == g(i, j)
    ensures Grid(n, m, f) + g(a, b) == Grid(n, m, g) + f(a, b)
  {
    var fr := (i: nat) => Sum(m, (j: nat) => f(i, j));
    var gr := (i: nat) => Sum(m, (j: nat) => g(i, j));
    SumChange(m, (j: nat) => f(a, j), (j: nat) => g(a, j), b);
    forall i: nat | i < n && i != a ensures fr(i) == gr(i) {
      SumSame(m, (j: nat) => f(i, j), (j: nat) => g(i, j));
    }
    SumChange(n, fr, gr, a);
  }

  function Grid(n: nat, m: nat, f: (nat, nat) -> nat): nat {
    Sum(n, (i: nat) => Sum(m, (j: nat) => f(i, j)))
  }

  lemma GridSame(n: nat, m: nat, f: (nat, nat) -> nat, g: (nat, nat) -> nat)
    requires forall i: nat, j: nat | i < n && j < m :: f(i, j) == g(i, j)
    ensures Grid(n, m, f) == Grid(n, m, g)
  {
    var fr := (i: nat) => Sum(m, (j: nat) => f(i, j));
    var gr := (i: nat) => Sum(m, (j: nat) => g(i, j));
    forall i: nat | i < n ensures fr(i) == gr(i) {
      SumSame(m, (j: nat) => f(i, j), (j: nat) => g(i, j));
    }
    SumSame(n, fr, gr);
  }

  lemma SmallerSet<T>(a: set<T>, b: set<T>)
    requires a <= b
    ensures |a| <= |b| && (a != b ==> |a| < |b|)
  {
    assert b == a + (b - a);
  }
}
