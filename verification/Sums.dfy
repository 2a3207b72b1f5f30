/** Finite sums of real-valued functions over an initial segment of the naturals. */
module Sums {

  /** f(0) + ... + f(n-1) */
  ghost function Sum(n: nat, f: int -> real): real {
    if n == 0 then 0.0 else Sum(n - 1, f) + f(n - 1)
  }

  lemma {:induction false} SumExt(n: nat, f: int -> real, g: int -> real)
    requires forall i | 0 <= i < n :: f(i) == g(i)
    ensures Sum(n, f) == Sum(n, g)
  {
    if n > 0 {
      SumExt(n - 1, f, g);
    }
  }

  lemma {:induction false} SumZero(n: nat, f: int -> real)
    requires forall i | 0 <= i < n :: f(i) == 0.0
    ensures Sum(n, f) == 0.0
  {
    if n > 0 {
      SumZero(n - 1, f);
    }
  }

  lemma {:induction false} SumPlus(n: nat, f: int -> real, g: int -> real, h: int -> real)
    requires forall i | 0 <= i < n :: h(i) == f(i) + g(i)
    ensures Sum(n, h) == Sum(n, f) + Sum(n, g)
  {
    if n > 0 {
      SumPlus(n - 1, f, g, h);
    }
  }

  lemma {:induction false} SumScale(n: nat, c: real, f: int -> real, h: int -> real)
    requires forall i | 0 <= i < n :: h(i) == c * f(i)
    ensures Sum(n, h) == c * Sum(n, f)
  {
    if n > 0 {
      SumScale(n - 1, c, f, h);
    }
  }

  /** Two functions that agree everywhere but at k differ in their sums by the difference at k. */
  lemma {:induction false} SumPoint(n: nat, k: int, f: int -> real, g: int -> real)
    requires 0 <= k < n
    requires forall i | 0 <= i < n && i != k :: f(i) == g(i)
    ensures Sum(n, g) == Sum(n, f) + (g(k) - f(k))
  {
    if k == n - 1 {
      SumExt(n - 1, f, g);
    } else {
      SumPoint(n - 1, k, f, g);
    }
  }

  lemma {:induction false} SumNonNegative(n: nat, f: int -> real)
    requires forall i | 0 <= i < n :: f(i) >= 0.0
    ensures Sum(n, f) >= 0.0
  {
    if n > 0 {
      SumNonNegative(n - 1, f);
    }
  }

  /** Every term of a sum of non-negative terms is at most the sum. */
  lemma {:induction false} TermAtMostSum(n: nat, f: int -> real, k: int)
    requires forall i | 0 <= i < n :: f(i) >= 0.0
    requires 0 <= k < n
    ensures f(k) <= Sum(n, f)
  {
    SumNonNegative(n - 1, f);
    if k < n - 1 {
      TermAtMostSum(n - 1, f, k);
    }
  }

  /** A positive sum has a positive term. */
  lemma {:induction false} PositiveTerm(n: nat, f: int -> real) returns (k: int)
    requires Sum(n, f) > 0.0
    ensures 0 <= k < n && f(k) > 0.0
  {
    if f(n - 1) > 0.0 {
      k := n - 1;
    } else {
      k := PositiveTerm(n - 1, f);
    }
  }

  ghost function Row(f: (int, int) -> real, i: int): int -> real { j => f(i, j) }

  ghost function Column(f: (int, int) -> real, j: int): int -> real { i => f(i, j) }

  ghost function RowSums(n: nat, f: (int, int) -> real): int -> real { i => Sum(n, Row(f, i)) }

  ghost function ColumnSums(m: nat, f: (int, int) -> real): int -> real { j => Sum(m, Column(f, j)) }

  /** A double sum may be taken in either order. */
  lemma {:induction false} SumSwap(m: nat, n: nat, f: (int, int) -> real)
    ensures Sum(m, RowSums(n, f)) == Sum(n, ColumnSums(m, f))
  {
    if m == 0 {
      SumZero(n, ColumnSums(0, f));
    } else {
      SumSwap(m - 1, n, f);
      SumPlus(n, ColumnSums(m - 1, f), Row(f, m - 1), ColumnSums(m, f));
    }
  }

  /** Entry sums below the diagonal. */
  ghost function Below(f: (int, int) -> real): int -> real { i => if i >= 0 then Sum(i, Row(f, i)) else 0.0 }

  /** A symmetric table with an empty diagonal sums to twice its lower half. */
  lemma {:induction false} SymmetricSum(n: nat, f: (int, int) -> real)
    requires forall i, j | 0 <= i < n && 0 <= j < n :: f(i, j) == f(j, i)
    requires forall i | 0 <= i < n :: f(i, i) == 0.0
    ensures Sum(n, RowSums(n, f)) == 2.0 * Sum(n, Below(f))
  {
    if n > 0 {
      var m := n - 1;
      SymmetricSum(m, f);
      SumPlus(m, RowSums(m, f), Column(f, m), RowSums(n, f));
      SumExt(m, Column(f, m), Row(f, m));
    }
  }
}
