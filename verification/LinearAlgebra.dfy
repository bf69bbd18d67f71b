/** Vectors and matrices over exact reals, and the few identities about inner
    products that the least-squares and Cholesky proofs share. */
module LinearAlgebra {

  type Vector = seq<real>
  type Matrix = seq<seq<real>>

  predicate Rectangular(m: Matrix, columns: nat) {
    forall i :: 0 <= i < |m| ==> |m[i]| == columns
  }

  predicate Square(m: Matrix) {
    Rectangular(m, |m|)
  }

  predicate Symmetric(m: Matrix)
    requires Square(m)
  {
    forall i, j :: 0 <= i < |m| && 0 <= j < |m| ==> m[i][j] == m[j][i]
  }

  function Abs(x: real): real {
    if x < 0.0 then -x else x
  }

  function Min(x: real, y: real): real {
    if y < x then y else x
  }

  function Max(x: real, y: real): real {
    if y > x then y else x
  }

  /** int() of a float: towards zero. */
  function Truncate(x: real): int {
    if x >= 0.0 then x.Floor else -((-x).Floor)
  }

  function SumInt(s: seq<int>): int {
    if s == [] then 0 else s[0] + SumInt(s[1..])
  }

  lemma {:induction false} SumIntUpdate(s: seq<int>, i: nat, x: int)
    requires i < |s|
    ensures SumInt(s[i := x]) == SumInt(s) - s[i] + x
  {
    if i > 0 {
      SumIntUpdate(s[1..], i - 1, x);
      assert s[i := x][1..] == s[1..][i - 1 := x];
    } else {
      assert s[i := x][1..] == s[1..];
    }
  }

  /** Multiplication, named so that proofs which only move products around can hide it. */
  function Times(x: real, y: real): real {
    x * y
  }

  /** Multiplying by a positive factor keeps the order. */
  lemma TimesOrder(x: real, y: real, factor: real)
    requires factor > 0.0
    ensures x <= y ==> Times(x, factor) <= Times(y, factor)
    ensures x < y ==> Times(x, factor) < Times(y, factor)
  {
  }

  /** Inner product of the first n entries. */
  function Dot(a: Vector, b: Vector, n: nat): real
    requires n <= |a| && n <= |b|
  {
    if n == 0 then 0.0 else Dot(a, b, n - 1) + Times(a[n - 1], b[n - 1])
  }

  /** Inner product of column j of m with w, over the first n rows. */
  function ColumnDot(m: Matrix, j: nat, w: Vector, n: nat): real
    requires n <= |m| && n <= |w|
    requires forall i :: 0 <= i < n ==> j < |m[i]|
  {
    if n == 0 then 0.0 else ColumnDot(m, j, w, n - 1) + Times(m[n - 1][j], w[n - 1])
  }

  /** m x == v, row by row. */
  predicate Solves(m: Matrix, v: Vector, x: Vector)
    requires |m| == |v| && Rectangular(m, |x|)
  {
    forall i :: 0 <= i < |m| ==> Dot(m[i], x, |x|) == v[i]
  }

  function Zeros(n: nat): (z: Vector)
    ensures |z| == n && forall k :: 0 <= k < n ==> z[k] == 0.0
  {
    seq(n, _ => 0.0)
  }

  // ---- products ----

  lemma TimesZero(x: real, y: real)
    requires x == 0.0 || y == 0.0
    ensures Times(x, y) == 0.0
  {
  }

  lemma TimesDistributes(f: real, p: real, q: real, y: real)
    ensures Times(p + Times(f, q), y) == Times(p, y) + Times(f, Times(q, y))
    ensures Times(f, p + q) == Times(f, p) + Times(f, q)
    ensures Times(f, Times(q, y)) == Times(Times(f, q), y)
    ensures Times(p - q, y) == Times(p, y) - Times(q, y)
  {
    assert (p + f * q) * y == p * y + f * (q * y);
  }

  lemma DivideBack(d: real, x: real)
    requires d != 0.0
    ensures Times(d, x / d) == Times(x / d, d) == x
  {
  }

  lemma SquareSign(y: real)
    ensures Times(y, y) >= 0.0 && (Times(y, y) == 0.0 ==> y == 0.0)
  {
    if y != 0.0 {
      assert (y * y) / y == y;
    }
  }

  // ---- inner products ----

  lemma {:induction false} DotSymmetric(a: Vector, b: Vector, n: nat)
    requires n <= |a| && n <= |b|
    ensures Dot(a, b, n) == Dot(b, a, n)
  {
    if n > 0 {
      DotSymmetric(a, b, n - 1);
    }
  }

  lemma {:induction false} DotAgrees(a: Vector, b: Vector, c: Vector, d: Vector, n: nat)
    requires n <= |a| && n <= |b| && n <= |c| && n <= |d|
    requires forall k :: 0 <= k < n ==> a[k] == c[k] && b[k] == d[k]
    ensures Dot(a, b, n) == Dot(c, d, n)
  {
    hide Times;
    if n > 0 {
      DotAgrees(a, b, c, d, n - 1);
    }
  }

  /** Changes where the other vector is zero do not show. */
  lemma {:induction false} DotAgreesOnSupport(a: Vector, b: Vector, c: Vector, n: nat)
    requires n <= |a| && n <= |b| && n <= |c|
    requires forall k :: 0 <= k < n ==> a[k] == 0.0 || b[k] == c[k]
    ensures Dot(a, b, n) == Dot(a, c, n)
  {
    hide Times;
    if n > 0 {
      DotAgreesOnSupport(a, b, c, n - 1);
      if a[n - 1] == 0.0 {
        TimesZero(a[n - 1], b[n - 1]);
        TimesZero(a[n - 1], c[n - 1]);
      }
    }
  }

  /** Terms from m on vanish. */
  lemma {:induction false} DotTail(a: Vector, b: Vector, m: nat, n: nat)
    requires m <= n <= |a| && n <= |b|
    requires forall k :: m <= k < n ==> a[k] == 0.0 || b[k] == 0.0
    ensures Dot(a, b, n) == Dot(a, b, m)
  {
    hide Times;
    if m < n {
      DotTail(a, b, m, n - 1);
      TimesZero(a[n - 1], b[n - 1]);
    }
  }

  lemma {:induction false} DotLinear(a: Vector, b: Vector, f: real, c: Vector, x: Vector, n: nat)
    requires n <= |a| && n <= |b| && n <= |c| && n <= |x|
    requires forall k :: 0 <= k < n ==> c[k] == a[k] + Times(f, b[k])
    ensures Dot(c, x, n) == Dot(a, x, n) + Times(f, Dot(b, x, n))
  {
    hide Times;
    if n > 0 {
      DotLinear(a, b, f, c, x, n - 1);
      TimesDistributes(f, a[n - 1], b[n - 1], x[n - 1]);
      TimesDistributes(f, Dot(b, x, n - 1), Times(b[n - 1], x[n - 1]), x[n - 1]);
    } else {
      TimesZero(f, 0.0);
    }
  }

  /** Inner product with a difference, on either side. */
  lemma {:induction false} DotMinus(a: Vector, b: Vector, d: Vector, x: Vector, n: nat)
    requires n <= |a| && n <= |b| && n <= |d| && n <= |x|
    requires forall k :: 0 <= k < n ==> d[k] == a[k] - b[k]
    ensures Dot(d, x, n) == Dot(a, x, n) - Dot(b, x, n)
    ensures Dot(x, d, n) == Dot(x, a, n) - Dot(x, b, n)
  {
    hide Times;
    if n > 0 {
      DotMinus(a, b, d, x, n - 1);
      TimesDistributes(1.0, a[n - 1], b[n - 1], x[n - 1]);
    }
    DotSymmetric(x, a, n);
    DotSymmetric(x, b, n);
    DotSymmetric(x, d, n);
  }

  lemma {:induction false} DotScale(a: Vector, f: real, c: Vector, x: Vector, n: nat)
    requires n <= |a| && n <= |c| && n <= |x|
    requires forall k :: 0 <= k < n ==> c[k] == Times(f, a[k])
    ensures Dot(c, x, n) == Times(f, Dot(a, x, n))
  {
    hide Times;
    if n > 0 {
      DotScale(a, f, c, x, n - 1);
      TimesDistributes(f, Dot(a, x, n - 1), Times(a[n - 1], x[n - 1]), 0.0);
      TimesDistributes(f, 0.0, a[n - 1], x[n - 1]);
    } else {
      TimesZero(f, 0.0);
    }
  }

  /** Only the term at j can be non-zero. */
  lemma {:induction false} DotUnit(a: Vector, x: Vector, j: nat, n: nat)
    requires n <= |a| && n <= |x|
    requires forall k :: 0 <= k < n && k != j ==> a[k] == 0.0 || x[k] == 0.0
    ensures Dot(a, x, n) == if j < n then Times(a[j], x[j]) else 0.0
  {
    hide Times;
    if n > 0 {
      DotUnit(a, x, j, n - 1);
      if n - 1 != j {
        TimesZero(a[n - 1], x[n - 1]);
      }
    }
  }

  lemma {:induction false} SquareNonNegative(a: Vector, n: nat)
    requires n <= |a|
    ensures Dot(a, a, n) >= 0.0
    ensures Dot(a, a, n) == 0.0 ==> forall k :: 0 <= k < n ==> a[k] == 0.0
  {
    hide Times;
    if n > 0 {
      SquareNonNegative(a, n - 1);
      SquareSign(a[n - 1]);
    }
  }

  /** Exchange of summation: u' (m w) == (m' u)' w for the first r rows of m,
      where p[i] is row i of m applied to w and q[j] column j applied to u. */
  lemma {:induction false} Bilinear(m: Matrix, u: Vector, w: Vector, p: Vector, q: Vector, r: nat)
    requires r <= |m| && r <= |u| && r <= |p| && |q| == |w| && Rectangular(m, |w|)
    requires forall i :: 0 <= i < r ==> p[i] == Dot(m[i], w, |w|)
    requires forall j :: 0 <= j < |w| ==> q[j] == ColumnDot(m, j, u, r)
    ensures Dot(u, p, r) == Dot(q, w, |w|)
    decreases r
  {
    hide Times;
    if r == 0 {
      DotTail(q, w, 0, |w|);
    } else {
      var q' := seq(|w|, j requires 0 <= j < |w| => ColumnDot(m, j, u, r - 1));
      Bilinear(m, u, w, p, q', r - 1);
      forall j | 0 <= j < |w|
        ensures q[j] == q'[j] + Times(u[r - 1], m[r - 1][j])
      {
        TimesCommutes(u[r - 1], m[r - 1][j]);
      }
      DotLinear(q', m[r - 1], u[r - 1], q, w, |w|);
    }
  }

  lemma TimesCommutes(x: real, y: real)
    ensures Times(x, y) == Times(y, x)
  {
  }
}
