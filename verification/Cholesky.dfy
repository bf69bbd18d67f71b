/** The Cholesky factorisation and triangular solves behind the Gaussian-process
    surrogate (vehicle_calibration/calibrate.py), over exact reals. The square root is a
    parameter: any function that returns the positive root of a positive number. */
module Cholesky {
  import opened Wrappers
  import opened LinearAlgebra

  ghost predicate SquareRoot(sqrt: real -> real) {
    forall v: real {:trigger sqrt(v)} :: v > 0.0 ==> sqrt(v) > 0.0 && Times(sqrt(v), sqrt(v)) == v
  }

  /** Rows below `rows` are lower triangular with a positive diagonal. */
  predicate LowerTriangular(l: Matrix, rows: nat)
    requires rows <= |l| && Square(l)
  {
    forall i :: 0 <= i < rows ==> l[i][i] > 0.0 && forall j :: i < j < |l| ==> l[i][j] == 0.0
  }

  /** Entry (i, j) of l l'. */
  predicate ProductEntry(l: Matrix, a: Matrix, i: nat, j: nat)
    requires Square(l) && Square(a) && |l| == |a| && i < |l| && j < |l|
  {
    Dot(l[i], l[j], |l|) == a[i][j]
  }

  /** The leading rows x rows block of l l' is that of a. */
  predicate FactorsTo(l: Matrix, a: Matrix, rows: nat)
    requires Square(l) && Square(a) && |l| == |a| && rows <= |l|
  {
    forall i, j :: 0 <= i < rows && 0 <= j < rows ==> ProductEntry(l, a, i, j)
  }

  function Quadratic(a: Matrix, x: Vector): real
    requires Square(a) && |x| == |a|
  {
    Dot(x, Apply(a, x), |a|)
  }

  function Apply(a: Matrix, x: Vector): (y: Vector)
    requires Rectangular(a, |x|)
    ensures |y| == |a| && forall i :: 0 <= i < |a| ==> y[i] == Dot(a[i], x, |x|)
  {
    seq(|a|, i requires 0 <= i < |a| => Dot(a[i], x, |x|))
  }

  ghost predicate PositiveDefinite(a: Matrix)
    requires Square(a)
  {
    forall x: Vector :: |x| == |a| && x != Zeros(|a|) ==> Quadratic(a, x) > 0.0
  }

  /** The row so far: what the inner loop has computed in columns below `column`. */
  ghost predicate PartialRow(l: Matrix, a: Matrix, row: nat, current: Vector, column: nat)
    requires Square(l) && Square(a) && |l| == |a| == |current| && row < |l| && column <= row + 1
  {
    && (forall k :: column <= k < |l| ==> current[k] == 0.0)
    && (forall j :: 0 <= j < column && j < row ==> Dot(current, l[j], |l|) == a[row][j])
  }

  /** One row of the factorisation; None when its pivot is not positive. */
  method CholeskyRow(l: Matrix, a: Matrix, row: nat, sqrt: real -> real) returns (r: Option<Vector>, ghost off: Vector)
    requires Square(l) && Square(a) && |l| == |a| && row < |l| && SquareRoot(sqrt)
    requires LowerTriangular(l, row)
    ensures |off| == |a| && PartialRow(l, a, row, off, row)
    ensures r.None? <==> a[row][row] - Dot(off, off, row) <= 0.0
    ensures r.Some? ==> |r.value| == |a| && PartialRow(l, a, row, r.value, row + 1)
                        && r.value[row] > 0.0 && Dot(r.value, r.value, |a|) == a[row][row]
  {
    var n := |a|;
    var current := Zeros(n);
    for column := 0 to row
      invariant |current| == n && PartialRow(l, a, row, current, column)
    {
      var value := a[row][column] - Dot(current, l[column], column);
      var entry := value / l[column][column];
      DivideBack(l[column][column], value);
      var prior := current;
      current := prior[column := entry];
      ExtendRow(l, a, row, column, prior, current);
    }
    off := current;
    var value := a[row][row] - Dot(current, current, row);
    if value <= 0.0 {
      return None, off;
    }
    var root := sqrt(value);
    r := Some(current[row := root]);
    CloseRow(l, a, row, current, r.value);
  }

  /** Storing (a[row][column] - sum) / l[column][column] makes the product entry exact. */
  lemma ExtendRow(l: Matrix, a: Matrix, row: nat, column: nat, prior: Vector, next: Vector)
    requires Square(l) && Square(a) && |l| == |a| == |prior| && column < row < |l|
    requires LowerTriangular(l, row) && PartialRow(l, a, row, prior, column)
    requires |next| == |l| && next == prior[column := next[column]]
    requires Times(next[column], l[column][column]) == a[row][column] - Dot(prior, l[column], column)
    ensures PartialRow(l, a, row, next, column + 1)
  {
    hide Times;
    var n := |l|;
    forall j | 0 <= j <= column
      ensures Dot(next, l[j], n) == a[row][j]
    {
      if j < column {
        SameAgainstTriangularRow(l, row, j, prior, next);
      } else {
        DotTail(next, l[j], j + 1, n);
        DotAgrees(next, l[j], prior, l[j], j);
      }
    }
  }

  lemma CloseRow(l: Matrix, a: Matrix, row: nat, off: Vector, done: Vector)
    requires Square(l) && Square(a) && |l| == |a| == |off| == |done| && row < |l|
    requires LowerTriangular(l, row) && PartialRow(l, a, row, off, row)
    requires done == off[row := done[row]]
    requires Times(done[row], done[row]) == a[row][row] - Dot(off, off, row)
    ensures PartialRow(l, a, row, done, row + 1)
    ensures Dot(done, done, |a|) == a[row][row]
  {
    hide Times;
    forall j | 0 <= j < row
      ensures Dot(done, l[j], |l|) == a[row][j]
    {
      SameAgainstTriangularRow(l, row, j, off, done);
    }
    SquareOfRow(off, done, row);
  }

  lemma SquareOfRow(off: Vector, done: Vector, row: nat)
    requires row < |off| == |done| && done == off[row := done[row]]
    requires forall k :: row < k < |off| ==> off[k] == 0.0
    ensures Dot(done, done, |off|) == Dot(off, off, row) + Times(done[row], done[row])
  {
    hide Times;
    DotTail(done, done, row + 1, |off|);
    DotAgrees(done, done, off, off, row);
  }

  /** Row j of a triangular factor only sees entries up to j. */
  lemma SameAgainstTriangularRow(l: Matrix, row: nat, j: nat, v: Vector, w: Vector)
    requires Square(l) && |v| == |w| == |l| && j < row <= |l| && LowerTriangular(l, row)
    requires forall k :: 0 <= k <= j ==> v[k] == w[k]
    ensures Dot(v, l[j], |l|) == Dot(w, l[j], |l|)
  {
    DotTail(v, l[j], j + 1, |l|);
    DotTail(w, l[j], j + 1, |l|);
    DotAgrees(v, l[j], w, l[j], j + 1);
  }

  /** The factorisation of a symmetric matrix. It succeeds exactly on the positive definite
      ones, and then l l' is the input. */
  method Factor(a: Matrix, sqrt: real -> real) returns (r: Option<Matrix>)
    requires Square(a) && Symmetric(a) && SquareRoot(sqrt)
    ensures r.Some? ==> |r.value| == |a| && Square(r.value)
                        && LowerTriangular(r.value, |a|) && FactorsTo(r.value, a, |a|)
    ensures r.Some? <==> PositiveDefinite(a)
  {
    var n := |a|;
    var lower := seq(n, _ => Zeros(n));
    for row := 0 to n
      invariant |lower| == n && Square(lower)
      invariant LowerTriangular(lower, row) && FactorsTo(lower, a, row)
    {
      var computed, off := CholeskyRow(lower, a, row, sqrt);
      if computed.None? {
        NotPositiveDefinite(lower, a, row, off);
        return None;
      }
      var prior := lower;
      lower := lower[row := computed.value];
      ExtendFactor(prior, a, row, lower);
    }
    FactorIsDefinite(lower, a);
    r := Some(lower);
  }

  lemma ExtendFactor(prior: Matrix, a: Matrix, row: nat, next: Matrix)
    requires Square(prior) && Square(a) && Symmetric(a) && |prior| == |a| && row < |a|
    requires FactorsTo(prior, a, row)
    requires |next| == |a| && Square(next) && next == prior[row := next[row]]
    requires PartialRow(prior, a, row, next[row], row + 1) && Dot(next[row], next[row], |a|) == a[row][row]
    ensures FactorsTo(next, a, row + 1)
  {
    forall i, j | 0 <= i <= row && 0 <= j <= row
      ensures ProductEntry(next, a, i, j)
    {
      DotSymmetric(next[i], next[j], |a|);
      if i < row && j < row {
        assert ProductEntry(prior, a, i, j);
      }
    }
  }

  // ---- triangular solves ----

  /** Solves l z = values from the top down. */
  method ForwardSolve(l: Matrix, values: Vector) returns (z: Vector)
    requires Square(l) && LowerTriangular(l, |l|) && |values| == |l|
    ensures |z| == |values| && Solves(l, values, z)
  {
    var n := |values|;
    z := Zeros(n);
    for row := 0 to n
      invariant |z| == n
      invariant forall i :: 0 <= i < row ==> Dot(l[i], z, n) == values[i]
    {
      var prior := z;
      var value := values[row] - Dot(l[row], prior, row);
      z := prior[row := value / l[row][row]];
      DivideBack(l[row][row], value);
      forall i | 0 <= i <= row
        ensures Dot(l[i], z, n) == values[i]
      {
        DotTail(l[i], z, i + 1, n);
        if i < row {
          DotTail(l[i], prior, i + 1, n);
          DotAgrees(l[i], z, l[i], prior, i + 1);
        } else {
          DotAgrees(l[i], z, l[i], prior, i);
        }
      }
    }
  }

  function Transpose(l: Matrix): (t: Matrix)
    requires Square(l)
    ensures |t| == |l| && Square(t) && forall i, j :: 0 <= i < |l| && 0 <= j < |l| ==> t[i][j] == l[j][i]
  {
    seq(|l|, i requires 0 <= i < |l| => seq(|l|, j requires 0 <= j < |l| => l[j][i]))
  }

  /** Sum of l[column][row] * w[column] for column in [from, |l|). */
  function UpperSum(l: Matrix, row: nat, w: Vector, from: nat): real
    requires Square(l) && |w| == |l| && row < |l| && from <= |l|
    decreases |l| - from
  {
    if from == |l| then 0.0 else Times(l[from][row], w[from]) + UpperSum(l, row, w, from + 1)
  }

  lemma {:induction false} UpperSumIsDot(l: Matrix, row: nat, w: Vector, from: nat)
    requires Square(l) && |w| == |l| && row < |l| && from <= |l|
    ensures UpperSum(l, row, w, from) == Dot(Transpose(l)[row], w, |l|) - Dot(Transpose(l)[row], w, from)
    decreases |l| - from
  {
    if from < |l| {
      UpperSumIsDot(l, row, w, from + 1);
    }
  }

  /** Solves l' y = values from the bottom up, for a lower triangular l. */
  method BackwardSolve(l: Matrix, values: Vector) returns (y: Vector)
    requires Square(l) && LowerTriangular(l, |l|) && |values| == |l|
    ensures |y| == |values| && Solves(Transpose(l), values, y)
  {
    var n := |values|;
    ghost var t := Transpose(l);
    y := Zeros(n);
    var row := n;
    while row > 0
      invariant 0 <= row <= n && |y| == n
      invariant forall i :: row <= i < n ==> Dot(t[i], y, n) == values[i]
    {
      row := row - 1;
      var prior := y;
      var value := values[row] - UpperSum(l, row, prior, row + 1);
      y := prior[row := value / l[row][row]];
      DivideBack(l[row][row], value);
      forall i | row <= i < n
        ensures Dot(t[i], y, n) == values[i]
      {
        BackwardRow(l, values, row, prior, y, i);
      }
    }
  }

  lemma BackwardRow(l: Matrix, values: Vector, row: nat, prior: Vector, next: Vector, i: nat)
    requires Square(l) && LowerTriangular(l, |l|) && |values| == |l| == |prior| == |next| && row <= i < |l|
    requires forall k :: row < k < |l| ==> Dot(Transpose(l)[k], prior, |l|) == values[k]
    requires next == prior[row := next[row]]
    requires Times(l[row][row], next[row]) == values[row] - UpperSum(l, row, prior, row + 1)
    ensures Dot(Transpose(l)[i], next, |l|) == values[i]
  {
    hide Dot, UpperSum, Times, LowerTriangular;
    TransposedRow(l, i);
    if i == row {
      UpperTriangularRow(l, row, next);
      UpperSumAgrees(l, row, next, prior, row + 1);
    } else {
      DotAgreesOnSupport(Transpose(l)[i], next, prior, |l|);
    }
  }

  lemma TransposedRow(l: Matrix, i: nat)
    requires Square(l) && LowerTriangular(l, |l|) && i < |l|
    ensures forall k :: 0 <= k < i ==> Transpose(l)[i][k] == 0.0
  {
  }

  lemma UpperTriangularRow(l: Matrix, i: nat, w: Vector)
    requires Square(l) && LowerTriangular(l, |l|) && |w| == |l| && i < |l|
    ensures Dot(Transpose(l)[i], w, |l|) == Times(l[i][i], w[i]) + UpperSum(l, i, w, i + 1)
  {
    hide Dot, UpperSum, Times;
    var u := Transpose(l)[i];
    UpperSumIsDot(l, i, w, i + 1);
    SplitAt(u, w, i);
    assert u[i] == l[i][i];
  }

  lemma SplitAt(u: Vector, w: Vector, i: nat)
    requires i < |u| == |w|
    requires forall k :: 0 <= k < i ==> u[k] == 0.0
    ensures Dot(u, w, i + 1) == Times(u[i], w[i])
  {
    hide Times;
    DotTail(u, w, 0, i);
  }

  lemma {:induction false} UpperSumAgrees(l: Matrix, row: nat, v: Vector, w: Vector, from: nat)
    requires Square(l) && |v| == |w| == |l| && row < |l| && from <= |l|
    requires forall k :: from <= k < |l| ==> v[k] == w[k]
    ensures UpperSum(l, row, v, from) == UpperSum(l, row, w, from)
    decreases |l| - from
  {
    if from < |l| {
      UpperSumAgrees(l, row, v, w, from + 1);
    }
  }

  // ---- what the factor says about the matrix ----

  /** (l l') x computed as l (l' x). */
  lemma ApplyFactor(l: Matrix, a: Matrix, x: Vector)
    requires Square(l) && Square(a) && |l| == |a| == |x| && FactorsTo(l, a, |a|)
    ensures Apply(a, x) == Apply(l, Apply(Transpose(l), x))
  {
    var n, q := |a|, Apply(Transpose(l), x);
    forall i | 0 <= i < n
      ensures Apply(a, x)[i] == Dot(l[i], q, n)
    {
      forall j | 0 <= j < n
        ensures a[i][j] == Dot(l[j], l[i], n)
      {
        assert ProductEntry(l, a, i, j);
        DotSymmetric(l[i], l[j], n);
      }
      forall j | 0 <= j < n
        ensures q[j] == ColumnDot(l, j, x, n)
      {
        ColumnIsTransposedRow(l, j, x, n);
      }
      Bilinear(l, x, l[i], a[i], q, n);
      DotSymmetric(a[i], x, n);
      DotSymmetric(q, l[i], n);
    }
  }

  lemma {:induction false} ColumnIsTransposedRow(l: Matrix, j: nat, x: Vector, n: nat)
    requires Square(l) && |x| == |l| && j < |l| && n <= |l|
    ensures ColumnDot(l, j, x, n) == Dot(Transpose(l)[j], x, n)
  {
    if n > 0 {
      ColumnIsTransposedRow(l, j, x, n - 1);
    }
  }

  /** x' a x is the squared length of l' x. */
  lemma QuadraticOfFactor(l: Matrix, a: Matrix, x: Vector)
    requires Square(l) && Square(a) && |l| == |a| == |x| && FactorsTo(l, a, |a|)
    ensures var q := Apply(Transpose(l), x); Quadratic(a, x) == Dot(q, q, |a|)
  {
    var n, q := |a|, Apply(Transpose(l), x);
    ApplyFactor(l, a, x);
    forall j | 0 <= j < n
      ensures q[j] == ColumnDot(l, j, x, n)
    {
      ColumnIsTransposedRow(l, j, x, n);
    }
    Bilinear(l, x, q, Apply(a, x), q, n);
  }

  lemma FactorIsDefinite(l: Matrix, a: Matrix)
    requires Square(l) && Square(a) && |l| == |a| && LowerTriangular(l, |l|) && FactorsTo(l, a, |a|)
    ensures PositiveDefinite(a)
  {
    forall x: Vector | |x| == |a| && x != Zeros(|a|)
      ensures Quadratic(a, x) > 0.0
    {
      var q := Apply(Transpose(l), x);
      QuadraticOfFactor(l, a, x);
      SquareNonNegative(q, |a|);
      if Quadratic(a, x) <= 0.0 {
        KernelIsTrivial(l, x, 0);
      }
    }
  }

  lemma {:induction false} KernelIsTrivial(l: Matrix, x: Vector, from: nat)
    requires Square(l) && LowerTriangular(l, |l|) && |x| == |l| && from <= |l|
    requires forall k :: 0 <= k < |l| ==> Apply(Transpose(l), x)[k] == 0.0
    ensures forall k :: from <= k < |l| ==> x[k] == 0.0
    decreases |l| - from
  {
    if from < |l| {
      KernelIsTrivial(l, x, from + 1);
      var u := Transpose(l)[from];
      DotUnit(u, x, from, |l|);
      assert Apply(Transpose(l), x)[from] == Times(u[from], x[from]);
      assert (u[from] * x[from]) / u[from] == x[from];
    }
  }

  /** When the pivot of `row` is not positive there is a direction along which the quadratic
      form of a is not positive: solve l' y = off in the leading block and take (-y, 1, 0). */
  lemma NotPositiveDefinite(l: Matrix, a: Matrix, row: nat, off: Vector)
    requires Square(l) && Square(a) && Symmetric(a) && |l| == |a| == |off| && row < |a|
    requires LowerTriangular(l, row) && FactorsTo(l, a, row) && PartialRow(l, a, row, off, row)
    requires a[row][row] - Dot(off, off, row) <= 0.0
    ensures !PositiveDefinite(a)
  {
    var n := |a|;
    var y := SolveLeading(l, off, row, 0);
    var x := seq(n, k requires 0 <= k < n => if k < row then -y[k] else if k == row then 1.0 else 0.0);
    forall i | 0 <= i <= row
      ensures Apply(a, x)[i] == if i < row then 0.0 else a[row][row] - Dot(off, off, row)
    {
      DirectionRow(l, a, row, off, y, x, i);
    }
    var z := Apply(a, x);
    DotTail(x, z, row + 1, n);
    DotTail(x, z, 0, row);
    assert x != Zeros(n) by {
      assert x[row] == 1.0;
    }
    assert Quadratic(a, x) <= 0.0;
  }

  /** Back substitution in the leading block, down to entry `from`. */
  lemma {:induction false} SolveLeading(l: Matrix, off: Vector, row: nat, from: nat) returns (y: Vector)
    requires Square(l) && |off| == |l| && row < |l| && from <= row && LowerTriangular(l, row)
    ensures |y| == |l| && forall k :: 0 <= k < |l| && !(from <= k < row) ==> y[k] == 0.0
    ensures forall k :: from <= k < row ==> ColumnDot(l, k, y, row) == off[k]
    decreases row - from
  {
    if from == row {
      y := Zeros(|l|);
    } else {
      var tail := SolveLeading(l, off, row, from + 1);
      var value := off[from] - ColumnDot(l, from, tail, row);
      y := tail[from := value / l[from][from]];
      DivideBack(l[from][from], value);
      forall k | from <= k < row
        ensures ColumnDot(l, k, y, row) == off[k]
      {
        ColumnDotUpdate(l, k, tail, from, y, row);
        if k > from {
          TimesZero(l[from][k], y[from]);
        }
      }
    }
  }

  lemma {:induction false} ColumnDotUpdate(l: Matrix, k: nat, w: Vector, at: nat, next: Vector, n: nat)
    requires Square(l) && |w| == |next| == |l| && k < |l| && n <= |l| && at < |l|
    requires w[at] == 0.0 && next == w[at := next[at]]
    ensures ColumnDot(l, k, next, n) == ColumnDot(l, k, w, n) + if at < n then Times(l[at][k], next[at]) else 0.0
  {
    hide Times;
    if n > 0 {
      ColumnDotUpdate(l, k, w, at, next, n - 1);
      if at == n - 1 {
        TimesZero(l[at][k], w[at]);
      }
    }
  }

  lemma DirectionRow(l: Matrix, a: Matrix, row: nat, off: Vector, y: Vector, x: Vector, i: nat)
    requires Square(l) && Square(a) && Symmetric(a) && |l| == |a| == |off| == |y| == |x| && i <= row < |a|
    requires LowerTriangular(l, row) && FactorsTo(l, a, row) && PartialRow(l, a, row, off, row)
    requires forall k :: 0 <= k < row ==> ColumnDot(l, k, y, row) == off[k]
    requires forall k :: 0 <= k < |a| ==> x[k] == if k < row then -y[k] else if k == row then 1.0 else 0.0
    ensures Dot(a[i], x, |a|) == if i < row then 0.0 else a[row][row] - Dot(off, off, row)
  {
    assert |a[i]| == |a|;
    hide *;
    LeadingDot(l, a, row, off, y, i);
    AlongDirection(a[i], row, y, x);
  }

  /** What the solved vector y contributes to row i of a. */
  lemma LeadingDot(l: Matrix, a: Matrix, row: nat, off: Vector, y: Vector, i: nat)
    requires Square(l) && Square(a) && Symmetric(a) && |l| == |a| == |off| == |y| && i <= row < |a|
    requires LowerTriangular(l, row) && FactorsTo(l, a, row) && PartialRow(l, a, row, off, row)
    requires forall k :: 0 <= k < row ==> ColumnDot(l, k, y, row) == off[k]
    ensures Dot(y, a[i], row) == if i < row then a[i][row] else Dot(off, off, row)
  {
    hide Dot, ColumnDot, Times, LowerTriangular, FactorsTo, PartialRow, Symmetric;
    var base := if i < row then l[i] else off;
    LeadingRow(l, a, row, off, i, base);
    LeadingProduct(l, row, off, y, base, a[i]);
    if i < row {
      OffAgainst(l, a, row, off, i);
    }
  }

  lemma OffAgainst(l: Matrix, a: Matrix, row: nat, off: Vector, i: nat)
    requires Square(l) && Square(a) && Symmetric(a) && |l| == |a| == |off| && i < row < |a|
    requires LowerTriangular(l, row) && PartialRow(l, a, row, off, row)
    ensures Dot(off, l[i], row) == a[i][row]
  {
    hide Dot;
    DotTail(off, l[i], row, |a|);
  }

  lemma TimesOne(x: real)
    ensures Times(x, 1.0) == x
  {
  }

  lemma AlongDirection(u: Vector, row: nat, y: Vector, x: Vector)
    requires row < |u| == |y| == |x|
    requires forall k :: 0 <= k < |u| ==> x[k] == if k < row then -y[k] else if k == row then 1.0 else 0.0
    ensures Dot(u, x, |u|) == u[row] - Dot(y, u, row)
  {
    hide Times;
    DotMinus(Zeros(|u|), y, x, u, row);
    DotTail(u, Zeros(|u|), 0, row);
    DotSymmetric(u, y, row);
    DotTail(u, x, row + 1, |u|);
    TimesOne(u[row]);
  }

  /** The leading part of row i of a is the factor applied to that row's own factor row. */
  lemma LeadingRow(l: Matrix, a: Matrix, row: nat, off: Vector, i: nat, base: Vector)
    requires Square(l) && Square(a) && Symmetric(a) && |l| == |a| == |off| && i <= row < |a|
    requires LowerTriangular(l, row) && FactorsTo(l, a, row) && PartialRow(l, a, row, off, row)
    requires base == if i < row then l[i] else off
    ensures forall j :: 0 <= j < row ==> a[i][j] == Dot(l[j], base, |a|)
    ensures forall k :: row <= k < |a| ==> base[k] == 0.0
  {
    forall j | 0 <= j < row
      ensures a[i][j] == Dot(l[j], base, |a|)
    {
      if i < row {
        assert ProductEntry(l, a, j, i);
      } else {
        DotSymmetric(l[j], off, |a|);
      }
    }
  }

  lemma LeadingProduct(l: Matrix, row: nat, off: Vector, y: Vector, base: Vector, u: Vector)
    requires Square(l) && |l| == |off| == |y| == |base| == |u| && row < |l|
    requires forall k :: row <= k < |l| ==> base[k] == 0.0
    requires forall k :: 0 <= k < row ==> ColumnDot(l, k, y, row) == off[k]
    requires forall j :: 0 <= j < row ==> u[j] == Dot(l[j], base, |l|)
    ensures Dot(y, u, row) == Dot(off, base, row)
  {
    hide Dot, ColumnDot, Times;
    var q := seq(|l|, k requires 0 <= k < |l| => ColumnDot(l, k, y, row));
    Bilinear(l, y, base, u, q, row);
    DotTail(q, base, row, |l|);
    DotAgrees(q, base, off, base, row);
  }

  // ---- the Gaussian process ----

  function AddDiagonal(k: Matrix, jitter: real): (m: Matrix)
    requires Square(k)
    ensures |m| == |k| && Square(m)
  {
    seq(|k|, i requires 0 <= i < |k| =>
      seq(|k|, j requires 0 <= j < |k| => if i == j then k[i][j] + jitter else k[i][j]))
  }

  /** The jitter of attempt i: 1e-8 times 10^i. */
  function Jitter(i: nat): real {
    if i == 0 then 0.00000001 else 10.0 * Jitter(i - 1)
  }

  /** The eight jitters. */
  lemma JittersAre()
    ensures Jitter(0) == 0.00000001 && Jitter(1) == 0.0000001 && Jitter(2) == 0.000001 && Jitter(3) == 0.00001
    ensures Jitter(4) == 0.0001 && Jitter(5) == 0.001 && Jitter(6) == 0.01 && Jitter(7) == 0.1
  {
    assert Jitter(2) == 10.0 * Jitter(1);
    assert Jitter(4) == 10.0 * Jitter(3);
    assert Jitter(6) == 10.0 * Jitter(5);
  }

  lemma {:induction false} DiagonalDot(k: Matrix, jitter: real, x: Vector, i: nat, n: nat)
    requires Square(k) && |x| == |k| && i < |k| && n <= |k|
    ensures Dot(AddDiagonal(k, jitter)[i], x, n) ==
            Dot(k[i], x, n) + if i < n then Times(jitter, x[i]) else 0.0
  {
    if n > 0 {
      DiagonalDot(k, jitter, x, i, n - 1);
      assert Times(k[i][n - 1] + jitter, x[n - 1]) == Times(k[i][n - 1], x[n - 1]) + Times(jitter, x[n - 1]);
      hide Times;
    }
  }

  datatype Surrogate = Surrogate(lower: Matrix, alpha: Vector)

  /** One attempt: None exactly when the jittered kernel is not positive definite. */
  method TryJitter(trial: Matrix, normalized: Vector, sqrt: real -> real) returns (r: Option<Surrogate>)
    requires Square(trial) && Symmetric(trial) && SquareRoot(sqrt) && |normalized| == |trial|
    ensures r.None? <==> !PositiveDefinite(trial)
    ensures r.Some? ==> Fits(trial, normalized, r.value)
  {
    var factored := Factor(trial, sqrt);
    if factored.None? {
      return None;
    }
    var lower := factored.value;
    var forward := ForwardSolve(lower, normalized);
    var alpha := BackwardSolve(lower, forward);
    SolvedThroughFactor(lower, trial, normalized, forward, alpha);
    r := Some(Surrogate(lower, alpha));
  }

  /** Factors the kernel with the first of eight jitters that makes it positive definite,
      and solves the jittered system for the weights. Err when none of the eight does. */
  method FitSurrogate(kernel: Matrix, normalized: Vector, sqrt: real -> real) returns (r: Result<Surrogate, string>)
    requires Square(kernel) && Symmetric(kernel) && SquareRoot(sqrt) && |normalized| == |kernel|
    ensures r.Err? <==> forall i :: 0 <= i < 8 ==> !Definite(kernel, i)
    ensures r.Ok? ==> exists i :: 0 <= i < 8 && FittedWith(kernel, normalized, r.value, i)
  {
    hide PositiveDefinite, FactorsTo, LowerTriangular, Solves;
    var jitter := Jitter(0);
    for i := 0 to 8
      invariant jitter == Jitter(i)
      invariant forall k :: 0 <= k < i ==> !Definite(kernel, k)
    {
      var fitted := TryJitter(AddDiagonal(kernel, jitter), normalized, sqrt);
      if fitted.Some? {
        r := Ok(fitted.value);
        assert FittedWith(kernel, normalized, r.value, i);
        return;
      }
      assert !Definite(kernel, i);
      jitter := jitter * 10.0;
    }
    r := Err("Could not stabilize Gaussian-process kernel matrix.");
  }

  ghost predicate Definite(kernel: Matrix, i: nat)
    requires Square(kernel)
  {
    PositiveDefinite(AddDiagonal(kernel, Jitter(i)))
  }

  /** The weights solve the system m alpha = normalized, through a Cholesky factor of m. */
  ghost predicate Fits(m: Matrix, normalized: Vector, s: Surrogate)
    requires Square(m) && |normalized| == |m|
  {
    && |s.lower| == |m| && Square(s.lower) && LowerTriangular(s.lower, |m|) && FactorsTo(s.lower, m, |m|)
    && |s.alpha| == |m| && Solves(m, normalized, s.alpha)
  }

  /** i is the least jitter index that makes the kernel positive definite, and the fit is for
      that jitter. */
  ghost predicate FittedWith(kernel: Matrix, normalized: Vector, s: Surrogate, i: nat)
    requires Square(kernel) && |normalized| == |kernel|
  {
    && Definite(kernel, i) && (forall k :: 0 <= k < i ==> !Definite(kernel, k))
    && Fits(AddDiagonal(kernel, Jitter(i)), normalized, s)
  }

  /** The weights solve the kernel system with the jitter on its diagonal, row by row. */
  lemma FittedSolves(kernel: Matrix, normalized: Vector, s: Surrogate, i: nat)
    requires Square(kernel) && |normalized| == |kernel| && FittedWith(kernel, normalized, s, i)
    ensures |s.alpha| == |kernel|
    ensures forall row :: 0 <= row < |kernel| ==>
              Dot(kernel[row], s.alpha, |kernel|) + Times(Jitter(i), s.alpha[row]) == normalized[row]
  {
    hide Dot, Times, Jitter, PositiveDefinite, FactorsTo;
    forall row | 0 <= row < |kernel|
      ensures Dot(kernel[row], s.alpha, |kernel|) + Times(Jitter(i), s.alpha[row]) == normalized[row]
    {
      DiagonalDot(kernel, Jitter(i), s.alpha, row, |kernel|);
    }
  }

  lemma SolvedThroughFactor(l: Matrix, a: Matrix, v: Vector, z: Vector, x: Vector)
    requires Square(l) && Square(a) && |l| == |a| == |v| == |z| == |x| && FactorsTo(l, a, |a|)
    requires Solves(l, v, z) && Solves(Transpose(l), z, x)
    ensures Solves(a, v, x)
  {
    ApplyFactor(l, a, x);
    assert Apply(Transpose(l), x) == z;
    forall i | 0 <= i < |a|
      ensures Dot(a[i], x, |a|) == v[i]
    {
      assert Apply(a, x)[i] == Apply(l, z)[i];
    }
  }
}
