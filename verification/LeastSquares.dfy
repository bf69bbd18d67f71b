/** Gauss-Jordan elimination with partial pivoting and the least-squares fit built
    on it (sensitivity_analysis/sensitivity.py), over exact reals. */
module LeastSquares {
  import opened Wrappers
  import opened LinearAlgebra

  /** The pivot magnitude below which the solver gives up. */
  const PIVOT_THRESHOLD := 0.000000000001

  /** An augmented matrix: row i holds n coefficients and then the right-hand side. */
  ghost predicate Augmented(aug: Matrix, n: nat) {
    |aug| == n && Rectangular(aug, n + 1)
  }

  ghost predicate SolvesAugmented(aug: Matrix, n: nat, y: Vector)
    requires Augmented(aug, n) && |y| == n
  {
    forall i :: 0 <= i < n ==> Dot(aug[i], y, n) == aug[i][n]
  }

  ghost predicate SameSolutions(a: Matrix, b: Matrix, n: nat)
    requires Augmented(a, n) && Augmented(b, n)
  {
    forall y: Vector :: |y| == n ==> (SolvesAugmented(a, n, y) <==> SolvesAugmented(b, n, y))
  }

  /** The first c columns are the first c columns of the identity. */
  ghost predicate Reduced(aug: Matrix, n: nat, c: nat)
    requires Augmented(aug, n) && c <= n
  {
    forall i, j :: 0 <= i < n && 0 <= j < c ==> aug[i][j] == if i == j then 1.0 else 0.0
  }

  function Augment(m: Matrix, v: Vector): (aug: Matrix)
    requires |m| == |v| && Square(m)
    ensures Augmented(aug, |v|)
  {
    seq(|v|, i requires 0 <= i < |v| => m[i] + [v[i]])
  }

  lemma AugmentSolves(m: Matrix, v: Vector, y: Vector)
    requires |m| == |v| == |y| && Square(m)
    ensures SolvesAugmented(Augment(m, v), |v|, y) <==> Solves(m, v, y)
  {
    forall i | 0 <= i < |v|
      ensures Dot(Augment(m, v)[i], y, |v|) == Dot(m[i], y, |v|)
    {
      DotAgrees(Augment(m, v)[i], y, m[i], y, |v|);
    }
  }

  // ---- the three row operations keep the solution set ----

  lemma SwapKeepsSolutions(a: Matrix, b: Matrix, n: nat, c: nat, p: nat)
    requires Augmented(a, n) && c < n && p < n
    requires b == a[c := a[p]][p := a[c]]
    ensures Augmented(b, n) && SameSolutions(a, b, n)
  {
    forall y: Vector | |y| == n
      ensures SolvesAugmented(a, n, y) <==> SolvesAugmented(b, n, y)
    {
      assert a[c] == b[p] && a[p] == b[c];
      assert forall i :: 0 <= i < n && i != c && i != p ==> a[i] == b[i];
    }
  }

  lemma TimesCancels(d: real, s: real, t: real)
    requires d != 0.0
    ensures Times(d, s) == Times(d, t) <==> s == t
  {
    assert (d * s) / d == s && (d * t) / d == t;
  }

  lemma ScaleKeepsSolutions(a: Matrix, b: Matrix, n: nat, c: nat, d: real)
    requires Augmented(a, n) && c < n && d != 0.0
    requires |b| == n && |b[c]| == n + 1 && b == a[c := b[c]]
    requires forall k :: 0 <= k <= n ==> a[c][k] == Times(d, b[c][k])
    ensures Augmented(b, n) && SameSolutions(a, b, n)
  {
    forall y: Vector | |y| == n
      ensures SolvesAugmented(a, n, y) <==> SolvesAugmented(b, n, y)
    {
      DotScale(b[c], d, a[c], y, n);
      TimesCancels(d, Dot(b[c], y, n), b[c][n]);
      assert forall i :: 0 <= i < n && i != c ==> a[i] == b[i];
    }
  }

  lemma CombineKeepsSolutions(a: Matrix, b: Matrix, n: nat, r: nat, c: nat, f: real)
    requires Augmented(a, n) && r < n && c < n && r != c
    requires |b| == n && |b[r]| == n + 1 && b == a[r := b[r]]
    requires forall k :: 0 <= k <= n ==> b[r][k] == a[r][k] + Times(-f, a[c][k])
    ensures Augmented(b, n) && SameSolutions(a, b, n)
  {
    forall y: Vector | |y| == n
      ensures SolvesAugmented(a, n, y) <==> SolvesAugmented(b, n, y)
    {
      DotLinear(a[r], a[c], -f, b[r], y, n);
      assert b[c] == a[c];
      assert forall i :: 0 <= i < n && i != r ==> a[i] == b[i];
    }
  }

  // ---- partial pivoting, column by column ----

  /** The first row of greatest magnitude in column c, among rows c to limit - 1. */
  function PivotRow(a: Matrix, n: nat, c: nat, limit: nat): (p: nat)
    requires Augmented(a, n) && c < limit <= n
    ensures c <= p < limit
    ensures forall i :: c <= i < limit ==> Abs(a[i][c]) <= Abs(a[p][c])
    ensures forall i :: c <= i < p ==> Abs(a[i][c]) < Abs(a[p][c])
  {
    if limit == c + 1 then c
    else
      var p := PivotRow(a, n, c, limit - 1);
      if Abs(a[limit - 1][c]) > Abs(a[p][c]) then limit - 1 else p
  }

  function Scaled(row: Vector, d: real): (r: Vector)
    requires d != 0.0
    ensures |r| == |row|
  {
    seq(|row|, k requires 0 <= k < |row| => row[k] / d)
  }

  /** Row p swapped up to row c and divided by its entry in column c. */
  function Normalized(a: Matrix, n: nat, c: nat, p: nat): (b: Matrix)
    requires Augmented(a, n) && c <= p < n && a[p][c] != 0.0
    ensures Augmented(b, n)
  {
    a[c := a[p]][p := a[c]][c := Scaled(a[p], a[p][c])]
  }

  function Combined(row: Vector, pivotRow: Vector, factor: real): (r: Vector)
    requires |row| == |pivotRow|
    ensures |r| == |row|
  {
    seq(|row|, k requires 0 <= k < |row| => row[k] - factor * pivotRow[k])
  }

  /** Column c cleared in the first `rows` rows other than row c. */
  function Cleared(a: Matrix, n: nat, c: nat, rows: nat): (b: Matrix)
    requires Augmented(a, n) && c < n && rows <= n
    ensures Augmented(b, n)
  {
    seq(n, i requires 0 <= i < n => if i == c || i >= rows then a[i] else Combined(a[i], a[c], a[i][c]))
  }

  /** The matrix after the first c columns. A column without any pivot is passed over. */
  function Eliminated(a: Matrix, n: nat, c: nat): (b: Matrix)
    requires Augmented(a, n) && c <= n
    ensures Augmented(b, n)
  {
    if c == 0 then a
    else
      var b := Eliminated(a, n, c - 1);
      var p := PivotRow(b, n, c - 1, n);
      if b[p][c - 1] == 0.0 then b else Cleared(Normalized(b, n, c - 1, p), n, c - 1, n)
  }

  /** The magnitude of the pivot of column c: the greatest at or below the diagonal once the
      columns before it have been eliminated. */
  function PivotSize(a: Matrix, n: nat, c: nat): (size: real)
    requires Augmented(a, n) && c < n
    ensures size >= 0.0
  {
    var b := Eliminated(a, n, c);
    Abs(b[PivotRow(b, n, c, n)][c])
  }

  lemma NormalizedKeeps(a: Matrix, n: nat, c: nat, p: nat)
    requires Augmented(a, n) && c <= p < n && Reduced(a, n, c) && a[p][c] != 0.0
    ensures var b := Normalized(a, n, c, p);
            SameSolutions(a, b, n) && Reduced(b, n, c) && b[c][c] == 1.0
  {
    var swapped := a[c := a[p]][p := a[c]];
    SwapKeepsSolutions(a, swapped, n, c, p);
    var b, d := Normalized(a, n, c, p), a[p][c];
    assert d / d == 1.0;
    forall k | 0 <= k <= n
      ensures swapped[c][k] == Times(d, b[c][k])
    {
      DivideBack(d, swapped[c][k]);
    }
    ScaleKeepsSolutions(swapped, b, n, c, d);
  }

  lemma ClearedStep(a: Matrix, n: nat, c: nat, r: nat)
    requires Augmented(a, n) && c < n && r < n
    ensures var prior, b := Cleared(a, n, c, r), Cleared(a, n, c, r + 1);
            && prior[c] == a[c] && prior[r] == a[r]
            && b == if r == c then prior else prior[r := Combined(a[r], a[c], a[r][c])]
  {
    var prior, b := Cleared(a, n, c, r), Cleared(a, n, c, r + 1);
    hide Combined;
    assert r == c ==> b == prior;
    assert r != c ==> b == prior[r := Combined(a[r], a[c], a[r][c])];
  }

  ghost predicate ClearIn(b: Matrix, n: nat, c: nat, rows: nat)
    requires Augmented(b, n) && c < n && rows <= n
  {
    forall i :: 0 <= i < rows && i != c ==> b[i][c] == 0.0
  }

  lemma {:induction false} ClearedKeeps(a: Matrix, n: nat, c: nat, rows: nat)
    requires Augmented(a, n) && c < n && rows <= n && Reduced(a, n, c) && a[c][c] == 1.0
    ensures var b := Cleared(a, n, c, rows);
            SameSolutions(a, b, n) && Reduced(b, n, c) && b[c] == a[c] && ClearIn(b, n, c, rows)
    decreases rows
  {
    hide Combined, Cleared, SolvesAugmented, SameSolutions, Reduced, ClearIn, Rectangular;
    if rows == 0 {
      NothingCleared(a, n, c);
    } else {
      var b, prior := Cleared(a, n, c, rows), Cleared(a, n, c, rows - 1);
      ClearedKeeps(a, n, c, rows - 1);
      ClearedStep(a, n, c, rows - 1);
      if rows - 1 != c {
        ClearRow(a, prior, b, n, c, rows - 1);
        SameTrans(a, prior, b, n);
      }
      ClearMore(prior, b, n, c, rows - 1);
    }
  }

  lemma NothingCleared(a: Matrix, n: nat, c: nat)
    requires Augmented(a, n) && c < n
    ensures Cleared(a, n, c, 0) == a && SameSolutions(a, a, n) && ClearIn(a, n, c, 0)
  {
    hide SolvesAugmented;
  }

  lemma ClearMore(prior: Matrix, b: Matrix, n: nat, c: nat, r: nat)
    requires Augmented(prior, n) && Augmented(b, n) && c < n && r < n && ClearIn(prior, n, c, r)
    requires (forall i :: 0 <= i < n && i != r ==> b[i] == prior[i]) && (r == c || b[r][c] == 0.0)
    ensures ClearIn(b, n, c, r + 1)
  {
  }

  lemma SameTrans(a: Matrix, b: Matrix, c: Matrix, n: nat)
    requires Augmented(a, n) && Augmented(b, n) && Augmented(c, n) && SameSolutions(a, b, n) && SameSolutions(b, c, n)
    ensures SameSolutions(a, c, n)
  {
    hide SolvesAugmented;
  }

  lemma ClearRow(a: Matrix, prior: Matrix, b: Matrix, n: nat, c: nat, r: nat)
    requires Augmented(a, n) && Augmented(prior, n) && c < n && r < n && r != c && Reduced(prior, n, c)
        && a[c][c] == 1.0
    requires prior[c] == a[c] && prior[r] == a[r] && b == prior[r := Combined(a[r], a[c], a[r][c])]
    ensures Augmented(b, n) && SameSolutions(prior, b, n) && Reduced(b, n, c) && b[c] == a[c] && b[r][c] == 0.0
  {
    CombineKeepsSolutions(prior, b, n, r, c, a[r][c]);
    forall j | 0 <= j < c
      ensures b[r][j] == prior[r][j]
    {
      assert prior[c][j] == 0.0;
    }
  }

  /** One column further. */
  lemma PivotStepKeeps(initial: Matrix, a: Matrix, n: nat, c: nat, p: nat)
    requires Augmented(initial, n) && Augmented(a, n) && SameSolutions(initial, a, n)
    requires c <= p < n && Reduced(a, n, c) && a[p][c] != 0.0
    ensures var b := Cleared(Normalized(a, n, c, p), n, c, n);
            SameSolutions(initial, b, n) && Reduced(b, n, c + 1)
  {
    hide Normalized, Cleared, SolvesAugmented, SameSolutions, PivotRow;
    var normal := Normalized(a, n, c, p);
    NormalizedKeeps(a, n, c, p);
    ClearedKeeps(normal, n, c, n);
    SameTrans(initial, a, normal, n);
    SameTrans(initial, normal, Cleared(normal, n, c, n), n);
  }

  lemma EliminatedStep(a: Matrix, n: nat, c: nat)
    requires Augmented(a, n) && c < n && PivotSize(a, n, c) != 0.0
    ensures var b := Eliminated(a, n, c);
            var p := PivotRow(b, n, c, n);
            b[p][c] != 0.0 && Eliminated(a, n, c + 1) == Cleared(Normalized(b, n, c, p), n, c, n)
  {
    hide Normalized, Cleared, PivotRow, Augmented;
  }

  ghost predicate PivotsExist(a: Matrix, n: nat, c: nat)
    requires Augmented(a, n) && c <= n
  {
    forall k :: 0 <= k < c ==> PivotSize(a, n, k) != 0.0
  }

  /** As long as no pivot is zero, the solutions stay and the columns become unit columns. */
  lemma {:induction false} EliminatedKeeps(a: Matrix, n: nat, c: nat)
    requires Augmented(a, n) && c <= n && PivotsExist(a, n, c)
    ensures SameSolutions(a, Eliminated(a, n, c), n) && Reduced(Eliminated(a, n, c), n, c)
  {
    hide *;
    if c == 0 {
      NothingEliminated(a, n);
    } else {
      PivotsBefore(a, n, c);
      EliminatedKeeps(a, n, c - 1);
      EliminatedStep(a, n, c - 1);
      var b := Eliminated(a, n, c - 1);
      PivotStepKeeps(a, b, n, c - 1, PivotRow(b, n, c - 1, n));
    }
  }

  lemma NothingEliminated(a: Matrix, n: nat)
    requires Augmented(a, n)
    ensures Eliminated(a, n, 0) == a && SameSolutions(a, a, n) && Reduced(a, n, 0)
  {
    hide SolvesAugmented;
  }

  lemma PivotsBefore(a: Matrix, n: nat, c: nat)
    requires Augmented(a, n) && 0 < c <= n && PivotsExist(a, n, c)
    ensures PivotsExist(a, n, c - 1) && PivotSize(a, n, c - 1) != 0.0
  {
  }

  /** Every coefficient row has become a row of the identity, so the last column is the
      only solution. */
  lemma ReadOffSolution(matrix: Matrix, vector: Vector, aug: Matrix, x: Vector)
    requires |matrix| == |vector| == |x| && Square(matrix)
    requires Augmented(aug, |x|) && Reduced(aug, |x|, |x|)
    requires SameSolutions(Augment(matrix, vector), aug, |x|)
    requires forall i :: 0 <= i < |x| ==> x[i] == aug[i][|x|]
    ensures UniqueSolution(matrix, vector, x)
  {
    forall y: Vector | |y| == |x|
      ensures Solves(matrix, vector, y) <==> y == x
    {
      AugmentSolves(matrix, vector, y);
      forall i | 0 <= i < |x|
        ensures Dot(aug[i], y, |x|) == y[i]
      {
        DotUnit(aug[i], y, i, |x|);
      }
    }
  }

  ghost predicate UniqueSolution(matrix: Matrix, vector: Vector, x: Vector)
    requires |matrix| == |vector| == |x| && Square(matrix)
  {
    forall y: Vector :: |y| == |x| ==> (Solves(matrix, vector, y) <==> y == x)
  }

  // ---- the row operations as the loop performs them ----

  method FindPivot(aug: Matrix, n: nat, column: nat) returns (pivot: nat)
    requires Augmented(aug, n) && column < n
    ensures pivot == PivotRow(aug, n, column, n)
  {
    pivot := column;
    for row := column + 1 to n
      invariant pivot == PivotRow(aug, n, column, row)
    {
      if Abs(aug[row][column]) > Abs(aug[pivot][column]) {
        pivot := row;
      }
    }
  }

  /** Swap the pivot row up and divide it by its pivot. */
  method NormalizePivotRow(a: Matrix, n: nat, column: nat, pivot: nat) returns (b: Matrix)
    requires Augmented(a, n) && column <= pivot < n && a[pivot][column] != 0.0
    ensures b == Normalized(a, n, column, pivot)
    ensures Reduced(a, n, column) ==> SameSolutions(a, b, n) && Reduced(b, n, column) && b[column][column] == 1.0
  {
    b := a[column := a[pivot]][pivot := a[column]];
    var divisor := b[column][column];
    var row := b[column];
    b := b[column := seq(|row|, k requires 0 <= k < |row| => row[k] / divisor)];
    assert b == Normalized(a, n, column, pivot);
    if Reduced(a, n, column) {
      NormalizedKeeps(a, n, column, pivot);
    }
  }

  /** Clear the pivot column everywhere else. */
  method EliminateColumn(a: Matrix, n: nat, column: nat) returns (b: Matrix)
    requires Augmented(a, n) && column < n
    ensures b == Cleared(a, n, column, n)
    ensures Reduced(a, n, column) && a[column][column] == 1.0 ==> SameSolutions(a, b, n) && Reduced(b, n, column + 1)
  {
    b := a;
    for row := 0 to n
      invariant b == Cleared(a, n, column, row)
    {
      if row != column {
        var factor, current, pivotRow := b[row][column], b[row], b[column];
        b := b[row := seq(n + 1, k requires 0 <= k <= n => current[k] - factor * pivotRow[k])];
        assert b[row] == Combined(a[row], a[column], a[row][column]);
      }
      assert b == Cleared(a, n, column, row + 1);
    }
    if Reduced(a, n, column) && a[column][column] == 1.0 {
      ClearedKeeps(a, n, column, n);
    }
  }

  /** Some column has no pivot of magnitude 1e-12 or more. */
  ghost predicate Refused(matrix: Matrix, vector: Vector)
    requires |matrix| == |vector| && Square(matrix)
  {
    exists c :: 0 <= c < |vector| && PivotSize(Augment(matrix, vector), |vector|, c) < PIVOT_THRESHOLD
  }

  /** Gauss-Jordan elimination. It gives up exactly when a pivot is too small, and otherwise
      returns the only solution. */
  method SolveLinearSystem(matrix: Matrix, vector: Vector) returns (x: Option<Vector>)
    requires |matrix| == |vector| && Square(matrix)
    ensures x.None? <==> Refused(matrix, vector)
    ensures x.Some? ==> |x.value| == |vector| && UniqueSolution(matrix, vector, x.value)
  {
    hide Normalized, Cleared, PivotRow, UniqueSolution, Reduced, SameSolutions;
    var n := |vector|;
    ghost var initial := Augment(matrix, vector);
    var aug: Matrix := seq(n, i requires 0 <= i < n => matrix[i] + [vector[i]]);
    assert aug == initial;
    for column := 0 to n
      invariant aug == Eliminated(initial, n, column)
      invariant forall c :: 0 <= c < column ==> PivotSize(initial, n, c) >= PIVOT_THRESHOLD
    {
      var pivot := FindPivot(aug, n, column);
      if Abs(aug[pivot][column]) < PIVOT_THRESHOLD {
        assert PivotSize(initial, n, column) < PIVOT_THRESHOLD;
        return None;
      }
      assert PivotSize(initial, n, column) >= PIVOT_THRESHOLD;
      aug := NormalizePivotRow(aug, n, column, pivot);
      aug := EliminateColumn(aug, n, column);
    }
    assert !Refused(matrix, vector);
    EliminatedKeeps(initial, n, n);
    var solution := seq(n, i requires 0 <= i < n => aug[i][n]);
    ReadOffSolution(matrix, vector, aug, solution);
    x := Some(solution);
  }

  /** A column that is exactly zero from the diagonal down is a true singularity: the
      system has no unique solution, so giving up loses nothing. */
  lemma ZeroColumnIsSingular(matrix: Matrix, vector: Vector, aug: Matrix, c: nat, x: Vector)
    requires |matrix| == |vector| == |x| && Square(matrix)
    requires c < |x| && Augmented(aug, |x|) && Reduced(aug, |x|, c)
    requires SameSolutions(Augment(matrix, vector), aug, |x|)
    requires forall i :: c <= i < |x| ==> aug[i][c] == 0.0
    ensures !UniqueSolution(matrix, vector, x)
  {
    if UniqueSolution(matrix, vector, x) {
      AugmentSolves(matrix, vector, x);
      assert Solves(matrix, vector, x);
      var y := AnotherSolution(aug, |x|, c, x);
      AugmentSolves(matrix, vector, y);
    }
  }

  lemma AnotherSolution(aug: Matrix, n: nat, c: nat, x: Vector) returns (y: Vector)
    requires Augmented(aug, n) && c < n && Reduced(aug, n, c) && |x| == n
    requires forall i :: c <= i < n ==> aug[i][c] == 0.0
    requires SolvesAugmented(aug, n, x)
    ensures |y| == n && SolvesAugmented(aug, n, y) && y != x
  {
    var kernel := seq(n, j requires 0 <= j < n => if j < c then -aug[j][c] else if j == c then 1.0 else 0.0);
    y := seq(n, j requires 0 <= j < n => x[j] - kernel[j]);
    forall i | 0 <= i < n
      ensures Dot(aug[i], y, n) == aug[i][n]
    {
      KernelVector(aug, n, c, i, kernel);
      DotMinus(x, kernel, y, aug[i], n);
    }
    assert y[c] == x[c] - 1.0;
  }

  lemma KernelVector(aug: Matrix, n: nat, c: nat, i: nat, kernel: Vector)
    requires Augmented(aug, n) && c < n && Reduced(aug, n, c) && i < n && |kernel| == n
    requires forall k :: c <= k < n ==> aug[k][c] == 0.0
    requires forall j :: 0 <= j < n ==> kernel[j] == if j < c then -aug[j][c] else if j == c then 1.0 else 0.0
    ensures Dot(aug[i], kernel, n) == 0.0
  {
    DotTail(aug[i], kernel, c + 1, n);
    DotUnit(aug[i], kernel, i, c);
  }

  ghost predicate WellPosed(matrix: Matrix, vector: Vector)
    requires |matrix| == |vector| && Square(matrix)
  {
    exists x: Vector :: |x| == |vector| && UniqueSolution(matrix, vector, x)
  }

  lemma PivotsSolve(matrix: Matrix, vector: Vector)
    requires |matrix| == |vector| && Square(matrix) && PivotsExist(Augment(matrix, vector), |vector|, |vector|)
    ensures WellPosed(matrix, vector)
  {
    hide Eliminated, UniqueSolution, Augment, SameSolutions, Reduced, PivotSize, PivotsExist;
    var n, initial := |vector|, Augment(matrix, vector);
    EliminatedKeeps(initial, n, n);
    var aug := Eliminated(initial, n, n);
    var x := seq(n, i requires 0 <= i < n => aug[i][n]);
    ReadOffSolution(matrix, vector, aug, x);
  }

  /** A system has exactly one solution exactly when no pivot is zero. */
  lemma WellPosedIff(matrix: Matrix, vector: Vector)
    requires |matrix| == |vector| && Square(matrix)
    ensures WellPosed(matrix, vector)
            <==> forall c :: 0 <= c < |vector| ==> PivotSize(Augment(matrix, vector), |vector|, c) > 0.0
  {
    hide Eliminated, UniqueSolution, Augment, SameSolutions, Reduced, PivotSize, WellPosed;
    var n, initial := |vector|, Augment(matrix, vector);
    if PivotsExist(initial, n, n) {
      PivotsSolve(matrix, vector);
    } else {
      var c := FirstZeroPivot(initial, n);
      EliminatedKeeps(initial, n, c);
      ZeroPivotIsSingular(matrix, vector, Eliminated(initial, n, c), c);
    }
  }

  lemma ZeroPivotIsSingular(matrix: Matrix, vector: Vector, aug: Matrix, c: nat)
    requires |matrix| == |vector| && Square(matrix)
    requires c < |vector| && Augmented(aug, |vector|) && Reduced(aug, |vector|, c)
    requires SameSolutions(Augment(matrix, vector), aug, |vector|)
    requires forall i :: c <= i < |vector| ==> aug[i][c] == 0.0
    ensures !WellPosed(matrix, vector)
  {
    hide Reduced, SameSolutions, Augment, UniqueSolution;
    forall x: Vector | |x| == |vector|
      ensures !UniqueSolution(matrix, vector, x)
    {
      ZeroColumnIsSingular(matrix, vector, aug, c, x);
    }
  }

  lemma FirstZeroPivot(a: Matrix, n: nat) returns (c: nat)
    requires Augmented(a, n) && !PivotsExist(a, n, n)
    ensures c < n && PivotSize(a, n, c) == 0.0 && PivotsExist(a, n, c)
    ensures forall i :: c <= i < n ==> Eliminated(a, n, c)[i][c] == 0.0
  {
    hide Eliminated;
    c := 0;
    while PivotSize(a, n, c) != 0.0
      invariant c < n && forall k :: 0 <= k < c ==> PivotSize(a, n, k) != 0.0
      decreases n - c
    {
      c := c + 1;
    }
  }

  /** The threshold is absolute, so a well-posed system can be refused: exactly when some pivot
      is below 1e-12 without being zero. A system that is not well-posed is always refused. */
  lemma RefusedIff(matrix: Matrix, vector: Vector)
    requires |matrix| == |vector| && Square(matrix)
    ensures !WellPosed(matrix, vector) ==> Refused(matrix, vector)
    ensures WellPosed(matrix, vector) ==>
              (Refused(matrix, vector)
               <==> exists c ::
                   0 <= c < |vector| && 0.0 < PivotSize(Augment(matrix, vector), |vector|, c) < PIVOT_THRESHOLD)
  {
    WellPosedIff(matrix, vector);
    hide PivotSize;
  }

  /** Such a system: (eps) x = b for any non-zero |eps| < 1e-12. */
  lemma TinyPivotIsWellPosed(eps: real, b: real)
    requires eps != 0.0 && Abs(eps) < PIVOT_THRESHOLD
    ensures UniqueSolution([[eps]], [b], [b / eps]) && Refused([[eps]], [b])
  {
    assert PivotSize(Augment([[eps]], [b]), 1, 0) == Abs(eps);
    forall y: Vector | |y| == 1
      ensures Solves([[eps]], [b], y) <==> y == [b / eps]
    {
      var m: Matrix, q := [[eps]], b / eps;
      assert Dot(m[0], y, 1) == Dot(m[0], y, 0) + Times(eps, y[0]);
      DivideBack(eps, b);
      TimesCancels(eps, y[0], q);
      assert y[0] == q ==> y == [q];
    }
  }

  // ---- least squares ----

  function NormalMatrix(features: Matrix, columns: nat): (m: Matrix)
    requires Rectangular(features, columns)
    ensures |m| == columns && Square(m)
  {
    seq(columns, left requires 0 <= left < columns =>
      seq(columns, right requires 0 <= right < columns =>
          ColumnDot(features, left, Column(features, right, columns), |features|)))
  }

  function Column(features: Matrix, j: nat, columns: nat): (c: Vector)
    requires Rectangular(features, columns) && j < columns
    ensures |c| == |features|
  {
    seq(|features|, i requires 0 <= i < |features| => features[i][j])
  }

  function NormalVector(features: Matrix, values: Vector, columns: nat): (v: Vector)
    requires Rectangular(features, columns) && |values| == |features|
    ensures |v| == columns
  {
    seq(columns, j requires 0 <= j < columns => ColumnDot(features, j, values, |features|))
  }

  /** features b, row by row. */
  function Predict(features: Matrix, b: Vector): (p: Vector)
    requires Rectangular(features, |b|)
    ensures |p| == |features|
  {
    seq(|features|, i requires 0 <= i < |features| => Dot(features[i], b, |b|))
  }

  function Minus(a: Vector, b: Vector): (d: Vector)
    requires |a| == |b|
    ensures |d| == |a| && forall k :: 0 <= k < |a| ==> d[k] == a[k] - b[k]
  {
    seq(|a|, k requires 0 <= k < |a| => a[k] - b[k])
  }

  function SquaredError(features: Matrix, values: Vector, b: Vector): real
    requires Rectangular(features, |b|) && |values| == |features|
  {
    var r := Minus(Predict(features, b), values);
    Dot(r, r, |r|)
  }

  ghost predicate ResidualOrthogonal(features: Matrix, values: Vector, b: Vector)
    requires Rectangular(features, |b|) && |values| == |features|
  {
    var r := Minus(Predict(features, b), values);
    forall j :: 0 <= j < |b| ==> ColumnDot(features, j, r, |features|) == 0.0
  }

  /** The normal equations say exactly that the residual is orthogonal to every feature. */
  lemma NormalEquations(features: Matrix, values: Vector, b: Vector)
    requires Rectangular(features, |b|) && |values| == |features|
    ensures Solves(NormalMatrix(features, |b|), NormalVector(features, values, |b|), b) <==>
            ResidualOrthogonal(features, values, b)
  {
    var m, v, r :=
        NormalMatrix(features, |b|), NormalVector(features, values, |b|), Minus(Predict(features, b), values);
    forall j | 0 <= j < |b|
      ensures ColumnDot(features, j, r, |features|) == Dot(m[j], b, |b|) - v[j]
    {
      NormalEquation(features, values, b, j);
    }
  }

  lemma NormalEquation(features: Matrix, values: Vector, b: Vector, j: nat)
    requires Rectangular(features, |b|) && |values| == |features| && j < |b|
    ensures ColumnDot(features, j, Minus(Predict(features, b), values), |features|) ==
            Dot(NormalMatrix(features, |b|)[j], b, |b|) - NormalVector(features, values, |b|)[j]
  {
    var n, u, p, q := |features|, Column(features, j, |b|), Predict(features, b), NormalMatrix(features, |b|)[j];
    forall k | 0 <= k < |b|
      ensures q[k] == ColumnDot(features, k, u, n)
    {
      ColumnDotSymmetric(features, j, k, |b|, n);
    }
    Bilinear(features, u, b, p, q, n);
    ColumnDotIsDot(features, j, |b|, values, n);
    ColumnDotIsDot(features, j, |b|, Minus(p, values), n);
    DotMinus(p, values, Minus(p, values), u, n);
  }

  lemma {:induction false} ColumnDotIsDot(features: Matrix, j: nat, columns: nat, w: Vector, n: nat)
    requires Rectangular(features, columns) && j < columns && n <= |features| && |w| == |features|
    ensures ColumnDot(features, j, w, n) == Dot(Column(features, j, columns), w, n)
  {
    if n > 0 {
      ColumnDotIsDot(features, j, columns, w, n - 1);
    }
  }

  lemma ColumnDotSymmetric(features: Matrix, j: nat, k: nat, columns: nat, n: nat)
    requires Rectangular(features, columns) && j < columns && k < columns && n == |features|
    ensures ColumnDot(features, j, Column(features, k, columns), n) ==
        ColumnDot(features, k, Column(features, j, columns), n)
  {
    ColumnDotIsDot(features, j, columns, Column(features, k, columns), n);
    ColumnDotIsDot(features, k, columns, Column(features, j, columns), n);
    DotSymmetric(Column(features, j, columns), Column(features, k, columns), n);
  }

  /** Moving away from a solution of the normal equations adds exactly the squared length of
      the change in prediction. */
  lemma Pythagoras(features: Matrix, values: Vector, b: Vector, c: Vector)
    requires Rectangular(features, |b|) && |values| == |features| && |c| == |b|
    requires Solves(NormalMatrix(features, |b|), NormalVector(features, values, |b|), b)
    ensures var d := Predict(features, Minus(c, b));
            SquaredError(features, values, c) == SquaredError(features, values, b) + Dot(d, d, |d|)
  {
    NormalEquations(features, values, b);
    var n := |features|;
    var step := Minus(c, b);
    var d := Predict(features, step);
    var e := Minus(Predict(features, b), values);
    var r := Minus(Predict(features, c), values);
    var q := seq(|b|, j requires 0 <= j < |b| => ColumnDot(features, j, e, n));
    Bilinear(features, e, step, d, q, n);
    DotTail(q, step, 0, |b|);
    forall i | 0 <= i < n
      ensures d[i] == r[i] - e[i]
    {
      DotMinus(c, b, step, features[i], |b|);
    }
    DotMinus(r, e, d, d, n);
    DotMinus(r, e, d, e, n);
    DotMinus(r, e, d, r, n);
    DotSymmetric(e, d, n);
    DotSymmetric(e, r, n);
    DotSymmetric(d, r, n);
  }

  ghost predicate UniqueMinimizer(features: Matrix, values: Vector, b: Vector)
    requires Rectangular(features, |b|) && |values| == |features|
  {
    forall c: Vector :: |c| == |b| ==>
      && SquaredError(features, values, b) <= SquaredError(features, values, c)
      && (SquaredError(features, values, b) == SquaredError(features, values, c) ==> c == b)
  }

  lemma NormalSolutionMinimizes(features: Matrix, values: Vector, b: Vector)
    requires Rectangular(features, |b|) && |values| == |features|
    requires UniqueSolution(NormalMatrix(features, |b|), NormalVector(features, values, |b|), b)
    ensures UniqueMinimizer(features, values, b)
  {
    forall c: Vector | |c| == |b|
      ensures SquaredError(features, values, b) <= SquaredError(features, values, c)
      ensures SquaredError(features, values, b) == SquaredError(features, values, c) ==> c == b
    {
      assert Solves(NormalMatrix(features, |b|), NormalVector(features, values, |b|), b);
      Pythagoras(features, values, b, c);
      var d := Predict(features, Minus(c, b));
      SquareNonNegative(d, |d|);
      if SquaredError(features, values, b) == SquaredError(features, values, c) {
        SamePrediction(features, values, b, c);
      }
    }
  }

  lemma SamePrediction(features: Matrix, values: Vector, b: Vector, c: Vector)
    requires Rectangular(features, |b|) && |values| == |features| && |c| == |b|
    requires var d := Predict(features, Minus(c, b)); forall k :: 0 <= k < |d| ==> d[k] == 0.0
    requires UniqueSolution(NormalMatrix(features, |b|), NormalVector(features, values, |b|), b)
    ensures c == b
  {
    var p, q := Predict(features, b), Predict(features, c);
    forall i | 0 <= i < |features|
      ensures q[i] == p[i]
    {
      assert Predict(features, Minus(c, b))[i] == 0.0;
      DotMinus(c, b, Minus(c, b), features[i], |b|);
    }
    assert p == q;
    assert Solves(NormalMatrix(features, |b|), NormalVector(features, values, |b|), b);
    NormalEquations(features, values, b);
    NormalEquations(features, values, c);
  }

  /** Ordinary least squares through the normal equations. The coefficients are the unique
      global minimiser of the sum of squared residuals; there are none exactly when the
      lengths do not fit or the normal equations are refused. */
  method Regression(features: Matrix, values: Vector) returns (b: Option<Vector>)
    requires features != [] ==> Rectangular(features, |features[0]|)
    ensures b.None? <==> features == [] || |features| != |values|
                         || Refused(NormalMatrix(features, |features[0]|),
                                    NormalVector(features, values, |features[0]|))
    ensures b.Some? ==> |b.value| == |features[0]| && UniqueMinimizer(features, values, b.value)
  {
    if features == [] || |features| != |values| {
      return None;
    }
    var columns := |features[0]|;
    var matrix := NormalMatrix(features, columns);
    var vector := NormalVector(features, values, columns);
    b := SolveLinearSystem(matrix, vector);
    if b.Some? {
      NormalSolutionMinimizes(features, values, b.value);
    }
  }
}
