/** What the projection promises: results inside the bounds that meet the target sum, and
    vectors that already do so left alone. */
module ProjectionProofs {
  import opened Wrappers
  import opened LinearAlgebra
  import opened Projection

  // ---- the bisection ----

  function Halved(width: real, n: nat): real
    decreases n, width
  {
    if n == 0 then width else Halved(width / 2.0, n - 1)
  }

  ghost predicate Ordered(b: Bounds) {
    b.minimum <= b.maximum
  }

  ghost predicate Within(values: Vector, b: Bounds) {
    forall k :: 0 <= k < |values| ==> b.minimum <= values[k] <= b.maximum
  }

  lemma {:induction false} SumMonotone(p: Vector, q: Vector)
    requires |p| == |q| && forall k :: 0 <= k < |p| ==> p[k] <= q[k]
    ensures Sum(p) <= Sum(q)
    ensures Sum(p) == Sum(q) ==> p == q
  {
    if p != [] {
      SumMonotone(p[1..], q[1..]);
      if Sum(p) == Sum(q) {
        assert p == [p[0]] + p[1..] && q == [q[0]] + q[1..];
      }
    }
  }

  lemma {:induction false} SumClose(p: Vector, q: Vector, d: real)
    requires |p| == |q| && forall k :: 0 <= k < |p| ==> Abs(p[k] - q[k]) <= d
    ensures Abs(Sum(p) - Sum(q)) <= Times(|p| as real, d)
  {
    hide Times;
    if p != [] {
      SumClose(p[1..], q[1..], d);
      TimesNext(|p| - 1, d);
    } else {
      TimesZero(0.0, d);
    }
  }

  lemma TimesNext(n: int, d: real)
    ensures Times((n + 1) as real, d) == Times(n as real, d) + d
  {
  }

  lemma {:induction false} SumConstant(p: Vector, c: real)
    requires forall k :: 0 <= k < |p| ==> p[k] == c
    ensures Sum(p) == Times(c, |p| as real)
  {
    if p != [] {
      SumConstant(p[1..], c);
      assert Times(c, |p| as real) == Times(c, (|p| - 1) as real) + c;
    }
  }

  lemma ShiftedMonotone(values: Vector, s: real, t: real, b: Bounds)
    requires s <= t
    ensures Sum(Shifted(values, s, b)) <= Sum(Shifted(values, t, b))
  {
    SumMonotone(Shifted(values, s, b), Shifted(values, t, b));
  }

  /** The target lies between the sums at the two ends. */
  ghost predicate Brackets(values: Vector, target: real, b: Bounds, low: real, high: real) {
    low <= high && Sum(Shifted(values, low, b)) <= target <= Sum(Shifted(values, high, b))
  }

  lemma {:induction false} BisectBrackets(values: Vector, target: real, b: Bounds, low: real, high: real, n: nat)
    requires Brackets(values, target, b, low, high)
    ensures var (l, h) := Bisect(values, target, b, low, high, n);
            && low <= l <= h <= high && Brackets(values, target, b, l, h)
            && h - l == Halved(high - low, n)
            && (l == low || Sum(Shifted(values, l, b)) < target)
    decreases n
  {
    hide Sum, Times, Clip, Shifted;
    if n > 0 {
      var shift := (low + high) / 2.0;
      if Sum(Shifted(values, shift, b)) < target {
        BisectBrackets(values, target, b, shift, high, n - 1);
      } else {
        BisectBrackets(values, target, b, low, shift, n - 1);
      }
    }
  }

  ghost predicate Feasible(n: nat, target: real, b: Bounds) {
    Times(b.minimum, n as real) <= target <= Times(b.maximum, n as real)
  }

  lemma InitialBracket(values: Vector, target: real, b: Bounds)
    requires values != [] && Ordered(b) && Feasible(|values|, target, b)
    ensures Brackets(values, target, b, InitialLow(values, target, b), InitialHigh(values, target, b))
  {
    SumConstant(Shifted(values, InitialLow(values, target, b), b), b.minimum);
    SumConstant(Shifted(values, InitialHigh(values, target, b), b), b.maximum);
  }

  /** Width of the bracket after the last bisection. */
  function FinalWidth(values: Vector, target: real, b: Bounds): real
    requires values != []
  {
    Halved(InitialHigh(values, target, b) - InitialLow(values, target, b), BISECTIONS)
  }

  lemma FinalBracketHolds(values: Vector, target: real, b: Bounds)
    requires values != [] && Ordered(b) && Feasible(|values|, target, b)
    ensures var (l, h) := FinalBracket(values, target, b);
            && Brackets(values, target, b, l, h) && h - l == FinalWidth(values, target, b)
            && FinalShift(values, target, b) == (l + h) / 2.0
            && (l == InitialLow(values, target, b) || Sum(Shifted(values, l, b)) < target)
  {
    InitialBracket(values, target, b);
    BisectBrackets(values, target, b, InitialLow(values, target, b), InitialHigh(values, target, b), BISECTIONS);
  }

  function FinalBracket(values: Vector, target: real, b: Bounds): (real, real)
    requires values != []
  {
    Bisect(values, target, b, InitialLow(values, target, b), InitialHigh(values, target, b), BISECTIONS)
  }

  /** Before rounding, the projection is inside the bounds and its sum is within the final
      bracket width of the target in every entry. Without a quantum this is the result. */
  lemma ContinuousProjection(values: Vector, target: real, b: Bounds)
    requires values != [] && Ordered(b) && Feasible(|values|, target, b)
    ensures var p := Shifted(values, FinalShift(values, target, b), b);
            Within(p, b) && Abs(Sum(p) - target) <= Times(|values| as real, FinalWidth(values, target, b))
    ensures b.step <= 0.0 ==> Project(values, target, b) == Ok(Shifted(values, FinalShift(values, target, b), b))
  {
    hide *;
    FinalBracketHolds(values, target, b);
    var (l, h) := FinalBracket(values, target, b);
    MidpointIsClose(values, target, b, l, h);
    UnquantizedProjection(values, target, b);
  }

  lemma UnquantizedProjection(values: Vector, target: real, b: Bounds)
    requires values != [] && Feasible(|values|, target, b)
    ensures b.step <= 0.0 ==> Project(values, target, b) == Ok(Shifted(values, FinalShift(values, target, b), b))
  {
  }

  lemma MidpointIsClose(values: Vector, target: real, b: Bounds, l: real, h: real)
    requires values != [] && Ordered(b) && Brackets(values, target, b, l, h)
    ensures var p := Shifted(values, (l + h) / 2.0, b);
            Within(p, b) && Abs(Sum(p) - target) <= Times(|values| as real, h - l)
  {
    hide Times, Sum;
    var m := (l + h) / 2.0;
    ShiftedMonotone(values, l, m, b);
    ShiftedMonotone(values, m, h, b);
    SumClose(Shifted(values, h, b), Shifted(values, l, b), h - l);
  }

  // ---- the grid of step multiples ----

  ghost predicate OnGrid(p: Vector, units: seq<int>, step: real) {
    |p| == |units| && forall k :: 0 <= k < |p| ==> p[k] == Times(units[k] as real, step)
  }

  lemma GridOrder(k: int, m: int, step: real)
    requires step > 0.0
    ensures Times(k as real, step) <= Times(m as real, step) <==> k <= m
    ensures Times(k as real, step) + step == Times((k + 1) as real, step)
    ensures Times(k as real, step) - step == Times((k - 1) as real, step)
    ensures Times(k as real, step) / step == k as real
  {
    var d := (m - k) as real;
    assert d * step == m as real * step - k as real * step;
    if d >= 1.0 {
      assert d * step >= step;
    } else {
      assert (-d) * step >= 0.0;
    }
  }

  lemma {:induction false} SumOnGrid(p: Vector, units: seq<int>, step: real)
    requires OnGrid(p, units, step)
    ensures Sum(p) == Times(SumInt(units) as real, step)
  {
    if p != [] {
      SumOnGrid(p[1..], units[1..], step);
    }
  }

  lemma {:induction false} SumIntBounds(units: seq<int>, lo: int, hi: int)
    requires forall k :: 0 <= k < |units| ==> lo <= units[k] <= hi
    ensures |units| * lo <= SumInt(units) <= |units| * hi
  {
    if units != [] {
      SumIntBounds(units[1..], lo, hi);
    }
  }

  /** Bounds lo*step and hi*step, with a quantum that the tolerance cannot confuse. */
  ghost predicate Aligned(b: Bounds, lo: int, hi: int) {
    b.step > TOLERANCE && lo <= hi && b.minimum == Times(lo as real, b.step) && b.maximum == Times(hi as real, b.step)
  }

  ghost predicate UnitsWithin(units: seq<int>, lo: int, hi: int) {
    forall k :: 0 <= k < |units| ==> lo <= units[k] <= hi
  }

  function ClampInt(x: int, lo: int, hi: int): int {
    if x < lo then lo else if x > hi then hi else x
  }

  lemma QuantizedUnits(p: Vector, b: Bounds, lo: int, hi: int) returns (units: seq<int>)
    requires Aligned(b, lo, hi)
    ensures OnGrid(Quantize(p, b), units, b.step) && UnitsWithin(units, lo, hi)
  {
    units := seq(|p|, k requires 0 <= k < |p| => ClampInt(RoundHalfEven(p[k] / b.step), lo, hi));
    forall k | 0 <= k < |p|
      ensures Quantize(p, b)[k] == Times(units[k] as real, b.step)
    {
      var r := RoundHalfEven(p[k] / b.step);
      GridOrder(r, lo, b.step);
      GridOrder(lo, r, b.step);
      GridOrder(r, hi, b.step);
      GridOrder(hi, r, b.step);
      GridOrder(lo, hi, b.step);
    }
  }

  lemma EligibleUnits(u: int, up: bool, b: Bounds, lo: int, hi: int)
    requires Aligned(b, lo, hi)
    ensures var move := if up then b.step else -b.step;
            Eligible(Times(u as real, b.step), move, b) <==> lo <= (if up then u + 1 else u - 1) <= hi
  {
    hide Times;
    var v := if up then u + 1 else u - 1;
    GridOrder(u, u, b.step);
    GridOrder(lo, v, b.step);
    GridOrder(lo, v + 1, b.step);
    GridOrder(v, hi, b.step);
    GridOrder(v, hi + 1, b.step);
    GridOrder(v, v, b.step);
    GridOrder(hi, hi, b.step);
  }

  /** Every repair step finds an eligible entry, and the sum lands on the target. */
  lemma {:induction false} RepairReaches(projected: Vector, values: Vector, units: seq<int>, b: Bounds, lo: int,
                                         hi: int, up: bool, t: int, n: nat)
    returns (final: seq<int>)
    requires |projected| == |values| && OnGrid(projected, units, b.step)
    requires Aligned(b, lo, hi) && UnitsWithin(units, lo, hi) && |units| * lo <= t <= |units| * hi
    requires up ==> t == SumInt(units) + n
    requires !up ==> t == SumInt(units) - n
    ensures OnGrid(Repair(projected, values, if up then b.step else -b.step, b, n), final, b.step)
    ensures UnitsWithin(final, lo, hi) && SumInt(final) == t
    decreases n
  {
    hide Times;
    final := units;
    if n > 0 {
      var move := if up then b.step else -b.step;
      var best := BestIndex(projected, values, move, b, |values|);
      if best.None? {
        forall k | 0 <= k < |units|
          ensures units[k] == if up then hi else lo
        {
          EligibleUnits(units[k], up, b, lo, hi);
        }
        SumIntBounds(units, if up then hi else lo, if up then hi else lo);
        assert false;
      } else {
        var i := best.value;
        EligibleUnits(units[i], up, b, lo, hi);
        GridOrder(units[i], 0, b.step);
        var u := if up then units[i] + 1 else units[i] - 1;
        SumIntUpdate(units, i, u);
        final := RepairReaches(projected[i := projected[i] + move], values, units[i := u], b, lo, hi, up, t, n - 1);
      }
    }
  }

  lemma DeficitOnGrid(p: Vector, units: seq<int>, b: Bounds, t: int)
    requires b.step > 0.0 && OnGrid(p, units, b.step)
    ensures Deficit(p, Times(t as real, b.step), b) == t - SumInt(units)
  {
    SumOnGrid(p, units, b.step);
    var d := t - SumInt(units);
    assert Times(t as real, b.step) - Sum(p) == Times(d as real, b.step);
    GridOrder(d, d, b.step);
  }

  lemma TimesCount(n: nat, k: int, step: real)
    ensures Times(Times(k as real, step), n as real) == Times((n * k) as real, step)
  {
    assert (k as real * step) * n as real == (n as real * k as real) * step;
    assert (n * k) as real == n as real * k as real;
  }

  lemma FeasibleUnits(n: nat, b: Bounds, lo: int, hi: int, t: int)
    requires Aligned(b, lo, hi)
    ensures !Infeasible(n, Times(t as real, b.step), b) <==> n * lo <= t <= n * hi
    ensures n * lo <= t <= n * hi ==> Feasible(n, Times(t as real, b.step), b)
  {
    hide Times;
    TimesCount(n, lo, b.step);
    TimesCount(n, hi, b.step);
    GridOrder(n * lo, t, b.step);
    GridOrder(n * lo, t + 1, b.step);
    GridOrder(t, n * hi, b.step);
    GridOrder(t, n * hi + 1, b.step);
    GridOrder(t, t, b.step);
    GridOrder(n * hi, n * hi, b.step);
  }

  /** On step-aligned bounds and target the projection succeeds exactly when the target is
      between n minima and n maxima, and then every entry is a step multiple inside the
      bounds and the entries add up to the target exactly. */
  lemma ProjectMeetsTarget(values: Vector, b: Bounds, lo: int, hi: int, t: int)
    requires values != [] && Aligned(b, lo, hi)
    ensures var r := Project(values, Times(t as real, b.step), b);
            && (r.Ok? <==> |values| * lo <= t <= |values| * hi)
            && (r.Ok? ==> Within(r.value, b) && Sum(r.value) == Times(t as real, b.step)
                          && exists units :: OnGrid(r.value, units, b.step) && UnitsWithin(units, lo, hi))
  {
    hide Times;
    var target := Times(t as real, b.step);
    FeasibleUnits(|values|, b, lo, hi, t);
    var r := Project(values, target, b);
    if r.Ok? {
      var projected := Shifted(values, FinalShift(values, target, b), b);
      var units := QuantizedUnits(projected, b, lo, hi);
      DeficitOnGrid(Quantize(projected, b), units, b, t);
      var d := t - SumInt(units);
      var final := RepairReaches(Quantize(projected, b), values, units, b, lo, hi, d > 0, t, AbsInt(d));
      SumOnGrid(r.value, final, b.step);
      forall k | 0 <= k < |r.value|
        ensures b.minimum <= r.value[k] <= b.maximum
      {
        GridOrder(lo, final[k], b.step);
        GridOrder(final[k], hi, b.step);
      }
    }
  }

  // ---- vectors that already meet the target ----

  lemma RoundNear(x: real, k: int)
    requires Abs(x - k as real) < 0.5
    ensures RoundHalfEven(x) == k
  {
  }

  lemma ScaledInside(e: real, step: real)
    requires step > 0.0 && -step / 2.0 < Times(e, step) < step / 2.0
    ensures -0.5 < e < 0.5
  {
    assert e >= 0.5 ==> (e - 0.5) * step >= 0.0;
    assert e <= -0.5 ==> (-0.5 - e) * step >= 0.0;
  }

  lemma RoundNearGrid(x: real, u: int, step: real)
    requires step > 0.0 && Abs(x - Times(u as real, step)) < step / 2.0
    ensures RoundToStep(x, step) == Times(u as real, step)
  {
    hide Times;
    var q := x / step;
    DivideBack(step, x);
    TimesDistributes(0.0, q, u as real, step);
    ScaledInside(q - u as real, step);
    RoundNear(q, u);
  }

  ghost predicate MeetsTarget(values: Vector, target: real, b: Bounds, units: seq<int>, lo: int, hi: int) {
    values != [] && Aligned(b, lo, hi) && OnGrid(values, units, b.step) && UnitsWithin(units, lo, hi)
        && Sum(values) == target
  }

  /** The bisection resolves less than half a step. */
  ghost predicate FineEnough(values: Vector, target: real, b: Bounds)
    requires values != []
  {
    FinalWidth(values, target, b) < b.step / 2.0
  }

  lemma MeetsTargetBasics(values: Vector, target: real, b: Bounds, units: seq<int>, lo: int, hi: int)
    requires MeetsTarget(values, target, b, units, lo, hi)
    ensures Within(values, b) && Ordered(b) && Feasible(|values|, target, b) && !Infeasible(|values|, target, b)
    ensures target == Times(SumInt(units) as real, b.step)
  {
    hide Times;
    forall k | 0 <= k < |values|
      ensures b.minimum <= values[k] <= b.maximum
    {
      GridOrder(lo, units[k], b.step);
      GridOrder(units[k], hi, b.step);
    }
    GridOrder(lo, hi, b.step);
    SumOnGrid(values, units, b.step);
    SumIntBounds(units, lo, hi);
    FeasibleUnits(|values|, b, lo, hi, SumInt(units));
  }

  /** The final shift moves no entry by more than the final bracket width. */
  lemma ShiftIsNegligible(values: Vector, target: real, b: Bounds)
    requires values != [] && Ordered(b) && Within(values, b) && Feasible(|values|, target, b) && Sum(values) == target
    ensures var p := Shifted(values, FinalShift(values, target, b), b);
            forall k :: 0 <= k < |values| ==> Abs(p[k] - values[k]) <= FinalWidth(values, target, b)
  {
    hide *;
    FinalBracketHolds(values, target, b);
    var (l, h) := FinalBracket(values, target, b);
    assert l <= h by { BracketOrder(values, target, b, l, h); }
    EndsAroundZero(values, target, b, l, h);
    NegligibleEntries(values, l, h, b);
  }

  lemma NegligibleEntries(values: Vector, l: real, h: real, b: Bounds)
    requires Within(values, b) && l <= 0.0 && l <= h
    requires h < 0.0 ==> Shifted(values, h, b) == values
    ensures var p := Shifted(values, (l + h) / 2.0, b);
            forall k :: 0 <= k < |values| ==> Abs(p[k] - values[k]) <= h - l
  {
    forall k | 0 <= k < |values|
      ensures Abs(Clip(values[k] + (l + h) / 2.0, b) - values[k]) <= h - l
    {
      if h < 0.0 {
        assert Shifted(values, h, b)[k] == values[k];
      }
      NegligibleEntry(values[k], l, h, b);
    }
  }

  lemma BracketOrder(values: Vector, target: real, b: Bounds, l: real, h: real)
    requires Brackets(values, target, b, l, h)
    ensures l <= h
  {
  }

  lemma NegligibleEntry(v: real, l: real, h: real, b: Bounds)
    requires b.minimum <= v <= b.maximum && l <= 0.0 && l <= h
    requires h < 0.0 ==> Clip(v + h, b) == v
    ensures Abs(Clip(v + (l + h) / 2.0, b) - v) <= h - l
  {
  }

  /** A non-positive lower end is below zero shift; a negative upper end changes nothing. */
  lemma EndsAroundZero(values: Vector, target: real, b: Bounds, l: real, h: real)
    requires values != [] && Within(values, b) && Ordered(b) && Sum(values) == target
    requires Brackets(values, target, b, l, h)
    requires l == InitialLow(values, target, b) || Sum(Shifted(values, l, b)) < target
    ensures l <= 0.0
    ensures h < 0.0 ==> Shifted(values, h, b) == values
  {
    assert Shifted(values, 0.0, b) == values;
    if l > 0.0 {
      ShiftedMonotone(values, 0.0, l, b);
    }
    if h < 0.0 {
      SumMonotone(Shifted(values, h, b), values);
    }
  }

  /** A vector on the grid that is inside the bounds and has the target sum is returned
      unchanged. */
  lemma ProjectFixesFeasible(values: Vector, target: real, b: Bounds, units: seq<int>, lo: int, hi: int)
    requires MeetsTarget(values, target, b, units, lo, hi) && FineEnough(values, target, b)
    ensures Project(values, target, b) == Ok(values)
  {
    hide Times;
    MeetsTargetBasics(values, target, b, units, lo, hi);
    ShiftIsNegligible(values, target, b);
    var p := Shifted(values, FinalShift(values, target, b), b);
    forall k | 0 <= k < |values|
      ensures Quantize(p, b)[k] == values[k]
    {
      RoundNearGrid(p[k], units[k], b.step);
    }
    assert Quantize(p, b) == values;
    DeficitOnGrid(values, units, b, SumInt(units));
  }

  /** Eighty halvings resolve any vector inside the bounds: a condition on the configured
      search space alone. */
  ghost predicate Resolved(b: Bounds, target: real) {
    Halved(2.0 * (b.maximum - b.minimum) + 2.0 * Abs(target), BISECTIONS) < b.step / 2.0
  }

  lemma {:induction false} HalvedMonotone(v: real, w: real, n: nat)
    requires v <= w
    ensures Halved(v, n) <= Halved(w, n)
    decreases n
  {
    if n > 0 {
      HalvedMonotone(v / 2.0, w / 2.0, n - 1);
    }
  }

  lemma ResolvedInside(values: Vector, b: Bounds, target: real)
    requires values != [] && Within(values, b) && Resolved(b, target)
    ensures FineEnough(values, target, b)
  {
    HalvedMonotone(InitialHigh(values, target, b) - InitialLow(values, target, b),
                   2.0 * (b.maximum - b.minimum) + 2.0 * Abs(target), BISECTIONS);
  }

  /** Projecting twice is projecting once. */
  lemma ProjectIdempotent(values: Vector, b: Bounds, lo: int, hi: int, t: int)
    requires values != [] && Aligned(b, lo, hi) && Resolved(b, Times(t as real, b.step))
    requires Project(values, Times(t as real, b.step), b).Ok?
    ensures var r := Project(values, Times(t as real, b.step), b);
            Project(r.value, Times(t as real, b.step), b) == r
  {
    ProjectMeetsTarget(values, b, lo, hi, t);
    var target := Times(t as real, b.step);
    var r := Project(values, target, b);
    var units :| OnGrid(r.value, units, b.step) && UnitsWithin(units, lo, hi);
    ResolvedInside(r.value, b, target);
    ProjectFixesFeasible(r.value, target, b, units, lo, hi);
  }

  /** The repair moves at most one unit per entry, because rounding is off by at most half
      a step in each. */
  lemma RepairIsShort(values: Vector, b: Bounds, lo: int, hi: int, t: int)
    requires values != [] && Aligned(b, lo, hi) && |values| * lo <= t <= |values| * hi
    requires FineEnough(values, Times(t as real, b.step), b)
    ensures var target := Times(t as real, b.step);
            AbsInt(Deficit(Quantize(Shifted(values, FinalShift(values, target, b), b), b), target, b)) <= |values|
  {
    hide Times;
    var target := Times(t as real, b.step);
    FeasibleUnits(|values|, b, lo, hi, t);
    GridOrder(lo, hi, b.step);
    ContinuousProjection(values, target, b);
    var p := Shifted(values, FinalShift(values, target, b), b);
    var units := QuantizedUnits(p, b, lo, hi);
    var q := Quantize(p, b);
    forall k | 0 <= k < |p|
      ensures Abs(q[k] - p[k]) <= b.step / 2.0
    {
      RoundingError(p[k], b.step);
    }
    SumClose(q, p, b.step / 2.0);
    DeficitOnGrid(q, units, b, t);
    SumOnGrid(q, units, b.step);
    DeficitBound(t, SumInt(units), |values|, b.step, FinalWidth(values, target, b), Sum(p));
  }

  lemma RoundingError(x: real, step: real)
    requires step > 0.0
    ensures Abs(RoundToStep(x, step) - x) <= step / 2.0
  {
    hide Times;
    var q := x / step;
    var r := RoundHalfEven(q) as real;
    DivideBack(step, x);
    TimesDistributes(0.0, r, q, step);
    ScaledBound(r - q, step);
  }

  lemma ProductSign(x: real, y: real)
    requires x >= 0.0 && y >= 0.0
    ensures x * y >= 0.0
  {
  }

  lemma ScaledBound(d: real, step: real)
    requires step > 0.0 && -0.5 <= d <= 0.5
    ensures -step / 2.0 <= Times(d, step) <= step / 2.0
  {
    ProductSign(0.5 - d, step);
    ProductSign(0.5 + d, step);
    assert (0.5 - d) * step == step / 2.0 - d * step;
    assert (0.5 + d) * step == step / 2.0 + d * step;
  }

  lemma DeficitBound(t: int, s: int, n: nat, step: real, width: real, sum: real)
    requires step > 0.0 && width < step / 2.0
    requires Abs(Times(s as real, step) - sum) <= Times(n as real, step / 2.0)
    requires Abs(sum - Times(t as real, step)) <= Times(n as real, width)
    ensures AbsInt(t - s) <= n
  {
    assert Times(n as real, width) <= Times(n as real, step / 2.0) by {
      assert n as real * (step / 2.0 - width) >= 0.0;
    }
    assert Times(n as real, step / 2.0) + Times(n as real, step / 2.0) == Times(n as real, step);
    hide Times;
    GridSub(t, s, n, step);
  }

  lemma GridSub(t: int, s: int, n: nat, step: real)
    requires step > 0.0
    requires Abs(Times(s as real, step) - Times(t as real, step)) <= Times(n as real, step)
    ensures AbsInt(t - s) <= n
  {
    assert Times(s as real, step) - Times(t as real, step) == Times((s - t) as real, step);
    hide Times;
    GridOrder(s - t, n, step);
    NegatedGrid(s - t, step);
    GridOrder(t - s, n, step);
  }

  lemma NegatedGrid(k: int, step: real)
    ensures Times((-k) as real, step) == -Times(k as real, step)
  {
  }
}
