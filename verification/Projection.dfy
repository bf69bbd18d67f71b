/** Projection of a vector onto a bounded, quantised, constant-sum surface
    (vehicle_calibration/calibrate.py). */
module Projection {
  import opened Wrappers
  import opened LinearAlgebra

  /** The slack the source allows in its bound comparisons. */
  const TOLERANCE := 0.000000001
  const BISECTIONS := 80

  datatype Bounds = Bounds(minimum: real, maximum: real, step: real)

  function Clip(x: real, b: Bounds): real {
    Min(Max(x, b.minimum), b.maximum)
  }

  function Sum(values: Vector): real {
    if values == [] then 0.0 else values[0] + Sum(values[1..])
  }

  function Largest(values: Vector): (m: real)
    requires values != []
    ensures m in values && forall k :: 0 <= k < |values| ==> values[k] <= m
  {
    if |values| == 1 then values[0] else Max(values[0], Largest(values[1..]))
  }

  function Smallest(values: Vector): (m: real)
    requires values != []
    ensures m in values && forall k :: 0 <= k < |values| ==> m <= values[k]
  {
    if |values| == 1 then values[0] else Min(values[0], Smallest(values[1..]))
  }

  function Shifted(values: Vector, shift: real, b: Bounds): (p: Vector)
    ensures |p| == |values| && forall k :: 0 <= k < |p| ==> p[k] == Clip(values[k] + shift, b)
  {
    seq(|values|, k requires 0 <= k < |values| => Clip(values[k] + shift, b))
  }

  /** The nearest whole number; of two equally near ones the even one. */
  function RoundHalfEven(x: real): (n: int)
    ensures -0.5 <= n as real - x <= 0.5
    ensures n as real - x == 0.5 || n as real - x == -0.5 ==> n % 2 == 0
  {
    var f := x.Floor;
    var rest := x - f as real;
    if rest < 0.5 then f
    else if rest > 0.5 then f + 1
    else if f % 2 == 0 then f else f + 1
  }

  function RoundToStep(x: real, step: real): real {
    if step > 0.0 then Times(RoundHalfEven(x / step) as real, step) else x
  }

  // ---- specification functions ----

  function Bisect(values: Vector, target: real, b: Bounds, low: real, high: real, n: nat): (real, real)
    decreases n, |values|
  {
    if n == 0 then (low, high)
    else
      var shift := (low + high) / 2.0;
      if Sum(Shifted(values, shift, b)) < target
      then Bisect(values, target, b, shift, high, n - 1)
      else Bisect(values, target, b, low, shift, n - 1)
  }

  function InitialLow(values: Vector, target: real, b: Bounds): real
    requires values != []
  {
    b.minimum - Largest(values) - Abs(target)
  }

  function InitialHigh(values: Vector, target: real, b: Bounds): real
    requires values != []
  {
    b.maximum - Smallest(values) + Abs(target)
  }

  function FinalShift(values: Vector, target: real, b: Bounds): real
    requires values != []
  {
    var (low, high) :=
        Bisect(values, target, b, InitialLow(values, target, b), InitialHigh(values, target, b), BISECTIONS);
    (low + high) / 2.0
  }

  function Quantize(values: Vector, b: Bounds): (p: Vector)
    ensures |p| == |values| && forall k :: 0 <= k < |p| ==> p[k] == Clip(RoundToStep(values[k], b.step), b)
  {
    seq(|values|, k requires 0 <= k < |values| => Clip(RoundToStep(values[k], b.step), b))
  }

  predicate Eligible(value: real, move: real, b: Bounds) {
    b.minimum - TOLERANCE <= value + move <= b.maximum + TOLERANCE
  }

  /** The first index below n that may move and ends up nearest its original value. */
  function BestIndex(projected: Vector, values: Vector, move: real, b: Bounds, n: nat): (best: Option<nat>)
    requires n <= |projected| == |values|
    ensures best.Some? ==> best.value < n && Eligible(projected[best.value], move, b)
    ensures best.None? ==> forall k :: 0 <= k < n ==> !Eligible(projected[k], move, b)
  {
    if n == 0 then None
    else
      var earlier := BestIndex(projected, values, move, b, n - 1);
      if Eligible(projected[n - 1], move, b)
         && (earlier.None?
             || Abs(projected[n - 1] + move - values[n - 1]) <
                 Abs(projected[earlier.value] + move - values[earlier.value]))
      then Some(n - 1) else earlier
  }

  function Repair(projected: Vector, values: Vector, move: real, b: Bounds, n: nat): (p: Vector)
    requires |projected| == |values|
    ensures |p| == |values|
    decreases n
  {
    if n == 0 then projected
    else
      var best := BestIndex(projected, values, move, b, |values|);
      if best.None? then projected
      else Repair(projected[best.value := projected[best.value] + move], values, move, b, n - 1)
  }

  function Deficit(projected: Vector, target: real, b: Bounds): int
    requires b.step > 0.0
  {
    RoundHalfEven((target - Sum(projected)) / b.step)
  }

  predicate Infeasible(n: nat, target: real, b: Bounds) {
    target < Times(b.minimum, n as real) - TOLERANCE || target > Times(b.maximum, n as real) + TOLERANCE
  }

  function AbsInt(x: int): nat {
    if x < 0 then -x else x
  }

  /** The whole projection. */
  function Project(values: Vector, target: real, b: Bounds): (r: Result<Vector, string>)
    ensures r.Ok? ==> |r.value| == |values|
    ensures r.Err? <==> values != [] && Infeasible(|values|, target, b)
  {
    if values == [] then Ok([])
    else if Infeasible(|values|, target, b)
    then Err("Normalized Fourier mean is incompatible with the configured bounds.")
    else
      var projected := Shifted(values, FinalShift(values, target, b), b);
      if b.step > 0.0 then
        var quantized := Quantize(projected, b);
        var units := Deficit(quantized, target, b);
        var move := if units > 0 then b.step else -b.step;
        Ok(Repair(quantized, values, move, b, AbsInt(units)))
      else Ok(projected)
  }

  method BisectShift(values: Vector, target: real, b: Bounds) returns (shift: real)
    requires values != []
    ensures shift == FinalShift(values, target, b)
  {
    var low, high := InitialLow(values, target, b), InitialHigh(values, target, b);
    for i := 0 to BISECTIONS
      invariant Bisect(values, target, b, low, high, BISECTIONS - i)
             == Bisect(values, target, b, InitialLow(values, target, b), InitialHigh(values, target, b), BISECTIONS)
    {
      shift := (low + high) / 2.0;
      if Sum(Shifted(values, shift, b)) < target {
        low := shift;
      } else {
        high := shift;
      }
    }
    shift := (low + high) / 2.0;
  }

  method RepairSum(quantized: Vector, values: Vector, move: real, b: Bounds, count: nat) returns (projected: Vector)
    requires |quantized| == |values|
    ensures projected == Repair(quantized, values, move, b, count)
  {
    projected := quantized;
    for i := 0 to count
      invariant |projected| == |values|
      invariant Repair(projected, values, move, b, count - i) == Repair(quantized, values, move, b, count)
    {
      var index := BestIndex(projected, values, move, b, |values|);
      if index.None? {
        break;
      }
      projected := projected[index.value := projected[index.value] + move];
    }
  }

  /** The source's loops compute Project. */
  /** The projection of a feasible vector, step by step. */
  lemma ProjectIs(values: Vector, target: real, b: Bounds)
    requires values != []
    ensures var projected := Shifted(values, FinalShift(values, target, b), b);
            Project(values, target, b) ==
            if Infeasible(|values|, target, b)
            then Err("Normalized Fourier mean is incompatible with the configured bounds.")
            else if b.step > 0.0 then
              var quantized := Quantize(projected, b);
              var units := Deficit(quantized, target, b);
              Ok(Repair(quantized, values, if units > 0 then b.step else -b.step, b, AbsInt(units)))
            else Ok(projected)
  {
    hide FinalShift, Shifted, Quantize, Deficit, Repair, Infeasible, AbsInt;
  }

  method ProjectSumWithBounds(values: Vector, target: real, b: Bounds) returns (r: Result<Vector, string>)
    ensures r == Project(values, target, b)
  {
    hide FinalShift, Shifted, Quantize, Deficit, Repair, Infeasible, AbsInt, Clip;
    if values == [] {
      return Ok([]);
    }
    ProjectIs(values, target, b);
    hide Project;
    if Infeasible(|values|, target, b) {
      return Err("Normalized Fourier mean is incompatible with the configured bounds.");
    }
    var shift := BisectShift(values, target, b);
    var projected := Shifted(values, shift, b);
    if b.step > 0.0 {
      var quantized := Quantize(projected, b);
      var units := Deficit(quantized, target, b);
      projected := RepairSum(quantized, values, if units > 0 then b.step else -b.step, b, AbsInt(units));
    }
    r := Ok(projected);
  }
}
