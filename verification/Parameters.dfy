/** Canonical calibration parameters, and why a calibration phase never stores two
    candidates with equal parameters (vehicle_calibration/calibrate.py). */
module Parameters {
  import opened Wrappers
  import opened LinearAlgebra
  import opened Projection
  import ProjectionProofs
  import Allocation

  datatype Raw = Raw(vehicleCount: real, shares: Vector, peaks: Vector, seed: int)
  datatype Params = Params(vehicleCount: int, shares: Vector, peaks: Vector, seed: int)

  /** The search space: vehicle counts, Fourier peak bounds, their fixed sum, and origins. */
  datatype Search = Search(countStep: real, countMinimum: int, countMaximum: int,
                           bounds: Bounds, peakCount: nat, peakSum: real,
                           ids: seq<string>, baseSeed: int)

  function AsRaw(p: Params): Raw {
    Raw(p.vehicleCount as real, p.shares, p.peaks, p.seed)
  }

  function CanonicalCount(s: Search, v: real): int {
    ProjectionProofs.ClampInt(Truncate(RoundToStep(v, s.countStep)), s.countMinimum, s.countMaximum)
  }

  function NonNegativeShares(shares: Vector): (r: Vector)
    ensures |r| == |shares| && Allocation.NonNegative(r)
  {
    seq(|shares|, k requires 0 <= k < |shares| => Allocation.Positive(shares[k]))
  }

  function Percentages(shares: Vector, total: real): (r: Vector)
    requires total > 0.0
    ensures |r| == |shares| && forall k :: 0 <= k < |r| ==> r[k] == shares[k] / total * 100.0
  {
    seq(|shares|, k requires 0 <= k < |shares| => shares[k] / total * 100.0)
  }

  function ExactShares(counts: seq<int>, count: int): (r: Vector)
    requires count > 0
    ensures |r| == |counts| && forall k :: 0 <= k < |r| ==> r[k] == counts[k] as real / count as real * 100.0
  {
    seq(|counts|, k requires 0 <= k < |counts| => counts[k] as real / count as real * 100.0)
  }

  function NormalizePeaks(s: Search, peaks: Vector): Result<Vector, string> {
    if |peaks| != s.peakCount then Err("Unexpected number of vehicle peak values.")
    else Project(peaks, s.peakSum, s.bounds)
  }

  function FirstNonZero(a: int, b: int): int {
    if a != 0 then a else b
  }

  function Canonical(s: Search, raw: Raw): (r: Result<Params, string>)
    requires 0 < s.countMinimum <= s.countMaximum
  {
    var count := CanonicalCount(s, raw.vehicleCount);
    var shares := NonNegativeShares(raw.shares);
    if |shares| != |s.ids| || Sum(shares) <= 0.0
    then Err("Candidate origin percentages do not match the current model origins.")
    else
      var allotted := Allocation.Allocate(s.ids, Percentages(shares, Sum(shares)), count);
      var peaks := NormalizePeaks(s, raw.peaks);
      if allotted.Err? then Err(allotted.error)
      else if peaks.Err? then Err(peaks.error)
      else Ok(Params(count, ExactShares(allotted.value, count), peaks.value, FirstNonZero(raw.seed, s.baseSeed)))
  }

  // ---- counts ----

  /** Steps for which truncating a multiple loses nothing that rounding does not restore. */
  ghost predicate StableStep(s: Search) {
    s.countStep <= 0.0 || s.countStep == s.countStep.Floor as real || s.countStep >= 2.0
  }

  /** Both ends of the count range survive rounding to the count step. */
  predicate EndsOnStep(s: Search) {
    CanonicalCount(s, s.countMinimum as real) == s.countMinimum
        && CanonicalCount(s, s.countMaximum as real) == s.countMaximum
  }

  /** The k-th multiple of the count step, as a count. */
  function Multiple(s: Search, k: int): int {
    Truncate(Times(k as real, s.countStep))
  }

  /** The multiple nearest to the count is not nearer to zero than the count. */
  predicate Regained(s: Search, c: int) {
    && (c >= 0 ==> RoundToStep(c as real, s.countStep) >= c as real)
    && (c <= 0 ==> RoundToStep(c as real, s.countStep) <= c as real)
  }

  /** The counts between the ends that rounding produces are regained from their own values. */
  ghost predicate MultiplesStay(s: Search) {
    s.countStep > 0.0 ==> forall k :: s.countMinimum < Multiple(s, k) < s.countMaximum ==> Regained(s, Multiple(s, k))
  }

  lemma HalfAway(q: real)
    ensures -0.5 <= RoundHalfEven(q) as real - q <= 0.5
  {
  }

  lemma NearestInteger(q: real, k: int)
    ensures Abs(RoundHalfEven(q) as real - q) <= Abs(k as real - q)
  {
    HalfAway(q);
    hide RoundHalfEven;
    var j := RoundHalfEven(q);
    if k < j {
      assert k as real <= (j - 1) as real == j as real - 1.0;
    } else if k > j {
      assert k as real >= (j + 1) as real == j as real + 1.0;
    }
  }

  lemma DistanceScaled(x: real, step: real, k: int)
    requires step > 0.0
    ensures Times(k as real, step) - x == Times(k as real - x / step, step)
  {
    DivideBack(step, x);
    hide Times;
    TimesMinus(k as real, x / step, step);
  }

  lemma TimesMinus(p: real, q: real, y: real)
    ensures Times(p - q, y) == Times(p, y) - Times(q, y)
  {
  }

  /** No multiple is nearer than the one rounded to. */
  lemma NearestMultiple(x: real, step: real, k: int)
    requires step > 0.0
    ensures Abs(RoundToStep(x, step) - x) <= Abs(Times(k as real, step) - x)
  {
    hide Times, RoundHalfEven, Abs;
    var j := RoundHalfEven(x / step);
    NearestInteger(x / step, k);
    DistanceScaled(x, step, j);
    DistanceScaled(x, step, k);
    ScaledOrder(j as real - x / step, k as real - x / step, step);
  }

  lemma ScaledOrder(a: real, b: real, step: real)
    requires step > 0.0 && Abs(a) <= Abs(b)
    ensures Abs(Times(a, step)) <= Abs(Times(b, step))
  {
    TimesOrder(Abs(a), Abs(b), step);
    assert Times(Abs(a), step) == Abs(Times(a, step)) && Times(Abs(b), step) == Abs(Times(b, step));
  }

  /** A count that rounding produces is fixed exactly when it is regained. */
  lemma RegainedIff(s: Search, k: int)
    requires s.countStep > 0.0
    ensures var c := Multiple(s, k); Regained(s, c) <==> Truncate(RoundToStep(c as real, s.countStep)) == c
  {
    var c, x := Multiple(s, k), Times(k as real, s.countStep);
    NearestMultiple(c as real, s.countStep, k);
    if c == 0 {
      assert (0 as real) / s.countStep == 0.0;
      assert RoundHalfEven(0.0) == 0;
    }
    hide Times, RoundHalfEven;
  }

  lemma RoundedCountFixed(s: Search, v: real)
    requires StableStep(s) && s.countStep > 0.0
    ensures var c := Truncate(RoundToStep(v, s.countStep)); Truncate(RoundToStep(c as real, s.countStep)) == c
  {
    var k, step := RoundHalfEven(v / s.countStep), s.countStep.Floor;
    var c := Truncate(RoundToStep(v, s.countStep));
    TruncateClose(RoundToStep(v, s.countStep));
    if s.countStep >= 2.0 {
      hide Truncate, Times, RoundHalfEven;
      ProjectionProofs.RoundNearGrid(c as real, k, s.countStep);
    } else {
      WholeMultiple(k, step);
      TruncateWhole(k * step);
      MultipleFixed(k, s.countStep);
    }
  }

  lemma TruncateClose(x: real)
    ensures Abs(Truncate(x) as real - x) < 1.0
  {
  }

  lemma TruncateWhole(n: int)
    ensures Truncate(n as real) == n
  {
  }

  lemma MultipleFixed(k: int, step: real)
    requires step > 0.0
    ensures RoundToStep(Times(k as real, step), step) == Times(k as real, step)
  {
    hide Times, RoundHalfEven;
    ProjectionProofs.GridOrder(k, k, step);
    ProjectionProofs.RoundNear(k as real, k);
  }

  lemma WholeMultiple(k: int, step: int)
    ensures Times(k as real, step as real) == (k * step) as real
  {
  }

  lemma RoundedCountSmall(s: Search, v: real)
    requires s.countStep > 0.0
    ensures Abs(Truncate(RoundToStep(v, s.countStep)) as real - v) <= s.countStep / 2.0 + 1.0
  {
    TruncateClose(RoundToStep(v, s.countStep));
    ProjectionProofs.RoundingError(v, s.countStep);
    hide Times, Truncate, RoundHalfEven;
  }

  /** Whole steps and steps of at least two regain every count. */
  lemma StableStepStays(s: Search)
    requires StableStep(s)
    ensures MultiplesStay(s)
  {
    if s.countStep > 0.0 {
      forall k | s.countMinimum < Multiple(s, k) < s.countMaximum
        ensures Regained(s, Multiple(s, k))
      {
        MultipleFixed(k, s.countStep);
        RoundedCountFixed(s, Times(k as real, s.countStep));
        RegainedIff(s, k);
      }
    }
  }

  /** Canonicalising a count twice is canonicalising it once, for every count, exactly when
      both ends of the range are fixed by the rounding and the counts between them are regained. */
  lemma CountIdempotentIff(s: Search)
    requires s.countMinimum <= s.countMaximum
    ensures EndsOnStep(s) && MultiplesStay(s) <==>
            forall v: real {:trigger CanonicalCount(s, v)} ::
              CanonicalCount(s, CanonicalCount(s, v) as real) == CanonicalCount(s, v)
  {
    if EndsOnStep(s) && MultiplesStay(s) {
      forall v: real {:trigger CanonicalCount(s, v)}
        ensures CanonicalCount(s, CanonicalCount(s, v) as real) == CanonicalCount(s, v)
      {
        CountStays(s, v);
      }
    }
    if forall v: real {:trigger CanonicalCount(s, v)} ::
         CanonicalCount(s, CanonicalCount(s, v) as real) == CanonicalCount(s, v) {
      EndsAreReached(s);
      if s.countStep > 0.0 {
        forall k | s.countMinimum < Multiple(s, k) < s.countMaximum
          ensures Regained(s, Multiple(s, k))
        {
          var v := Times(k as real, s.countStep);
          MultipleFixed(k, s.countStep);
          assert CanonicalCount(s, v) == Multiple(s, k);
          RegainedIff(s, k);
        }
      }
    }
  }

  lemma CountStays(s: Search, v: real)
    requires s.countMinimum <= s.countMaximum && EndsOnStep(s) && MultiplesStay(s)
    ensures CanonicalCount(s, CanonicalCount(s, v) as real) == CanonicalCount(s, v)
  {
    if s.countStep > 0.0 {
      var k := RoundHalfEven(v / s.countStep);
      RegainedIff(s, k);
      assert Truncate(RoundToStep(v, s.countStep)) == Multiple(s, k);
      hide RoundHalfEven, Times;
    }
  }

  /** Some value is canonicalised to each end of the range. */
  lemma EndsAreReached(s: Search)
    requires s.countMinimum <= s.countMaximum
    ensures exists low: real, high: real ::
        CanonicalCount(s, low) == s.countMinimum && CanonicalCount(s, high) == s.countMaximum
  {
    var slack := if s.countStep > 0.0 then s.countStep else 0.0;
    var low, high := s.countMinimum as real - slack - 1.0, s.countMaximum as real + slack + 1.0;
    if s.countStep > 0.0 {
      RoundedCountSmall(s, low);
      RoundedCountSmall(s, high);
    }
    assert CanonicalCount(s, low) == s.countMinimum && CanonicalCount(s, high) == s.countMaximum;
  }

  /** With a step between one and two both ends can be fixed and a count in between moves: 5
      vehicles become 4, and 4 become 3. */
  lemma FractionalStepMoves(s: Search)
    requires s.countStep == 1.2 && s.countMinimum == 3 && s.countMaximum == 6
    ensures EndsOnStep(s) && !MultiplesStay(s) && CanonicalCount(s, 5.0) == 4 && CanonicalCount(s, 4.0) == 3
  {
    assert RoundToStep(5.0, 1.2) == 4.8 && RoundToStep(4.0, 1.2) == 3.6;
    assert Multiple(s, 4) == 4 && !Regained(s, 4);
    assert RoundToStep(3.0, 1.2) == 2.4 && RoundToStep(6.0, 1.2) == 6.0;
  }

  /** A range that does not start on the step is not stable: 120 vehicles become 150, and
      150 become 200. */
  lemma UnalignedCountMoves(s: Search)
    requires s.countStep == 100.0 && s.countMinimum == 150 && s.countMaximum == 1000
    ensures CanonicalCount(s, 120.0) == 150 && CanonicalCount(s, 150.0) == 200
  {
    ProjectionProofs.RoundNear(1.2, 1);
    assert RoundHalfEven(1.5) == 2;
  }

  // ---- idempotence ----

  /** What the canonical form needs of the search space: a positive count range on which
      rounding counts is stable, and peak bounds and sum that are multiples of a peak step the
      eighty halvings resolve. */
  ghost predicate SteppedSearch(s: Search, lo: int, hi: int, t: int) {
    && 0 < s.countMinimum <= s.countMaximum && EndsOnStep(s) && MultiplesStay(s)
    && ProjectionProofs.Aligned(s.bounds, lo, hi) && s.peakSum == Times(t as real, s.bounds.step)
    && ProjectionProofs.Resolved(s.bounds, s.peakSum)
  }

  lemma {:induction false} SumScaled(p: Vector, q: Vector, f: real)
    requires |p| == |q| && forall k :: 0 <= k < |p| ==> p[k] == Times(f, q[k])
    ensures Sum(p) == Times(f, Sum(q))
  {
    hide Times;
    if p != [] {
      SumScaled(p[1..], q[1..], f);
      TimesDistributes(f, q[0], Sum(q[1..]), 0.0);
    } else {
      TimesZero(f, 0.0);
    }
  }

  lemma {:induction false} SumOfCounts(p: Vector, counts: seq<int>)
    requires |p| == |counts| && forall k :: 0 <= k < |p| ==> p[k] == counts[k] as real
    ensures Sum(p) == SumInt(counts) as real
  {
    if p != [] {
      SumOfCounts(p[1..], counts[1..]);
    }
  }

  /** The exact shares of counts that add up to `count` are percentages: they add up to 100. */
  lemma ExactSharesSum(counts: seq<int>, count: int)
    requires count > 0 && SumInt(counts) == count
    ensures Sum(ExactShares(counts, count)) == 100.0
  {
    var reals := seq(|counts|, k requires 0 <= k < |counts| => counts[k] as real);
    var f := 100.0 / count as real;
    SumOfCounts(reals, counts);
    forall k | 0 <= k < |counts|
      ensures ExactShares(counts, count)[k] == Times(f, reals[k])
    {
      ScaledShare(counts[k] as real, count as real);
    }
    SumScaled(ExactShares(counts, count), reals, f);
    DivideBack(count as real, 100.0);
  }

  lemma ScaledShare(x: real, c: real)
    requires c > 0.0
    ensures x / c * 100.0 == Times(100.0 / c, x)
  {
  }

  /** Percentages of the exact shares give the same counts back. */
  lemma ExactSharesAreFixed(ids: seq<string>, counts: seq<int>, count: int)
    requires count > 0 && SumInt(counts) == count && |ids| == |counts| && ids != []
    requires forall k :: 0 <= k < |counts| ==> counts[k] >= 0
    ensures var shares := ExactShares(counts, count);
            && NonNegativeShares(shares) == shares && Percentages(shares, 100.0) == shares
            && Sum(shares) == 100.0 && Allocation.Allocate(ids, shares, count) == Ok(counts)
  {
    var shares := ExactShares(counts, count);
    ExactSharesSum(counts, count);
    forall k | 0 <= k < |counts|
      ensures shares[k] >= 0.0 && Allocation.Quota(count, shares[k], 100.0) == counts[k] as real
    {
      WholeQuota(counts[k], count);
    }
    Allocation.AllocationOfWholeShares(ids, shares, counts, count);
  }

  lemma WholeQuota(n: int, count: int)
    requires n >= 0 && count > 0
    ensures n as real / count as real * 100.0 >= 0.0
    ensures Allocation.Quota(count, n as real / count as real * 100.0, 100.0) == n as real
  {
    var c, share := count as real, n as real / count as real;
    assert share >= 0.0;
    assert c * share == n as real;
    assert c * (share * 100.0) == (c * share) * 100.0;
  }

  lemma PercentagesOfShares(shares: Vector)
    requires Sum(shares) > 0.0 && Allocation.NonNegative(shares)
    ensures var p := Percentages(shares, Sum(shares)); Allocation.NonNegative(p) && Sum(p) > 0.0
  {
    var total := Sum(shares);
    var p := Percentages(shares, total);
    forall k | 0 <= k < |p|
      ensures p[k] == Times(100.0 / total, shares[k]) && p[k] >= 0.0
    {
      ScaledShare(shares[k], total);
      assert shares[k] / total >= 0.0;
    }
    SumScaled(p, shares, 100.0 / total);
    DivideBack(total, 100.0);
  }

  /** canonical_parameters is idempotent. */
  lemma CanonicalIdempotent(s: Search, raw: Raw, lo: int, hi: int, t: int)
    requires SteppedSearch(s, lo, hi, t) && Canonical(s, raw).Ok?
    ensures Canonical(s, AsRaw(Canonical(s, raw).value)) == Canonical(s, raw)
  {
    var p := Canonical(s, raw).value;
    CountIdempotentIff(s);
    assert CanonicalCount(s, p.vehicleCount as real) == p.vehicleCount;
    CanonicalShares(s, raw);
    CanonicalPeaks(s, raw.peaks, lo, hi, t);
  }

  lemma CanonicalShares(s: Search, raw: Raw)
    requires 0 < s.countMinimum <= s.countMaximum && Canonical(s, raw).Ok?
    ensures var p := Canonical(s, raw).value;
            && |p.shares| == |s.ids| && NonNegativeShares(p.shares) == p.shares
            && Sum(p.shares) == 100.0 && Percentages(p.shares, 100.0) == p.shares
            && Allocation.Allocate(s.ids, p.shares, p.vehicleCount).Ok?
            && ExactShares(Allocation.Allocate(s.ids, p.shares, p.vehicleCount).value, p.vehicleCount) == p.shares
  {
    var count, shares := CanonicalCount(s, raw.vehicleCount), NonNegativeShares(raw.shares);
    var percentages := Percentages(shares, Sum(shares));
    PercentagesOfShares(shares);
    Allocation.AllocationIsExact(s.ids, percentages, count);
    var counts := Allocation.Allocate(s.ids, percentages, count).value;
    ExactSharesAreFixed(s.ids, counts, count);
  }

  lemma CanonicalPeaks(s: Search, peaks: Vector, lo: int, hi: int, t: int)
    requires SteppedSearch(s, lo, hi, t) && NormalizePeaks(s, peaks).Ok?
    ensures NormalizePeaks(s, NormalizePeaks(s, peaks).value) == NormalizePeaks(s, peaks)
  {
    if peaks != [] {
      ProjectionProofs.ProjectIdempotent(peaks, s.bounds, lo, hi, t);
    }
  }

  // ---- what canonical parameters are ----

  /** The count is within its range and near the wanted one: less than half a step and one away
      from it, or from the end of the range beyond which it lies. */
  ghost predicate CountNear(s: Search, v: real, count: int) {
    var wanted := Min(Max(v, s.countMinimum as real), s.countMaximum as real);
    && s.countMinimum <= count <= s.countMaximum
    && Abs(count as real - wanted) < 1.0 + if s.countStep > 0.0 then s.countStep / 2.0 else 0.0
  }

  lemma RoundedNear(v: real, step: real)
    ensures Abs(RoundToStep(v, step) - v) <= if step > 0.0 then step / 2.0 else 0.0
  {
    if step > 0.0 {
      var q := v / step;
      HalfAway(q);
      assert Times(q, step) == v;
      TimesMinus(RoundHalfEven(q) as real, q, step);
      TimesOrder(RoundHalfEven(q) as real - q, 0.5, step);
      TimesOrder(-0.5, RoundHalfEven(q) as real - q, step);
      assert Times(0.5, step) == step / 2.0 && Times(-0.5, step) == -(step / 2.0);
      hide Times, RoundHalfEven;
    }
  }

  lemma CanonicalCountNear(s: Search, v: real)
    requires s.countMinimum <= s.countMaximum
    ensures CountNear(s, v, CanonicalCount(s, v))
  {
    RoundedNear(v, s.countStep);
    TruncateClose(RoundToStep(v, s.countStep));
    hide RoundToStep, Truncate;
  }

  /** The shares are those of whole counts that add up to the vehicle count, each at most one
      vehicle away from the origin's quota of the wanted shares, of which negative ones count as
      none. */
  ghost predicate SharesNear(raw: Raw, total: real, count: int, shares: Vector, counts: seq<int>)
    requires |counts| == |shares| == |raw.shares| && count > 0 && total > 0.0
  {
    && SumInt(counts) == count && shares == ExactShares(counts, count)
    && forall k :: 0 <= k < |shares| ==> counts[k] >= 0 && NearQuota(raw.shares[k], total, count, counts[k])
  }

  ghost predicate NearQuota(share: real, total: real, count: int, n: int)
    requires total > 0.0
  {
    Abs(n as real - count as real * Max(share, 0.0) / total) <= 1.0
  }

  lemma QuotaOfPercentage(count: nat, share: real, total: real)
    requires total > 0.0 && share >= 0.0
    ensures Allocation.Quota(count, share / total * 100.0, 100.0) == count as real * share / total
  {
    var c, f := count as real, share / total;
    assert f >= 0.0;
    assert c * (f * 100.0) == (c * f) * 100.0;
    assert c * f == c * share / total by {
      assert f * total == share;
      assert (c * f) * total == c * share;
    }
  }

  lemma PercentagesSum(shares: Vector)
    requires Sum(shares) > 0.0 && Allocation.NonNegative(shares)
    ensures Sum(Percentages(shares, Sum(shares))) == 100.0
  {
    var total := Sum(shares);
    forall k | 0 <= k < |shares|
      ensures Percentages(shares, total)[k] == Times(100.0 / total, shares[k])
    {
      ScaledShare(shares[k], total);
    }
    SumScaled(Percentages(shares, total), shares, 100.0 / total);
    DivideBack(total, 100.0);
  }

  /** A quota's floor, or one more, is near it. */
  lemma RoundedIsNear(share: real, total: real, count: nat, n: int, quota: real)
    requires total > 0.0 && quota == count as real * Max(share, 0.0) / total
        && (n == quota.Floor || n == quota.Floor + 1)
    ensures NearQuota(share, total, count, n)
  {
    FloorNear(quota, n);
  }

  lemma FloorNear(x: real, n: int)
    requires n == x.Floor || n == x.Floor + 1
    ensures Abs(n as real - x) <= 1.0
  {
  }

  lemma CountIsNear(share: real, positive: real, total: real, count: nat, quota: real, n: int)
    requires total > 0.0 && positive == Max(share, 0.0)
        && quota == Allocation.Quota(count, positive / total * 100.0, 100.0)
    requires n == quota.Floor || n == quota.Floor + 1
    ensures NearQuota(share, total, count, n)
  {
    QuotaOfPercentage(count, positive, total);
    RoundedIsNear(share, total, count, n, quota);
  }

  lemma AllottedNear(s: Search, raw: Raw, count: nat) returns (counts: seq<int>)
    requires count > 0 && |raw.shares| == |s.ids| && Sum(NonNegativeShares(raw.shares)) > 0.0
    ensures var shares := NonNegativeShares(raw.shares);
            && Allocation.Allocate(s.ids, Percentages(shares, Sum(shares)), count) == Ok(counts)
            && |counts| == |s.ids|
            && SharesNear(raw, Sum(shares), count, ExactShares(counts, count), counts)
  {
    var shares := NonNegativeShares(raw.shares);
    var total := Sum(shares);
    var percentages := Percentages(shares, total);
    PercentagesOfShares(shares);
    PercentagesSum(shares);
    Allocation.AllocationIsExact(s.ids, percentages, count);
    Allocation.AllocationRule(s.ids, percentages, count);
    counts := Allocation.Allocate(s.ids, percentages, count).value;
    var q := Allocation.Quotas(count, percentages);
    hide Allocation.Allocate, Sum, NearQuota, Allocation.Quota;
    forall k | 0 <= k < |counts|
      ensures NearQuota(raw.shares[k], total, count, counts[k])
    {
      assert counts[k] == q[k].Floor || Allocation.Rounded(q, counts, k);
      CountIsNear(raw.shares[k], shares[k], total, count, q[k], counts[k]);
    }
  }

  /** Canonical parameters: a count near the wanted one, the shares of the nearest whole counts, the
      projection of the peaks, and a seed. */
  lemma CanonicalIs(s: Search, raw: Raw) returns (counts: seq<int>)
    requires 0 < s.countMinimum <= s.countMaximum && Canonical(s, raw).Ok?
    ensures var p := Canonical(s, raw).value;
            && CountNear(s, raw.vehicleCount, p.vehicleCount)
            && |raw.shares| == |p.shares| == |counts| == |s.ids| && Sum(NonNegativeShares(raw.shares)) > 0.0
            && SharesNear(raw, Sum(NonNegativeShares(raw.shares)), p.vehicleCount, p.shares, counts)
            && |raw.peaks| == s.peakCount && Project(raw.peaks, s.peakSum, s.bounds) == Ok(p.peaks)
            && p.seed == if raw.seed != 0 then raw.seed else s.baseSeed
  {
    CanonicalCountNear(s, raw.vehicleCount);
    var count := CanonicalCount(s, raw.vehicleCount);
    counts := AllottedNear(s, raw, count);
    hide CanonicalCount, Allocation.Allocate, Percentages, Sum, Project, SharesNear, CountNear;
  }

  lemma {:induction false} SomePositive(shares: Vector)
    requires Allocation.NonNegative(shares)
    ensures Sum(shares) >= 0.0
    ensures Sum(shares) > 0.0 <==> exists k :: 0 <= k < |shares| && shares[k] > 0.0
  {
    if shares != [] {
      var rest := shares[1..];
      SomePositive(rest);
      if k :| 0 <= k < |shares| && shares[k] > 0.0 {
        assert k > 0 ==> rest[k - 1] == shares[k];
      }
      if k :| 0 <= k < |rest| && rest[k] > 0.0 {
        assert shares[k + 1] == rest[k];
      }
    }
  }

  /** Parameters can be made canonical exactly when there is a share for every origin and one of
      them is positive, there are as many peaks as the profile has, and the bounds admit their
      sum. */
  lemma CanonicalIff(s: Search, raw: Raw)
    requires 0 < s.countMinimum <= s.countMaximum
    ensures Canonical(s, raw).Ok? <==>
            && |raw.shares| == |s.ids| && (exists k :: 0 <= k < |raw.shares| && raw.shares[k] > 0.0)
            && |raw.peaks| == s.peakCount
            && (raw.peaks == [] || !Infeasible(|raw.peaks|, s.peakSum, s.bounds))
  {
    var shares, count := NonNegativeShares(raw.shares), CanonicalCount(s, raw.vehicleCount);
    SomePositive(shares);
    assert forall k :: 0 <= k < |shares| ==> (shares[k] > 0.0 <==> raw.shares[k] > 0.0);
    if |shares| == |s.ids| && Sum(shares) > 0.0 {
      var counts := AllottedNear(s, raw, count);
    }
    hide CanonicalCount, Allocation.Allocate, Percentages, Sum, Infeasible;
  }

  // ---- batches ----

  datatype Candidate = Candidate(phase: string, params: Params)

  ghost predicate Distinct<T>(s: seq<T>) {
    forall i, j :: 0 <= i < j < |s| ==> s[i] != s[j]
  }

  /** A canonical value of the search space. */
  ghost predicate IsCanonical(s: Search, p: Params)
    requires 0 < s.countMinimum <= s.countMaximum
  {
    exists raw: Raw :: Canonical(s, raw) == Ok(p)
  }

  /** The pool: the first `count` generated parameters not seen before and not repeated. */
  function Pool(seen: set<Params>, generated: seq<Params>, count: nat): (pool: seq<Params>)
    ensures |pool| <= count && Distinct(pool)
    ensures forall p :: p in pool ==> p !in seen && p in generated
    ensures |pool| < count ==> forall p :: p in generated ==> p in seen || p in pool
    decreases |generated|
  {
    if generated == [] then []
    else
      var front, last := generated[..|generated| - 1], generated[|generated| - 1];
      assert generated == front + [last];
      var pool := Pool(seen, front, count);
      if |pool| >= count || last in seen || last in pool then pool else pool + [last]
  }

  /** A full pool takes nothing more. */
  lemma {:induction false} PoolFull(seen: set<Params>, generated: seq<Params>, count: nat, n: nat)
    requires n <= |generated| && |Pool(seen, generated[..n], count)| >= count
    ensures Pool(seen, generated, count) == Pool(seen, generated[..n], count)
    decreases |generated|
  {
    if n == |generated| {
      assert generated[..n] == generated;
    } else {
      var front := generated[..|generated| - 1];
      assert front[..n] == generated[..n];
      PoolFull(seen, front, count, n);
    }
  }

  method CandidatePool(seen: set<Params>, generated: seq<Params>, count: nat) returns (pool: seq<Params>)
    requires count > 0
    ensures pool == Pool(seen, generated, count)
    ensures |pool| <= count && Distinct(pool)
    ensures forall k :: 0 <= k < |pool| ==> pool[k] !in seen && pool[k] in generated
    ensures |pool| < count ==> forall p :: p in generated ==> p in seen || p in pool
  {
    pool := [];
    var known := seen;
    for i := 0 to |generated|
      invariant |pool| < count && pool == Pool(seen, generated[..i], count)
      invariant known == seen + set p | p in pool
    {
      assert generated[..i + 1][..i] == generated[..i];
      var parameters := generated[i];
      if parameters in known {
        continue;
      }
      known := known + {parameters};
      pool := pool + [parameters];
      if |pool| >= count {
        PoolFull(seen, generated, count, i + 1);
        return;
      }
    }
    assert generated[..|generated|] == generated;
  }

  /** The first index below j of greatest score among those not selected. */
  function BestBelow(selected: seq<nat>, score: (seq<nat>, nat) -> real, j: nat): (best: Option<nat>)
    ensures best.Some? ==> best.value < j && best.value !in selected
    ensures best.Some? ==>
              forall i :: 0 <= i < j && i !in selected ==> score(selected, i) <= score(selected, best.value)
    ensures best.None? ==> forall i :: 0 <= i < j ==> i in selected
  {
    if j == 0 then None
    else
      var best := BestBelow(selected, score, j - 1);
      if j - 1 !in selected && (best.None? || score(selected, j - 1) > score(selected, best.value))
      then Some(j - 1) else best
  }

  /** Greedy choice: repeatedly the available index of greatest score, where the score of an
      index may depend on what has been selected so far. */
  function Picked(size: nat, batch: nat, score: (seq<nat>, nat) -> real): (selected: seq<nat>)
    ensures |selected| <= batch && Distinct(selected) && forall k :: 0 <= k < |selected| ==> selected[k] < size
  {
    if batch == 0 then []
    else
      var before := Picked(size, batch - 1, score);
      var best := BestBelow(before, score, size);
      if best.None? then before else before + [best.value]
  }

  /** As many as wanted are picked, or all. */
  lemma {:induction false} PickedSize(size: nat, batch: nat, score: (seq<nat>, nat) -> real)
    ensures |Picked(size, batch, score)| == if batch <= size then batch else size
  {
    hide Distinct;
    DistinctBound(Picked(size, batch, score), size);
    if batch > 0 {
      PickedSize(size, batch - 1, score);
      if BestBelow(Picked(size, batch - 1, score), score, size).None? {
        CoveringLength(Picked(size, batch - 1, score), size);
      }
    }
  }

  /** Distinct numbers below size are no more than size. */
  lemma {:induction false} DistinctBound(s: seq<nat>, size: nat)
    requires Distinct(s) && forall k :: 0 <= k < |s| ==> s[k] < size
    ensures |s| <= size
  {
    assert |s| > 0 ==> s[0] < size;
    if size == 0 {
    } else if size - 1 in s {
      var k :| 0 <= k < |s| && s[k] == size - 1;
      DistinctBound(s[..k] + s[k + 1..], size - 1);
    } else {
      DistinctBound(s, size - 1);
    }
  }

  /** No index that was available at the k-th choice scores higher than the one chosen. */
  ghost predicate GreedyAt(selected: seq<nat>, k: nat, size: nat, score: (seq<nat>, nat) -> real)
    requires k < |selected|
  {
    forall j :: 0 <= j < size && j !in selected[..k] ==> score(selected[..k], j) <= score(selected[..k], selected[k])
  }

  /** What is picked is picked greedily. */
  lemma {:induction false} PickedGreedily(size: nat, batch: nat, score: (seq<nat>, nat) -> real)
    ensures forall k :: 0 <= k < |Picked(size, batch, score)| ==> GreedyAt(Picked(size, batch, score), k, size, score)
  {
    hide Distinct;
    if batch > 0 {
      PickedGreedily(size, batch - 1, score);
      var before, selected := Picked(size, batch - 1, score), Picked(size, batch, score);
      forall k | 0 <= k < |selected|
        ensures GreedyAt(selected, k, size, score)
      {
        assert selected[..k] == before[..k];
        if k == |before| {
          assert before[..k] == before;
        } else {
          assert GreedyAt(before, k, size, score);
        }
      }
    }
  }

  method SelectIndices(size: nat, batch: nat, score: (seq<nat>, nat) -> real) returns (selected: seq<nat>)
    ensures selected == Picked(size, batch, score)
    ensures |selected| == if batch <= size then batch else size
    ensures Distinct(selected) && forall k :: 0 <= k < |selected| ==> selected[k] < size
    ensures forall k :: 0 <= k < |selected| ==> GreedyAt(selected, k, size, score)
  {
    selected := [];
    ghost var n := 0;
    while |selected| < batch && |selected| < size
      invariant n <= batch && |selected| == n <= size && selected == Picked(size, n, score)
    {
      hide BestBelow;
      var choice := BestAvailable(size, selected, score);
      selected := selected + [choice];
      n := n + 1;
    }
    if |selected| < batch {
      PickedAll(size, n, batch, score);
    }
    PickedSize(size, batch, score);
    PickedGreedily(size, batch, score);
  }

  /** Nothing is picked once everything is. */
  lemma {:induction false} PickedAll(size: nat, n: nat, batch: nat, score: (seq<nat>, nat) -> real)
    requires n <= batch && |Picked(size, n, score)| == size
    ensures Picked(size, batch, score) == Picked(size, n, score)
    decreases batch
  {
    if n < batch {
      PickedAll(size, n, batch - 1, score);
      var before := Picked(size, batch - 1, score);
      var best := BestBelow(before, score, size);
      if best.Some? {
        DistinctBound(before + [best.value], size);
      }
    }
  }

  method BestAvailable(size: nat, selected: seq<nat>, score: (seq<nat>, nat) -> real) returns (choice: nat)
    requires |selected| < size
    ensures BestBelow(selected, score, size) == Some(choice)
    ensures choice < size && choice !in selected
    ensures forall j :: 0 <= j < size && j !in selected ==> score(selected, j) <= score(selected, choice)
  {
    var best: Option<nat> := None;
    for j := 0 to size
      invariant best == BestBelow(selected, score, j)
    {
      if j !in selected && (best.None? || score(selected, j) > score(selected, best.value)) {
        best := Some(j);
      }
    }
    if best.None? {
      CoveringLength(selected, size);
      assert false;
    }
    choice := best.value;
  }

  /** A sequence that mentions every number below size has at least that many entries. */
  lemma {:induction false} CoveringLength(s: seq<nat>, size: nat)
    requires forall i :: 0 <= i < size ==> i in s
    ensures |s| >= size
  {
    if size > 0 {
      assert size - 1 in s;
      var k :| 0 <= k < |s| && s[k] == size - 1;
      var rest := s[..k] + s[k + 1..];
      forall i | 0 <= i < size - 1
        ensures i in rest
      {
        assert i in s;
        var j :| 0 <= j < |s| && s[j] == i;
        assert rest[if j < k then j else j - 1] == i;
      }
      CoveringLength(rest, size - 1);
    }
  }

  predicate CalibrationPhase(phase: string) {
    phase in ["volume_routing", "shape", "joint"]
  }

  /** No two calibration-phase candidates have equal parameters. */
  ghost predicate DistinctParameters(candidates: seq<Candidate>) {
    forall i, j ::
      0 <= i < j < |candidates| && CalibrationPhase(candidates[i].phase) && CalibrationPhase(candidates[j].phase)
      ==> candidates[i].params != candidates[j].params
  }

  function Seen(candidates: seq<Candidate>): (seen: set<Params>)
    ensures forall k :: 0 <= k < |candidates| ==> candidates[k].params in seen
  {
    set c | c in candidates :: c.params
  }

  function Unseen(seen: set<Params>, generated: seq<Params>): set<Params> {
    set p | p in generated && p !in seen
  }

  /** What is stored of selected parameters: their canonical form. */
  function Stored(s: Search, p: Params): Params
    requires 0 < s.countMinimum <= s.countMaximum
  {
    var canonical := Canonical(s, AsRaw(p));
    if canonical.Ok? then canonical.value else p
  }

  /** The parameters of a batch: the selected entries of the pool, as stored. None when the pool
      is too small. */
  function Drawn(s: Search, seen: set<Params>, generated: seq<Params>, poolSize: nat, batch: nat,
                 score: (seq<nat>, nat) -> real): Option<seq<Params>>
    requires 0 < s.countMinimum <= s.countMaximum
  {
    var pool := Pool(seen, generated, poolSize);
    if |pool| < batch then None
    else
      var selected := Picked(|pool|, batch, score);
      Some(seq(|selected|, k requires 0 <= k < |selected| => Stored(s, pool[selected[k]])))
  }

  /** The parameters of a batch are as many as asked for, pairwise different, and none of them
      has been seen before. */
  lemma DrawnIsNew(s: Search, seen: set<Params>, generated: seq<Params>, poolSize: nat, batch: nat,
                   score: (seq<nat>, nat) -> real, lo: int, hi: int, t: int)
    requires SteppedSearch(s, lo, hi, t) && forall p :: p in generated ==> IsCanonical(s, p)
    requires Drawn(s, seen, generated, poolSize, batch, score).Some?
    ensures var r := Drawn(s, seen, generated, poolSize, batch, score).value;
            |r| == batch && Distinct(r) && forall k :: 0 <= k < |r| ==> r[k] !in seen && r[k] in generated
  {
    var pool := Pool(seen, generated, poolSize);
    var selected := Picked(|pool|, batch, score);
    var r := Drawn(s, seen, generated, poolSize, batch, score).value;
    PickedSize(|pool|, batch, score);
    hide Canonical, IsCanonical, SteppedSearch, Pool, Picked;
    forall k | 0 <= k < |r|
      ensures r[k] == pool[selected[k]] && r[k] in pool
    {
      assert pool[selected[k]] in pool;
      CanonicalFixed(s, pool[selected[k]], lo, hi, t);
    }
    forall i, j | 0 <= i < j < |r|
      ensures r[i] != r[j]
    {
      assert selected[i] != selected[j];
      assert selected[i] < selected[j] ==> pool[selected[i]] != pool[selected[j]];
      assert selected[j] < selected[i] ==> pool[selected[j]] != pool[selected[i]];
    }
  }

  /** One calibration batch: a pool of unseen canonical parameters, a greedy selection from it,
      and each selected one canonicalised again and stored. Err when the pool is too small. */
  method CreateBatch(s: Search, candidates: seq<Candidate>, phase: string, generated: seq<Params>, poolSize: nat,
                     batch: nat,
                     score: (seq<nat>, nat) -> real, ghost lo: int, ghost hi: int, ghost t: int)
    returns (r: Result<seq<Candidate>, string>)
    requires SteppedSearch(s, lo, hi, t) && poolSize > 0
    requires forall p :: p in generated ==> IsCanonical(s, p)
    requires CalibrationPhase(phase) && DistinctParameters(candidates)
    ensures var drawn := Drawn(s, Seen(candidates), generated, poolSize, batch, score);
            && (r.Ok? <==> drawn.Some?)
            && (r.Ok? ==>
                  r.value == candidates
                      + seq(|drawn.value|, k requires 0 <= k < |drawn.value| => Candidate(phase, drawn.value[k])))
    ensures r.Ok? ==> |r.value| == |candidates| + batch && candidates <= r.value && DistinctParameters(r.value)
    ensures r.Ok? ==>
        forall k :: |candidates| <= k < |r.value| ==> r.value[k].phase == phase && r.value[k].params in generated
    ensures batch <= poolSize && r.Err? ==> |Unseen(Seen(candidates), generated)| < batch
  {
    assert 0 < s.countMinimum <= s.countMaximum;
    hide Canonical, IsCanonical, SteppedSearch, DistinctParameters, Pool, Picked, Stored, CalibrationPhase;
    var seen := Seen(candidates);
    var pool := CandidatePool(seen, generated, poolSize);
    if |pool| < batch {
      if |pool| < poolSize {
        PoolCoversUnseen(pool, seen, generated);
      }
      return Err("Could not generate enough unique candidates.");
    }
    var selected := SelectIndices(|pool|, batch, score);
    var stored := StoreSelected(s, candidates, phase, pool, selected, lo, hi, t);
    DrawnIsNew(s, seen, generated, poolSize, batch, score, lo, hi, t);
    BatchIsDistinct(candidates, stored, phase, Drawn(s, seen, generated, poolSize, batch, score).value, seen);
    r := Ok(stored);
  }

  /** Appending new parameters keeps calibration parameters distinct. */
  lemma BatchIsDistinct(candidates: seq<Candidate>, stored: seq<Candidate>, phase: string, drawn: seq<Params>,
                        seen: set<Params>)
    requires DistinctParameters(candidates) && Distinct(drawn)
    requires forall k :: 0 <= k < |candidates| ==> candidates[k].params in seen
    requires forall k :: 0 <= k < |drawn| ==> drawn[k] !in seen
    requires stored == candidates + seq(|drawn|, k requires 0 <= k < |drawn| => Candidate(phase, drawn[k]))
    ensures DistinctParameters(stored)
  {
  }

  /** Appends the selected pool entries, each canonicalised once more. */
  method StoreSelected(s: Search, candidates: seq<Candidate>, phase: string, pool: seq<Params>, selected: seq<nat>,
                       ghost lo: int, ghost hi: int, ghost t: int) returns (stored: seq<Candidate>)
    requires SteppedSearch(s, lo, hi, t)
    requires forall k :: 0 <= k < |selected| ==> selected[k] < |pool|
    requires forall p :: p in pool ==> IsCanonical(s, p)
    ensures stored == candidates
                      + seq(|selected|,
                            k requires 0 <= k < |selected| => Candidate(phase, Stored(s, pool[selected[k]])))
    ensures forall k :: 0 <= k < |selected| ==> Stored(s, pool[selected[k]]) == pool[selected[k]]
  {
    hide IsCanonical, Canonical;
    stored := candidates;
    for i := 0 to |selected|
      invariant stored == candidates
                          + seq(i, k requires 0 <= k < i => Candidate(phase, Stored(s, pool[selected[k]])))
      invariant forall k :: 0 <= k < i ==> Stored(s, pool[selected[k]]) == pool[selected[k]]
    {
      var parameters := pool[selected[i]];
      CanonicalFixed(s, parameters, lo, hi, t);
      stored := stored + [Candidate(phase, Canonical(s, AsRaw(parameters)).value)];
    }
  }

  lemma CanonicalFixed(s: Search, p: Params, lo: int, hi: int, t: int)
    requires SteppedSearch(s, lo, hi, t) && IsCanonical(s, p)
    ensures Canonical(s, AsRaw(p)) == Ok(p)
  {
    var raw: Raw :| Canonical(s, raw) == Ok(p);
    CanonicalIdempotent(s, raw, lo, hi, t);
  }

  lemma PoolCoversUnseen(pool: seq<Params>, seen: set<Params>, generated: seq<Params>)
    requires forall p :: p in generated ==> p in seen || p in pool
    ensures |Unseen(seen, generated)| <= |pool|
  {
    PoolSize(Unseen(seen, generated), pool);
  }

  lemma {:induction false} PoolSize(unseen: set<Params>, pool: seq<Params>)
    requires forall p :: p in unseen ==> p in pool
    ensures |unseen| <= |pool|
  {
    if pool != [] {
      PoolSize(unseen - {pool[0]}, pool[1..]);
    }
  }
}
