/** One update of a Fourier profile's peak heights (backend/domain/calibration/service.py).
    Fitted response curves are parameters. */
module PeakUpdate {
  import opened Wrappers
  import opened LinearAlgebra
  import opened Projection

  const MAX_PERCENTAGE := 300.0
  const TINY := 0.000000001

  /** `settings` stands for everything in a profile but its peak count and heights. */
  datatype Profile = Profile(settings: string, peakCount: nat, peakHeights: seq<real>)

  /** What the detector and the sensor say about one subject, window by window, with the
      fitted response: the input the curve predicts for the real flow, or the exponent's
      inverse. `power` is exponentiation. */
  datatype Analysis = Analysis(observed: nat -> real, simulated: nat -> real, hill: nat -> Option<real>,
                               elasticity: nat -> Option<real>,
                               power: (real, real) -> real, zeroFlow: bool)

  function Clamp(x: real): real {
    if x < 0.0 then 0.0 else if x > MAX_PERCENTAGE then MAX_PERCENTAGE else x
  }

  /** Whole steps towards the proposal: at least one. */
  function Units(difference: real, step: real): int
    requires step > 0.0
  {
    if RoundHalfEven(Abs(difference) / step) > 1 then RoundHalfEven(Abs(difference) / step) else 1
  }

  function Moved(current: real, difference: real, step: real): real
    requires step > 0.0
  {
    var distance := Times(Units(difference, step) as real, step);
    Clamp(if difference < 0.0 then current - distance else current + distance)
  }

  function Quantize(current: real, proposed: real, step: real): real
    requires step > 0.0
  {
    var o, p := Clamp(current), Clamp(proposed);
    if Abs(p - o) <= TINY then o
    else
      var candidate := Moved(o, p - o, step);
      if 0.0 < Abs(candidate - o) < step - TINY then o else candidate
  }

  lemma RoundIsNear(x: real)
    ensures Abs(RoundHalfEven(x) as real - x) <= 0.5
  {
  }

  lemma TimesQuotient(x: real, step: real)
    requires step > 0.0
    ensures Times(x / step, step) == x
  {
  }

  lemma TimesNear(a: real, b: real, step: real)
    requires step > 0.0 && Abs(a - b) <= 0.5
    ensures Abs(Times(a, step) - Times(b, step)) <= step / 2.0
  {
    var c := a - b;
    assert Times(a, step) - Times(b, step) == Times(c, step);
    TimesNonNegative(0.5 - c, step);
    TimesNonNegative(0.5 + c, step);
    assert Times(0.5 - c, step) == step / 2.0 - Times(c, step) && Times(0.5 + c, step) == step / 2.0 + Times(c, step);
  }

  lemma TimesNonNegative(x: real, y: real)
    requires x >= 0.0 && y >= 0.0
    ensures Times(x, y) >= 0.0
  {
  }

  lemma TimesOne(k: int, step: real)
    requires step > 0.0 && k >= 1
    ensures Times(k as real, step) >= step
  {
    assert Times(k as real, step) == step + Times((k - 1) as real, step);
  }

  /** The unclamped move is at least one step and less than one step off. */
  lemma UnitsAreNear(difference: real, step: real)
    requires step > 0.0 && difference != 0.0
    ensures var distance := Times(Units(difference, step) as real, step);
            distance >= step && Abs(distance - Abs(difference)) < step
  {
    var x := Abs(difference) / step;
    RoundIsNear(x);
    TimesQuotient(Abs(difference), step);
    TimesOne(Units(difference, step), step);
    var k := RoundHalfEven(x);
    if k >= 1 {
      TimesNear(k as real, x, step);
    } else {
      TimesNear(0.0, x, step);
    }
  }

  /** Whatever is proposed, the new percentage is within bounds; it stays where it was or
      moves by at least one step; and it is less than one step from the clamped proposal. */
  lemma QuantizeIsClose(current: real, proposed: real, step: real)
    requires step > TINY
    ensures var r := Quantize(current, proposed, step);
            && 0.0 <= r <= MAX_PERCENTAGE
            && (r == Clamp(current) || Abs(r - Clamp(current)) >= step - TINY)
            && Abs(r - Clamp(proposed)) < step
  {
    var difference := Clamp(proposed) - Clamp(current);
    if Abs(difference) > TINY {
      UnitsAreNear(difference, step);
      hide Units, Times;
    }
  }

  /** A reachable proposal a whole number of steps away is taken exactly. */
  lemma QuantizeOnGrid(current: real, proposed: real, step: real, k: nat)
    requires step > TINY && k >= 1 && Clamp(current) == current && Clamp(proposed) == proposed
    requires Abs(proposed - current) == Times(k as real, step)
    ensures Quantize(current, proposed, step) == proposed
  {
    TimesOne(k, step);
    ScaledQuotient(k, step);
    hide Times;
  }

  lemma ScaledQuotient(k: nat, step: real)
    requires step > 0.0
    ensures Times(k as real, step) / step == k as real
  {
  }

  // ---- proposals ----

  /** The proposed percentage of peak k. */
  function Propose(a: Analysis, k: nat, current: real): real {
    var observed, simulated := a.observed(k), a.simulated(k);
    if simulated <= 0.0 then current
    else
      var ratio := if observed / simulated > 0.0 then observed / simulated else 0.0;
      if a.hill(k).Some? then a.hill(k).value
      else if a.elasticity(k).Some? then current * a.power(ratio, a.elasticity(k).value)
      else if current <= 0.0 && observed > simulated then 1.0
      else current * ratio
  }

  /** The step the percentages move by. */
  function Grid(step: real): real {
    if step > 0.1 then step else 0.1
  }

  function NewHeight(a: Analysis, k: nat, height: real, step: real): real {
    Quantize(height * 100.0, Propose(a, k, height * 100.0), Grid(step)) / 100.0
  }

  /** The profile with its heights updated; an error when their number is wrong. */
  function Updated(profile: Profile, a: Analysis, step: real): Result<Profile, string> {
    if |profile.peakHeights| != profile.peakCount then Err("A Fourier profile must contain one percentage per peak.")
    else Ok(profile.(peakHeights := seq(profile.peakCount,
                                        k requires 0 <= k < |profile.peakHeights| =>
                                            NewHeight(a, k, profile.peakHeights[k], step))))
  }

  /** Equal but for the peak heights. */
  predicate SameButHeights(p: Profile, q: Profile) {
    p.settings == q.settings && p.peakCount == q.peakCount
  }

  predicate HeightsInRange(p: Profile) {
    forall k :: 0 <= k < |p.peakHeights| ==> 0.0 <= p.peakHeights[k] <= 3.0
  }

  /** Everything but the heights stays locked, the heights stay in range, and a peak without
      simulated flow does not move. */
  lemma UpdatedIsLocked(profile: Profile, a: Analysis, step: real)
    ensures var r := Updated(profile, a, step);
            && (r.Ok? <==> |profile.peakHeights| == profile.peakCount)
            && (r.Ok? ==>
                && SameButHeights(profile, r.value) && |r.value.peakHeights| == profile.peakCount
                && HeightsInRange(r.value)
                && forall k ::
                    0 <= k < profile.peakCount && a.simulated(k) <= 0.0 && 0.0 <= profile.peakHeights[k] <= 3.0 ==>
                     r.value.peakHeights[k] == profile.peakHeights[k])
  {
    hide Quantize, Propose;
    var r := Updated(profile, a, step);
    if r.Ok? {
      forall k | 0 <= k < profile.peakCount
        ensures 0.0 <= r.value.peakHeights[k] <= 3.0
        ensures a.simulated(k) <= 0.0 && 0.0 <= profile.peakHeights[k] <= 3.0 ==>
            r.value.peakHeights[k] == profile.peakHeights[k]
      {
        var percentage := profile.peakHeights[k] * 100.0;
        QuantizeIsClose(percentage, Propose(a, k, percentage), Grid(step));
        NoFlowNoMove(a, k, percentage, Grid(step));
      }
    }
  }

  lemma NoFlowNoMove(a: Analysis, k: nat, percentage: real, step: real)
    requires step > 0.0
    ensures a.simulated(k) <= 0.0 ==> Quantize(percentage, Propose(a, k, percentage), step) == Clamp(percentage)
  {
  }

  // ---- which way a peak moves, and how far ----

  /** The quantised percentage never moves away from the proposal. */
  lemma QuantizeHeadsFor(current: real, proposed: real, step: real)
    requires step > TINY
    ensures var r := Quantize(current, proposed, step);
            && (Clamp(proposed) >= Clamp(current) ==> r >= Clamp(current))
            && (Clamp(proposed) <= Clamp(current) ==> r <= Clamp(current))
  {
    var difference := Clamp(proposed) - Clamp(current);
    if Abs(difference) > TINY {
      UnitsAreNear(difference, step);
      hide Units, Times;
    }
  }

  lemma ScaledByRatio(x: real, observed: real, simulated: real)
    requires x >= 0.0 && simulated > 0.0
    ensures observed > simulated ==> x * (observed / simulated) >= x
    ensures 0.0 < observed < simulated ==> 0.0 <= x * (observed / simulated) <= x
    ensures observed == simulated ==> x * (observed / simulated) == x
    ensures (observed / simulated > 0.0) == (observed > 0.0)
  {
    var ratio := observed / simulated;
    RatioIs(observed, simulated);
    if observed > simulated {
      TimesNonNegative(x, ratio - 1.0);
      assert Times(x, ratio - 1.0) == x * ratio - x;
    } else if 0.0 < observed < simulated {
      TimesNonNegative(x, ratio);
      TimesNonNegative(x, 1.0 - ratio);
      assert Times(x, 1.0 - ratio) == x - x * ratio;
    }
  }

  lemma RatioIs(observed: real, simulated: real)
    requires simulated > 0.0
    ensures observed > simulated ==> observed / simulated > 1.0
    ensures observed < simulated ==> observed / simulated < 1.0
    ensures observed == simulated ==> observed / simulated == 1.0
    ensures (observed / simulated > 0.0) == (observed > 0.0)
  {
  }

  /** Without a fitted response a peak rises only when more is observed than simulated, and falls
      only when less is. */
  ghost predicate HeadsForFlow(before: real, after: real, observed: real, simulated: real) {
    && (observed >= simulated ==> after >= before)
    && (observed <= simulated ==> after <= before)
  }

  /** What peak k should be, in percent, for the observed flow: the input of the fitted curve;
      the current percentage scaled by the power of the flow ratio; or the current percentage
      scaled by the ratio itself, where a peak of zero starts with one percent. */
  ghost predicate AimsAt(a: Analysis, k: nat, percentage: real, aim: real)
    requires a.simulated(k) > 0.0
  {
    var observed := if a.observed(k) > 0.0 then a.observed(k) else 0.0;
    if a.hill(k).Some? then aim == a.hill(k).value
    else if a.elasticity(k).Some?
    then aim == percentage * a.power(observed / a.simulated(k), a.elasticity(k).value)
    else if percentage == 0.0 then aim == if observed > a.simulated(k) then 1.0 else 0.0
    else aim * a.simulated(k) == percentage * observed
  }

  lemma ProposeAims(a: Analysis, k: nat, percentage: real)
    requires a.simulated(k) > 0.0 && percentage >= 0.0
    ensures AimsAt(a, k, percentage, Propose(a, k, percentage))
  {
    var observed, simulated := a.observed(k), a.simulated(k);
    RatioIs(observed, simulated);
    if a.hill(k).None? && a.elasticity(k).None? && percentage > 0.0 && observed > 0.0 {
      ScaleBack(percentage, observed, simulated);
    }
  }

  lemma ScaleBack(x: real, observed: real, simulated: real)
    requires simulated > 0.0
    ensures x * (observed / simulated) * simulated == x * observed
  {
    var ratio := observed / simulated;
    assert ratio * simulated == observed;
    assert x * ratio * simulated == x * (ratio * simulated);
  }

  lemma ProposeHeadsForFlow(a: Analysis, k: nat, percentage: real)
    requires a.simulated(k) > 0.0 && percentage >= 0.0 && a.hill(k).None? && a.elasticity(k).None?
    ensures HeadsForFlow(percentage, Propose(a, k, percentage), a.observed(k), a.simulated(k))
  {
    ScaledByRatio(percentage, a.observed(k), a.simulated(k));
  }

  lemma ClampOrder(x: real, y: real)
    ensures x <= y ==> Clamp(x) <= Clamp(y)
    ensures 0.0 <= x <= 300.0 ==> Clamp(x) == x
  {
  }

  lemma HeightFollowsFlow(a: Analysis, k: nat, height: real, step: real)
    requires a.simulated(k) > 0.0 && 0.0 <= height <= 3.0
    ensures var r := NewHeight(a, k, height, step);
            && (a.hill(k).None? && a.elasticity(k).None? ==> HeadsForFlow(height, r, a.observed(k), a.simulated(k)))
            && exists aim :: AimsAt(a, k, height * 100.0, aim) && Abs(r * 100.0 - Clamp(aim)) < Grid(step)
  {
    var percentage := height * 100.0;
    var proposed := Propose(a, k, percentage);
    ProposeAims(a, k, percentage);
    QuantizeIsClose(percentage, proposed, Grid(step));
    QuantizeHeadsFor(percentage, proposed, Grid(step));
    ClampOrder(percentage, proposed);
    ClampOrder(proposed, percentage);
    if a.hill(k).None? && a.elasticity(k).None? {
      ProposeHeadsForFlow(a, k, percentage);
    }
    hide Quantize, Propose, Clamp, AimsAt;
    assert NewHeight(a, k, height, step) * 100.0 == Quantize(percentage, proposed, Grid(step));
  }

  /** Every peak with simulated flow heads for the observed flow, and ends less than one step from
      where it should be, within 0 and 300 percent. */
  lemma UpdatedFollowsFlow(profile: Profile, a: Analysis, step: real, k: nat)
    requires |profile.peakHeights| == profile.peakCount && k < profile.peakCount
    requires a.simulated(k) > 0.0 && 0.0 <= profile.peakHeights[k] <= 3.0
    ensures var before, after := profile.peakHeights[k], Updated(profile, a, step).value.peakHeights[k];
            && (a.hill(k).None? && a.elasticity(k).None? ==>
                  HeadsForFlow(before, after, a.observed(k), a.simulated(k)))
            && exists aim ::
                 AimsAt(a, k, before * 100.0, aim) && Abs(after * 100.0 - Clamp(aim)) < if step > 0.1 then step else 0.1
  {
    hide NewHeight, AimsAt, Clamp;
    HeightFollowsFlow(a, k, profile.peakHeights[k], step);
  }

  method CompareAndUpdateProfile(profile: Profile, a: Analysis, step: real) returns (r: Result<Profile, string>)
    ensures r == Updated(profile, a, step)
  {
    hide Quantize, Propose;
    if |profile.peakHeights| != profile.peakCount {
      return Err("A Fourier profile must contain one percentage per peak.");
    }
    var nextHeights: seq<real> := [];
    for k := 0 to |profile.peakHeights|
      invariant |nextHeights| == k
      invariant forall j :: 0 <= j < k ==> nextHeights[j] == NewHeight(a, j, profile.peakHeights[j], step)
    {
      var current := profile.peakHeights[k] * 100.0;
      var next := Quantize(current, Propose(a, k, current), Grid(step));
      nextHeights := nextHeights + [next / 100.0];
    }
    assert nextHeights == Updated(profile, a, step).value.peakHeights;
    r := Ok(profile.(peakHeights := nextHeights));
  }
}
