/** Thinning an occupancy series for a chart (backend/domain/analytics/service.py). */
module Downsample {

  const MAX_POINTS := 900

  datatype Point = Point(time: real, occupied: real)

  ghost predicate InTimeOrder(points: seq<Point>) {
    forall i, j :: 0 <= i < j < |points| ==> points[i].time <= points[j].time
  }

  /** The points with these indices. */
  function Picked(points: seq<Point>, ids: seq<nat>): (r: seq<Point>)
    requires forall k :: 0 <= k < |ids| ==> ids[k] < |points|
    ensures |r| == |ids| && forall k :: 0 <= k < |ids| ==> r[k] == points[ids[k]]
  {
    seq(|ids|, k requires 0 <= k < |ids| => points[ids[k]])
  }

  /** Some chosen point is no fuller than i, and some is no emptier. */
  ghost predicate Bracketed(points: seq<Point>, ids: seq<nat>, i: nat) {
    && i < |points|
    && (exists j :: j in ids && j < |points| && points[j].occupied <= points[i].occupied)
    && (exists j :: j in ids && j < |points| && points[j].occupied >= points[i].occupied)
  }

  /** A chosen point has the least occupancy of the range, and one the greatest. */
  ghost predicate KeepsExtremes(points: seq<Point>, ids: seq<nat>, lo: nat, hi: nat) {
    forall i :: lo <= i < hi ==> Bracketed(points, ids, i)
  }

  /** Distinct indices of the range, in order of time. */
  ghost predicate Subsequence(points: seq<Point>, ids: seq<nat>, lo: nat, hi: nat) {
    && (forall k :: 0 <= k < |ids| ==> lo <= ids[k] < hi && ids[k] < |points|)
    && (forall j, k :: 0 <= j < k < |ids| ==> ids[j] != ids[k] && points[ids[j]].time <= points[ids[k]].time)
  }

  /** Distinct times make it a subsequence in the strict sense. */
  lemma StrictSubsequence(points: seq<Point>, ids: seq<nat>, lo: nat, hi: nat)
    requires Subsequence(points, ids, lo, hi)
        && forall i, j :: 0 <= i < j < |points| ==> points[i].time < points[j].time
    ensures forall j, k :: 0 <= j < k < |ids| ==> ids[j] < ids[k]
  {
  }

  /** The first smallest and the first greatest point of the bucket [lo, hi). */
  method Extremes(points: seq<Point>, lo: nat, hi: nat) returns (low: nat, high: nat)
    requires lo < hi <= |points|
    ensures lo <= low < hi && lo <= high < hi
    ensures forall i :: lo <= i < hi ==> points[low].occupied <= points[i].occupied <= points[high].occupied
    ensures forall i :: lo <= i < low ==> points[i].occupied > points[low].occupied
    ensures forall i :: lo <= i < high ==> points[i].occupied < points[high].occupied
  {
    low, high := lo, lo;
    for i := lo + 1 to hi
      invariant lo <= low < i && lo <= high < i
      invariant forall j :: lo <= j < i ==> points[low].occupied <= points[j].occupied <= points[high].occupied
      invariant forall j :: lo <= j < low ==> points[j].occupied > points[low].occupied
      invariant forall j :: lo <= j < high ==> points[j].occupied < points[high].occupied
    {
      if points[i].occupied < points[low].occupied {
        low := i;
      }
      if points[i].occupied > points[high].occupied {
        high := i;
      }
    }
  }

  /** i is the first emptiest point of the bucket [lo, hi). */
  ghost predicate Trough(points: seq<Point>, lo: nat, hi: nat, i: nat)
    requires hi <= |points|
  {
    && lo <= i < hi
    && forall j :: lo <= j < hi ==> points[i].occupied <= points[j].occupied
                                    && (j < i ==> points[i].occupied < points[j].occupied)
  }

  /** i is the first fullest point of the bucket [lo, hi). */
  ghost predicate Peak(points: seq<Point>, lo: nat, hi: nat, i: nat)
    requires hi <= |points|
  {
    && lo <= i < hi
    && forall j :: lo <= j < hi ==> points[i].occupied >= points[j].occupied
                                    && (j < i ==> points[i].occupied > points[j].occupied)
  }

  /** Of the bucket [lo, hi) exactly the trough and the peak are chosen. */
  ghost predicate Sampled(points: seq<Point>, ids: seq<nat>, lo: nat, hi: nat)
    requires hi <= |points|
  {
    forall i :: lo <= i < hi ==> (i in ids <==> Trough(points, lo, hi, i) || Peak(points, lo, hi, i))
  }

  /** One bucket's trough and peak, in order of time. */
  method SampleBucket(points: seq<Point>, lo: nat, hi: nat) returns (ids: seq<nat>)
    requires lo < hi <= |points|
    ensures 1 <= |ids| <= 2 && Subsequence(points, ids, lo, hi) && KeepsExtremes(points, ids, lo, hi)
    ensures Sampled(points, ids, lo, hi)
  {
    var low, high := Extremes(points, lo, hi);
    if low == high {
      ids := [low];
      assert low in ids;
    } else if points[low].time <= points[high].time {
      ids := [low, high];
      assert low in ids && high in ids;
    } else {
      ids := [high, low];
      assert low in ids && high in ids;
    }
  }

  lemma Joined(points: seq<Point>, a: seq<nat>, b: seq<nat>, lo: nat, mid: nat, hi: nat)
    requires InTimeOrder(points) && lo <= mid <= hi <= |points|
    requires Subsequence(points, a, lo, mid) && Subsequence(points, b, mid, hi)
    ensures Subsequence(points, a + b, lo, hi)
  {
    var all := a + b;
    forall j, k | 0 <= j < k < |all|
      ensures all[j] != all[k] && points[all[j]].time <= points[all[k]].time
    {
    }
  }

  lemma ExtremesJoined(points: seq<Point>, a: seq<nat>, b: seq<nat>, lo: nat, mid: nat, hi: nat)
    requires lo <= mid <= hi <= |points| && KeepsExtremes(points, a, lo, mid) && KeepsExtremes(points, b, mid, hi)
    ensures KeepsExtremes(points, a + b, lo, hi)
  {
    forall i | lo <= i < hi
      ensures Bracketed(points, a + b, i)
    {
      assert if i < mid then Bracketed(points, a, i) else Bracketed(points, b, i);
    }
  }

  function BucketSize(interior: nat): nat {
    var count := (MAX_POINTS - 2) / 2;
    if (interior + count - 1) / count > 1 then (interior + count - 1) / count else 1
  }

  /** The smallest size with which 449 buckets cover the interior. */
  lemma BucketSizeIs(interior: nat)
    ensures var size := BucketSize(interior);
            size >= 1 && 449 * size >= interior && (size > 1 ==> 449 * (size - 1) < interior)
  {
  }

  /** The buckets cover the interior with at most 449 of them. */
  lemma FewBuckets(interior: nat, n: nat)
    requires n > 0 ==> (n - 1) * BucketSize(interior) < interior
    ensures n <= 449
  {
    var size := BucketSize(interior);
    assert 449 * size >= interior;
    if n >= 450 {
      MoreBuckets(n - 1, 449, size);
    }
  }

  lemma MoreBuckets(a: nat, b: nat, size: nat)
    requires a >= b
    ensures a * size >= b * size
  {
    assert a * size == b * size + (a - b) * size;
  }

  /** Where bucket m of the interior starts. */
  ghost function StartOf(m: nat, size: nat): nat {
    1 + m * size
  }

  /** Of the first n buckets of the interior exactly the troughs and peaks are chosen. */
  ghost predicate InBuckets(points: seq<Point>, ids: seq<nat>, size: nat, n: nat)
    requires |points| >= 2
  {
    forall m :: 0 <= m < n && StartOf(m, size) < |points| - 1 ==>
      var lo := StartOf(m, size);
      Sampled(points, ids, lo, if lo + size < |points| - 1 then lo + size else |points| - 1)
  }

  /** Of every bucket of the interior exactly the trough and the peak are chosen. */
  ghost predicate InAllBuckets(points: seq<Point>, ids: seq<nat>, size: nat)
    requires |points| >= 2
  {
    forall m: nat :: StartOf(m, size) < |points| - 1 ==>
      var lo := StartOf(m, size);
      Sampled(points, ids, lo, if lo + size < |points| - 1 then lo + size else |points| - 1)
  }

  lemma StartsApart(m: nat, n: nat, size: nat)
    requires m < n
    ensures StartOf(m, size) + size <= StartOf(n, size)
  {
    MoreBuckets(n, m + 1, size);
    assert (m + 1) * size == m * size + size;
  }

  /** Points chosen from later buckets do not matter. */
  lemma BucketAdded(points: seq<Point>, ids: seq<nat>, bucket: seq<nat>, size: nat, n: nat)
    requires |points| >= 2 && InBuckets(points, ids, size, n) && StartOf(n, size) < |points| - 1
    requires var lo := StartOf(n, size);
             var hi := if lo + size < |points| - 1 then lo + size else |points| - 1;
             && Subsequence(points, ids, 1, lo) && Subsequence(points, bucket, lo, hi)
             && Sampled(points, bucket, lo, hi)
    ensures InBuckets(points, ids + bucket, size, n + 1)
  {
    var last := |points| - 1;
    forall m | 0 <= m < n + 1 && StartOf(m, size) < last
      ensures var lo := StartOf(m, size);
              Sampled(points, ids + bucket, lo, if lo + size < last then lo + size else last)
    {
      if m < n {
        StartsApart(m, n, size);
      }
      hide StartOf, Trough, Peak;
    }
  }

  /** The interior's buckets, one after the other. */
  method SampleInterior(points: seq<Point>) returns (ids: seq<nat>)
    requires |points| > MAX_POINTS && InTimeOrder(points)
    ensures |ids| <= MAX_POINTS - 2 && Subsequence(points, ids, 1, |points| - 1)
        && KeepsExtremes(points, ids, 1, |points| - 1)
    ensures InAllBuckets(points, ids, BucketSize(|points| - 2))
  {
    hide Subsequence, KeepsExtremes, InTimeOrder, Sampled;
    var last := |points| - 1;
    var size := BucketSize(last - 1);
    ids := [];
    var start := 1;
    ghost var n: nat := 0;
    Nothing(points);
    while start < last
      invariant 1 <= start <= last && |ids| <= 2 * n
      invariant start == StartOf(n, size) || (start == last && StartOf(n, size) >= last)
      invariant n > 0 ==> (n - 1) * size < last - 1
      invariant Subsequence(points, ids, 1, start) && KeepsExtremes(points, ids, 1, start)
      invariant InBuckets(points, ids, size, n)
      decreases last - start
    {
      var end := if start + size < last then start + size else last;
      var bucket := SampleBucket(points, start, end);
      Joined(points, ids, bucket, 1, start, end);
      ExtremesJoined(points, ids, bucket, 1, start, end);
      assert (n + 1) * size == n * size + size;
      BucketAdded(points, ids, bucket, size, n);
      ids := ids + bucket;
      start := end;
      n := n + 1;
    }
    FewBuckets(last - 1, n);
    NoMoreBuckets(points, ids, size, n);
  }

  lemma NoMoreBuckets(points: seq<Point>, ids: seq<nat>, size: nat, n: nat)
    requires |points| >= 2 && InBuckets(points, ids, size, n) && StartOf(n, size) >= |points| - 1
    ensures InAllBuckets(points, ids, size)
  {
    hide Sampled, StartOf;
    forall m: nat | StartOf(m, size) < |points| - 1
      ensures m < n
    {
      if m > n {
        StartsApart(n, m, size);
      }
    }
  }

  lemma Nothing(points: seq<Point>)
    ensures Subsequence(points, [], 1, 1) && KeepsExtremes(points, [], 1, 1)
  {
  }

  lemma One(points: seq<Point>, i: nat)
    requires i < |points|
    ensures Subsequence(points, [i], i, i + 1) && KeepsExtremes(points, [i], i, i + 1)
  {
    assert i in [i];
  }

  /** The thinned series: never more than 900 points, so that nothing is ever cut off; in order
      of time; with the first and the last point; and with a point of the least and one of the
      greatest occupancy. */
  method DownsampleOccupancy(points: seq<Point>) returns (sampled: seq<Point>, ghost ids: seq<nat>)
    requires InTimeOrder(points)
    ensures |sampled| <= MAX_POINTS && Subsequence(points, ids, 0, |points|) && sampled == Picked(points, ids)
    ensures points != [] ==> sampled != [] && sampled[0] == points[0] && sampled[|sampled| - 1] == points[|points| - 1]
    ensures KeepsExtremes(points, ids, 0, |points|)
    ensures |points| <= MAX_POINTS ==> sampled == points
    ensures |points| > MAX_POINTS ==> InAllBuckets(points, ids, BucketSize(|points| - 2))
  {
    if |points| <= MAX_POINTS {
      sampled := points;
      ids := seq(|points|, k requires 0 <= k < |points| => k);
      Everything(points, ids);
      assert sampled == Picked(points, ids);
      return;
    }
    hide Subsequence, KeepsExtremes, InTimeOrder, InAllBuckets;
    var last := |points| - 1;
    var interior := SampleInterior(points);
    var all := [0] + interior + [last];
    EndsAdded(points, interior, all, BucketSize(last - 1));
    One(points, 0);
    One(points, last);
    Joined(points, [0], interior, 0, 1, last);
    Joined(points, [0] + interior, [last], 0, last, |points|);
    ExtremesJoined(points, [0], interior, 0, 1, last);
    ExtremesJoined(points, [0] + interior, [last], 0, last, |points|);
    ids := all;
    InRange(points, all);
    sampled := seq(|all|, k requires 0 <= k < |all| => points[all[k]]);
    if |sampled| > MAX_POINTS {
      // The source cuts the series here; it never gets here.
      assert false;
    }
  }

  lemma EndsAdded(points: seq<Point>, interior: seq<nat>, all: seq<nat>, size: nat)
    requires |points| >= 2 && InAllBuckets(points, interior, size) && all == [0] + interior + [|points| - 1]
    ensures InAllBuckets(points, all, size)
  {
    forall m: nat | StartOf(m, size) < |points| - 1
      ensures var lo := StartOf(m, size);
              Sampled(points, all, lo, if lo + size < |points| - 1 then lo + size else |points| - 1)
    {
      StartsLate(m, size);
      hide StartOf, Trough, Peak;
    }
  }

  lemma StartsLate(m: nat, size: nat)
    ensures StartOf(m, size) >= 1
  {
  }

  lemma InRange(points: seq<Point>, ids: seq<nat>)
    requires Subsequence(points, ids, 0, |points|)
    ensures forall k :: 0 <= k < |ids| ==> ids[k] < |points|
  {
  }

  lemma Everything(points: seq<Point>, ids: seq<nat>)
    requires InTimeOrder(points) && |ids| == |points| && forall k :: 0 <= k < |ids| ==> ids[k] == k
    ensures Subsequence(points, ids, 0, |points|) && KeepsExtremes(points, ids, 0, |points|)
  {
    forall i | 0 <= i < |points|
      ensures Bracketed(points, ids, i)
    {
      assert ids[i] in ids;
    }
  }
}
