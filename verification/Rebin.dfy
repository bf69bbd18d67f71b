/** Re-binning detector counts into equal intervals (backend/domain/analytics/service.py). */
module Rebin {
  import opened Wrappers
  import opened LinearAlgebra

  datatype Point = Point(begin: real, end: real, count: real)
  datatype Row = Row(bucket: nat, count: real)

  /** What is used of a point: never before zero, never a negative length or count. */
  function Begin(p: Point): real {
    if p.begin > 0.0 then p.begin else 0.0
  }

  function OriginalEnd(p: Point): real {
    if p.end > Begin(p) then p.end else Begin(p)
  }

  function Count(p: Point): real {
    if p.count > 0.0 then p.count else 0.0
  }

  /** Cut off at the duration, when there is one. */
  function End(p: Point, duration: Option<real>): real {
    if duration.Some? && duration.value < OriginalEnd(p) then duration.value else OriginalEnd(p)
  }

  predicate Counts(p: Point, duration: Option<real>) {
    OriginalEnd(p) > Begin(p) && End(p, duration) > Begin(p)
  }

  /** Where bucket k starts. */
  function StartOf(k: nat, interval: real): real {
    Times(k as real, interval)
  }

  function Within(x: real, low: real, high: real): real {
    if x < low then low else if x > high then high else x
  }

  /** How much of [b, e] lies in [s, t]. */
  function Overlap(b: real, e: real, s: real, t: real): real {
    var low, high := if b > s then b else s, if e < t then e else t;
    if high > low then high - low else 0.0
  }

  /** The part of the count that falls on a length: count times length over the point's own
      length. */
  function Part(p: Point, length: real): real {
    if OriginalEnd(p) > Begin(p) then Times(Count(p), length) / (OriginalEnd(p) - Begin(p)) else 0.0
  }

  /** What point p puts into bucket k. */
  function Share(p: Point, k: nat, interval: real, duration: Option<real>): real {
    if Counts(p, duration)
        then Part(p, Overlap(Begin(p), End(p, duration), StartOf(k, interval), StartOf(k, interval) + interval))
            else 0.0
  }

  /** What point p puts into all buckets: its count, scaled by the fraction before the limit. */
  function Mass(p: Point, duration: Option<real>): real {
    if Counts(p, duration) then Part(p, End(p, duration) - Begin(p)) else 0.0
  }

  function Value(points: seq<Point>, k: nat, interval: real, duration: Option<real>): real
    decreases |points|
  {
    if points == [] then 0.0
    else Value(points[..|points| - 1], k, interval, duration) + Share(points[|points| - 1], k, interval, duration)
  }

  function TotalMass(points: seq<Point>, duration: Option<real>): real
    decreases |points|
  {
    if points == [] then 0.0 else TotalMass(points[..|points| - 1], duration) + Mass(points[|points| - 1], duration)
  }

  // ---- arithmetic ----

  lemma StartNext(k: nat, interval: real)
    ensures StartOf(k + 1, interval) == StartOf(k, interval) + interval
  {
  }

  lemma {:induction false} StartGrows(j: nat, k: nat, interval: real)
    requires interval > 0.0 && j <= k
    ensures StartOf(j, interval) <= StartOf(k, interval)
    decreases k
  {
    hide StartOf;
    if j < k {
      StartGrows(j, k - 1, interval);
      StartNext(k - 1, interval);
    }
  }

  lemma PartAdds(p: Point, a: real, b: real)
    ensures Part(p, a) + Part(p, b) == Part(p, a + b) && Part(p, 0.0) == 0.0
  {
    assert Times(Count(p), a) + Times(Count(p), b) == Times(Count(p), a + b);
    var d := OriginalEnd(p) - Begin(p);
    if d > 0.0 {
      QuotientAdds(Times(Count(p), a), Times(Count(p), b), d);
    }
  }

  lemma QuotientAdds(x: real, y: real, d: real)
    requires d > 0.0
    ensures x / d + y / d == (x + y) / d
  {
  }

  lemma OverlapIs(b: real, e: real, s: real, t: real)
    requires b <= e && s <= t
    ensures Overlap(b, e, s, t) == Within(t, b, e) - Within(s, b, e)
  {
  }

  /** The buckets before n hold the part of the point before their end. */
  lemma {:induction false} SharesTelescope(p: Point, n: nat, interval: real, duration: Option<real>)
    requires interval > 0.0 && Counts(p, duration)
    ensures SharesBefore(p, n, interval, duration) ==
        Part(p, Within(StartOf(n, interval), Begin(p), End(p, duration)) - Begin(p))
  {
    if n == 0 {
      assert StartOf(0, interval) == 0.0;
      PartAdds(p, 0.0, 0.0);
    } else {
      SharesTelescope(p, n - 1, interval, duration);
      StartNext(n - 1, interval);
      OverlapIs(Begin(p), End(p, duration), StartOf(n - 1, interval), StartOf(n, interval));
      hide Part, StartOf, Overlap;
      PartAdds(p, Within(StartOf(n - 1, interval), Begin(p), End(p, duration)) - Begin(p),
               Overlap(Begin(p), End(p, duration), StartOf(n - 1, interval), StartOf(n, interval)));
    }
  }

  function SharesBefore(p: Point, n: nat, interval: real, duration: Option<real>): real {
    if n == 0 then 0.0 else SharesBefore(p, n - 1, interval, duration) + Share(p, n - 1, interval, duration)
  }

  /** Buckets that reach beyond the point hold all of it. */
  lemma PointConserved(p: Point, n: nat, interval: real, duration: Option<real>)
    requires interval > 0.0 && (Counts(p, duration) ==> StartOf(n, interval) >= End(p, duration))
    ensures SharesBefore(p, n, interval, duration) == Mass(p, duration)
  {
    if Counts(p, duration) {
      SharesTelescope(p, n, interval, duration);
    } else {
      NoShares(p, n, interval, duration);
    }
  }

  lemma {:induction false} NoShares(p: Point, n: nat, interval: real, duration: Option<real>)
    requires !Counts(p, duration)
    ensures SharesBefore(p, n, interval, duration) == 0.0
  {
    if n > 0 {
      NoShares(p, n - 1, interval, duration);
    }
  }

  function ValuesBefore(points: seq<Point>, n: nat, interval: real, duration: Option<real>): real {
    if n == 0 then 0.0 else ValuesBefore(points, n - 1, interval, duration) + Value(points, n - 1, interval, duration)
  }

  lemma {:induction false} ValuesSplit(points: seq<Point>, n: nat, interval: real, duration: Option<real>)
    requires points != []
    ensures ValuesBefore(points, n, interval, duration)
            == ValuesBefore(points[..|points| - 1], n, interval, duration)
                + SharesBefore(points[|points| - 1], n, interval, duration)
  {
    if n > 0 {
      ValuesSplit(points, n - 1, interval, duration);
    }
  }

  /** Enough buckets hold exactly the total mass. */
  lemma {:induction false} AllConserved(points: seq<Point>, n: nat, interval: real, duration: Option<real>)
    requires interval > 0.0
        && forall p :: p in points && Counts(p, duration) ==> StartOf(n, interval) >= End(p, duration)
    ensures ValuesBefore(points, n, interval, duration) == TotalMass(points, duration)
    decreases |points|
  {
    hide Share, Mass, StartOf, Counts;
    if points == [] {
      NoValues(n, interval, duration);
    } else {
      ValuesSplit(points, n, interval, duration);
      AllConserved(points[..|points| - 1], n, interval, duration);
      PointConserved(points[|points| - 1], n, interval, duration);
    }
  }

  lemma {:induction false} NoValues(n: nat, interval: real, duration: Option<real>)
    ensures ValuesBefore([], n, interval, duration) == 0.0
  {
    if n > 0 {
      NoValues(n - 1, interval, duration);
    }
  }

  // ---- in the point's own fields ----

  lemma QuotientBack(x: real, d: real)
    requires d > 0.0
    ensures Times(x / d, d) == x
  {
  }

  lemma PartIs(p: Point, length: real)
    ensures OriginalEnd(p) > Begin(p) ==> Times(Part(p, length), OriginalEnd(p) - Begin(p)) == Times(Count(p), length)
    ensures p.count <= 0.0 ==> Part(p, length) == 0.0
  {
    var d := OriginalEnd(p) - Begin(p);
    if d > 0.0 {
      QuotientBack(Times(Count(p), length), d);
    }
    if p.count <= 0.0 {
      TimesZero(Count(p), length);
    }
  }

  /** A point that is over before zero, has no length or no count, or begins after the limit, counts
      nowhere. Any other point gives a bucket its count, in proportion to the part of its time after
      zero that falls into the bucket before the limit; and all buckets together its count, in
      proportion to the part before the limit. */
  lemma PointIs(p: Point, k: nat, interval: real, duration: Option<real>)
    requires interval > 0.0
    ensures var begin := Max(p.begin, 0.0);
            var end := if duration.Some? then Min(p.end, duration.value) else p.end;
            var low, high := Max(begin, Times(k as real, interval)), Min(end, Times((k + 1) as real, interval));
            if end <= begin || p.count <= 0.0
            then Share(p, k, interval, duration) == 0.0 == Mass(p, duration)
            else && Times(Share(p, k, interval, duration), p.end - begin) == Times(p.count, Max(high - low, 0.0))
                 && Times(Mass(p, duration), p.end - begin) == Times(p.count, end - begin)
  {
    StartNext(k, interval);
    var start := StartOf(k, interval);
    PartIs(p, Overlap(Begin(p), End(p, duration), start, start + interval));
    PartIs(p, End(p, duration) - Begin(p));
    hide Times, Part;
    assert StartOf(k, interval) == Times(k as real, interval) && StartOf(k + 1, interval) ==
                                                                 Times((k + 1) as real, interval);
  }

  /** A point within the limit counts in full. */
  lemma WholePoint(p: Point, duration: Option<real>)
    requires 0.0 <= p.begin < p.end && p.count >= 0.0 && (duration.Some? ==> duration.value >= p.end)
    ensures Mass(p, duration) == p.count
  {
    PointIs(p, 0, 1.0, duration);
    if p.count > 0.0 {
      QuotientSame(Mass(p, duration), p.count, p.end - p.begin);
    }
  }

  lemma QuotientSame(x: real, y: real, d: real)
    requires d > 0.0 && Times(x, d) == Times(y, d)
    ensures x == y
  {
    if x < y {
      TimesOrder(x, y, d);
    } else if y < x {
      TimesOrder(y, x, d);
    }
  }

  // ---- the loops ----

  function At(buckets: map<nat, real>, k: nat): real {
    if k in buckets then buckets[k] else 0.0
  }

  /** The bucket a point starts in. */
  lemma FirstBucket(begin: real, interval: real) returns (k: nat)
    requires begin >= 0.0 && interval > 0.0
    ensures k == (begin / interval).Floor && StartOf(k, interval) <= begin < StartOf(k, interval) + interval
  {
    var q := begin / interval;
    assert q >= 0.0;
    k := q.Floor;
    Bracket(q, k, begin, interval);
  }

  lemma Bracket(q: real, k: nat, begin: real, interval: real)
    requires interval > 0.0 && q == begin / interval && k as real <= q < k as real + 1.0
    ensures StartOf(k, interval) <= begin < StartOf(k, interval) + interval
  {
    assert Times(q, interval) == begin;
    TimesOrder(k as real, q, interval);
    TimesOrder(q, (k + 1) as real, interval);
    StartNext(k, interval);
  }

  /** Outside the buckets that the loop visits a point has no share. */
  lemma OutsideNoShare(p: Point, k: nat, first: nat, last: nat, interval: real, duration: Option<real>)
    requires interval > 0.0 && Counts(p, duration) && StartOf(first, interval) <= Begin(p)
    requires StartOf(last, interval) >= End(p, duration) && (k < first || k >= last)
    ensures Share(p, k, interval, duration) == 0.0
  {
    PartAdds(p, 0.0, 0.0);
    hide Part, StartOf;
    if k < first {
      StartGrows(k + 1, first, interval);
      StartNext(k, interval);
    } else {
      StartGrows(last, k, interval);
    }
  }

  /** One point's count, spread over the buckets it overlaps. */
  method Spread(buckets0: map<nat, real>, p: Point, interval: real, duration: Option<real>)
      returns (buckets: map<nat, real>, ghost last: nat)
    requires interval > 0.0 && Counts(p, duration)
    ensures forall k :: At(buckets, k) == At(buckets0, k) + Share(p, k, interval, duration)
    ensures buckets0.Keys <= buckets.Keys && forall k :: k in buckets && k !in buckets0 ==> k < last
    ensures StartOf(last, interval) >= End(p, duration)
  {
    buckets := buckets0;
    ghost var first := FirstBucket(Begin(p), interval);
    var k: nat := (Begin(p) / interval).Floor;
    var start := StartOf(k, interval);
    hide Share, Counts, StartOf;
    while start < End(p, duration)
      invariant first <= k && start == StartOf(k, interval)
      invariant forall j: nat :: At(buckets, j) == At(buckets0, j) + if first <= j < k
          then Share(p, j, interval, duration) else 0.0
      invariant buckets0.Keys <= buckets.Keys && forall j :: j in buckets && j !in buckets0 ==> j < k
      decreases BucketsLeft(k, interval, End(p, duration))
    {
      var next := start + interval;
      var overlap := Overlap(Begin(p), End(p, duration), start, next);
      ShareIs(p, k, interval, duration);
      if overlap != 0.0 {
        buckets := buckets[k := At(buckets, k) + Part(p, overlap)];
      }
      LessLeft(k, interval, End(p, duration));
      StartNext(k, interval);
      start := next;
      k := k + 1;
    }
    last := k;
    forall j: nat
      ensures At(buckets, j) == At(buckets0, j) + Share(p, j, interval, duration)
    {
      if !(first <= j < k) {
        OutsideNoShare(p, j, first, k, interval, duration);
      }
    }
  }

  lemma ShareIs(p: Point, k: nat, interval: real, duration: Option<real>)
    requires Counts(p, duration)
    ensures var overlap := Overlap(Begin(p), End(p, duration), StartOf(k, interval), StartOf(k, interval) + interval);
            Share(p, k, interval, duration) == Part(p, overlap) && Part(p, 0.0) == 0.0
  {
    PartAdds(p, 0.0, 0.0);
  }

  /** How many buckets still start before the end. */
  ghost function BucketsLeft(k: nat, interval: real, end: real): nat
    requires interval > 0.0
  {
    var n := (end / interval).Floor + 1 - k;
    if n > 0 then n else 0
  }

  lemma LessLeft(k: nat, interval: real, end: real)
    requires interval > 0.0 && StartOf(k, interval) < end
    ensures BucketsLeft(k + 1, interval, end) < BucketsLeft(k, interval, end)
  {
    var q := end / interval;
    assert Times(q, interval) == end;
    TimesOrder(q, k as real, interval);
  }

  /** All points: every bucket holds the sum of the counts weighted by overlap, and all buckets
      together hold the counts scaled by the fraction before the limit. */
  method AggregateDetectorCounts(points: seq<Point>, interval: real, duration: Option<real>) returns (rows: seq<Row>)
    requires interval > 0.0
    ensures forall i :: 0 <= i < |rows| ==> rows[i].count == Value(points, rows[i].bucket, interval, duration)
    ensures forall i, j :: 0 <= i < j < |rows| ==> rows[i].bucket < rows[j].bucket
    ensures forall k ::
        (forall i :: 0 <= i < |rows| ==> rows[i].bucket != k) ==> Value(points, k, interval, duration) == 0.0
    ensures RowTotal(rows) == TotalMass(points, duration)
  {
    var buckets: map<nat, real> := map[];
    ghost var n: nat := 0;
    hide Share, Mass, StartOf, Counts, Part;
    for i := 0 to |points|
      invariant forall k :: At(buckets, k) == Value(points[..i], k, interval, duration)
      invariant forall k :: k in buckets ==> k < n
      invariant forall p :: p in points[..i] && Counts(p, duration) ==> StartOf(n, interval) >= End(p, duration)
    {
      var p := points[i];
      assert points[..i + 1] == points[..i] + [p] && points[..i + 1][..i] == points[..i];
      if Skipped(p, duration) {
        SkippedIs(p, duration);
        NoShareOf(p, interval, duration);
        continue;
      }
      SkippedIs(p, duration);
      ghost var last: nat;
      buckets, last := Spread(buckets, p, interval, duration);
      ghost var m: nat := if last > n then last else n;
      StartGrows(n, m, interval);
      StartGrows(last, m, interval);
      n := m;
    }
    assert points[..|points|] == points;
    rows := SortedRows(buckets, n);
    AllConserved(points, n, interval, duration);
    RowsAreValues(buckets, points, n, interval, duration);
    RowsOrdered(buckets, n);
    RowsTotal(buckets, n);
    RowsHold(buckets, points, n, interval, duration);
  }

  lemma RowsHold(buckets: map<nat, real>, points: seq<Point>, n: nat, interval: real, duration: Option<real>)
    requires (forall k :: At(buckets, k) == Value(points, k, interval, duration)) && forall k :: k in buckets ==> k < n
    ensures var rows := RowsOf(buckets, n);
            && (forall i :: 0 <= i < |rows| ==> rows[i].count == Value(points, rows[i].bucket, interval, duration))
            && (forall k ::
                (forall i :: 0 <= i < |rows| ==> rows[i].bucket != k) ==> Value(points, k, interval, duration) == 0.0)
  {
    hide Value;
    var rows := RowsOf(buckets, n);
    forall i | 0 <= i < |rows|
      ensures rows[i].count == Value(points, rows[i].bucket, interval, duration)
    {
      assert rows[i] in rows && At(buckets, rows[i].bucket) == rows[i].count;
    }
    forall k: nat | forall i :: 0 <= i < |rows| ==> rows[i].bucket != k
      ensures Value(points, k, interval, duration) == 0.0
    {
      assert Row(k, At(buckets, k)) in rows <==> k in buckets;
      assert At(buckets, k) == Value(points, k, interval, duration);
    }
  }

  /** The two tests on a point, one before and one after the cut. */
  predicate Skipped(p: Point, duration: Option<real>) {
    (duration.Some? && Begin(p) >= duration.value) || OriginalEnd(p) - Begin(p) <= 0.0 || End(p, duration) <= Begin(p)
  }

  lemma SkippedIs(p: Point, duration: Option<real>)
    ensures Skipped(p, duration) <==> !Counts(p, duration)
  {
  }

  lemma NoShareOf(p: Point, interval: real, duration: Option<real>)
    requires !Counts(p, duration)
    ensures forall k :: Share(p, k, interval, duration) == 0.0
  {
  }

  function RowTotal(rows: seq<Row>): real
    decreases |rows|
  {
    if rows == [] then 0.0 else RowTotal(rows[..|rows| - 1]) + rows[|rows| - 1].count
  }

  ghost function BucketTotal(buckets: map<nat, real>, n: nat): real {
    if n == 0 then 0.0 else BucketTotal(buckets, n - 1) + At(buckets, n - 1)
  }

  /** The buckets before n, in order. */
  function RowsOf(buckets: map<nat, real>, n: nat): (r: seq<Row>)
    ensures forall row :: row in r <==> row.bucket < n && row.bucket in buckets && row.count == buckets[row.bucket]
  {
    if n == 0 then [] else RowsOf(buckets, n - 1) + if n - 1 in buckets then [Row(n - 1, buckets[n - 1])] else []
  }

  lemma {:induction false} RowsOrdered(buckets: map<nat, real>, n: nat)
    ensures forall i, j ::
        0 <= i < j < |RowsOf(buckets, n)| ==> RowsOf(buckets, n)[i].bucket < RowsOf(buckets, n)[j].bucket
  {
    if n > 0 {
      RowsOrdered(buckets, n - 1);
      var front := RowsOf(buckets, n - 1);
      assert forall i :: 0 <= i < |front| ==> front[i] in front;
    }
  }

  lemma {:induction false} RowsTotal(buckets: map<nat, real>, n: nat)
    ensures RowTotal(RowsOf(buckets, n)) == BucketTotal(buckets, n)
  {
    if n > 0 {
      RowsTotal(buckets, n - 1);
      var front, rows := RowsOf(buckets, n - 1), RowsOf(buckets, n);
      if n - 1 in buckets {
        assert rows[..|rows| - 1] == front;
      } else {
        assert rows == front;
      }
    }
  }

  lemma {:induction false} NothingBeyond(buckets: map<nat, real>, k: nat, n: nat)
    requires k <= n && forall j :: j in buckets ==> j < k
    ensures RowsOf(buckets, n) == RowsOf(buckets, k)
    decreases n
  {
    if k < n {
      NothingBeyond(buckets, k, n - 1);
      assert RowsOf(buckets, n - 1) + [] == RowsOf(buckets, n - 1);
    }
  }

  method SortedRows(buckets: map<nat, real>, ghost n: nat) returns (rows: seq<Row>)
    requires forall k :: k in buckets ==> k < n
    ensures rows == RowsOf(buckets, n)
  {
    rows := [];
    var left := buckets.Keys;
    var k := 0;
    while left != {}
      invariant k <= n && left == set j | j in buckets && j >= k
      invariant rows == RowsOf(buckets, k)
      decreases n - k
    {
      ghost var some :| some in left;
      if k in buckets {
        rows := rows + [Row(k, buckets[k])];
        left := left - {k};
      }
      k := k + 1;
    }
    assert forall j :: j in buckets && j >= k ==> j in left;
    NothingBeyond(buckets, k, n);
  }

  lemma {:induction false} RowsAreValues(buckets: map<nat, real>, points: seq<Point>, n: nat, interval: real,
                                         duration: Option<real>)
    requires forall k :: At(buckets, k) == Value(points, k, interval, duration)
    ensures BucketTotal(buckets, n) == ValuesBefore(points, n, interval, duration)
  {
    if n > 0 {
      RowsAreValues(buckets, points, n - 1, interval, duration);
    }
  }
}
