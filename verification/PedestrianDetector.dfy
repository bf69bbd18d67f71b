/** The detector object, and the intervals it writes
    (backend/sumo/controller/fast_pedestrian_detector.py). */
module PedestrianDetector {
  import opened Wrappers
  import opened LinearAlgebra
  import opened PedestrianModel
  import opened PedestrianCounting
  import ProjectionProofs

  datatype Row = Row(id: string, begin: real, end: real, count: nat)

  ghost function SumRows(rows: seq<Row>): nat {
    if rows == [] then 0 else SumRows(rows[..|rows| - 1]) + rows[|rows| - 1].count
  }

  lemma {:induction false} SumRowsAppend(a: seq<Row>, b: seq<Row>)
    ensures SumRows(a + b) == SumRows(a) + SumRows(b)
  {
    if b == [] {
      assert a + b == a;
    } else {
      assert (a + b)[..|a + b| - 1] == a + b[..|b| - 1];
      SumRowsAppend(a, b[..|b| - 1]);
    }
  }

  // ---- which buckets a zone's intervals cover ----

  lemma KeyAtInjective(z: Zone, j: int, k: int)
    requires z.period > 0.0 && KeyAt(z, j) == KeyAt(z, k)
    ensures j == k
  {
    hide Times;
    ProjectionProofs.GridOrder(j, k, z.period);
    ProjectionProofs.GridOrder(k, j, z.period);
  }

  ghost predicate KeyBetween(key: Key, z: Zone, lo: int, hi: int) {
    exists k :: lo <= k < hi && key == KeyAt(z, k)
  }

  ghost function Window(b: map<Key, Bucket>, z: Zone, lo: int, hi: int): map<Key, Bucket> {
    map key | key in b && KeyBetween(key, z, lo, hi) :: b[key]
  }

  lemma WindowStep(b: map<Key, Bucket>, z: Zone, lo: int, hi: int)
    requires z.period > 0.0 && lo <= hi
    ensures Total(Window(b, z, lo, hi + 1)) == Total(Window(b, z, lo, hi)) + CountAt(b, KeyAt(z, hi))
  {
    hide Total, KeyAt;
    var narrow, wide, key := Window(b, z, lo, hi), Window(b, z, lo, hi + 1), KeyAt(z, hi);
    forall k | lo <= k < hi
      ensures KeyAt(z, k) != key
    {
      if KeyAt(z, k) == key {
        KeyAtInjective(z, k, hi);
      }
    }
    assert key !in narrow;
    if key in b {
      assert wide == narrow[key := b[key]];
      TotalUpdate(narrow, key, b[key]);
    } else {
      assert wide == narrow;
    }
  }

  lemma UnionRemove(a: map<Key, Bucket>, b: map<Key, Bucket>, k: Key)
    requires k in a && k !in b
    ensures k in a + b && (a + b)[k] == a[k] && (a + b) - {k} == (a - {k}) + b
  {
  }

  lemma {:induction false} TotalDisjoint(a: map<Key, Bucket>, b: map<Key, Bucket>)
    requires a.Keys !! b.Keys
    ensures Total(a + b) == Total(a) + Total(b)
    decreases |a|
  {
    if a == map[] {
      assert a + b == b;
      assert Total(a) == 0;
    } else {
      hide *;
      var k :| k in a;
      assert k !in b;
      RemoveShrinks(a, k);
      UnionRemove(a, b, k);
      TotalDisjoint(a - {k}, b);
      TotalRemove(a, k);
      TotalRemove(a + b, k);
    }
  }

  // ---- the window of a run ----

  /** The first interval a zone writes. */
  function First(z: Zone, begin: real): int
    requires z.period > 0.0
  {
    PeriodIndex(begin, z.period)
  }

  ghost predicate Covered(key: Key, z: Zone, begin: real, end: real)
    requires z.period > 0.0
  {
    exists k :: First(z, begin) <= k && Times(k as real, z.period) < end && key == KeyAt(z, k)
  }

  ghost predicate CoveredByAny(key: Key, zones: seq<Zone>, n: nat, begin: real, end: real)
    requires ValidZones(zones) && n <= |zones|
  {
    exists i :: 0 <= i < n && Covered(key, zones[i], begin, end)
  }

  ghost function CoveredBuckets(b: map<Key, Bucket>, zones: seq<Zone>, n: nat, begin: real, end: real): map<Key, Bucket>
    requires ValidZones(zones) && n <= |zones|
  {
    map key | key in b && CoveredByAny(key, zones, n, begin, end) :: b[key]
  }

  lemma CoveredStep(b: map<Key, Bucket>, zones: seq<Zone>, n: nat, begin: real, end: real, own: map<Key, Bucket>)
    requires ValidZones(zones) && n < |zones|
    requires own == map key | key in b && Covered(key, zones[n], begin, end) :: b[key]
    ensures Total(CoveredBuckets(b, zones, n + 1, begin, end)) ==
        Total(CoveredBuckets(b, zones, n, begin, end)) + Total(own)
  {
    var before, after := CoveredBuckets(b, zones, n, begin, end), CoveredBuckets(b, zones, n + 1, begin, end);
    forall key | key in before
      ensures key !in own
    {
      var i :| 0 <= i < n && Covered(key, zones[i], begin, end);
      assert key.id == zones[i].id;
    }
    assert after == before + own;
    TotalDisjoint(before, own);
  }

  /** The written counts add up to all recorded entries exactly when every bucket starts
      inside the written window. */
  lemma WrittenIsTotalIff(b: map<Key, Bucket>, zones: seq<Zone>, begin: real, end: real)
    requires ValidZones(zones) && forall key :: key in b ==> b[key].count > 0
    ensures Total(CoveredBuckets(b, zones, |zones|, begin, end)) == Total(b)
       <==> forall key :: key in b ==> CoveredByAny(key, zones, |zones|, begin, end)
  {
    var inside := CoveredBuckets(b, zones, |zones|, begin, end);
    var outside := map key | key in b && key !in inside :: b[key];
    assert b == inside + outside;
    TotalDisjoint(inside, outside);
    if outside == map[] {
      assert forall key :: key in b ==> key in inside;
    } else {
      var key :| key in outside;
      TotalRemove(outside, key);
      assert key in b && !CoveredByAny(key, zones, |zones|, begin, end);
    }
  }

  /** Entries recorded at times in [begin, end) land in covered buckets. */
  lemma RecordedIsCovered(zones: seq<Zone>, z: Zone, t: real, begin: real, end: real)
    requires ValidZones(zones) && z in zones && begin <= t < end
    ensures CoveredByAny(KeyAt(z, PeriodIndex(t, z.period)), zones, |zones|, begin, end)
  {
    var i :| 0 <= i < |zones| && zones[i] == z;
    var k := PeriodIndex(t, z.period);
    FloorOrder(begin, t, z.period);
    assert Covered(KeyAt(z, k), zones[i], begin, end);
  }

  lemma FloorOrder(s: real, t: real, period: real)
    requires period > 0.0 && s <= t
    ensures PeriodIndex(s, period) <= PeriodIndex(t, period)
    ensures Times(PeriodIndex(t, period) as real, period) <= t
  {
    DivideBack(period, t);
    assert s / period <= t / period by {
      QuotientOrder(s, t, period);
    }
    TimesOrder(PeriodIndex(t, period) as real, t / period, period);
  }

  lemma QuotientOrder(s: real, t: real, period: real)
    requires period > 0.0 && s <= t
    ensures s / period <= t / period
  {
    if s / period > t / period {
      TimesOrder(t / period, s / period, period);
      DivideBack(period, s);
      DivideBack(period, t);
    }
  }

  /** Every bucket is counted and covered: what holds while all observation times stay in
      [begin, end). */
  ghost predicate AllCovered(b: map<Key, Bucket>, zones: seq<Zone>, begin: real, end: real)
    requires ValidZones(zones)
  {
    forall key :: key in b ==> b[key].count > 0 && CoveredByAny(key, zones, |zones|, begin, end)
  }

  lemma {:induction false} RecordAllCovered(b: map<Key, Bucket>, zones: seq<Zone>, list: seq<Zone>, t: real,
                                              before: Option<Position>, was: set<string>, now: Position, begin: real,
                                                  end: real)
    requires ValidZones(zones) && (forall z :: z in list ==> z in zones) && begin <= t < end
        && AllCovered(b, zones, begin, end)
    ensures AllCovered(RecordAll(b, list, t, before, was, now), zones, begin, end)
    decreases |list|
  {
    if list != [] {
      var front, last := list[..|list| - 1], list[|list| - 1];
      assert last in list && last in zones;
      RecordAllCovered(b, zones, front, t, before, was, now, begin, end);
      RecordedIsCovered(zones, last, t, begin, end);
    }
  }

  lemma {:induction false} ObserveAllCovered(zones: seq<Zone>, s: State, t: real, positions: seq<(string, Position)>,
                                             begin: real, end: real)
    requires ValidZones(zones) && begin <= t < end && AllCovered(s.buckets, zones, begin, end)
    ensures AllCovered(ObserveAll(zones, s, t, positions).buckets, zones, begin, end)
    decreases |positions|
  {
    if positions != [] {
      var front, last := positions[..|positions| - 1], positions[|positions| - 1];
      ObserveAllCovered(zones, s, t, front, begin, end);
      var r := ObserveAll(zones, s, t, front);
      if last.1.stage == WALKING {
        var before, was := Get(r.previous, last.0), WasInside(r, last.0);
        RecordAllCovered(r.buckets, zones, Candidates(zones, before, last.1), t, before, was, last.1, begin, end);
      }
    }
  }

  /** After any run whose observation times lie in [begin, end), the written counts add up to
      the recorded entries. */
  lemma {:induction false} RunIsCovered(zones: seq<Zone>, samples: seq<Sample>, begin: real, end: real)
    requires ValidZones(zones) && forall i :: 0 <= i < |samples| ==> begin <= samples[i].time < end
    ensures AllCovered(ObserveRun(zones, samples).buckets, zones, begin, end)
    ensures var b :=
        ObserveRun(zones, samples).buckets; Total(CoveredBuckets(b, zones, |zones|, begin, end)) == Total(b)
    decreases |samples|
  {
    if samples != [] {
      var front, last := samples[..|samples| - 1], samples[|samples| - 1];
      RunIsCovered(zones, front, begin, end);
      ObserveAllCovered(zones, Forget(ObserveRun(zones, front), Ids(last.positions)), last.time, last.positions, begin,
                        end);
    }
    WrittenIsTotalIff(ObserveRun(zones, samples).buckets, zones, begin, end);
  }

  // ---- which entries are lost, by their times ----

  /** The bucket of an entry is written exactly when its period is not before the first one and
      starts before the end. Inside the run only an entry at the very end is left out, when a
      period starts there. */
  lemma WrittenIff(zones: seq<Zone>, z: Zone, t: real, begin: real, end: real)
    requires ValidZones(zones) && z in zones
    ensures CoveredByAny(KeyAt(z, PeriodIndex(t, z.period)), zones, |zones|, begin, end)
            <==> First(z, begin) <= PeriodIndex(t, z.period) && Times(PeriodIndex(t, z.period) as real, z.period) < end
    ensures begin <= t <= end ==>
              (CoveredByAny(KeyAt(z, PeriodIndex(t, z.period)), zones, |zones|, begin, end)
               <==> !(t == end && StartsPeriod(z, t)))
  {
    var i :| 0 <= i < |zones| && zones[i] == z;
    var k := PeriodIndex(t, z.period);
    var key := KeyAt(z, k);
    hide Times;
    if First(z, begin) <= k && Times(k as real, z.period) < end {
      assert Covered(key, zones[i], begin, end);
    }
    if CoveredByAny(key, zones, |zones|, begin, end) {
      var j :| 0 <= j < |zones| && Covered(key, zones[j], begin, end);
      assert zones[j].id == z.id && zones[j] == z;
      var m :| First(z, begin) <= m && Times(m as real, z.period) < end && key == KeyAt(z, m);
      KeyAtInjective(z, k, m);
    }
    if begin <= t {
      FloorOrder(begin, t, z.period);
    }
  }

  /** A period of the zone starts at t. */
  predicate StartsPeriod(z: Zone, t: real)
    requires z.period > 0.0
  {
    Times(PeriodIndex(t, z.period) as real, z.period) == t
  }

  /** The i-th sample records an entry into z. */
  ghost predicate RecordsAt(zones: seq<Zone>, samples: seq<Sample>, i: nat, z: Zone)
    requires ValidZones(zones) && i < |samples| && z.period > 0.0
  {
    var key := KeyAt(z, PeriodIndex(samples[i].time, z.period));
    CountAt(ObserveRun(zones, samples[..i + 1]).buckets, key) > CountAt(ObserveRun(zones, samples[..i]).buckets, key)
  }

  /** From b to c, counts only rise, and only in the buckets of time t. */
  ghost predicate Rises(b: map<Key, Bucket>, c: map<Key, Bucket>, zones: seq<Zone>, t: real)
    requires forall z :: z in zones ==> z.period > 0.0
  {
    && (forall key :: key in b ==> key in c && c[key].count >= b[key].count)
    && (forall key :: key in c ==> RisesAt(b, c, zones, t, key))
  }

  ghost predicate RisesAt(b: map<Key, Bucket>, c: map<Key, Bucket>, zones: seq<Zone>, t: real, key: Key)
    requires forall z :: z in zones ==> z.period > 0.0
  {
    CountAt(c, key) == CountAt(b, key) || exists z :: z in zones && key == KeyAt(z, PeriodIndex(t, z.period))
  }

  lemma {:induction false} RecordAllRises(b: map<Key, Bucket>, zones: seq<Zone>, list: seq<Zone>, t: real,
                                          before: Option<Position>, was: set<string>, now: Position)
    requires ValidZones(zones) && (forall z :: z in list ==> z in zones)
    ensures Rises(b, RecordAll(b, list, t, before, was, now), zones, t)
    ensures forall key ::
        key in RecordAll(b, list, t, before, was, now) ==>
            key in b || RecordAll(b, list, t, before, was, now)[key].count > 0
    decreases |list|
  {
    if list != [] {
      var front, last := list[..|list| - 1], list[|list| - 1];
      assert last in list && last in zones;
      RecordAllRises(b, zones, front, t, before, was, now);
      var r, c := RecordAll(b, front, t, before, was, now), RecordAll(b, list, t, before, was, now);
      hide PeriodIndex, KeyAt, Entered;
      forall key | key in c
        ensures RisesAt(b, c, zones, t, key)
      {
        assert key in r ==> RisesAt(b, r, zones, t, key);
      }
    }
  }

  /** From s to r, counts only rise, and only in the buckets of time t; new buckets are not
      empty. */
  ghost predicate Observes(b: map<Key, Bucket>, c: map<Key, Bucket>, zones: seq<Zone>, t: real)
    requires forall z :: z in zones ==> z.period > 0.0
  {
    Rises(b, c, zones, t) && forall key :: key in c ==> key in b || c[key].count > 0
  }

  lemma ObservesTrans(a: map<Key, Bucket>, b: map<Key, Bucket>, c: map<Key, Bucket>, zones: seq<Zone>, t: real)
    requires forall z :: z in zones ==> z.period > 0.0
    requires Observes(a, b, zones, t) && Observes(b, c, zones, t)
    ensures Observes(a, c, zones, t)
  {
    hide PeriodIndex, KeyAt;
    forall key | key in c
      ensures RisesAt(a, c, zones, t, key)
    {
      assert RisesAt(b, c, zones, t, key);
      assert key in b ==> RisesAt(a, b, zones, t, key);
    }
  }

  lemma {:induction false} ObserveAllRises(zones: seq<Zone>, s: State, t: real, positions: seq<(string, Position)>)
    requires ValidZones(zones)
    ensures Observes(s.buckets, ObserveAll(zones, s, t, positions).buckets, zones, t)
    decreases |positions|
  {
    if positions != [] {
      var front, last := positions[..|positions| - 1], positions[|positions| - 1];
      ObserveAllRises(zones, s, t, front);
      var r := ObserveAll(zones, s, t, front);
      if last.1.stage == WALKING {
        var before, was := Get(r.previous, last.0), WasInside(r, last.0);
        RecordAllRises(r.buckets, zones, Candidates(zones, before, last.1), t, before, was, last.1);
        hide RecordAll, Rises;
        ObservesTrans(s.buckets, r.buckets, ObserveAll(zones, s, t, positions).buckets, zones, t);
      }
    }
  }

  /** The entries in the bucket were recorded by some sample. */
  ghost predicate Sourced(zones: seq<Zone>, samples: seq<Sample>, key: Key)
    requires ValidZones(zones)
  {
    exists i: nat, z :: i < |samples| && z in zones && RecordsAt(zones, samples, i, z)
                        && key == KeyAt(z, PeriodIndex(samples[i].time, z.period))
  }

  lemma SourcedBefore(zones: seq<Zone>, samples: seq<Sample>, key: Key)
    requires ValidZones(zones) && samples != [] && Sourced(zones, samples[..|samples| - 1], key)
    ensures Sourced(zones, samples, key)
  {
    var front := samples[..|samples| - 1];
    hide PeriodIndex, KeyAt, ObserveRun, ValidZones, CountAt;
    var i: nat, z :| i < |front| && z in zones && RecordsAt(zones, front, i, z)
        && key == KeyAt(z, PeriodIndex(front[i].time, z.period));
    assert front[..i] == samples[..i] && front[..i + 1] == samples[..i + 1];
    assert RecordsAt(zones, samples, i, z);
  }

  /** Every bucket of a run is counted and was recorded by a sample of its period. */
  lemma {:induction false} RunIsSourced(zones: seq<Zone>, samples: seq<Sample>)
    requires ValidZones(zones)
    ensures forall key :: key in ObserveRun(zones, samples).buckets ==>
              ObserveRun(zones, samples).buckets[key].count > 0 && Sourced(zones, samples, key)
    decreases |samples|
  {
    if samples != [] {
      var n := |samples| - 1;
      var front, last := samples[..n], samples[n];
      RunIsSourced(zones, front);
      var r, b := ObserveRun(zones, front), ObserveRun(zones, samples).buckets;
      ObserveAllRises(zones, Forget(r, Ids(last.positions)), last.time, last.positions);
      assert Observes(r.buckets, b, zones, last.time);
      hide PeriodIndex, KeyAt, ObserveRun, ValidZones;
      forall key | key in b
        ensures b[key].count > 0 && Sourced(zones, samples, key)
      {
        if key in r.buckets {
          SourcedBefore(zones, samples, key);
        } else {
          assert RisesAt(r.buckets, b, zones, last.time, key);
          var z :| z in zones && key == KeyAt(z, PeriodIndex(last.time, z.period));
          assert samples[..n + 1] == samples;
          assert RecordsAt(zones, samples, n, z);
        }
      }
    }
  }

  /** Buckets are never dropped. */
  lemma {:induction false} RunKeeps(zones: seq<Zone>, samples: seq<Sample>, i: nat)
    requires ValidZones(zones) && i <= |samples|
    ensures forall key :: key in ObserveRun(zones, samples[..i]).buckets ==> key in ObserveRun(zones, samples).buckets
    decreases |samples|
  {
    if i < |samples| {
      var front, last := samples[..|samples| - 1], samples[|samples| - 1];
      RunKeeps(zones, front, i);
      assert front[..i] == samples[..i];
      ObserveAllRises(zones, Forget(ObserveRun(zones, front), Ids(last.positions)), last.time, last.positions);
    } else {
      assert samples[..i] == samples;
    }
  }

  /** The i-th sample falls on the end, where a period of z starts, and records an entry into z. */
  ghost predicate LosesAt(zones: seq<Zone>, samples: seq<Sample>, i: nat, z: Zone, end: real)
    requires ValidZones(zones) && i < |samples| && z.period > 0.0
  {
    samples[i].time == end && StartsPeriod(z, end) && RecordsAt(zones, samples, i, z)
  }

  lemma LostIsUncovered(zones: seq<Zone>, samples: seq<Sample>, begin: real, end: real, i: nat, z: Zone)
    requires ValidZones(zones) && i < |samples| && z in zones && begin <= end && LosesAt(zones, samples, i, z, end)
    ensures var key := KeyAt(z, PeriodIndex(end, z.period));
            key in ObserveRun(zones, samples).buckets && !CoveredByAny(key, zones, |zones|, begin, end)
  {
    hide ObserveRun, PeriodIndex, CoveredByAny, KeyAt;
    RunKeeps(zones, samples, i + 1);
    WrittenIff(zones, z, end, begin, end);
  }

  lemma UncoveredIsLost(zones: seq<Zone>, samples: seq<Sample>, begin: real, end: real, key: Key)
    requires ValidZones(zones) && (forall i :: 0 <= i < |samples| ==> begin <= samples[i].time <= end)
    requires Sourced(zones, samples, key) && !CoveredByAny(key, zones, |zones|, begin, end)
    ensures exists i, z :: 0 <= i < |samples| && z in zones && LosesAt(zones, samples, i, z, end)
  {
    hide ObserveRun, PeriodIndex, CoveredByAny, KeyAt, RecordsAt, StartsPeriod;
    var i: nat, z :| i < |samples| && z in zones && RecordsAt(zones, samples, i, z)
                     && key == KeyAt(z, PeriodIndex(samples[i].time, z.period));
    WrittenIff(zones, z, samples[i].time, begin, end);
    assert LosesAt(zones, samples, i, z, end);
  }

  /** The written counts of a run add up to all its entries exactly when no entry falls on the
      very end of the run and on the start of a period of its zone. */
  lemma RunIsWrittenIff(zones: seq<Zone>, samples: seq<Sample>, begin: real, end: real)
    requires ValidZones(zones) && forall i :: 0 <= i < |samples| ==> begin <= samples[i].time <= end
    ensures var b := ObserveRun(zones, samples).buckets;
            Total(CoveredBuckets(b, zones, |zones|, begin, end)) == Total(b)
            <==> forall i, z :: 0 <= i < |samples| && z in zones ==> !LosesAt(zones, samples, i, z, end)
  {
    hide ObserveRun, Total, CoveredBuckets, CoveredByAny, Sourced, KeyAt, PeriodIndex;
    var b := ObserveRun(zones, samples).buckets;
    RunIsSourced(zones, samples);
    WrittenIsTotalIff(b, zones, begin, end);
    if i, z :| 0 <= i < |samples| && z in zones && LosesAt(zones, samples, i, z, end) {
      LostIsUncovered(zones, samples, begin, end, i, z);
    }
    if key :| key in b && !CoveredByAny(key, zones, |zones|, begin, end) {
      UncoveredIsLost(zones, samples, begin, end, key);
    }
  }

  /** Such an entry, for a writer that is told an end that is no later than the observation: a
      walker first seen inside the zone at time 900 is counted, and no interval before 900 covers
      it. */
  lemma EntryAtEndIsLost(z: Zone, p: Position)
    requires z.period == 900.0 && z.start < z.end && InZone(z, p) && p.stage == WALKING
    ensures var b := ObserveRun([z], [Sample(900.0, [("walker", p)])]).buckets;
            Total(b) == 1 && Total(CoveredBuckets(b, [z], 1, 0.0, 900.0)) == 0
  {
    var zones, sample := [z], Sample(900.0, [("walker", p)]);
    var s := ObserveRun(zones, [sample]);
    assert [sample][..0] == [];
    assert sample.positions[..0] == [];
    assert OnEdge(zones, p.road) == [z] by {
      assert zones[1..] == [];
    }
    assert Candidates(zones, None, p) == [z];
    assert [z][..0] == [];
    assert PeriodIndex(900.0, 900.0) == 1;
    var key := KeyAt(z, 1);
    var recorded := map[key := Bucket(1, Max(p.speed, 0.0))];
    assert RecordAll(map[], [z], 900.0, None, {}, p) == recorded;
    assert Forget(EMPTY, Ids(sample.positions)) == EMPTY;
    assert ObserveAll(zones, EMPTY, 900.0, sample.positions) == ObservePerson(zones, EMPTY, 900.0, "walker", p);
    assert s == Observe(zones, ObserveRun(zones, []), 900.0, sample.positions);
    assert s.buckets == recorded;
    TotalRemove(recorded, key);
    assert recorded - {key} == map[];
    forall k: int | KeyAt(z, k) == key
      ensures k == 1
    {
      KeyAtInjective(z, k, 1);
    }
    assert !CoveredByAny(key, zones, 1, 0.0, 900.0);
    assert CoveredBuckets(recorded, zones, 1, 0.0, 900.0) == map[];
  }

  // ---- the object ----

  /** The interval of period k, cut off at the end of the run. */
  function ZoneRow(b: map<Key, Bucket>, z: Zone, k: int, end: real): Row {
    var begin := Times(k as real, z.period);
    Row(z.id, begin, Min(begin + z.period, end), CountAt(b, KeyAt(z, k)))
  }

  class FastPedestrianDetector {
    const zones: seq<Zone>
    var previous: map<string, Position>
    var inside: map<string, set<string>>
    var buckets: map<Key, Bucket>
    var lastTime: real

    constructor (zones: seq<Zone>)
      ensures this.zones == zones && View() == EMPTY
    {
      this.zones := zones;
      previous, inside, buckets, lastTime := map[], map[], map[], 0.0;
    }

    ghost function View(): State
      reads this
    {
      State(previous, inside, buckets, lastTime)
    }

    method RecordEntry(z: Zone, t: real, speed: real)
      requires z.period > 0.0
      modifies this`buckets
      ensures buckets == Recorded(old(buckets), z, t, speed)
    {
      var begin := Times((t / z.period).Floor as real, z.period);
      var key := Key(z.id, begin, begin + z.period);
      if key !in buckets {
        buckets := buckets[key := Bucket(0, 0.0)];
      }
      buckets := buckets[key := Bucket(buckets[key].count + 1, buckets[key].speedSum + Max(speed, 0.0))];
    }

    /** One zone for one walker: is it inside, and record an entry if it has just come in or
        has jumped over. */
    method CheckZone(z: Zone, t: real, before: Option<Position>, was: set<string>, now: Position)
        returns (isInside: bool)
      requires z.period > 0.0
      modifies this`buckets
      ensures isInside == InZone(z, now)
      ensures buckets == if Entered(z, before, was, now) then Recorded(old(buckets), z, t, now.speed) else old(buckets)
    {
      isInside := now.road == z.edge && z.start <= now.at <= z.end;
      var entered := isInside && z.id !in was;
      if !entered && before.Some? && before.value.road == z.edge && now.road == z.edge && z.id !in was {
        entered := Min(before.value.at, now.at) < z.start && Max(before.value.at, now.at) > z.end;
      }
      if entered {
        RecordEntry(z, t, now.speed);
      }
    }

    /** Every looked-at zone in turn; returns the zones the walker is inside. */
    method CheckZones(looked: seq<Zone>, t: real, before: Option<Position>, was: set<string>, now: Position)
        returns (currently: set<string>)
      requires forall z :: z in looked ==> z.period > 0.0
      modifies this`buckets
      ensures currently == InsideIds(looked, now)
      ensures buckets == RecordAll(old(buckets), looked, t, before, was, now)
    {
      hide Recorded, Entered, InZone;
      currently := {};
      for i := 0 to |looked|
        invariant currently == InsideIds(looked[..i], now)
        invariant buckets == RecordAll(old(buckets), looked[..i], t, before, was, now)
      {
        var z := looked[i];
        assert looked[..i + 1] == looked[..i] + [z];
        assert looked[..i + 1][..i] == looked[..i];
        var isInside := CheckZone(z, t, before, was, now);
        if isInside {
          currently := currently + {z.id};
        }
      }
      assert looked[..|looked|] == looked;
    }

    /** One walker: every zone on the current or the previous edge is checked for being
        inside, and for an entry. */
    method ObserveWalker(t: real, id: string, now: Position)
      requires ValidZones(zones) && now.stage == WALKING
      modifies this
      ensures View() == ObservePerson(zones, old(View()), t, id, now)
    {
      var before, was := Get(previous, id), if id in inside then inside[id] else {};
      var currently := CheckZones(Candidates(zones, before, now), t, before, was, now);
      previous := previous[id := now];
      inside := inside[id := currently];
    }

    method Observe(t: real, positions: seq<(string, Position)>)
      requires ValidZones(zones)
      modifies this
      ensures View() == PedestrianModel.Observe(zones, old(View()), t, positions)
    {
      var gone := previous.Keys - set p | p in positions :: p.0;
      previous, inside := previous - gone, inside - gone;
      ghost var start := View();
      for i := 0 to |positions|
        invariant View() == ObserveAll(zones, start, t, positions[..i])
      {
        assert positions[..i + 1][..i] == positions[..i];
        var (id, now) := positions[i];
        if now.stage != WALKING {
          previous, inside := previous - {id}, inside - {id};
        } else {
          ObserveWalker(t, id, now);
        }
      }
      assert positions[..|positions|] == positions;
      lastTime := Max(lastTime, t);
    }

    method TakeSnapshot() returns (c: Snapshot)
      ensures c == PedestrianModel.TakeSnapshot(View())
    {
      c := Snapshot(previous, inside, buckets, lastTime);
    }

    method Restore(c: Snapshot)
      modifies this
      ensures View() == RestoreSnapshot(c)
    {
      previous := map id | id in c.previous :: ReadPosition(c.previous[id]);
      inside, buckets, lastTime := c.inside, c.buckets, c.lastTime;
    }

    /** The intervals of one zone, from the period containing begin up to end. */
    method WriteZone(z: Zone, begin: real, end: real) returns (rows: seq<Row>)
      requires z.period > 0.0
      ensures SumRows(rows) == Total(map key | key in buckets && Covered(key, z, begin, end) :: buckets[key])
      ensures forall i :: 0 <= i < |rows| ==> rows[i] == ZoneRow(buckets, z, First(z, begin) + i, end)
    {
      rows := [];
      ghost var k := First(z, begin);
      var start := Times((begin / z.period).Floor as real, z.period);
      EmptyWindow(buckets, z, k);
      assert Written(rows, buckets, z, begin, end, k);
      while start < end
        invariant Written(rows, buckets, z, begin, end, k) && start == Times(k as real, z.period)
        decreases (end / z.period).Floor - k
      {
        hide *;
        var key := Key(z.id, start, start + z.period);
        var count := if key in buckets then buckets[key].count else 0;
        WrittenStep(rows, buckets, z, begin, end, k, start, key, count);
        rows := rows + [Row(z.id, start, Min(start + z.period, end), count)];
        PeriodsLeft(k, z.period, end);
        ProjectionProofs.GridOrder(k, k, z.period);
        start := start + z.period;
        k := k + 1;
      }
      WindowIsCovered(buckets, z, begin, end, k);
    }

    /** All configured intervals. The written counts are those of the covered buckets, hence
        all of them when every bucket is covered. */
    method WriteIntervals(begin: real, end: real) returns (rows: seq<Row>)
      requires ValidZones(zones)
      ensures var last := Max(Max(end, lastTime), begin);
              && SumRows(rows) == Total(CoveredBuckets(buckets, zones, |zones|, begin, last))
              && (AllCovered(buckets, zones, begin, last) ==> SumRows(rows) == Total(buckets))
    {
      var last := Max(Max(end, lastTime), begin);
      rows := [];
      assert CoveredBuckets(buckets, zones, 0, begin, last) == map[];
      for i := 0 to |zones|
        invariant SumRows(rows) == Total(CoveredBuckets(buckets, zones, i, begin, last))
      {
        var own := WriteZone(zones[i], begin, last);
        SumRowsAppend(rows, own);
        CoveredStep(buckets, zones, i, begin, last,
                    map key | key in buckets && Covered(key, zones[i], begin, last) :: buckets[key]);
        rows := rows + own;
      }
      if AllCovered(buckets, zones, begin, last) {
        WrittenIsTotalIff(buckets, zones, begin, last);
      }
    }
  }

  /** The rows are the intervals before period k. */
  ghost predicate Written(rows: seq<Row>, b: map<Key, Bucket>, z: Zone, begin: real, end: real, k: int)
    requires z.period > 0.0
  {
    && k == First(z, begin) + |rows| && (|rows| > 0 ==> Times((k - 1) as real, z.period) < end)
    && SumRows(rows) == Total(Window(b, z, First(z, begin), k))
    && forall i :: 0 <= i < |rows| ==> rows[i] == ZoneRow(b, z, First(z, begin) + i, end)
  }

  lemma WrittenStep(rows: seq<Row>, b: map<Key, Bucket>, z: Zone, begin: real, end: real, k: int, start: real, key: Key,
                    count: nat)
    requires z.period > 0.0 && Written(rows, b, z, begin, end, k)
    requires start == Times(k as real, z.period) < end && key == Key(z.id, start, start + z.period)
    requires count == if key in b then b[key].count else 0
    ensures Written(rows + [Row(z.id, start, Min(start + z.period, end), count)], b, z, begin, end, k + 1)
  {
    hide Total, Window, Times, ZoneRow, CountAt, KeyAt, SumRows, First;
    ZoneRowIs(b, z, k, end, start, key, count);
    NextRow(rows, Row(z.id, start, Min(start + z.period, end), count));
    WindowStep(b, z, First(z, begin), k);
  }

  lemma EmptyWindow(b: map<Key, Bucket>, z: Zone, k: int)
    ensures SumRows([]) == Total(Window(b, z, k, k)) == 0
  {
    assert Window(b, z, k, k) == map[];
  }

  lemma NextRow(rows: seq<Row>, row: Row)
    ensures SumRows(rows + [row]) == SumRows(rows) + row.count
  {
    assert (rows + [row])[..|rows|] == rows;
  }

  lemma ZoneRowIs(b: map<Key, Bucket>, z: Zone, k: int, end: real, start: real, key: Key, count: nat)
    requires start == Times(k as real, z.period) && key == Key(z.id, start, start + z.period)
    requires count == if key in b then b[key].count else 0
    ensures ZoneRow(b, z, k, end) == Row(z.id, start, Min(start + z.period, end), count)
        && count == CountAt(b, KeyAt(z, k))
  {
  }

  lemma PeriodsLeft(k: int, period: real, end: real)
    requires period > 0.0 && Times(k as real, period) < end
    ensures k <= (end / period).Floor
  {
    if (end / period).Floor < k {
      assert end / period < k as real;
      DivideBack(period, end);
      TimesOrder(end / period, k as real, period);
    }
  }

  lemma WindowIsCovered(b: map<Key, Bucket>, z: Zone, begin: real, end: real, hi: int)
    requires z.period > 0.0 && First(z, begin) <= hi && Times(hi as real, z.period) >= end
    requires hi > First(z, begin) ==> Times((hi - 1) as real, z.period) < end
    ensures Window(b, z, First(z, begin), hi) == map key | key in b && Covered(key, z, begin, end) :: b[key]
  {
    forall key | key in b
      ensures KeyBetween(key, z, First(z, begin), hi) <==> Covered(key, z, begin, end)
    {
      if KeyBetween(key, z, First(z, begin), hi) {
        var k :| First(z, begin) <= k < hi && key == KeyAt(z, k);
        IndexInWindow(z, begin, end, hi, k);
      }
      if Covered(key, z, begin, end) {
        var k :| First(z, begin) <= k && Times(k as real, z.period) < end && key == KeyAt(z, k);
        IndexInWindow(z, begin, end, hi, k);
      }
    }
  }

  lemma IndexInWindow(z: Zone, begin: real, end: real, hi: int, k: int)
    requires z.period > 0.0 && First(z, begin) <= k && Times(hi as real, z.period) >= end
    requires hi > First(z, begin) ==> Times((hi - 1) as real, z.period) < end
    ensures k < hi <==> Times(k as real, z.period) < end
  {
    hide Times;
    ProjectionProofs.GridOrder(k, hi - 1, z.period);
    ProjectionProofs.GridOrder(hi, k, z.period);
  }
}
