/** Counting: totals over buckets, walks counted exactly once, and written intervals that add
    up to the recorded entries (backend/sumo/controller/fast_pedestrian_detector.py). */
module PedestrianCounting {
  import opened Wrappers
  import opened LinearAlgebra
  import opened PedestrianModel
  import ProjectionProofs

  // ---- totals ----

  ghost function Total(b: map<Key, Bucket>): nat
    decreases |b|
  {
    if b == map[] then 0
    else
      var k :| k in b;
      assert |b - {k}| < |b| by { RemoveShrinks(b, k); }
      b[k].count + Total(b - {k})
  }

  lemma RemoveShrinks(b: map<Key, Bucket>, k: Key)
    requires k in b
    ensures |b - {k}| == |b| - 1
  {
    assert (b - {k}).Keys == b.Keys - {k};
    assert |(b - {k}).Keys| == |b.Keys| - 1;
  }

  lemma {:induction false} TotalRemove(b: map<Key, Bucket>, k: Key)
    requires k in b
    ensures Total(b) == b[k].count + Total(b - {k})
    decreases |b|
  {
    var pick :| pick in b && Total(b) == b[pick].count + Total(b - {pick});
    if pick != k {
      RemoveShrinks(b, pick);
      RemoveShrinks(b, k);
      TotalRemove(b - {pick}, k);
      TotalRemove(b - {k}, pick);
      assert b - {pick} - {k} == b - {k} - {pick};
    }
  }

  function CountAt(b: map<Key, Bucket>, k: Key): nat {
    if k in b then b[k].count else 0
  }

  lemma TotalUpdate(b: map<Key, Bucket>, k: Key, v: Bucket)
    ensures Total(b[k := v]) == Total(b) - CountAt(b, k) + v.count
  {
    TotalRemove(b[k := v], k);
    assert b[k := v] - {k} == b - {k};
    if k in b {
      TotalRemove(b, k);
    } else {
      assert b - {k} == b;
    }
  }

  function OfZone(b: map<Key, Bucket>, id: string): map<Key, Bucket> {
    map k | k in b && k.id == id :: b[k]
  }

  ghost function ZoneTotal(b: map<Key, Bucket>, id: string): nat {
    Total(OfZone(b, id))
  }

  lemma RecordedCounts(b: map<Key, Bucket>, z: Zone, t: real, speed: real, id: string)
    requires z.period > 0.0
    ensures ZoneTotal(Recorded(b, z, t, speed), id) == ZoneTotal(b, id) + if z.id == id then 1 else 0
  {
    var key := KeyAt(z, PeriodIndex(t, z.period));
    var r := Recorded(b, z, t, speed);
    if z.id == id {
      assert OfZone(r, id) == OfZone(b, id)[key := r[key]];
      TotalUpdate(OfZone(b, id), key, r[key]);
    } else {
      assert OfZone(r, id) == OfZone(b, id);
    }
  }

  // ---- how many entries one observation records ----

  function Occurrences(zones: seq<Zone>, z: Zone): nat {
    multiset(zones)[z]
  }

  lemma {:induction false} OnEdgeOccurrences(zones: seq<Zone>, edge: string, z: Zone)
    ensures Occurrences(OnEdge(zones, edge), z) == if z.edge == edge then Occurrences(zones, z) else 0
  {
    if zones != [] {
      OnEdgeOccurrences(zones[1..], edge, z);
      assert zones == [zones[0]] + zones[1..];
    }
  }

  lemma {:induction false} ValidOccurrences(zones: seq<Zone>, z: Zone)
    requires ValidZones(zones)
    ensures Occurrences(zones, z) == if z in zones then 1 else 0
  {
    if zones != [] {
      ValidOccurrences(zones[1..], z);
      assert zones == [zones[0]] + zones[1..];
    }
  }

  lemma CandidateOnce(zones: seq<Zone>, before: Option<Position>, now: Position, z: Zone)
    requires ValidZones(zones) && z in zones
    ensures Occurrences(Candidates(zones, before, now), z) == if Looked(z, before, now) then 1 else 0
  {
    ValidOccurrences(zones, z);
    OnEdgeOccurrences(zones, now.road, z);
    if before.Some? {
      OnEdgeOccurrences(zones, before.value.road, z);
    }
  }

  lemma {:induction false} RecordAllCounts(b: map<Key, Bucket>, all: seq<Zone>, zones: seq<Zone>, t: real,
                                             before: Option<Position>, was: set<string>, now: Position, z: Zone)
    requires ValidZones(all) && z in all && forall y :: y in zones ==> y in all
    ensures ZoneTotal(RecordAll(b, zones, t, before, was, now), z.id)
         == ZoneTotal(b, z.id) + if Entered(z, before, was, now) then Occurrences(zones, z) else 0
    decreases |zones|
  {
    if zones != [] {
      var front, last := zones[..|zones| - 1], zones[|zones| - 1];
      assert zones == front + [last];
      assert last in zones;
      RecordAllCounts(b, all, front, t, before, was, now, z);
      if Entered(last, before, was, now) {
        RecordedCounts(RecordAll(b, front, t, before, was, now), last, t, now.speed, z.id);
      }
      assert last.id == z.id ==> last == z;
    }
  }

  /** Does this person, as remembered in s, enter z with this sample? */
  predicate Enters(s: State, p: (string, Position), z: Zone) {
    p.1.stage == WALKING && Entered(z, Get(s.previous, p.0), WasInside(s, p.0), p.1)
  }

  function Entrants(s: State, positions: seq<(string, Position)>, z: Zone): nat
    decreases |positions|
  {
    if positions == [] then 0
    else Entrants(s, positions[..|positions| - 1], z) + if Enters(s, positions[|positions| - 1], z) then 1 else 0
  }

  ghost predicate SameMemory(s: State, r: State, id: string) {
    Get(s.previous, id) == Get(r.previous, id) && WasInside(s, id) == WasInside(r, id)
  }

  lemma {:induction false} OthersUntouched(zones: seq<Zone>, s: State, t: real, positions: seq<(string, Position)>,
                                           id: string)
    requires (forall z :: z in zones ==> z.period > 0.0) && id !in Ids(positions)
    ensures SameMemory(s, ObserveAll(zones, s, t, positions), id)
    decreases |positions|
  {
    if positions != [] {
      var front := positions[..|positions| - 1];
      assert positions == front + [positions[|positions| - 1]];
      assert forall p :: p in front ==> p in positions;
      assert positions[|positions| - 1] in positions;
      OthersUntouched(zones, s, t, front, id);
    }
  }

  lemma {:induction false} ObserveAllCounts(zones: seq<Zone>, s: State, t: real, positions: seq<(string, Position)>,
                                            z: Zone)
    requires ValidZones(zones) && z in zones && DistinctIds(positions)
    ensures ZoneTotal(ObserveAll(zones, s, t, positions).buckets, z.id) ==
        ZoneTotal(s.buckets, z.id) + Entrants(s, positions, z)
    decreases |positions|
  {
    if positions != [] {
      var front, last := positions[..|positions| - 1], positions[|positions| - 1];
      ObserveAllCounts(zones, s, t, front, z);
      OthersUntouched(zones, s, t, front, last.0);
      var r := ObserveAll(zones, s, t, front);
      var before, was := Get(r.previous, last.0), WasInside(r, last.0);
      var looked := Candidates(zones, before, last.1);
      RecordAllCounts(r.buckets, zones, looked, t, before, was, last.1, z);
      CandidateOnce(zones, before, last.1, z);
    }
  }

  /** One observation adds to each zone exactly the number of persons that enter it. */
  lemma ObserveCounts(zones: seq<Zone>, s: State, t: real, positions: seq<(string, Position)>, z: Zone)
    requires ValidZones(zones) && z in zones && DistinctIds(positions) && s.inside.Keys == s.previous.Keys
    ensures ZoneTotal(Observe(zones, s, t, positions).buckets, z.id) ==
        ZoneTotal(s.buckets, z.id) + Entrants(s, positions, z)
  {
    ObserveAllCounts(zones, Forget(s, Ids(positions)), t, positions, z);
    EntrantsAfterForget(s, Ids(positions), positions, z);
  }

  lemma {:induction false} EntrantsAfterForget(s: State, current: set<string>, positions: seq<(string, Position)>,
                                               z: Zone)
    requires Ids(positions) <= current && s.inside.Keys == s.previous.Keys
    ensures Entrants(Forget(s, current), positions, z) == Entrants(s, positions, z)
    decreases |positions|
  {
    if positions != [] {
      var front, last := positions[..|positions| - 1], positions[|positions| - 1];
      assert forall p :: p in front ==> p in positions;
      assert last in positions && last.0 in Ids(positions);
      EntrantsAfterForget(s, current, front, z);
      assert SameMemory(s, Forget(s, current), last.0);
    }
  }

  // ---- a whole walk ----

  datatype Sample = Sample(time: real, positions: seq<(string, Position)>)

  function ObserveRun(zones: seq<Zone>, samples: seq<Sample>): State
    requires forall z :: z in zones ==> z.period > 0.0
    decreases |samples|
  {
    if samples == [] then EMPTY
    else
      var last := samples[|samples| - 1];
      Observe(zones, ObserveRun(zones, samples[..|samples| - 1]), last.time, last.positions)
  }

  /** The walker is at path[i] in the last |path| samples, and absent just before. */
  ghost predicate Walks(samples: seq<Sample>, start: nat, id: string, path: seq<Position>) {
    && start + |path| == |samples|
    && (forall i :: 0 <= i < |samples| ==> DistinctIds(samples[i].positions))
    && (forall i :: 0 <= i < |path| ==> path[i].stage == WALKING && (id, path[i]) in samples[start + i].positions)
    && (start > 0 ==> id !in Ids(samples[start - 1].positions))
  }

  /** Strictly before the zone at one end of its edge, strictly beyond it at the other,
      moving monotonically in between. */
  ghost predicate Crosses(z: Zone, path: seq<Position>) {
    && |path| > 0 && (forall i :: 0 <= i < |path| ==> path[i].road == z.edge)
    && ((path[0].at < z.start && path[|path| - 1].at > z.end
         && forall i, j :: 0 <= i < j < |path| ==> path[i].at <= path[j].at)
        || (path[0].at > z.end && path[|path| - 1].at < z.start
            && forall i, j :: 0 <= i < j < |path| ==> path[i].at >= path[j].at))
  }

  /** In how many of the first n samples of the walk the walker enters z. */
  function WalkEntries(zones: seq<Zone>, samples: seq<Sample>, start: nat, id: string, path: seq<Position>, z: Zone,
                       n: nat): nat
    requires (forall y :: y in zones ==> y.period > 0.0) && n <= |path| && start + |path| == |samples|
  {
    if n == 0 then 0
    else
      var earlier := WalkEntries(zones, samples, start, id, path, z, n - 1);
      if Enters(ObserveRun(zones, samples[..start + n - 1]), (id, path[n - 1]), z) then earlier + 1 else earlier
  }

  lemma {:induction false} WalkersOf(positions: seq<(string, Position)>, id: string, p: Position)
    requires DistinctIds(positions) && (id, p) in positions && p.stage == WALKING
    ensures id in Walkers(positions) && Walkers(positions)[id] == p
    decreases |positions|
  {
    var front, last := positions[..|positions| - 1], positions[|positions| - 1];
    if last == (id, p) {
    } else {
      var k :| 0 <= k < |positions| && positions[k] == (id, p);
      assert front[k] == (id, p);
      assert last.0 != id;
      WalkersOf(front, id, p);
    }
  }

  lemma {:induction false} RunTracks(zones: seq<Zone>, samples: seq<Sample>)
    requires forall z :: z in zones ==> z.period > 0.0
    ensures var s := ObserveRun(zones, samples);
            Tracks(zones, s, if samples == [] then map[] else Walkers(samples[|samples| - 1].positions))
    decreases |samples|
  {
    if samples != [] {
      RunTracks(zones, samples[..|samples| - 1]);
      var last := samples[|samples| - 1];
      ObserveTracks(zones, ObserveRun(zones, samples[..|samples| - 1]), last.time, last.positions);
    }
  }

  /** What the detector remembers of the walker before sample n of the walk. */
  lemma WalkerMemory(zones: seq<Zone>, samples: seq<Sample>, start: nat, id: string, path: seq<Position>, n: nat)
    requires ValidZones(zones) && Walks(samples, start, id, path) && n < |path|
    ensures var s := ObserveRun(zones, samples[..start + n]);
            if n == 0 then Get(s.previous, id) == None && WasInside(s, id) == {}
            else Get(s.previous, id) == Some(path[n - 1]) && WasInside(s, id) == InsideIds(zones, path[n - 1])
  {
    var prefix := samples[..start + n];
    RunTracks(zones, prefix);
    if n > 0 {
      assert prefix[start + n - 1] == samples[start + (n - 1)];
      WalkersOf(samples[start + (n - 1)].positions, id, path[n - 1]);
    } else if start > 0 {
      assert prefix[start - 1] == samples[start - 1];
      WalkersAreWalking(samples[start - 1].positions);
    }
  }

  lemma InsideIdsIff(zones: seq<Zone>, z: Zone, p: Position)
    requires ValidZones(zones) && z in zones
    ensures z.id in InsideIds(zones, p) <==> InZone(z, p)
  {
  }

  /** Reached: on the far side of the near end. */
  predicate Reached(z: Zone, path: seq<Position>, n: nat)
    requires 0 < n <= |path|
  {
    if path[0].at < z.start then path[n - 1].at >= z.start else path[n - 1].at <= z.end
  }

  /** Sample n of the walk is an entry exactly when it is the first to reach the zone. */
  lemma EntryIsFirstReach(zones: seq<Zone>, samples: seq<Sample>, start: nat, id: string, path: seq<Position>, z: Zone,
                          n: nat)
    requires ValidZones(zones) && z in zones && Walks(samples, start, id, path) && Crosses(z, path) && 0 < n <= |path|
    ensures Enters(ObserveRun(zones, samples[..start + n - 1]), (id, path[n - 1]), z)
       <==> Reached(z, path, n) && (n > 1 ==> !Reached(z, path, n - 1))
  {
    hide ObserveRun, InsideIds, ValidZones;
    WalkerMemory(zones, samples, start, id, path, n - 1);
    if n > 1 {
      InsideIdsIff(zones, z, path[n - 2]);
    }
    assert z.start < z.end by { ZoneIsValid(zones, z); }
  }

  lemma ZoneIsValid(zones: seq<Zone>, z: Zone)
    requires ValidZones(zones) && z in zones
    ensures z.start < z.end && z.period > 0.0
  {
  }

  lemma {:induction false} EntriesSoFar(zones: seq<Zone>, samples: seq<Sample>, start: nat, id: string,
                                        path: seq<Position>, z: Zone, n: nat)
    requires ValidZones(zones) && z in zones && Walks(samples, start, id, path) && Crosses(z, path) && 0 < n <= |path|
    ensures WalkEntries(zones, samples, start, id, path, z, n) == if Reached(z, path, n) then 1 else 0
  {
    hide ObserveRun, Enters;
    EntryIsFirstReach(zones, samples, start, id, path, z, n);
    if n > 1 {
      EntriesSoFar(zones, samples, start, id, path, z, n - 1);
    } else {
      assert WalkEntries(zones, samples, start, id, path, z, 0) == 0;
    }
  }

  /** A monotone walk along an edge from one side of a zone to the other enters the zone in
      exactly one sample, wherever on the way the samples fall and whoever else is observed. */
  lemma WalkCountedOnce(zones: seq<Zone>, samples: seq<Sample>, start: nat, id: string, path: seq<Position>, z: Zone)
    requires ValidZones(zones) && z in zones && Walks(samples, start, id, path) && Crosses(z, path)
    ensures WalkEntries(zones, samples, start, id, path, z, |path|) == 1
  {
    EntriesSoFar(zones, samples, start, id, path, z, |path|);
  }
}
