/** The pedestrian-zone counter as values: its state, and what one observation does to it
    (backend/sumo/controller/fast_pedestrian_detector.py). */
module PedestrianModel {
  import opened Wrappers
  import opened LinearAlgebra

  const WALKING := 2

  datatype Zone = Zone(id: string, edge: string, start: real, end: real, period: real)
  datatype Position = Position(road: string, at: real, speed: real, lane: string, stage: int)
  datatype Key = Key(id: string, begin: real, end: real)
  datatype Bucket = Bucket(count: nat, speedSum: real)
  datatype State = State(previous: map<string, Position>, inside: map<string, set<string>>,
                         buckets: map<Key, Bucket>, lastTime: real)

  const EMPTY := State(map[], map[], map[], 0.0)

  /** What the source's configuration guarantees: one zone per detector id, a positive
      period, and start before end. */
  ghost predicate ValidZones(zones: seq<Zone>) {
    && (forall i :: 0 <= i < |zones| ==> zones[i].period > 0.0 && zones[i].start < zones[i].end)
    && (forall i, j :: 0 <= i < j < |zones| ==> zones[i].id != zones[j].id)
  }

  // ---- one person against one zone ----

  predicate InZone(z: Zone, p: Position) {
    p.road == z.edge && z.start <= p.at <= z.end
  }

  /** A jump over the whole zone between two samples on its edge. */
  predicate Jumped(z: Zone, before: Position, now: Position) {
    before.road == z.edge && now.road == z.edge && Min(before.at, now.at) < z.start && Max(before.at, now.at) > z.end
  }

  predicate Entered(z: Zone, before: Option<Position>, was: set<string>, now: Position) {
    z.id !in was && (InZone(z, now) || (before.Some? && Jumped(z, before.value, now)))
  }

  function PeriodIndex(t: real, period: real): int
    requires period > 0.0
  {
    (t / period).Floor
  }

  function KeyAt(z: Zone, k: int): Key {
    Key(z.id, Times(k as real, z.period), Times(k as real, z.period) + z.period)
  }

  function Recorded(buckets: map<Key, Bucket>, z: Zone, t: real, speed: real): map<Key, Bucket>
    requires z.period > 0.0
  {
    var key := KeyAt(z, PeriodIndex(t, z.period));
    var bucket := if key in buckets then buckets[key] else Bucket(0, 0.0);
    buckets[key := Bucket(bucket.count + 1, bucket.speedSum + Max(speed, 0.0))]
  }

  /** The zones looked at: those on the current edge, then those on the previous one. */
  predicate Looked(z: Zone, before: Option<Position>, now: Position) {
    z.edge == now.road || (before.Some? && z.edge == before.value.road)
  }

  function OnEdge(zones: seq<Zone>, edge: string): (r: seq<Zone>)
    ensures forall z :: z in r <==> z in zones && z.edge == edge
    ensures |r| <= |zones|
  {
    if zones == [] then []
    else if zones[0].edge == edge then [zones[0]] + OnEdge(zones[1..], edge) else OnEdge(zones[1..], edge)
  }

  function Candidates(zones: seq<Zone>, before: Option<Position>, now: Position): (r: seq<Zone>)
    ensures forall z :: z in r <==> z in zones && Looked(z, before, now)
  {
    OnEdge(zones, now.road)
    + if before.Some? && before.value.road != now.road then OnEdge(zones, before.value.road) else []
  }

  function InsideIds(zones: seq<Zone>, now: Position): set<string> {
    set z | z in zones && InZone(z, now) :: z.id
  }

  function RecordAll(buckets: map<Key, Bucket>, zones: seq<Zone>, t: real, before: Option<Position>, was: set<string>,
                     now: Position): map<Key, Bucket>
    requires forall z :: z in zones ==> z.period > 0.0
    decreases |zones|
  {
    if zones == [] then buckets
    else
      var z := zones[|zones| - 1];
      var earlier := RecordAll(buckets, zones[..|zones| - 1], t, before, was, now);
      if Entered(z, before, was, now) then Recorded(earlier, z, t, now.speed) else earlier
  }

  // ---- one observation ----

  function Get<K, V>(m: map<K, V>, k: K): Option<V> {
    if k in m then Some(m[k]) else None
  }

  function WasInside(s: State, id: string): set<string> {
    if id in s.inside then s.inside[id] else {}
  }

  function ObservePerson(zones: seq<Zone>, s: State, t: real, id: string, now: Position): State
    requires forall z :: z in zones ==> z.period > 0.0
  {
    if now.stage != WALKING then s.(previous := s.previous - {id}, inside := s.inside - {id})
    else
      var before, was := Get(s.previous, id), WasInside(s, id);
      var looked := Candidates(zones, before, now);
      s.(previous := s.previous[id := now],
         inside := s.inside[id := InsideIds(looked, now)],
         buckets := RecordAll(s.buckets, looked, t, before, was, now))
  }

  function ObserveAll(zones: seq<Zone>, s: State, t: real, positions: seq<(string, Position)>): State
    requires forall z :: z in zones ==> z.period > 0.0
    decreases |positions|
  {
    if positions == [] then s
    else
      var last := positions[|positions| - 1];
      ObservePerson(zones, ObserveAll(zones, s, t, positions[..|positions| - 1]), t, last.0, last.1)
  }

  function Ids(positions: seq<(string, Position)>): set<string> {
    set p | p in positions :: p.0
  }

  /** Persons that are gone are forgotten first. */
  function Forget(s: State, current: set<string>): State {
    s.(previous := s.previous - (s.previous.Keys - current), inside := s.inside - (s.previous.Keys - current))
  }

  function Observe(zones: seq<Zone>, s: State, t: real, positions: seq<(string, Position)>): State
    requires forall z :: z in zones ==> z.period > 0.0
  {
    var r := ObserveAll(zones, Forget(s, Ids(positions)), t, positions);
    r.(lastTime := Max(r.lastTime, t))
  }

  // ---- the last observation ----

  lemma {:induction false} ObserveAllKeepsTime(zones: seq<Zone>, s: State, t: real, positions: seq<(string, Position)>)
    requires forall z :: z in zones ==> z.period > 0.0
    ensures ObserveAll(zones, s, t, positions).lastTime == s.lastTime
    decreases |positions|
  {
    if positions != [] {
      var front, last := positions[..|positions| - 1], positions[|positions| - 1];
      ObserveAllKeepsTime(zones, s, t, front);
      hide RecordAll, Candidates, InsideIds;
    }
  }

  /** The latest observation is remembered, whenever earlier ones come in. */
  lemma ObserveRemembersTime(zones: seq<Zone>, s: State, t: real, positions: seq<(string, Position)>)
    requires forall z :: z in zones ==> z.period > 0.0
    ensures var last := Observe(zones, s, t, positions).lastTime;
            last >= s.lastTime && last >= t && (last == s.lastTime || last == t)
  {
    ObserveAllKeepsTime(zones, Forget(s, Ids(positions)), t, positions);
    hide ObserveAll;
  }

  // ---- what holds after every observation ----

  /** A mapping names each person once. */
  ghost predicate DistinctIds(positions: seq<(string, Position)>) {
    forall i, j :: 0 <= i < j < |positions| ==> positions[i].0 != positions[j].0
  }

  /** Exactly the walkers are remembered, each with its position and the zones it is in. */
  ghost predicate Tracks(zones: seq<Zone>, s: State, walkers: map<string, Position>) {
    && s.previous == walkers && s.inside.Keys == walkers.Keys
    && forall id :: id in walkers ==> s.inside[id] == InsideIds(zones, walkers[id])
  }

  function Walkers(positions: seq<(string, Position)>): (m: map<string, Position>)
    decreases |positions|
  {
    if positions == [] then map[]
    else
      var earlier, last := Walkers(positions[..|positions| - 1]), positions[|positions| - 1];
      if last.1.stage == WALKING then earlier[last.0 := last.1] else earlier - {last.0}
  }

  lemma {:induction false} WalkersAreWalking(positions: seq<(string, Position)>)
    ensures forall id :: id in Walkers(positions) ==> Walkers(positions)[id].stage == WALKING && id in Ids(positions)
    decreases |positions|
  {
    if positions != [] {
      WalkersAreWalking(positions[..|positions| - 1]);
      assert forall p :: p in positions[..|positions| - 1] ==> p in positions;
    }
  }

  lemma InsideIdsOfCandidates(zones: seq<Zone>, before: Option<Position>, now: Position)
    ensures InsideIds(Candidates(zones, before, now), now) == InsideIds(zones, now)
  {
  }

  lemma {:induction false} ObserveAllTracks(zones: seq<Zone>, s: State, t: real, positions: seq<(string, Position)>)
    requires (forall z :: z in zones ==> z.period > 0.0) && s.inside.Keys == s.previous.Keys
    ensures var r := ObserveAll(zones, s, t, positions);
            && r.inside.Keys == r.previous.Keys
            && (forall id :: id in Ids(positions) ==> (id in r.previous <==> id in Walkers(positions)))
            && (forall id :: id in Walkers(positions) ==>
                  id in r.previous && r.previous[id] == Walkers(positions)[id]
                      && r.inside[id] == InsideIds(zones, Walkers(positions)[id]))
            && (forall id :: id !in Ids(positions) ==> (id in r.previous <==> id in s.previous))
    decreases |positions|
  {
    if positions != [] {
      var front, last := positions[..|positions| - 1], positions[|positions| - 1];
      ObserveAllTracks(zones, s, t, front);
      assert Ids(positions) == Ids(front) + {last.0} by {
        assert positions == front + [last];
      }
      WalkersAreWalking(front);
      InsideIdsOfCandidates(zones, Get(ObserveAll(zones, s, t, front).previous, last.0), last.1);
    }
  }

  /** After an observation the remembered persons are exactly the current walkers, and each
      one's inside-set is exactly the set of zones that contain it. */
  lemma ObserveTracks(zones: seq<Zone>, s: State, t: real, positions: seq<(string, Position)>)
    requires (forall z :: z in zones ==> z.period > 0.0) && s.inside.Keys == s.previous.Keys
    ensures Tracks(zones, Observe(zones, s, t, positions), Walkers(positions))
  {
    var forgotten := Forget(s, Ids(positions));
    ObserveAllTracks(zones, forgotten, t, positions);
    WalkersAreWalking(positions);
    var r := Observe(zones, s, t, positions);
    forall id | id in r.previous
      ensures id in Walkers(positions)
    {
      assert id !in Ids(positions) ==> id !in forgotten.previous;
    }
  }

  // ---- snapshots ----

  datatype Snapshot = Snapshot(previous: map<string, Position>, inside: map<string, set<string>>,
                               buckets: map<Key, Bucket>, lastTime: real)

  function TakeSnapshot(s: State): Snapshot {
    Snapshot(s.previous, s.inside, s.buckets, s.lastTime)
  }

  /** Reading back replaces a missing or zero stage type by "walking". */
  function ReadPosition(p: Position): Position {
    p.(stage := if p.stage == 0 then WALKING else p.stage)
  }

  function RestoreSnapshot(c: Snapshot): State {
    State(map id | id in c.previous :: ReadPosition(c.previous[id]), c.inside, c.buckets, c.lastTime)
  }

  /** Every remembered position is a walking one. */
  ghost predicate Walking(s: State) {
    s.inside.Keys == s.previous.Keys && forall id :: id in s.previous ==> s.previous[id].stage == WALKING
  }

  /** Restoring a snapshot gives the state back exactly when no remembered stage type is 0. */
  lemma RestoreIsIdentityIff(s: State)
    ensures RestoreSnapshot(TakeSnapshot(s)) == s <==> forall id :: id in s.previous ==> s.previous[id].stage != 0
  {
    var r := RestoreSnapshot(TakeSnapshot(s));
    if r == s {
      forall id | id in s.previous
        ensures s.previous[id].stage != 0
      {
        assert r.previous[id] == s.previous[id];
      }
    }
    assert (forall id :: id in s.previous ==> s.previous[id].stage != 0) ==> r.previous == s.previous;
  }

  /** Reachable states qualify: an observation leaves only walking positions. */
  lemma ObserveKeepsWalking(zones: seq<Zone>, s: State, t: real, positions: seq<(string, Position)>)
    requires (forall z :: z in zones ==> z.period > 0.0) && Walking(s)
    ensures Walking(Observe(zones, s, t, positions))
    ensures RestoreSnapshot(TakeSnapshot(Observe(zones, s, t, positions))) == Observe(zones, s, t, positions)
  {
    ObserveTracks(zones, s, t, positions);
    WalkersAreWalking(positions);
    RestoreIsIdentityIff(Observe(zones, s, t, positions));
  }
}
