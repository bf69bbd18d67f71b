/** What the end of a loop iteration does with stops and arrivals, and what it logs about
    occupancy, in the terms of the vehicles and areas themselves
    (backend/sumo/controller/main.py). */
module ParkingStops {
  import opened Wrappers
  import opened Reroute
  import opened ParkingModel
  import opened ParkingSafety
  import LinearAlgebra
  import PedestrianModel

  // ---- stop starts ----

  /** The vehicles of vs that p holds of, in order. */
  ghost function Those(vs: seq<string>, p: string -> bool): (r: seq<string>)
    ensures forall v :: v in r <==> v in vs && p(v)
    decreases |vs|
  {
    if vs == [] then []
    else
      var front, last := vs[..|vs| - 1], vs[|vs| - 1];
      assert vs == front + [last];
      if p(last) then Those(front, p) + [last] else Those(front, p)
  }

  /** The events of d are those of c and one of this kind for every vehicle. */
  ghost predicate Logs(site: Site, c: Core, d: Core, t: real, kind: Kind, vs: seq<string>,
                       area: (nat, string) -> string)
  {
    && |d.events| == |c.events| + |vs| && c.events <= d.events
    && forall i :: 0 <= i < |vs| ==>
         d.events[|c.events| + i] == Event(t, vs[i], kind, RecordOf(site, c.records, vs[i]).current, area(i, vs[i]), 0)
  }

  ghost function AreaOf(c: Core, v: string): string {
    if v in c.assignment then c.assignment[v] else ""
  }

  /** d is c after the stops of vs have started: each assigned vehicle's start is logged, its
      reservation is given back, and its occupants are on their way. */
  ghost predicate Started(site: Site, c: Core, d: Core, t: real, spawned: set<string>, vs: seq<string>) {
    && d == c.(reserved := d.reserved, active := d.active, spawned := d.spawned, events := d.events)
    && d.active == c.active - (SetOf(vs) * c.assignment.Keys)
    && d.spawned == c.spawned + SetOf(vs) * c.assignment.Keys * spawned
    && Logs(site, c, d, t, Kind.Started, Those(vs, v => v in c.assignment), (i, v) => AreaOf(c, v))
  }

  lemma LogsAppend(site: Site, c: Core, m: Core, d: Core, t: real, kind: Kind, vs: seq<string>, last: string,
                   area: (nat, string) -> string)
    requires Logs(site, c, m, t, kind, vs, area)
    requires d.events ==
             m.events + [Event(t, last, kind, RecordOf(site, c.records, last).current, area(|vs|, last), 0)]
    ensures Logs(site, c, d, t, kind, vs + [last], area)
  {
    hide RecordOf;
  }

  lemma StartIs(site: Site, c: Core, t: real, spawned: set<string>, v: string)
    ensures var d := StopStarts(site, c, t, spawned, v);
            && d == c.(reserved := d.reserved, active := d.active, spawned := d.spawned, events := d.events)
            && d.active == (if v in c.assignment then c.active - {v} else c.active)
            && d.spawned == (if v in c.assignment && v in spawned then c.spawned + {v} else c.spawned)
            && d.events ==
               c.events + if v in c.assignment
                          then [Event(t, v, Kind.Started, RecordOf(site, c.records, v).current, AreaOf(c, v), 0)]
                          else []
  {
    hide RecordOf, Release;
  }

  lemma StartsAdd(c: Core, spawned: set<string>, front: seq<string>, last: string)
    ensures var s, t, keys := SetOf(front), SetOf(front + [last]), c.assignment.Keys;
            && c.active - (t * keys) ==
               (if last in keys then (c.active - (s * keys)) - {last} else c.active - (s * keys))
            && c.spawned + t * keys * spawned ==
               (if last in keys && last in spawned then (c.spawned + s * keys * spawned) + {last}
                else c.spawned + s * keys * spawned)
  {
    assert SetOf(front + [last]) == SetOf(front) + {last};
    hide SetOf;
  }

  lemma {:induction false} StartsLog(site: Site, c: Core, t: real, spawned: set<string>, vs: seq<string>)
    ensures var d := AllStart(site, c, t, spawned, vs);
            && d.assignment == c.assignment && d.records == c.records
            && Logs(site, c, d, t, Kind.Started, Those(vs, v => v in c.assignment), (i, v) => AreaOf(c, v))
    decreases |vs|
  {
    if vs != [] {
      var front, last := vs[..|vs| - 1], vs[|vs| - 1];
      StartsLog(site, c, t, spawned, front);
      var m, d := AllStart(site, c, t, spawned, front), AllStart(site, c, t, spawned, vs);
      assert d == StopStarts(site, m, t, spawned, last);
      StartIs(site, m, t, spawned, last);
      hide RecordOf, StopStarts, AllStart, Logs;
      if last in c.assignment {
        LogsAppend(site, c, m, d, t, Kind.Started, Those(front, v => v in c.assignment), last,
                   (i: nat, v: string) => AreaOf(c, v));
      } else {
        LogsOn(site, c, m, d, t, Kind.Started, Those(front, v => v in c.assignment),
               (i: nat, v: string) => AreaOf(c, v));
      }
    }
  }

  lemma LogsOn(site: Site, c: Core, m: Core, d: Core, t: real, kind: Kind, vs: seq<string>,
               area: (nat, string) -> string)
    requires Logs(site, c, m, t, kind, vs, area) && d.events == m.events
    ensures Logs(site, c, d, t, kind, vs, area)
  {
    hide RecordOf;
  }

  lemma {:induction false} StartsBooks(site: Site, c: Core, t: real, spawned: set<string>, vs: seq<string>)
    ensures var d := AllStart(site, c, t, spawned, vs);
            && d == c.(reserved := d.reserved, active := d.active, spawned := d.spawned, events := d.events)
            && d.active == c.active - (SetOf(vs) * c.assignment.Keys)
            && d.spawned == c.spawned + SetOf(vs) * c.assignment.Keys * spawned
    decreases |vs|
  {
    if vs != [] {
      var front, last := vs[..|vs| - 1], vs[|vs| - 1];
      StartsBooks(site, c, t, spawned, front);
      assert vs == front + [last];
      StartIs(site, AllStart(site, c, t, spawned, front), t, spawned, last);
      StartsAdd(c, spawned, front, last);
      hide StopStarts, SetOf;
    }
  }

  lemma StartsAre(site: Site, c: Core, t: real, spawned: set<string>, vs: seq<string>)
    ensures Started(site, c, AllStart(site, c, t, spawned, vs), t, spawned, vs)
  {
    StartsLog(site, c, t, spawned, vs);
    StartsBooks(site, c, t, spawned, vs);
    hide AllStart, Logs, SetOf;
  }

  // ---- stop ends ----

  /** The lots that the vehicles are bound for count as open to them again. */
  ghost function Forgotten(site: Site, c: Core, vs: seq<string>): set<(string, string)> {
    set v | v in vs && RecordOf(site, c.records, v).current != "" :: (v, RecordOf(site, c.records, v).current)
  }

  /** The area a vehicle leaves; none when it has left already or never had one. */
  ghost function LeftArea(c: Core, before: seq<string>, v: string): string {
    if v in before then "" else AreaOf(c, v)
  }

  ghost function LeftAreas(c: Core, vs: seq<string>): (nat, string) -> string {
    (i: nat, v: string) => LeftArea(c, if i <= |vs| then vs[..i] else vs, v)
  }

  /** c without the vehicles that have left, which are done. */
  ghost function Left(site: Site, c: Core, vs: seq<string>): Core {
    c.(active := c.active - SetOf(vs), completed := c.completed + SetOf(vs),
       assignment := c.assignment - SetOf(vs), durations := c.durations - SetOf(vs),
       noAvailable := c.noAvailable - Forgotten(site, c, vs))
  }

  /** d is c after the stops of vs have ended: the vehicles are done, nothing is assigned to them
      or held by them any more, and every end is logged. */
  ghost predicate Ended(site: Site, c: Core, d: Core, t: real, vs: seq<string>) {
    && d == Left(site, c, vs).(reserved := d.reserved, events := d.events)
    && Logs(site, c, d, t, Kind.Ended, vs, LeftAreas(c, vs))
  }

  lemma LogsSame(site: Site, c: Core, d: Core, t: real, kind: Kind, vs: seq<string>, a: (nat, string) -> string,
                 b: (nat, string) -> string)
    requires Logs(site, c, d, t, kind, vs, a) && forall i: nat, v :: i < |vs| ==> a(i, v) == b(i, v)
    ensures Logs(site, c, d, t, kind, vs, b)
  {
    hide RecordOf;
  }

  lemma EndIs(site: Site, c: Core, t: real, v: string)
    ensures var d, lot := StopEnds(site, c, t, v), RecordOf(site, c.records, v).current;
            && d == c.(active := c.active - {v}, completed := c.completed + {v}, assignment := c.assignment - {v},
                       durations := c.durations - {v},
                       noAvailable := if lot != "" then c.noAvailable - {(v, lot)} else c.noAvailable,
                       reserved := d.reserved, events := d.events)
            && d.events == c.events + [Event(t, v, Kind.Ended, lot, AreaOf(c, v), 0)]
  {
    hide RecordOf, Release;
  }

  lemma LeftAppend(site: Site, c: Core, front: seq<string>, last: string)
    ensures var m, d, lot := Left(site, c, front), Left(site, c, front + [last]),
                             RecordOf(site, c.records, last).current;
            && d.active == m.active - {last} && d.completed == m.completed + {last}
            && d.assignment == m.assignment - {last} && d.durations == m.durations - {last}
            && d.noAvailable == if lot != "" then m.noAvailable - {(last, lot)} else m.noAvailable
  {
    var vs := front + [last];
    assert SetOf(vs) == SetOf(front) + {last};
    var lot := RecordOf(site, c.records, last).current;
    assert Forgotten(site, c, vs) == Forgotten(site, c, front) + if lot != "" then {(last, lot)} else {};
    hide RecordOf, SetOf, Forgotten;
    assert c.assignment - SetOf(vs) == (c.assignment - SetOf(front)) - {last};
    assert c.durations - SetOf(vs) == (c.durations - SetOf(front)) - {last};
  }

  lemma {:induction false} EndsBooks(site: Site, c: Core, t: real, vs: seq<string>)
    ensures var d := AllEnd(site, c, t, vs); d == Left(site, c, vs).(reserved := d.reserved, events := d.events)
    decreases |vs|
  {
    if vs != [] {
      var front, last := vs[..|vs| - 1], vs[|vs| - 1];
      EndsBooks(site, c, t, front);
      assert vs == front + [last];
      EndIs(site, AllEnd(site, c, t, front), t, last);
      LeftAppend(site, c, front, last);
      hide RecordOf, StopEnds, SetOf, Forgotten;
    } else {
      assert SetOf(vs) == {} && Forgotten(site, c, vs) == {};
      assert c.assignment - {} == c.assignment && c.durations - {} == c.durations;
    }
  }

  lemma LeftAreasExtend(site: Site, c: Core, m: Core, front: seq<string>, last: string)
    requires m.assignment == Left(site, c, front).assignment
    ensures forall i: nat, v :: i < |front| ==> LeftAreas(c, front)(i, v) == LeftAreas(c, front + [last])(i, v)
    ensures LeftAreas(c, front + [last])(|front|, last) == AreaOf(m, last)
  {
    var vs := front + [last];
    assert vs[..|front|] == front;
    forall i: nat, v | i < |front|
      ensures LeftAreas(c, front)(i, v) == LeftAreas(c, vs)(i, v)
    {
      assert front[..i] == vs[..i];
    }
  }

  lemma LeftKeeps(site: Site, c: Core, m: Core, vs: seq<string>)
    requires m == Left(site, c, vs).(reserved := m.reserved, events := m.events)
    ensures m.records == c.records && m.assignment == Left(site, c, vs).assignment
  {
    hide SetOf, Forgotten;
  }

  lemma EndLogged(site: Site, c: Core, m: Core, d: Core, t: real, front: seq<string>, last: string)
    requires m.records == c.records && m.assignment == Left(site, c, front).assignment
        && Logs(site, c, m, t, Kind.Ended, front, LeftAreas(c, front))
    requires d.events ==
             m.events + [Event(t, last, Kind.Ended, RecordOf(site, m.records, last).current, AreaOf(m, last), 0)]
    ensures Logs(site, c, d, t, Kind.Ended, front + [last], LeftAreas(c, front + [last]))
  {
    LeftAreasExtend(site, c, m, front, last);
    hide RecordOf, Logs, Left, LeftAreas, AreaOf;
    LogsSame(site, c, m, t, Kind.Ended, front, LeftAreas(c, front), LeftAreas(c, front + [last]));
    LogsAppend(site, c, m, d, t, Kind.Ended, front, last, LeftAreas(c, front + [last]));
  }

  lemma NothingLogged(site: Site, c: Core, t: real)
    ensures Logs(site, c, AllEnd(site, c, t, []), t, Kind.Ended, [], LeftAreas(c, []))
  {
    hide LeftAreas;
  }

  lemma EndsOneMore(site: Site, c: Core, t: real, front: seq<string>, last: string)
    ensures AllEnd(site, c, t, front + [last]) == StopEnds(site, AllEnd(site, c, t, front), t, last)
  {
    hide StopEnds;
    assert (front + [last])[..|front|] == front;
  }

  lemma {:induction false} EndsLog(site: Site, c: Core, t: real, vs: seq<string>)
    ensures Logs(site, c, AllEnd(site, c, t, vs), t, Kind.Ended, vs, LeftAreas(c, vs))
    decreases |vs|
  {
    hide RecordOf, StopEnds, Logs, AllEnd, Forgotten, SetOf, LeftAreas, AreaOf, Left;
    if vs == [] {
      NothingLogged(site, c, t);
    } else {
      var front, last := vs[..|vs| - 1], vs[|vs| - 1];
      assert vs == front + [last];
      EndsLog(site, c, t, front);
      EndsBooks(site, c, t, front);
      EndsOneMore(site, c, t, front, last);
      var m := AllEnd(site, c, t, front);
      EndIs(site, m, t, last);
      LeftKeeps(site, c, m, front);
      EndLogged(site, c, m, AllEnd(site, c, t, vs), t, front, last);
    }
  }

  lemma EndsAre(site: Site, c: Core, t: real, vs: seq<string>)
    ensures Ended(site, c, AllEnd(site, c, t, vs), t, vs)
  {
    EndsLog(site, c, t, vs);
    EndsBooks(site, c, t, vs);
    hide AllEnd, Logs, SetOf, Forgotten;
  }

  // ---- arrivals ----

  /** The vehicle has neither parked nor an area to go to, and its target lot exists. */
  ghost predicate WentWithout(site: Site, c: Core, v: string) {
    v !in c.completed && v !in c.assignment && RecordOf(site, c.records, v).current in site.groups
  }

  /** d is c with exactly the arrived vehicles logged that went without a space. */
  ghost predicate Arrived(site: Site, c: Core, d: Core, t: real, vs: seq<string>) {
    && d == c.(events := d.events)
    && Logs(site, c, d, t, Unserved(FullBeforeArrival), Those(vs, v => WentWithout(site, c, v)), (i, v) => "")
  }

  lemma {:induction false} ArrivalsAre(site: Site, c: Core, t: real, vs: seq<string>)
    ensures Arrived(site, c, AllArrive(site, c, t, vs), t, vs)
    decreases |vs|
  {
    if vs != [] {
      var front, last := vs[..|vs| - 1], vs[|vs| - 1];
      ArrivalsAre(site, c, t, front);
      var m, d := AllArrive(site, c, t, front), AllArrive(site, c, t, vs);
      hide RecordOf, Logs;
      if WentWithout(site, c, last) {
        LogsAppend(site, c, m, d, t, Unserved(FullBeforeArrival), Those(front, v => WentWithout(site, c, v)), last,
                   (i: nat, v: string) => "");
      }
    }
  }

  // ---- occupancy rows ----

  ghost function Value(m: map<string, nat>, key: string): nat {
    if key in m then m[key] else 0
  }

  /** The row of an area: its free spaces are what is neither occupied nor reserved. */
  ghost predicate RowOf(site: Site, reserved: map<string, nat>, t: real, occupied: map<string, nat>, lot: string,
                        a: Area, row: Row) {
    && row.time == t && row.lot == lot && row.area == a.id && row.capacity == Value(site.capacity, a.id)
    && row.occupied == Value(occupied, a.id) && row.reserved == Value(reserved, a.id)
    && row.free + row.occupied + row.reserved == row.capacity
  }

  /** All areas of the lots that exist, in order. */
  ghost function AreasOf(site: Site, lots: seq<string>): seq<(string, Area)>
    decreases |lots|
  {
    if lots == [] then []
    else
      var lot := lots[|lots| - 1];
      AreasOf(site, lots[..|lots| - 1])
      + if lot in site.groups
        then seq(|site.groups[lot]|, k requires 0 <= k < |site.groups[lot]| => (lot, site.groups[lot][k]))
        else []
  }

  ghost predicate RowsOf(site: Site, reserved: map<string, nat>, t: real, occupied: map<string, nat>,
                         areas: seq<(string, Area)>, rows: seq<Row>) {
    |rows| == |areas|
    && forall i :: 0 <= i < |rows| ==> RowOf(site, reserved, t, occupied, areas[i].0, areas[i].1, rows[i])
  }

  lemma {:induction false} RowsAre(site: Site, reserved: map<string, nat>, t: real, occupied: map<string, nat>,
                                   lots: seq<string>)
    ensures RowsOf(site, reserved, t, occupied, AreasOf(site, lots), OccupancyRows(site, reserved, t, occupied, lots))
    decreases |lots|
  {
    if lots != [] {
      RowsAre(site, reserved, t, occupied, lots[..|lots| - 1]);
    }
  }

  // ---- one iteration ----

  /** d is c after what an iteration does before it looks at the vehicles: once a minute every area
      is logged. */
  ghost predicate TimePassed(site: Site, c: Core, d: Core, k: Tick)
    requires WellFormed(site)
  {
    && d == c.(detector := d.detector, clock := k.time, arrived := c.arrived + SetOf(k.arrived), rows := d.rows)
    && d.detector == PedestrianModel.Observe(site.zones, c.detector, k.observedAt, k.positions)
    && c.rows <= d.rows
    && (if LinearAlgebra.Truncate(k.time) % 60 == 0
        then RowsOf(site, c.reserved, k.time, k.occupied, AreasOf(site, site.order), d.rows[|c.rows|..])
        else d.rows == c.rows)
  }

  lemma TimePasses(site: Site, c: Core, k: Tick)
    requires WellFormed(site)
    ensures TimePassed(site, c, Advanced(site, c, k), k)
  {
    RowsAre(site, c.reserved, k.time, k.occupied, site.order);
    hide RowsOf, AreasOf, OccupancyRows, PedestrianModel.Observe, LinearAlgebra.Truncate, SetOf;
    var d := Advanced(site, c, k);
    assert d.rows[|c.rows|..] == [] || d.rows[|c.rows|..] ==
                                       OccupancyRows(site, c.reserved, k.time, k.occupied, site.order);
  }

  /** The visits of an iteration, one vehicle after the other, each from where the one before it
      left. */
  ghost predicate Visited(site: Site, states: seq<Core>, t: real, occupied: map<string, nat>, visits: seq<Visit>)
    requires WellFormed(site)
  {
    NoEmptyLot(site);
    |states| == |visits| + 1
    && forall i :: 0 <= i < |visits| ==> states[i + 1] == ProcessVisit(site, states[i], t, occupied, visits[i])
  }

  lemma VisitedAppend(site: Site, before: seq<Core>, t: real, occupied: map<string, nat>, front: seq<Visit>,
                      last: Visit, d: Core)
    requires WellFormed(site) && "" !in site.groups && Visited(site, before, t, occupied, front)
        && d == ProcessVisit(site, before[|front|], t, occupied, last)
    ensures Visited(site, before + [d], t, occupied, front + [last])
  {
    hide ProcessVisit, WellFormed;
    var states, visits := before + [d], front + [last];
    forall i | 0 <= i < |visits|
      ensures states[i + 1] == ProcessVisit(site, states[i], t, occupied, visits[i])
    {
      if i < |front| {
        assert visits[i] == front[i] && states[i] == before[i] && states[i + 1] == before[i + 1];
      }
    }
  }

  lemma {:induction false} VisitsAre(site: Site, c: Core, t: real, occupied: map<string, nat>, visits: seq<Visit>)
      returns (states: seq<Core>)
    requires WellFormed(site)
    ensures Visited(site, states, t, occupied, visits) && states[0] == c
    ensures "" !in site.groups && states[|visits|] == ProcessVisits(site, c, t, occupied, visits)
    decreases |visits|
  {
    NoEmptyLot(site);
    hide ProcessVisit, WellFormed;
    if visits == [] {
      states := [c];
    } else {
      var front, last := visits[..|visits| - 1], visits[|visits| - 1];
      assert visits == front + [last];
      var before := VisitsAre(site, c, t, occupied, front);
      var d := ProcessVisit(site, before[|front|], t, occupied, last);
      assert d == ProcessVisits(site, c, t, occupied, visits);
      VisitedAppend(site, before, t, occupied, front, last, d);
      states := before + [d];
      hide ProcessVisits;
      assert |before| == |front| + 1;
    }
  }

  /** d is c after one iteration: time passes, every vehicle is visited in turn, stops start, stops
      end, and vehicles arrive, in this order. */
  ghost predicate Iterated(site: Site, c: Core, states: seq<Core>, started: Core, ended: Core, d: Core, k: Tick)
    requires WellFormed(site)
  {
    && Visited(site, states, k.time, k.occupied, k.visits) && TimePassed(site, c, states[0], k)
    && Started(site, states[|k.visits|], started, k.time, k.spawned, k.starting)
    && Ended(site, started, ended, k.time, k.ending)
    && Arrived(site, ended, d, k.time, k.arrived)
  }

  /** One iteration, stage by stage. */
  lemma IterationIs(site: Site, c: Core, k: Tick)
    requires WellFormed(site)
    ensures exists states, started, ended :: Iterated(site, c, states, started, ended, Step(site, c, k), k)
  {
    hide WellFormed, Started, Ended, Arrived, TimePassed, Visited, ProcessVisits, AllStart, AllEnd, AllArrive, Advanced;
    TimePasses(site, c, k);
    var states := VisitsAre(site, Advanced(site, c, k), k.time, k.occupied, k.visits);
    var visited := Assigning(site, c, k);
    StartsAre(site, visited, k.time, k.spawned, k.starting);
    var started := AllStart(site, visited, k.time, k.spawned, k.starting);
    EndsAre(site, started, k.time, k.ending);
    var ended := AllEnd(site, started, k.time, k.ending);
    ArrivalsAre(site, ended, k.time, k.arrived);
    assert Step(site, c, k) == AllArrive(site, ended, k.time, k.arrived);
    VisitedLast(site, states, k);
    assert Iterated(site, c, states, started, ended, Step(site, c, k), k);
  }

  lemma VisitedLast(site: Site, states: seq<Core>, k: Tick)
    requires WellFormed(site) && Visited(site, states, k.time, k.occupied, k.visits)
    ensures |states| == |k.visits| + 1
  {
  }
}
