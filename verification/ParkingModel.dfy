/** The parking controller as values: its state, and what one loop iteration does to it
    (backend/sumo/controller/main.py, backend/sumo/controller/parking_group_manager.py).
    Simulator answers arrive in a Tick. */
module ParkingModel {
  import opened Wrappers
  import opened ParkingChoice
  import opened Reroute
  import LinearAlgebra
  import PedestrianModel

  datatype Area = Area(id: string, edge: string)
  datatype Policy = NearestAvailable | RandomAvailable | BalancedAvailable

  /** What stays fixed during a run. `picks` and `durations` are the random generator: the
      n-th draw as an index and as a parking duration. */
  datatype Site = Site(
    order: seq<string>, groups: map<string, seq<Area>>, capacity: map<string, nat>, selectable: Option<set<string>>,
    access: map<string, set<string>>, candidates: map<string, seq<string>>, targets: map<string, string>,
    visible: (string, string) -> bool, driver: (string, nat, nat) -> Driver,
    policy: Policy, accessEdgeMode: bool, personBased: bool, endTime: real,
    picks: nat -> nat, durations: nat -> real,
    zones: seq<PedestrianModel.Zone>)

  /** How the commands that assign a physical area end: refused before the parking stop is
      set, refused by the stop command, successful, or failing after the bookkeeping. */
  datatype Assignment = RouteRefused | StopRefused | Accepted | LogRefused

  datatype Visit = Visit(id: string, road: string, cost: string -> Option<real>,
                         route: (nat, string) -> Option<real>, reach: (nat, string) -> bool, outcome: Assignment)

  /** One iteration as seen from the simulator. */
  datatype Tick = Tick(observedAt: real, positions: seq<(string, PedestrianModel.Position)>,
                       time: real, arrived: seq<string>, arrivedPersons: set<string>, occupied: map<string, nat>,
                           visits: seq<Visit>,
                       starting: seq<string>, ending: seq<string>, spawned: set<string>)

  datatype Row = Row(time: real, lot: string, area: string, capacity: int, occupied: nat, reserved: nat, free: int)

  datatype Core = Core(
    records: map<string, Record>, assignment: map<string, string>, durations: map<string, real>,
    active: set<string>, completed: set<string>, arrived: set<string>, noAvailable: set<(string, string)>,
    reserved: map<string, nat>, spawned: set<string>, draws: nat,
    events: seq<Event>, rows: seq<Row>, detector: PedestrianModel.State, clock: real)

  // ---- lookups ----

  function RecordOf(site: Site, records: map<string, Record>, v: string): Record {
    if v in records then records[v]
    else Record(if v in site.targets then site.targets[v] else "", [], [], 0)
  }

  function CandidatesOf(site: Site, v: string): seq<string> {
    if v in site.candidates then site.candidates[v] else []
  }

  function Reserved(reserved: map<string, nat>, p: string): nat {
    if p in reserved then reserved[p] else 0
  }

  function Occupied(occupied: map<string, nat>, p: string): nat {
    if p in occupied then occupied[p] else 0
  }

  function CapacityOf(site: Site, p: string): nat {
    if p in site.capacity then site.capacity[p] else 0
  }

  predicate Selectable(site: Site, p: string) {
    site.selectable.None? || p in site.selectable.value
  }

  function FreeSpaces(site: Site, reserved: map<string, nat>, occupied: map<string, nat>, p: string): int {
    CapacityOf(site, p) - Occupied(occupied, p) - Reserved(reserved, p)
  }

  function Reserve(reserved: map<string, nat>, p: string): map<string, nat> {
    reserved[p := Reserved(reserved, p) + 1]
  }

  function Release(reserved: map<string, nat>, p: string): map<string, nat> {
    if p in reserved && reserved[p] > 0 then reserved[p := reserved[p] - 1] else reserved
  }

  // ---- choosing a physical area ----

  predicate HasSpace(site: Site, reserved: map<string, nat>, occupied: map<string, nat>, p: string) {
    Selectable(site, p) && FreeSpaces(site, reserved, occupied, p) > 0
  }

  predicate HasFreeSpace(site: Site, reserved: map<string, nat>, occupied: map<string, nat>, areas: seq<Area>) {
    exists k :: 0 <= k < |areas| && HasSpace(site, reserved, occupied, areas[k].id)
  }

  function TotalFree(site: Site, reserved: map<string, nat>, occupied: map<string, nat>, areas: seq<Area>): (n: int)
    ensures n >= 0
    ensures n == 0 <==> !HasFreeSpace(site, reserved, occupied, areas)
    decreases |areas|
  {
    if areas == [] then 0
    else
      var front, p := areas[..|areas| - 1], areas[|areas| - 1].id;
      var rest := TotalFree(site, reserved, occupied, front);
      assert forall k :: 0 <= k < |front| ==> front[k] == areas[k];
      var free := FreeSpaces(site, reserved, occupied, p);
      if Selectable(site, p) && free > 0 then rest + free else rest
  }

  function TotalCapacity(site: Site, areas: seq<Area>): int
    decreases |areas|
  {
    if areas == [] then 0 else TotalCapacity(site, areas[..|areas| - 1]) + CapacityOf(site, areas[|areas| - 1].id)
  }

  /** Is the area considered by the nearest policy? */
  predicate NearCandidate(site: Site, reserved: map<string, nat>, occupied: map<string, nat>,
                          cost: string -> Option<real>, a: Area) {
    HasSpace(site, reserved, occupied, a.id) && cost(a.edge).Some? && cost(a.edge).value >= 0.0
  }

  /** Nearest open area; the first of equally near ones. */
  function Nearest(site: Site, reserved: map<string, nat>, occupied: map<string, nat>, cost: string -> Option<real>,
                   areas: seq<Area>): (r: Option<Area>)
    ensures r.Some? ==> r.value in areas && NearCandidate(site, reserved, occupied, cost, r.value)
    ensures r.Some? ==>
        forall a :: a in areas && NearCandidate(site, reserved, occupied, cost, a) ==>
            cost(r.value.edge).value <= cost(a.edge).value
    ensures r.None? ==> forall a :: a in areas ==> !NearCandidate(site, reserved, occupied, cost, a)
    decreases |areas|
  {
    if areas == [] then None
    else
      var front, last := areas[..|areas| - 1], areas[|areas| - 1];
      assert areas == front + [last];
      var best := Nearest(site, reserved, occupied, cost, front);
      if NearCandidate(site, reserved, occupied, cost, last)
          && (best.None? || cost(last.edge).value < cost(best.value.edge).value)
      then Some(last) else best
  }

  /** The open areas that can be reached. */
  function Reachable(site: Site, reserved: map<string, nat>, occupied: map<string, nat>, cost: string -> Option<real>,
                     areas: seq<Area>): (r: seq<Area>)
    ensures forall a :: a in r <==> a in areas && HasSpace(site, reserved, occupied, a.id) && cost(a.edge).Some?
    decreases |areas|
  {
    if areas == [] then []
    else
      var front, last := areas[..|areas| - 1], areas[|areas| - 1];
      assert areas == front + [last];
      var rest := Reachable(site, reserved, occupied, cost, front);
      if HasSpace(site, reserved, occupied, last.id) && cost(last.edge).Some? then rest + [last] else rest
  }

  // The balanced policy reads a capacity of at least one.
  function BalancedFree(site: Site, reserved: map<string, nat>, occupied: map<string, nat>, p: string): int {
    (if CapacityOf(site, p) > 1 then CapacityOf(site, p) else 1) - Occupied(occupied, p) - Reserved(reserved, p)
  }

  predicate BalancedCandidate(site: Site, reserved: map<string, nat>, occupied: map<string, nat>,
                              cost: string -> Option<real>, a: Area) {
    Selectable(site, a.id) && BalancedFree(site, reserved, occupied, a.id) > 0 && cost(a.edge).Some?
  }

  function Utilization(site: Site, reserved: map<string, nat>, occupied: map<string, nat>, p: string): real {
    (Occupied(occupied, p) + Reserved(reserved, p)) as real / (if CapacityOf(site, p) > 1 then CapacityOf(site, p)
                                                               else 1) as real
  }

  /** Fewer cars on their way, then less full, then nearer, then more free spaces. */
  predicate BetterBalanced(site: Site, reserved: map<string, nat>, occupied: map<string, nat>,
                           cost: string -> Option<real>, a: Area, b: Area)
    requires cost(a.edge).Some? && cost(b.edge).Some?
  {
    var ra, rb := Reserved(reserved, a.id), Reserved(reserved, b.id);
    var ua, ub := Utilization(site, reserved, occupied, a.id), Utilization(site, reserved, occupied, b.id);
    var ca, cb := cost(a.edge).value, cost(b.edge).value;
    ra < rb || (ra == rb && (ua < ub || (ua == ub && (ca < cb || (ca == cb &&
      BalancedFree(site, reserved, occupied, a.id) > BalancedFree(site, reserved, occupied, b.id))))))
  }

  function Balanced(site: Site, reserved: map<string, nat>, occupied: map<string, nat>, cost: string -> Option<real>,
                    areas: seq<Area>): (r: Option<Area>)
    ensures r.Some? ==> r.value in areas && BalancedCandidate(site, reserved, occupied, cost, r.value)
    ensures r.Some? ==> (forall a :: a in areas && BalancedCandidate(site, reserved, occupied, cost, a)
                          ==> !BetterBalanced(site, reserved, occupied, cost, a, r.value))
    ensures r.None? ==> forall a :: a in areas ==> !BalancedCandidate(site, reserved, occupied, cost, a)
    decreases |areas|
  {
    if areas == [] then None
    else
      var front, last := areas[..|areas| - 1], areas[|areas| - 1];
      assert areas == front + [last];
      var best := Balanced(site, reserved, occupied, cost, front);
      if BalancedCandidate(site, reserved, occupied, cost, last)
         && (best.None? || BetterBalanced(site, reserved, occupied, cost, last, best.value))
      then Some(last) else best
  }

  /** The chosen area and the draws used. */
  function Choose(site: Site, reserved: map<string, nat>, occupied: map<string, nat>, cost: string -> Option<real>,
                  areas: seq<Area>, draws: nat)
    : (Option<string>, nat)
  {
    match site.policy
    case NearestAvailable =>
      var r := Nearest(site, reserved, occupied, cost, areas);
      (if r.Some? then Some(r.value.id) else None, draws)
    case RandomAvailable =>
      var available := Reachable(site, reserved, occupied, cost, areas);
      if available == [] then (None, draws) else (Some(available[site.picks(draws) % |available|].id), draws + 1)
    case BalancedAvailable =>
      var r := Balanced(site, reserved, occupied, cost, areas);
      (if r.Some? then Some(r.value.id) else None, draws)
  }

  // ---- one vehicle ----

  datatype SelectionContext = Target | PassBy | Nowhere

  /** The intended lot at arrival, or the first open candidate passed on the way. */
  function DecisionTarget(site: Site, current: string, unattempted: seq<string>, road: string): (Option<string>,
      SelectionContext) {
    if !site.accessEdgeMode then (Some(current), Target)
    else if GivesAccess(site, road, current) then (Some(current), Target)
    else
      var passed := FirstPassed(site, current, unattempted, road);
      if passed.Some? then (passed, PassBy) else (None, Nowhere)
  }

  predicate GivesAccess(site: Site, road: string, lot: string) {
    lot in site.groups && lot in site.access && road in site.access[lot]
  }

  function FirstPassed(site: Site, current: string, unattempted: seq<string>, road: string): (r: Option<string>)
    ensures r.Some? ==> r.value in unattempted && r.value != current && GivesAccess(site, road, r.value)
    ensures r.None? ==> forall c :: c in unattempted && c != current ==> !GivesAccess(site, road, c)
  {
    if unattempted == [] then None
    else if unattempted[0] != current && GivesAccess(site, road, unattempted[0]) then Some(unattempted[0])
    else FirstPassed(site, current, unattempted[1..], road)
  }

  function SearchContext(site: Site, reserved: map<string, nat>, t: real, occupied: map<string, nat>,
                         v: Visit): Context {
    Context(t, v.id, CandidatesOf(site, v.id), site.groups.Keys, v.route, v.reach,
            (lot: string) => if lot in site.groups then TotalCapacity(site, site.groups[lot]) else 0,
            (lot: string) => if lot in site.groups then TotalFree(site, reserved, occupied, site.groups[lot]) else 0,
            (lot: string) => site.visible(v.id, lot),
            (d: nat, n: nat) => site.driver(v.id, d, n))
  }

  function Log(c: Core, t: real, v: string, kind: Kind, lot: string, area: string, attempts: nat): Core {
    c.(events := c.events + [Event(t, v, kind, lot, area, attempts)])
  }

  function WithRecord(c: Core, v: string, rec: Record): Core {
    c.(records := c.records[v := rec])
  }

  /** The search for another lot, from the vehicle's current record. */
  function Found(site: Site, c: Core, t: real, occupied: map<string, nat>, v: Visit): Outcome
    requires "" !in site.groups
  {
    Rerouted(SearchContext(site, c.reserved, t, occupied, v), RecordOf(site, c.records, v.id), 0)
  }

  /** Look for another lot; without one the vehicle is unserved. */
  function RerouteOrUnserved(site: Site, c: Core, t: real, occupied: map<string, nat>, v: Visit, lot: string,
                             attempts: nat): Core
    requires "" !in site.groups
  {
    Searched(c, t, v.id, Found(site, c, t, occupied, v), lot, attempts)
  }

  /** The end of a search: a new target, or the mark of an unserved vehicle. */
  function Searched(c: Core, t: real, v: string, found: Outcome, lot: string, attempts: nat): Core {
    var c' := c.(records := c.records[v := found.rec], events := c.events + SearchLog(t, v, found, lot, attempts));
    if found.target.Some? then c' else c'.(completed := c.completed + {v}, arrived := c.arrived + {v})
  }

  function SearchLog(t: real, v: string, found: Outcome, lot: string, attempts: nat): seq<Event> {
    found.events + if found.target.Some? then [] else [Event(t, v, Unserved(Exhausted), lot, "", attempts)]
  }

  function AttemptedRecord(rec: Record, lot: string): Record {
    if lot != "" && lot !in rec.attempted then rec.(attempted := rec.attempted + [lot]) else rec
  }

  function StopDuration(site: Site, c: Core, t: real): real {
    if !site.personBased then site.durations(c.draws)
    else if site.endTime - t > 1.0 then site.endTime - t else 1.0
  }

  /** A duration is drawn once the route has been accepted. */
  function DurationDrawn(site: Site, c: Core, v: Visit): Core {
    c.(draws := if v.outcome == RouteRefused || site.personBased then c.draws else c.draws + 1)
  }

  /** The bookkeeping of an assignment of area p. */
  function Booked(site: Site, c: Core, t: real, v: Visit, p: string): Core {
    DurationDrawn(site, c, v).(reserved := Reserve(c.reserved, p), assignment := c.assignment[v.id := p],
                               durations := c.durations[v.id := StopDuration(site, c, t)], active := c.active + {v.id})
  }

  /** The failure branch releases the area whether or not it had been reserved. */
  function FailedAssign(site: Site, c: Core, t: real, v: Visit, lot: string, p: string, attempts: nat): Core {
    var before := if v.outcome == LogRefused then Booked(site, c, t, v, p) else DurationDrawn(site, c, v);
    Log(before.(reserved := Release(before.reserved, p)), t, v.id, AssignmentFailed, lot, p, attempts)
  }

  /** The commands that assign area p, and their failure branch. */
  function Assign(site: Site, c: Core, t: real, occupied: map<string, nat>, v: Visit, lot: string, p: string,
                  attempts: nat): Core
    requires "" !in site.groups
  {
    if v.outcome == Accepted then Log(Booked(site, c, t, v, p), t, v.id, Assigned, lot, p, attempts)
    else RerouteOrUnserved(site, FailedAssign(site, c, t, v, lot, p, attempts), t, occupied, v, lot, attempts)
  }

  /** The area selected for an attempt, and the draws used. */
  function Selection(site: Site, c: Core, occupied: map<string, nat>, v: Visit, areas: seq<Area>): (Option<string>,
      nat) {
    if HasFreeSpace(site, c.reserved, occupied, areas) then Choose(site, c.reserved, occupied, v.cost, areas, c.draws)
        else (None, c.draws)
  }

  /** The attempt noted in the record and the log. */
  function Attempted(site: Site, c: Core, t: real, v: Visit, attempt: string, selected: Option<string>,
                     draws: nat): Core {
    var rec := AttemptedRecord(RecordOf(site, c.records, v.id), attempt);
    Log(WithRecord(c, v.id, rec), t, v.id, Attempt(selected.Some?), attempt, if selected.Some? then selected.value
        else "", |rec.attempted|)
    .(draws := draws)
  }

  /** A lot taken in passing becomes the target. */
  function Retargeted(site: Site, c: Core, t: real, v: Visit, attempt: string): Core {
    var rec := RecordOf(site, c.records, v.id);
    if attempt == rec.current then c
    else Log(WithRecord(c, v.id, rec.(current := attempt)), t, v.id, TargetChanged, attempt, "", |rec.attempted|)
  }

  /** A parking attempt at lot `attempt`. */
  function TryPark(site: Site, c: Core, t: real, occupied: map<string, nat>, v: Visit, attempt: string,
                   context: SelectionContext): Core
    requires "" !in site.groups && attempt in site.groups
  {
    var (selected, draws) := Selection(site, c, occupied, v, site.groups[attempt]);
    var c1 := Attempted(site, c, t, v, attempt, selected, draws);
    var attempts := |RecordOf(site, c1.records, v.id).attempted|;
    if selected.None? then
      var c2 := c1.(noAvailable := c1.noAvailable + {(v.id, attempt)});
      if context == PassBy then c2 else RerouteOrUnserved(site, c2, t, occupied, v, attempt, attempts)
    else Assign(site, Retargeted(site, c1, t, v, attempt), t, occupied, v, attempt, selected.value, attempts)
  }

  function ProcessVisit(site: Site, c: Core, t: real, occupied: map<string, nat>, v: Visit): Core
    requires "" !in site.groups
  {
    var rec := RecordOf(site, c.records, v.id);
    if rec.current !in site.groups || v.id in c.completed || v.id in c.assignment then c
    else
      var (attempt, context) := DecisionTarget(site, rec.current, Unattempted(CandidatesOf(site, v.id), rec), v.road);
      if attempt.None? || attempt.value !in site.groups then c
      else TryPark(site, c, t, occupied, v, attempt.value, context)
  }

  function ProcessVisits(site: Site, c: Core, t: real, occupied: map<string, nat>, visits: seq<Visit>): Core
    requires "" !in site.groups
    decreases |visits|
  {
    if visits == [] then c
    else ProcessVisit(site, ProcessVisits(site, c, t, occupied, visits[..|visits| - 1]), t, occupied,
                      visits[|visits| - 1])
  }

  // ---- stops ----

  function TargetOf(site: Site, c: Core, v: string): string {
    RecordOf(site, c.records, v).current
  }

  function StopStarts(site: Site, c: Core, t: real, spawned: set<string>, v: string): Core {
    if v !in c.assignment then c
    else
      var p := c.assignment[v];
      var released := if v in c.active then c.(reserved := Release(c.reserved, p), active := c.active - {v}) else c;
      var logged := Log(released, t, v, Started, TargetOf(site, c, v), p, 0);
      if v in spawned then logged.(spawned := logged.spawned + {v}) else logged
  }

  function StopEnds(site: Site, c: Core, t: real, v: string): Core {
    var p := if v in c.assignment then c.assignment[v] else "";
    var released := if v in c.active
                    then c.(reserved := if v in c.assignment then Release(c.reserved, p)
                            else c.reserved, active := c.active - {v}) else c;
    var lot := TargetOf(site, c, v);
    Log(released, t, v, Ended, lot, p, 0).(
      completed := c.completed + {v}, assignment := c.assignment - {v}, durations := c.durations - {v},
      noAvailable := if lot != "" then c.noAvailable - {(v, lot)} else c.noAvailable)
  }

  function Arrives(site: Site, c: Core, t: real, v: string): Core {
    var lot := TargetOf(site, c, v);
    if v in c.completed || v in c.assignment || lot !in site.groups then c
    else Log(c, t, v, Unserved(FullBeforeArrival), lot, "", 0)
  }

  function AllStart(site: Site, c: Core, t: real, spawned: set<string>, vs: seq<string>): Core
    decreases |vs|
  {
    if vs == [] then c else StopStarts(site, AllStart(site, c, t, spawned, vs[..|vs| - 1]), t, spawned, vs[|vs| - 1])
  }

  function AllEnd(site: Site, c: Core, t: real, vs: seq<string>): Core
    decreases |vs|
  {
    if vs == [] then c else StopEnds(site, AllEnd(site, c, t, vs[..|vs| - 1]), t, vs[|vs| - 1])
  }

  function AllArrive(site: Site, c: Core, t: real, vs: seq<string>): Core
    decreases |vs|
  {
    if vs == [] then c else Arrives(site, AllArrive(site, c, t, vs[..|vs| - 1]), t, vs[|vs| - 1])
  }

  // ---- the whole iteration ----

  function AreaRow(site: Site, reserved: map<string, nat>, t: real, occupied: map<string, nat>, lot: string,
                   p: string): Row {
    Row(t, lot, p, CapacityOf(site, p), Occupied(occupied, p), Reserved(reserved, p),
        FreeSpaces(site, reserved, occupied, p))
  }

  function LotRows(site: Site, reserved: map<string, nat>, t: real, occupied: map<string, nat>, lot: string,
                   areas: seq<Area>): seq<Row> {
    seq(|areas|, k requires 0 <= k < |areas| => AreaRow(site, reserved, t, occupied, lot, areas[k].id))
  }

  function OccupancyRows(site: Site, reserved: map<string, nat>, t: real, occupied: map<string, nat>,
                         lots: seq<string>): seq<Row>
    decreases |lots|
  {
    if lots == [] then []
    else
      var lot := lots[|lots| - 1];
      OccupancyRows(site, reserved, t, occupied, lots[..|lots| - 1])
      + if lot in site.groups then LotRows(site, reserved, t, occupied, lot, site.groups[lot]) else []
  }

  predicate WellFormed(site: Site) {
    "" !in site.groups && forall i :: 0 <= i < |site.zones| ==> site.zones[i].period > 0.0
  }

  function SetOf(s: seq<string>): set<string> {
    set x | x in s
  }

  /** Observe pedestrians, advance, log occupancy, assign, and settle stops and arrivals. */
  function Step(site: Site, c: Core, k: Tick): Core
    requires WellFormed(site)
  {
    AllArrive(site, Settled(site, Assigning(site, c, k), k), k.time, k.arrived)
  }

  function Advanced(site: Site, c: Core, k: Tick): Core
    requires WellFormed(site)
  {
    var logs := LinearAlgebra.Truncate(k.time) % 60 == 0;
    c.(detector := PedestrianModel.Observe(site.zones, c.detector, k.observedAt, k.positions),
       clock := k.time, arrived := c.arrived + SetOf(k.arrived),
       rows := if logs then c.rows + OccupancyRows(site, c.reserved, k.time, k.occupied, site.order) else c.rows)
  }

  function Assigning(site: Site, c: Core, k: Tick): Core
    requires WellFormed(site)
  {
    ProcessVisits(site, Advanced(site, c, k), k.time, k.occupied, k.visits)
  }

  function Settled(site: Site, c: Core, k: Tick): Core {
    AllEnd(site, AllStart(site, c, k.time, k.spawned, k.starting), k.time, k.ending)
  }

  /** The state before the first iteration. */
  function Initial(site: Site, begin: real): Core {
    Core(map[], map[], map[], {}, {}, {}, {}, map p | p in site.capacity :: 0, {}, 0, [], [], PedestrianModel.EMPTY,
         begin)
  }
}
