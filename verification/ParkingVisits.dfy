/** What one vehicle's processing does, read off the site, the road and the vehicle's record:
    when it tries to park and where, what an assignment books, and what the search for another
    lot goes by (backend/sumo/controller/main.py). */
module ParkingVisits {
  import opened Wrappers
  import opened ParkingChoice
  import opened Sorting
  import opened Reroute
  import opened ParkingModel
  import opened ParkingSafety
  import opened ParkingSelection
  import CrashRecovery

  // ---- when a vehicle tries to park ----

  /** The vehicle is neither done nor assigned, and the lot it is bound for exists. */
  ghost predicate LooksForParking(site: Site, c: Core, v: string) {
    v !in c.completed && v !in c.assignment && RecordOf(site, c.records, v).current in site.groups
  }

  /** The road leads to the lot. */
  ghost predicate LeadsTo(site: Site, road: string, lot: string) {
    lot in site.groups && lot in site.access && road in site.access[lot]
  }

  /** A candidate neither attempted nor rejected, other than the lot the vehicle is bound for, to
      which the road leads. */
  ghost predicate InPassing(site: Site, rec: Record, road: string, lot: string) {
    lot !in rec.attempted && lot !in rec.rejected && lot != rec.current && LeadsTo(site, road, lot)
  }

  /** The first such candidate. */
  ghost predicate FirstInPassing(site: Site, rec: Record, candidates: seq<string>, road: string, lot: string) {
    exists i :: 0 <= i < |candidates| && candidates[i] == lot && InPassing(site, rec, road, lot)
                && forall j :: 0 <= j < i ==> !InPassing(site, rec, road, candidates[j])
  }

  /** The log of d continues that of c with an attempt of the vehicle at the lot. */
  ghost predicate Tried(c: Core, d: Core, t: real, v: string, lot: string) {
    && c.events < d.events
    && var e := d.events[|c.events|]; e.time == t && e.vehicle == v && e.kind.Attempt? && e.lot == lot
  }

  /** The vehicle is where it is bound for, or every road counts. */
  ghost predicate AtTarget(site: Site, c: Core, v: Visit) {
    !site.accessEdgeMode || LeadsTo(site, v.road, RecordOf(site, c.records, v.id).current)
  }

  lemma {:induction false} FirstPassedIsFirst(site: Site, rec: Record, candidates: seq<string>, road: string)
    ensures var r := FirstPassed(site, rec.current, Unattempted(candidates, rec), road);
            && (r.Some? ==> FirstInPassing(site, rec, candidates, road, r.value))
            && (r.None? ==> forall lot :: !FirstInPassing(site, rec, candidates, road, lot))
    decreases |candidates|
  {
    if candidates != [] {
      var front, last := candidates[..|candidates| - 1], candidates[|candidates| - 1];
      FirstPassedIsFirst(site, rec, front, road);
      PassedAppend(site, rec.current, Unattempted(front, rec), last, road);
      FirstInPassingAppend(site, rec, front, last, road);
      assert candidates == front + [last];
    }
  }

  lemma {:induction false} PassedAppend(site: Site, current: string, s: seq<string>, lot: string, road: string)
    ensures FirstPassed(site, current, s + [lot], road) ==
            if FirstPassed(site, current, s, road).Some? then FirstPassed(site, current, s, road)
            else if lot != current && GivesAccess(site, road, lot) then Some(lot) else None
  {
    if s != [] {
      assert (s + [lot])[1..] == s[1..] + [lot];
      PassedAppend(site, current, s[1..], lot, road);
    } else {
      assert s + [lot] == [lot] && [lot][1..] == [];
    }
  }

  lemma FirstInPassingAppend(site: Site, rec: Record, front: seq<string>, last: string, road: string)
    ensures forall lot :: FirstInPassing(site, rec, front + [last], road, lot)
                     <==> FirstInPassing(site, rec, front, road, lot)
                          || (lot == last && InPassing(site, rec, road, last)
                              && forall j :: 0 <= j < |front| ==> !InPassing(site, rec, road, front[j]))
  {
    var all := front + [last];
    forall lot
      ensures FirstInPassing(site, rec, all, road, lot)
              <==> FirstInPassing(site, rec, front, road, lot)
                   || (lot == last && InPassing(site, rec, road, last)
                       && forall j :: 0 <= j < |front| ==> !InPassing(site, rec, road, front[j]))
    {
      hide InPassing;
      assert forall j :: 0 <= j < |front| ==> all[j] == front[j];
      assert all[|front|] == last;
    }
  }

  lemma NotedFirst(site: Site, c: Core, t: real, v: Visit, lot: string, selected: Option<string>, draws: nat)
    requires lot != ""
    ensures var d := Attempted(site, c, t, v, lot, selected, draws);
            && |d.events| == |c.events| + 1 && Tried(c, d, t, v.id, lot) && NotedIn(site, c, d, v.id, lot)
            && d.events[|c.events|].kind == Attempt(selected.Some?)
            && (selected.Some? ==> d.events[|c.events|].area == selected.value)
  {
    hide RecordOf;
  }

  /** The attempt is in the record, once, and the record is otherwise the same. */
  ghost predicate NotedIn(site: Site, c: Core, d: Core, v: string, lot: string) {
    var rec := RecordOf(site, c.records, v);
    v in d.records
    && d.records[v] == rec.(attempted := if lot in rec.attempted then rec.attempted else rec.attempted + [lot])
  }

  lemma TriedOn(c: Core, d: Core, e: Core, t: real, v: string, lot: string)
    requires Tried(c, d, t, v, lot) && d.events <= e.events
    ensures Tried(c, e, t, v, lot) && e.events[|c.events|] == d.events[|c.events|]
  {
  }

  lemma RetargetAppends(site: Site, c: Core, t: real, v: Visit, lot: string)
    ensures c.events <= Retargeted(site, c, t, v, lot).events
  {
    hide RecordOf;
  }

  lemma TryParkTries(site: Site, c: Core, t: real, occupied: map<string, nat>, v: Visit, lot: string,
                     context: SelectionContext)
    requires "" !in site.groups && lot in site.groups
    ensures var d := TryPark(site, c, t, occupied, v, lot, context);
            var selected := Selection(site, c, occupied, v, site.groups[lot]).0;
            && Tried(c, d, t, v.id, lot) && d.events[|c.events|].kind == Attempt(selected.Some?)
            && (selected.Some? ==> d.events[|c.events|].area == selected.value)
  {
    var (selected, draws) := Selection(site, c, occupied, v, site.groups[lot]);
    hide Selection, Found, Searched, Assign, RecordOf, Tried, Attempted, Retargeted;
    NotedFirst(site, c, t, v, lot, selected, draws);
    var c1 := Attempted(site, c, t, v, lot, selected, draws);
    var attempts := |RecordOf(site, c1.records, v.id).attempted|;
    var d := TryPark(site, c, t, occupied, v, lot, context);
    if selected.None? {
      var c2 := c1.(noAvailable := c1.noAvailable + {(v.id, lot)});
      CrashRecovery.SearchAppends(c2, t, v.id, Found(site, c2, t, occupied, v), lot, attempts);
    } else {
      RetargetAppends(site, c1, t, v, lot);
      CrashRecovery.AssignAppends(site, Retargeted(site, c1, t, v, lot), t, occupied, v, lot, selected.value, attempts);
    }
    TriedOn(c, c1, d, t, v.id, lot);
  }

  /** Only the attempt was noted. */
  ghost predicate OnlyTried(site: Site, c: Core, d: Core, t: real, v: string, lot: string) {
    && |d.events| == |c.events| + 1 && Tried(c, d, t, v, lot) && d.events[|c.events|].kind == Attempt(false)
    && NotedIn(site, c, d, v, lot) && d.records == c.records[v := d.records[v]]
    && d == c.(events := d.events, records := d.records, noAvailable := c.noAvailable + {(v, lot)}, draws := d.draws)
  }

  /** A lot without a space that is only passed starts no search. */
  lemma PassByIsQuick(site: Site, c: Core, t: real, occupied: map<string, nat>, v: Visit, lot: string)
    requires "" !in site.groups && lot in site.groups && Selection(site, c, occupied, v, site.groups[lot]).0.None?
    ensures OnlyTried(site, c, TryPark(site, c, t, occupied, v, lot, PassBy), t, v.id, lot)
  {
    var (selected, draws) := Selection(site, c, occupied, v, site.groups[lot]);
    hide Selection, RecordOf;
    NotedFirst(site, c, t, v, lot, selected, draws);
  }

  /** A vehicle that still has to park tries the lot it is bound for exactly when it is there, and
      elsewhere the first candidate it passes. Otherwise nothing changes. */
  lemma VisitTries(site: Site, c: Core, t: real, occupied: map<string, nat>, v: Visit)
    requires WellFormed(site)
    ensures var rec, d := RecordOf(site, c.records, v.id), ProcessVisit(site, c, t, occupied, v);
            && (LooksForParking(site, c, v.id) && AtTarget(site, c, v) ==> Tried(c, d, t, v.id, rec.current))
            && (LooksForParking(site, c, v.id) && !AtTarget(site, c, v) ==>
                  forall lot :: FirstInPassing(site, rec, CandidatesOf(site, v.id), v.road, lot) ==>
                    Tried(c, d, t, v.id, lot))
            && (d == c <==> !LooksForParking(site, c, v.id)
                            || (!AtTarget(site, c, v)
                                && forall lot :: !FirstInPassing(site, rec, CandidatesOf(site, v.id), v.road, lot)))
  {
    NoEmptyLot(site);
    var rec, candidates := RecordOf(site, c.records, v.id), CandidatesOf(site, v.id);
    FirstPassedIsFirst(site, rec, candidates, v.road);
    FirstIsUnique(site, rec, candidates, v.road);
    hide TryPark, WellFormed, FirstInPassing;
    if LooksForParking(site, c, v.id) {
      if AtTarget(site, c, v) {
        TryParkTries(site, c, t, occupied, v, rec.current, Target);
      } else {
        var lot := FirstPassed(site, rec.current, Unattempted(candidates, rec), v.road);
        if lot.Some? {
          TryParkTries(site, c, t, occupied, v, lot.value, PassBy);
        }
      }
    }
  }

  lemma FirstIsUnique(site: Site, rec: Record, candidates: seq<string>, road: string)
    ensures forall a, b ::
        FirstInPassing(site, rec, candidates, road, a) && FirstInPassing(site, rec, candidates, road, b) ==> a == b
  {
    hide InPassing;
    forall a, b | FirstInPassing(site, rec, candidates, road, a) && FirstInPassing(site, rec, candidates, road, b)
      ensures a == b
    {
      var i :| 0 <= i < |candidates| && candidates[i] == a && InPassing(site, rec, road, a)
               && forall j :: 0 <= j < i ==> !InPassing(site, rec, road, candidates[j]);
      var k :| 0 <= k < |candidates| && candidates[k] == b && InPassing(site, rec, road, b)
               && forall j :: 0 <= j < k ==> !InPassing(site, rec, road, candidates[j]);
      assert i == k;
    }
  }

  // ---- what the search for another lot goes by ----

  /** The vehicle sees how full the lot is, or its driver is informed when deciding. */
  ghost predicate Knows(site: Site, v: string, decision: nat, attempts: nat, lot: string) {
    site.visible(v, lot) || site.driver(v, decision, attempts).informed(lot)
  }

  /** The simulator has a route to the lot and can send the vehicle there. */
  ghost predicate CanReach(v: Visit, round: nat, lot: string) {
    v.route(round, lot).Some? && v.reach(round, lot)
  }

  /** What round i of the search has to go by when it logs e. */
  ghost predicate Grounded(site: Site, reserved: map<string, nat>, occupied: map<string, nat>, v: Visit, rec: Record,
                           i: nat, e: Event) {
    match e.kind
    case Rejected(NoRoute) => !CanReach(v, i, e.lot)
    case Rejected(KnownFullLot) =>
      !HasRoom(site, reserved, occupied, e.lot)
      && Knows(site, v.id, rec.decisions + 1 + i, |rec.attempted|, e.lot)
    case TargetChanged =>
      && e.lot in CandidatesOf(site, v.id) && e.lot in site.groups && CanReach(v, i, e.lot)
      && (Knows(site, v.id, rec.decisions + 1 + i, |rec.attempted|, e.lot) ==>
            HasRoom(site, reserved, occupied, e.lot))
    case _ => false
  }

  lemma RoomIs(site: Site, reserved: map<string, nat>, t: real, occupied: map<string, nat>, v: Visit)
    ensures var ctx := SearchContext(site, reserved, t, occupied, v);
            forall lot :: ctx.free(lot) <= 0 <==> !HasRoom(site, reserved, occupied, lot)
  {
    var ctx := SearchContext(site, reserved, t, occupied, v);
    forall lot
      ensures ctx.free(lot) <= 0 <==> !HasRoom(site, reserved, occupied, lot)
    {
      if lot in site.groups {
        RoomIffFree(site, reserved, occupied, lot);
      }
    }
  }

  ghost predicate JustifiedIn(ctx: Context, rec: Record, i: nat, e: Event) {
    Justified(ctx, i, rec.decisions + 1 + i, |rec.attempted|, e)
  }

  lemma JustifiedGrounds(site: Site, reserved: map<string, nat>, t: real, occupied: map<string, nat>, v: Visit,
                         rec: Record, i: nat, e: Event)
    requires JustifiedIn(SearchContext(site, reserved, t, occupied, v), rec, i, e)
    ensures Grounded(site, reserved, occupied, v, rec, i, e)
  {
    RoomIs(site, reserved, t, occupied, v);
    hide HasRoom, TotalFree, TotalCapacity;
  }

  lemma {:induction false} InSomeRound(rounds: seq<Round>, e: Event)
    requires e in Logs(rounds)
    ensures exists i :: 0 <= i < |rounds| && e in rounds[i].events
  {
    if e !in rounds[0].events {
      InSomeRound(rounds[1..], e);
      var i :| 0 <= i < |rounds[1..]| && e in rounds[1..][i].events;
      assert rounds[i + 1] == rounds[1..][i];
    }
  }

  lemma LoggedInRound(ctx: Context, rec: Record, e: Event)
    requires "" !in ctx.lots && e in Rerouted(ctx, rec, 0).events
    ensures Signed(ctx, rec, e) && exists i: nat :: JustifiedIn(ctx, rec, i, e)
  {
    var rounds := Rounds(ctx, rec, 0);
    RejectionsJustified(ctx, rec, 0);
    hide Rounds, Rerouted, Justified, RoundWell, JustifiedIn;
    InSomeRound(rounds, e);
    var i: nat :| i < |rounds| && e in rounds[i].events;
    FromRound(ctx, rec, i, rounds[i], e);
  }

  lemma FromRound(ctx: Context, rec: Record, i: nat, r: Round, e: Event)
    requires RoundWell(ctx, rec, 0, i, r) && e in r.events
    ensures Signed(ctx, rec, e) && JustifiedIn(ctx, rec, i, e)
  {
    hide Justified;
    assert 0 + i == i;
  }

  lemma SearchGrounded(site: Site, c: Core, t: real, occupied: map<string, nat>, v: Visit, e: Event)
    requires WellFormed(site) && e in Found(site, c, t, occupied, v).events
    ensures e.vehicle == v.id && e.time == t && e.attempts == |RecordOf(site, c.records, v.id).attempted|
        && exists i: nat :: Grounded(site, c.reserved, occupied, v, RecordOf(site, c.records, v.id), i, e)
  {
    NoEmptyLot(site);
    var ctx, rec := SearchContext(site, c.reserved, t, occupied, v), RecordOf(site, c.records, v.id);
    LoggedInRound(ctx, rec, e);
    hide Rerouted, JustifiedIn, WellFormed, Grounded;
    var i: nat :| JustifiedIn(ctx, rec, i, e);
    JustifiedGrounds(site, c.reserved, t, occupied, v, rec, i, e);
  }

  /** An open candidate that the vehicle can reach and does not know to be full. */
  ghost predicate GoodTarget(site: Site, reserved: map<string, nat>, occupied: map<string, nat>, v: Visit, rec: Record,
                             i: nat, lot: string) {
    && lot in CandidatesOf(site, v.id) && lot in site.groups && lot !in rec.attempted && lot !in rec.rejected
    && CanReach(v, i, lot)
    && (Knows(site, v.id, rec.decisions + 1 + i, |rec.attempted|, lot) ==> HasRoom(site, reserved, occupied, lot))
  }

  lemma UsableIsGood(site: Site, reserved: map<string, nat>, t: real, occupied: map<string, nat>, v: Visit,
                     rec: Record, i: nat, lot: string)
    requires var ctx := SearchContext(site, reserved, t, occupied, v);
             lot in Open(ctx, rec) && UsableAfter(ctx, rec, 0, i, lot)
    ensures GoodTarget(site, reserved, occupied, v, rec, i, lot)
  {
    RoomIs(site, reserved, t, occupied, v);
    OpenIff(SearchContext(site, reserved, t, occupied, v), rec);
    hide HasRoom, TotalFree, TotalCapacity, Open;
  }

  /** A search gives up, or finds a good target. */
  ghost predicate FindsWell(site: Site, c: Core, occupied: map<string, nat>, v: Visit, after: Record, found: bool) {
    var rec := RecordOf(site, c.records, v.id);
    && after.attempted == rec.attempted && (forall lot :: lot in rec.rejected ==> lot in after.rejected)
    && (if found then exists i: nat :: GoodTarget(site, c.reserved, occupied, v, rec, i, after.current)
        else after.current == rec.current)
  }

  lemma FoundIsGood(site: Site, c: Core, t: real, occupied: map<string, nat>, v: Visit)
    requires WellFormed(site)
    ensures var r := Found(site, c, t, occupied, v); FindsWell(site, c, occupied, v, r.rec, r.target.Some?)
  {
    hide Rerouted, GoodTarget, UsableAfter, NothingLeft, Open, RecordOf, TotalFree, TotalCapacity;
    NoEmptyLot(site);
    var ctx, rec := SearchContext(site, c.reserved, t, occupied, v), RecordOf(site, c.records, v.id);
    assert "" !in ctx.lots;
    var r := Found(site, c, t, occupied, v);
    assert r == Rerouted(ctx, rec, 0);
    hide SearchContext, WellFormed;
    GivesUpIffExhausted(ctx, rec, 0);
    TargetWasUsable(ctx, rec, 0);
    if r.target.Some? {
      var i: nat :| UsableAfter(ctx, rec, 0, i, r.target.value);
      UsableIsGood(site, c.reserved, t, occupied, v, rec, i, r.target.value);
    }
  }

  /** An offer of a candidate that round i of the search can reach, neither attempted nor rejected
      so far nor known to be full, with what the lot has and how long the way is. */
  ghost predicate OfferOf(site: Site, reserved: map<string, nat>, occupied: map<string, nat>, v: Visit, later: Record,
                          i: nat, o: Offer) {
    && o.lot in CandidatesOf(site, v.id) && o.lot in site.groups
    && o.lot !in later.attempted && o.lot !in later.rejected
    && o.capacity == TotalCapacity(site, site.groups[o.lot])
    && o.free == Some(TotalFree(site, reserved, occupied, site.groups[o.lot]))
    && o.visible == site.visible(v.id, o.lot) && v.route(i, o.lot) == Some(o.driveTime)
    && (Knows(site, v.id, later.decisions + 1, |later.attempted|, o.lot) ==> HasRoom(site, reserved, occupied, o.lot))
  }

  /** The target is on offer, and nothing on offer is worth more to the driver; among equals it has
      the smallest identifier. */
  ghost predicate WorthMost(driver: Driver, compared: seq<Offer>, target: string) {
    && (exists o :: o in compared && o.lot == target)
    && forall o :: o in compared ==>
         && driver.utility(compared, o.lot) <= driver.utility(compared, target)
         && (driver.utility(compared, o.lot) == driver.utility(compared, target) ==> !StringBefore(o.lot, target))
  }

  lemma ComparesOffers(site: Site, reserved: map<string, nat>, t: real, occupied: map<string, nat>, v: Visit,
                       later: Record, i: nat, compared: seq<Offer>)
    requires Compares(SearchContext(site, reserved, t, occupied, v), later, i, compared)
    ensures forall o :: o in compared <==> OfferOf(site, reserved, occupied, v, later, i, o)
  {
    var ctx := SearchContext(site, reserved, t, occupied, v);
    RoomIs(site, reserved, t, occupied, v);
    OpenIff(ctx, later);
    forall o
      ensures o in compared <==> OfferOf(site, reserved, occupied, v, later, i, o)
    {
      hide HasRoom, TotalFree, TotalCapacity, Open, CandidatesOf;
    }
  }

  lemma BestIsWorthMost(site: Site, reserved: map<string, nat>, t: real, occupied: map<string, nat>, v: Visit,
                        later: Record, compared: seq<Offer>, target: string)
    requires IsBestOffer(SearchContext(site, reserved, t, occupied, v), later, compared, target)
    ensures WorthMost(site.driver(v.id, later.decisions + 1, |later.attempted|), compared, target)
  {
    hide StringBefore, TotalFree, TotalCapacity;
  }

  /** A search that succeeds moves to the best of the offers that its last round compared. */
  lemma FoundIsBest(site: Site, c: Core, t: real, occupied: map<string, nat>, v: Visit)
      returns (i: nat, later: Record, compared: seq<Offer>)
    requires WellFormed(site) && "" !in site.groups && Found(site, c, t, occupied, v).target.Some?
    ensures Grows(RecordOf(site, c.records, v.id), later)
        && later.decisions == RecordOf(site, c.records, v.id).decisions + i
    ensures forall o :: o in compared <==> OfferOf(site, c.reserved, occupied, v, later, i, o)
    ensures WorthMost(site.driver(v.id, later.decisions + 1, |later.attempted|), compared,
                      Found(site, c, t, occupied, v).target.value)
  {
    hide OfferOf, Rerouted, StringBefore, WellFormed, IsBestOffer, WorthMost, Compares, RecordOf;
    var rec := RecordOf(site, c.records, v.id);
    i, later, compared := TargetIsBest(SearchContext(site, c.reserved, t, occupied, v), rec, 0);
    assert Found(site, c, t, occupied, v) == Rerouted(SearchContext(site, c.reserved, t, occupied, v), rec, 0);
    hide SearchContext, Found;
    ComparesOffers(site, c.reserved, t, occupied, v, later, i, compared);
    BestIsWorthMost(site, c.reserved, t, occupied, v, later, compared, Found(site, c, t, occupied, v).target.value);
  }

  /** What a search may change: the vehicle's record, the log, and the marks of an unserved
      vehicle. */
  ghost predicate OnlySearched(c: Core, d: Core, v: string) {
    && c.events <= d.events && v in d.records && d.records == c.records[v := d.records[v]]
    && d == c.(records := d.records, events := d.events, completed := d.completed, arrived := d.arrived)
    && c.completed <= d.completed <= c.completed + {v}
    && d.arrived == (if v in d.completed && v !in c.completed then c.arrived + {v} else c.arrived)
  }

  ghost predicate Reported(c: Core, d: Core, t: real, v: string, lot: string, attempts: nat) {
    c.events < d.events && d.events[|d.events| - 1] == Event(t, v, Unserved(Exhausted), lot, "", attempts)
  }

  lemma SearchedIs(c: Core, t: real, v: string, found: Outcome, lot: string, attempts: nat)
    requires v !in c.completed
    ensures var d := Searched(c, t, v, found, lot, attempts);
            && OnlySearched(c, d, v) && d.records[v] == found.rec && (v in d.completed <==> found.target.None?)
            && (v in d.completed ==> Reported(c, d, t, v, lot, attempts))
            && forall e :: e in d.events[|c.events|..] ==>
                 e in found.events || e == Event(t, v, Unserved(Exhausted), lot, "", attempts)
  {
    var d, added := Searched(c, t, v, found, lot, attempts), SearchLog(t, v, found, lot, attempts);
    assert d.events[|c.events|..] == added;
  }

  /** Every event the search logs is this vehicle's, and grounded. */
  ghost predicate AllGrounded(site: Site, c: Core, t: real, occupied: map<string, nat>, v: Visit, events: seq<Event>) {
    forall e :: e in events ==>
      && e.vehicle == v.id && e.time == t
      && (e.kind == Unserved(Exhausted)
          || exists i: nat :: Grounded(site, c.reserved, occupied, v, RecordOf(site, c.records, v.id), i, e))
  }

  lemma FoundGrounded(site: Site, c: Core, t: real, occupied: map<string, nat>, v: Visit)
    requires WellFormed(site)
    ensures AllGrounded(site, c, t, occupied, v, Found(site, c, t, occupied, v).events)
  {
    NoEmptyLot(site);
    hide Found, Grounded, RecordOf, WellFormed;
    forall e | e in Found(site, c, t, occupied, v).events
      ensures e.vehicle == v.id && e.time == t
          && exists i: nat :: Grounded(site, c.reserved, occupied, v, RecordOf(site, c.records, v.id), i, e)
    {
      SearchGrounded(site, c, t, occupied, v, e);
    }
  }

  lemma StillGrounded(site: Site, c: Core, t: real, occupied: map<string, nat>, v: Visit, found: seq<Event>,
                      logged: seq<Event>, lot: string, attempts: nat)
    requires AllGrounded(site, c, t, occupied, v, found)
    requires forall e :: e in logged ==> e in found || e == Event(t, v.id, Unserved(Exhausted), lot, "", attempts)
    ensures AllGrounded(site, c, t, occupied, v, logged)
  {
    hide Grounded, RecordOf;
  }

  /** What the search logs and decides is grounded in the simulator's answers and in the spaces,
      the occupancy and the reservations of the lots. */
  lemma SearchGoesByLots(site: Site, c: Core, t: real, occupied: map<string, nat>, v: Visit, lot: string,
                         attempts: nat)
    requires WellFormed(site) && v.id !in c.completed
    ensures var d := RerouteOrUnserved(site, c, t, occupied, v, lot, attempts);
            && OnlySearched(c, d, v.id)
            && AllGrounded(site, c, t, occupied, v, d.events[|c.events|..])
            && FindsWell(site, c, occupied, v, d.records[v.id], v.id !in d.completed)
            && (v.id in d.completed ==> Reported(c, d, t, v.id, lot, attempts))
  {
    NoEmptyLot(site);
    var found := Found(site, c, t, occupied, v);
    FoundIsGood(site, c, t, occupied, v);
    FoundGrounded(site, c, t, occupied, v);
    SearchedIs(c, t, v.id, found, lot, attempts);
    hide Found, AllGrounded, FindsWell, WellFormed, Searched, Reported, OnlySearched;
    var d := Searched(c, t, v.id, found, lot, attempts);
    StillGrounded(site, c, t, occupied, v, found.events, d.events[|c.events|..], lot, attempts);
  }

  /** The events log exactly the lots rejected, and last the new target. */
  ghost predicate LogsSearch(t: real, v: string, rec: Record, after: Record, found: bool, events: seq<Event>) {
    && LogsRejections(rec, after, events)
    && (found ==>
          events != []
          && events[|events| - 1] == Event(t, v, TargetChanged, after.current, "", |rec.attempted|))
  }

  lemma FoundLogs(site: Site, c: Core, t: real, occupied: map<string, nat>, v: Visit)
    requires WellFormed(site)
    ensures "" !in site.groups
    ensures var found := Found(site, c, t, occupied, v);
            LogsSearch(t, v.id, RecordOf(site, c.records, v.id), found.rec, found.target.Some?, found.events)
  {
    hide Rerouted, LogsRejections, RecordOf, NothingLeft, Open, TotalFree, TotalCapacity;
    NoEmptyLot(site);
    var ctx, rec := SearchContext(site, c.reserved, t, occupied, v), RecordOf(site, c.records, v.id);
    assert ctx.time == t && ctx.vehicle == v.id && "" !in ctx.lots;
    assert Found(site, c, t, occupied, v) == Rerouted(ctx, rec, 0);
    hide SearchContext, WellFormed;
    SearchLogs(ctx, rec, 0);
    GivesUpIffExhausted(ctx, rec, 0);
  }

  lemma SearchedLogs(c: Core, t: real, v: string, rec: Record, found: Outcome, lot: string, attempts: nat)
    requires LogsSearch(t, v, rec, found.rec, found.target.Some?, found.events)
    ensures var d := Searched(c, t, v, found, lot, attempts);
            && |d.events| >= |c.events|
            && LogsSearch(t, v, rec, found.rec, found.target.Some?, d.events[|c.events|..])
  {
    var d := Searched(c, t, v, found, lot, attempts);
    assert d.events[|c.events|..] == SearchLog(t, v, found, lot, attempts);
    hide LogsRejections;
    if found.target.None? {
      SameRejections(rec, found.rec, found.rec, found.events, Event(t, v, Unserved(Exhausted), lot, "", attempts));
    } else {
      assert found.events + [] == found.events;
    }
  }

  /** A search logs exactly the lots it rejects, and last the target it moves to. */
  lemma SearchLogIsComplete(site: Site, c: Core, t: real, occupied: map<string, nat>, v: Visit, lot: string,
                            attempts: nat)
    requires WellFormed(site) && v.id !in c.completed
    ensures var d := RerouteOrUnserved(site, c, t, occupied, v, lot, attempts);
            && |d.events| >= |c.events| && v.id in d.records
            && LogsSearch(t, v.id, RecordOf(site, c.records, v.id), d.records[v.id], v.id !in d.completed,
                          d.events[|c.events|..])
  {
    FoundLogs(site, c, t, occupied, v);
    var found := Found(site, c, t, occupied, v);
    hide Found, LogsSearch, WellFormed, RecordOf;
    SearchedLogs(c, t, v.id, RecordOf(site, c.records, v.id), found, lot, attempts);
    SearchedIs(c, t, v.id, found, lot, attempts);
    hide Searched, OnlySearched, Reported;
    assert OnlySearched(c, Searched(c, t, v.id, found, lot, attempts), v.id);
    RecordThere(c, Searched(c, t, v.id, found, lot, attempts), v.id);
  }

  lemma RecordThere(c: Core, d: Core, v: string)
    requires OnlySearched(c, d, v)
    ensures v in d.records
  {
  }

  /** d is c after a search: only what a search may change has changed, everything it logged is
      grounded, and it ended with a good target or a report. */
  ghost predicate SearchedFrom(site: Site, c: Core, d: Core, t: real, occupied: map<string, nat>, v: Visit, lot: string,
                               attempts: nat) {
    && OnlySearched(c, d, v.id) && AllGrounded(site, c, t, occupied, v, d.events[|c.events|..])
    && FindsWell(site, c, occupied, v, d.records[v.id], v.id !in d.completed)
    && (v.id in d.completed ==> Reported(c, d, t, v.id, lot, attempts))
  }

  // ---- what an assignment books ----

  /** The log of d is that of c with an attempt that selected p, and a new target if the lot was
      taken in passing. */
  ghost predicate Heads(site: Site, c: Core, events: seq<Event>, t: real, v: string, lot: string, p: string,
                        attempts: nat) {
    events == c.events + [Event(t, v, Attempt(true), lot, p, attempts)]
              + if RecordOf(site, c.records, v).current == lot then []
                else [Event(t, v, TargetChanged, lot, "", attempts)]
  }

  /** Bound for the lot, with the attempt noted. */
  ghost predicate BoundFor(site: Site, c: Core, d: Core, v: string, lot: string) {
    var rec := RecordOf(site, c.records, v);
    v in d.records && d.records == c.records[v := d.records[v]]
    && d.records[v] ==
       rec.(current := lot, attempted := if lot in rec.attempted then rec.attempted else rec.attempted + [lot])
  }

  /** With demand by persons a stop lasts to the end of the simulation, and at least a second;
      otherwise as long as the next random number says. */
  ghost predicate StopsFor(site: Site, t: real, draws: nat, duration: real, drawn: nat) {
    if site.personBased
    then duration >= 1.0 && t + duration >= site.endTime && (duration == 1.0 || t + duration == site.endTime)
         && drawn == draws
    else duration == site.durations(draws) && drawn == draws + 1
  }

  /** v has area p of the lot: one more reservation, and nothing else has changed but the record,
      the log and the random numbers used. */
  ghost predicate AssignedTo(site: Site, c: Core, d: Core, t: real, v: string, lot: string, p: string, draws: nat) {
    && BoundFor(site, c, d, v, lot) && v in d.durations && StopsFor(site, t, draws, d.durations[v], d.draws)
    && d == c.(records := d.records, events := d.events, draws := d.draws,
               assignment := c.assignment[v := p], active := c.active + {v},
               durations := c.durations[v := d.durations[v]],
               reserved := c.reserved[p := 1 + if p in c.reserved then c.reserved[p] else 0])
    && |d.events| > 0 && d.events[|d.events| - 1] ==
                         Event(t, v, Assigned, lot, p, |d.records[v].attempted|)
    && Heads(site, c, d.events[..|d.events| - 1], t, v, lot, p, |d.records[v].attempted|)
  }

  lemma AttemptedIs(site: Site, c: Core, t: real, v: Visit, lot: string, p: string, draws: nat)
    requires lot != ""
    ensures var d, rec := Attempted(site, c, t, v, lot, Some(p), draws), RecordOf(site, c.records, v.id);
            var noted := rec.(attempted := if lot in rec.attempted then rec.attempted else rec.attempted + [lot]);
            && d.records == c.records[v.id := noted] && RecordOf(site, d.records, v.id) == noted
            && d.events == c.events + [Event(t, v.id, Attempt(true), lot, p, |noted.attempted|)]
            && d == c.(records := d.records, events := d.events, draws := draws)
  {
  }

  lemma RetargetedIs(site: Site, c: Core, t: real, v: Visit, lot: string)
    requires v.id in c.records
    ensures var d, rec := Retargeted(site, c, t, v, lot), c.records[v.id];
            && d == c.(records := d.records, events := d.events)
            && d.records == c.records[v.id := rec.(current := lot)]
            && d.events ==
               c.events + if rec.current == lot then []
                          else [Event(t, v.id, TargetChanged, lot, "", |rec.attempted|)]
  {
    var rec := c.records[v.id];
    if rec.current == lot {
      assert rec.(current := lot) == rec && c.records[v.id := rec] == c.records;
      assert c.events + [] == c.events;
    }
  }

  lemma NotedAndBound(site: Site, c: Core, t: real, v: Visit, lot: string, p: string, draws: nat)
    requires lot != ""
    ensures var d := Retargeted(site, Attempted(site, c, t, v, lot, Some(p), draws), t, v, lot);
            && BoundFor(site, c, d, v.id, lot)
            && Heads(site, c, d.events, t, v.id, lot, p, |d.records[v.id].attempted|)
            && d == c.(records := d.records, events := d.events, draws := draws)
  {
    AttemptedIs(site, c, t, v, lot, p, draws);
    RetargetedIs(site, Attempted(site, c, t, v, lot, Some(p), draws), t, v, lot);
    hide RecordOf, Attempted, Retargeted;
  }

  lemma StopLasts(site: Site, c: Core, t: real)
    ensures StopsFor(site, t, c.draws, StopDuration(site, c, t), if site.personBased then c.draws else c.draws + 1)
  {
  }

  /** m is c bound for the lot, with the attempt noted and the random numbers of the selection used. */
  ghost predicate Bound(site: Site, c: Core, m: Core, t: real, v: string, lot: string, p: string, draws: nat) {
    && BoundFor(site, c, m, v, lot) && Heads(site, c, m.events, t, v, lot, p, |m.records[v].attempted|)
    && m == c.(records := m.records, events := m.events, draws := draws)
  }

  lemma NotedIsBound(site: Site, c: Core, t: real, v: Visit, lot: string, p: string, draws: nat)
    requires lot != ""
    ensures var m := Retargeted(site, Attempted(site, c, t, v, lot, Some(p), draws), t, v, lot);
            Bound(site, c, m, t, v.id, lot, p, draws)
  {
    NotedAndBound(site, c, t, v, lot, p, draws);
    hide Attempted, Retargeted, RecordOf, Heads, BoundFor;
  }

  /** What an accepted assignment books. */
  lemma AcceptedIsAssigned(site: Site, c: Core, m: Core, t: real, occupied: map<string, nat>, v: Visit, lot: string,
                           p: string, draws: nat)
    requires "" !in site.groups && v.outcome == Accepted && Bound(site, c, m, t, v.id, lot, p, draws)
    ensures AssignedTo(site, c, Assign(site, m, t, occupied, v, lot, p, |m.records[v.id].attempted|), t, v.id, lot, p,
                       draws)
  {
    StopLasts(site, m, t);
    hide RecordOf, StopDuration, StopsFor, Heads;
    var attempts := |m.records[v.id].attempted|;
    var d := Assign(site, m, t, occupied, v, lot, p, attempts);
    assert d.events == m.events + [Event(t, v.id, Assigned, lot, p, attempts)];
    assert d.events[..|d.events| - 1] == m.events;
  }

  /** What a failed assignment leaves before the search: the failure is logged and the area is
      released, whether or not it had been booked. */
  ghost predicate FailedAt(site: Site, c: Core, d: Core, t: real, v: Visit, lot: string, p: string, draws: nat) {
    && BoundFor(site, c, d, v.id, lot)
    && |d.events| > 0 && d.events[|d.events| - 1] ==
                         Event(t, v.id, AssignmentFailed, lot, p, |d.records[v.id].attempted|)
    && Heads(site, c, d.events[..|d.events| - 1], t, v.id, lot, p, |d.records[v.id].attempted|)
    && (if v.outcome == LogRefused
        then && d.assignment == c.assignment[v.id := p] && d.active == c.active + {v.id}
             && v.id in d.durations && d.durations == c.durations[v.id := d.durations[v.id]]
             && StopsFor(site, t, draws, d.durations[v.id], d.draws)
             && d.reserved == c.reserved[p := if p in c.reserved then c.reserved[p] else 0]
        else && d.assignment == c.assignment && d.active == c.active && d.durations == c.durations
             && d.reserved == (if p in c.reserved && c.reserved[p] > 0 then c.reserved[p := c.reserved[p] - 1]
                               else c.reserved)
             && d.draws == if v.outcome == RouteRefused || site.personBased then draws else draws + 1)
    && d == c.(records := d.records, events := d.events, draws := d.draws, assignment := d.assignment,
               active := d.active, durations := d.durations, reserved := d.reserved)
  }

  lemma FailureIsReleased(site: Site, c: Core, m: Core, t: real, v: Visit, lot: string, p: string, draws: nat)
    requires v.outcome != Accepted && Bound(site, c, m, t, v.id, lot, p, draws)
    ensures FailedAt(site, c, FailedAssign(site, m, t, v, lot, p, |m.records[v.id].attempted|), t, v, lot, p, draws)
  {
    StopLasts(site, m, t);
    hide RecordOf, StopDuration, StopsFor, Heads;
    var attempts := |m.records[v.id].attempted|;
    var d := FailedAssign(site, m, t, v, lot, p, attempts);
    assert d.events == m.events + [Event(t, v.id, AssignmentFailed, lot, p, attempts)];
    assert d.events[..|d.events| - 1] == m.events;
  }

  /** How a visit that tried the lot ends, from what was selected and how the commands ended. */
  ghost predicate TriedWell(site: Site, c: Core, d: Core, t: real, occupied: map<string, nat>, v: Visit, lot: string,
                            context: SelectionContext, selected: Option<string>, draws: nat) {
    if selected.None?
    then exists m :: && OnlyTried(site, c, m, t, v.id, lot) && m.draws == draws
                     && if context == PassBy then d == m
                        else SearchedFrom(site, m, d, t, occupied, v, lot, |m.records[v.id].attempted|)
    else if v.outcome == Accepted then AssignedTo(site, c, d, t, v.id, lot, selected.value, draws)
    else exists m :: && FailedAt(site, c, m, t, v, lot, selected.value, draws)
                     && SearchedFrom(site, m, d, t, occupied, v, lot, |m.records[v.id].attempted|)
  }

  lemma SearchIs(site: Site, c: Core, t: real, occupied: map<string, nat>, v: Visit, lot: string, attempts: nat)
    requires WellFormed(site) && v.id !in c.completed
    ensures SearchedFrom(site, c, RerouteOrUnserved(site, c, t, occupied, v, lot, attempts), t, occupied, v, lot,
                         attempts)
  {
    SearchGoesByLots(site, c, t, occupied, v, lot, attempts);
    hide OnlySearched, AllGrounded, FindsWell, Reported, RerouteOrUnserved;
  }

  lemma NoSpaceSearches(site: Site, c: Core, t: real, occupied: map<string, nat>, v: Visit, lot: string,
                        context: SelectionContext)
    requires WellFormed(site) && lot in site.groups && v.id !in c.completed
        && Selection(site, c, occupied, v, site.groups[lot]).0.None?
    ensures TriedWell(site, c, TryPark(site, c, t, occupied, v, lot, context), t, occupied, v, lot, context, None,
                      Selection(site, c, occupied, v, site.groups[lot]).1)
  {
    NoEmptyLot(site);
    PassByIsQuick(site, c, t, occupied, v, lot);
    var m := TryPark(site, c, t, occupied, v, lot, PassBy);
    var attempts := |m.records[v.id].attempted|;
    assert RecordOf(site, m.records, v.id) == m.records[v.id];
    assert m.draws == Selection(site, c, occupied, v, site.groups[lot]).1 by {
      hide Selection, RecordOf;
    }
    if context != PassBy {
      assert TryPark(site, c, t, occupied, v, lot, context) ==
             RerouteOrUnserved(site, m, t, occupied, v, lot, attempts) by {
        hide Selection, RerouteOrUnserved, AttemptedRecord;
      }
      SearchIs(site, m, t, occupied, v, lot, attempts);
    }
    hide OnlyTried, SearchedFrom, TryPark;
  }

  lemma SpaceAssigns(site: Site, c: Core, t: real, occupied: map<string, nat>, v: Visit, lot: string,
                     context: SelectionContext, p: string)
    requires WellFormed(site) && lot in site.groups && v.id !in c.completed
        && Selection(site, c, occupied, v, site.groups[lot]).0 == Some(p)
    ensures TriedWell(site, c, TryPark(site, c, t, occupied, v, lot, context), t, occupied, v, lot, context, Some(p),
                      Selection(site, c, occupied, v, site.groups[lot]).1)
  {
    NoEmptyLot(site);
    var draws := Selection(site, c, occupied, v, site.groups[lot]).1;
    var m := Retargeted(site, Attempted(site, c, t, v, lot, Some(p), draws), t, v, lot);
    NotedIsBound(site, c, t, v, lot, p, draws);
    SelectedIs(site, c, t, occupied, v, lot, context, p, draws);
    hide Selection, TryPark, Attempted, Retargeted, WellFormed;
    AssignEnds(site, c, m, t, occupied, v, lot, context, p, draws);
  }

  lemma SelectedIs(site: Site, c: Core, t: real, occupied: map<string, nat>, v: Visit, lot: string,
                   context: SelectionContext, p: string, draws: nat)
    requires "" !in site.groups && lot in site.groups
        && Selection(site, c, occupied, v, site.groups[lot]) == (Some(p), draws)
    ensures var m := Retargeted(site, Attempted(site, c, t, v, lot, Some(p), draws), t, v, lot);
            v.id in m.records && TryPark(site, c, t, occupied, v, lot, context) ==
                                 Assign(site, m, t, occupied, v, lot, p, |m.records[v.id].attempted|)
  {
    var c1 := Attempted(site, c, t, v, lot, Some(p), draws);
    AttemptedIs(site, c, t, v, lot, p, draws);
    RetargetedIs(site, c1, t, v, lot);
    hide Selection, Assign, Attempted, Retargeted;
  }

  lemma AssignEnds(site: Site, c: Core, m: Core, t: real, occupied: map<string, nat>, v: Visit, lot: string,
                   context: SelectionContext, p: string, draws: nat)
    requires WellFormed(site) && "" !in site.groups && v.id !in c.completed && Bound(site, c, m, t, v.id, lot, p, draws)
    ensures TriedWell(site, c, Assign(site, m, t, occupied, v, lot, p, |m.records[v.id].attempted|), t, occupied, v,
                      lot, context, Some(p), draws)
  {
    var attempts := |m.records[v.id].attempted|;
    assert m.completed == c.completed;
    hide WellFormed;
    if v.outcome == Accepted {
      AcceptedIsAssigned(site, c, m, t, occupied, v, lot, p, draws);
    } else {
      FailureIsReleased(site, c, m, t, v, lot, p, draws);
      var failed := FailedAssign(site, m, t, v, lot, p, attempts);
      assert failed.records == m.records && failed.completed == m.completed;
      SearchIs(site, failed, t, occupied, v, lot, attempts);
    }
    hide Bound, AssignedTo, FailedAt, SearchedFrom, FailedAssign, RerouteOrUnserved;
  }

  /** A vehicle that still has to park and is where it is bound for, or passes a candidate, tries
      that lot. What the policy selects there decides how the visit ends. */
  lemma VisitEnds(site: Site, c: Core, t: real, occupied: map<string, nat>, v: Visit, lot: string)
    requires WellFormed(site) && LooksForParking(site, c, v.id)
    requires var rec := RecordOf(site, c.records, v.id);
             if AtTarget(site, c, v) then lot == rec.current
             else FirstInPassing(site, rec, CandidatesOf(site, v.id), v.road, lot)
    ensures lot in site.groups
    ensures var (selected, draws) := Selection(site, c, occupied, v, site.groups[lot]);
            TriedWell(site, c, ProcessVisit(site, c, t, occupied, v), t, occupied, v, lot,
                      if AtTarget(site, c, v) then Target else PassBy, selected, draws)
  {
    NoEmptyLot(site);
    var rec, candidates := RecordOf(site, c.records, v.id), CandidatesOf(site, v.id);
    FirstPassedIsFirst(site, rec, candidates, v.road);
    FirstIsUnique(site, rec, candidates, v.road);
    var context := if AtTarget(site, c, v) then Target else PassBy;
    assert lot in site.groups;
    assert ProcessVisit(site, c, t, occupied, v) == TryPark(site, c, t, occupied, v, lot, context) by {
      hide TryPark, FirstInPassing;
    }
    var selected := Selection(site, c, occupied, v, site.groups[lot]).0;
    hide TryPark, TriedWell, Selection, ProcessVisit, FirstInPassing, WellFormed;
    if selected.None? {
      NoSpaceSearches(site, c, t, occupied, v, lot, context);
    } else {
      SpaceAssigns(site, c, t, occupied, v, lot, context, selected.value);
    }
  }
}
