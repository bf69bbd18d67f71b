/** Reservation accounting and capacity safety of the parking controller over whole runs. */
module ParkingSafety {
  import opened Wrappers
  import opened ParkingChoice
  import opened Reroute
  import opened ParkingModel

  // ---- the invariants ----

  /** Vehicles with an unreleased reservation of p. */
  ghost function Holders(c: Core, p: string): set<string> {
    HoldersIn(c.active, c.assignment, p)
  }

  ghost function HoldersIn(active: set<string>, assignment: map<string, string>, p: string): set<string> {
    set v | v in active && v in assignment && assignment[v] == p
  }

  /** On every run: no more is reserved than is held, and only assigned vehicles hold. */
  ghost predicate AtMost(c: Core) {
    c.active <= c.assignment.Keys && forall p :: Reserved(c.reserved, p) <= |Holders(c, p)|
  }

  /** The reservation counter is the number of holders. */
  ghost predicate ExactAt(c: Core, p: string) {
    Reserved(c.reserved, p) == |Holders(c, p)|
  }

  ghost predicate Exact(c: Core) {
    c.active <= c.assignment.Keys && forall p :: ExactAt(c, p)
  }

  /** No vehicle that is done has an assignment. */
  ghost predicate Separate(c: Core) {
    c.completed !! c.assignment.Keys
  }

  ghost predicate FitsAt(site: Site, c: Core, occupied: map<string, nat>, p: string) {
    Occupied(occupied, p) + Reserved(c.reserved, p) <= CapacityOf(site, p)
  }

  ghost predicate Fits(site: Site, c: Core, occupied: map<string, nat>) {
    forall p :: p in site.capacity ==> FitsAt(site, c, occupied, p)
  }

  /** The balanced policy counts a capacity of zero as one; it needs areas that have a space. */
  ghost predicate Sound(site: Site) {
    && WellFormed(site)
    && (site.policy == BalancedAvailable ==>
          forall lot, a :: lot in site.groups && a in site.groups[lot] ==> CapacityOf(site, a.id) >= 1)
  }

  ghost predicate NoFailure(events: seq<Event>) {
    forall e :: e in events ==> !e.kind.AssignmentFailed?
  }

  // ---- choosing ----

  /** A chosen area belongs to the lot and may be used; it has a free space, except that the
      balanced policy can choose an area of capacity zero. */
  lemma ChooseIsFree(site: Site, reserved: map<string, nat>, occupied: map<string, nat>, cost: string -> Option<real>,
                     areas: seq<Area>, draws: nat)
    ensures var p := Choose(site, reserved, occupied, cost, areas, draws).0;
            p.Some? ==>
              && (exists a :: a in areas && a.id == p.value) && Selectable(site, p.value)
              && (HasSpace(site, reserved, occupied, p.value)
                  <==> site.policy != BalancedAvailable || CapacityOf(site, p.value) >= 1)
  {
    var available := Reachable(site, reserved, occupied, cost, areas);
    if site.policy == RandomAvailable && available != [] {
      assert available[site.picks(draws) % |available|] in available;
    }
  }

  /** Next to an open area that is further away, the balanced policy chooses an area of capacity
      zero: its booking exceeds the capacity. */
  lemma BalancedIgnoresZeroCapacity(site: Site, c: Core, t: real, v: Visit, lot: string, a: Area, b: Area)
    requires WellFormed(site) && site.policy == BalancedAvailable && site.selectable.None?
    requires lot in site.groups && site.groups[lot] == [a, b] && CapacityOf(site, a.id) == 0
        && CapacityOf(site, b.id) >= 1
    requires v.cost(a.edge).Some? && v.cost(b.edge).Some? && v.cost(a.edge).value < v.cost(b.edge).value
    requires Reserved(c.reserved, a.id) == Reserved(c.reserved, b.id) == 0 && v.outcome == Accepted
    ensures Selection(site, c, map[], v, [a, b]).0 == Some(a.id)
    ensures !FitsAt(site, TryPark(site, c, t, map[], v, lot, Target), map[], a.id)
  {
    var areas := [a, b];
    assert HasSpace(site, c.reserved, map[], areas[1].id);
    assert Utilization(site, c.reserved, map[], a.id) == 0.0 == Utilization(site, c.reserved, map[], b.id);
    BalancedTakesNearer(site, c.reserved, v.cost, a, b);
    hide Balanced, RecordOf, Utilization, HasFreeSpace;
    AttemptIsQuiet(site, c, t, v, lot, Some(a.id), c.draws);
    hide Attempted, Retargeted, StopDuration;
  }

  lemma BalancedTakesNearer(site: Site, reserved: map<string, nat>, cost: string -> Option<real>, a: Area, b: Area)
    requires BalancedCandidate(site, reserved, map[], cost, a) && cost(b.edge).Some?
    requires Reserved(reserved, a.id) == Reserved(reserved, b.id) && cost(a.edge).value < cost(b.edge).value
    requires Utilization(site, reserved, map[], a.id) == Utilization(site, reserved, map[], b.id)
    ensures Balanced(site, reserved, map[], cost, [a, b]) == Some(a)
  {
    assert [a, b][..1] == [a] && [a][..0] == [];
    assert Balanced(site, reserved, map[], cost, [a]) == Some(a);
    hide Utilization;
  }

  // ---- accounting of the elementary changes ----

  /** The two cores agree on assignments, reservations and counters. */
  ghost predicate SameBooks(c: Core, d: Core) {
    c.active == d.active && c.assignment == d.assignment && c.reserved == d.reserved
  }

  lemma SameBooksCount(c: Core, d: Core)
    requires SameBooks(c, d)
    ensures forall p :: Holders(c, p) == Holders(d, p)
    ensures AtMost(c) == AtMost(d) && Exact(c) == Exact(d)
    ensures c.completed == d.completed ==> Separate(c) == Separate(d)
  {
    assert forall p :: Holders(c, p) == Holders(d, p);
    assert forall p :: ExactAt(c, p) == ExactAt(d, p);
  }

  /** d books v for p on top of c. */
  lemma BookHolders(c: Core, d: Core, v: string, p: string)
    requires c.active <= c.assignment.Keys && v !in c.assignment
    requires d.active == c.active + {v} && d.assignment == c.assignment[v := p]
    ensures d.active <= d.assignment.Keys
    ensures forall q :: |Holders(d, q)| == |Holders(c, q)| + if q == p then 1 else 0
  {
    forall q
      ensures |Holders(d, q)| == |Holders(c, q)| + if q == p then 1 else 0
    {
      BookCount(c.active, c.assignment, v, p, q);
    }
  }

  lemma BookCount(active: set<string>, assignment: map<string, string>, v: string, p: string, q: string)
    requires v !in active
    ensures |HoldersIn(active + {v}, assignment[v := p], q)| == |HoldersIn(active, assignment, q)| + if q == p then 1
        else 0
  {
    BookSet(active, assignment, v, p, q);
    assert v !in HoldersIn(active, assignment, q);
  }

  lemma BookSet(active: set<string>, assignment: map<string, string>, v: string, p: string, q: string)
    requires v !in active
    ensures HoldersIn(active + {v}, assignment[v := p], q) == HoldersIn(active, assignment, q) + if q == p then {v}
        else {}
  {
  }

  lemma UnbookHolders(c: Core, d: Core, v: string)
    requires c.active <= c.assignment.Keys && v in c.active
    requires d.active == c.active - {v} && d.assignment == c.assignment
    ensures forall q :: Holders(d, q) == Holders(c, q) - {v}
    ensures forall q :: |Holders(d, q)| == |Holders(c, q)| - if q == c.assignment[v] then 1 else 0
  {
    forall q
      ensures Holders(d, q) == Holders(c, q) - {v}
      ensures |Holders(d, q)| == |Holders(c, q)| - if q == c.assignment[v] then 1 else 0
    {
      if q == c.assignment[v] {
        assert Holders(c, q) == Holders(d, q) + {v};
      } else {
        assert Holders(c, q) == Holders(d, q);
      }
    }
  }

  lemma ReleaseIs(reserved: map<string, nat>, p: string)
    ensures forall q :: Reserved(Release(reserved, p), q) ==
              if q == p && Reserved(reserved, p) > 0 then Reserved(reserved, q) - 1 else Reserved(reserved, q)
    ensures forall q :: Reserved(Release(Reserve(reserved, p), p), q) == Reserved(reserved, q)
    ensures forall q :: Reserved(Reserve(reserved, p), q) == Reserved(reserved, q) + if q == p then 1 else 0
  {
  }

  lemma BookedAccounts(site: Site, c: Core, t: real, v: Visit, p: string)
    requires c.active <= c.assignment.Keys && v.id !in c.assignment
    ensures var d := Booked(site, c, t, v, p);
            && (AtMost(c) ==> AtMost(d)) && (Exact(c) ==> Exact(d))
            && (forall q :: |Holders(d, q)| == |Holders(c, q)| + if q == p then 1 else 0)
  {
    var d := Booked(site, c, t, v, p);
    BookHolders(c, d, v.id, p);
    ReleaseIs(c.reserved, p);
    if Exact(c) {
      forall q
        ensures ExactAt(d, q)
      {
        assert ExactAt(c, q);
      }
    }
  }

  lemma FailedAccounts(site: Site, c: Core, t: real, v: Visit, lot: string, p: string, attempts: nat)
    requires c.active <= c.assignment.Keys && v.id !in c.assignment
    ensures var d := FailedAssign(site, c, t, v, lot, p, attempts);
            && (AtMost(c) ==> AtMost(d))
            && (forall q :: Reserved(d.reserved, q) <= Reserved(c.reserved, q))
            && (forall q :: |Holders(d, q)| == |Holders(c, q)| + if v.outcome == LogRefused && q == p then 1 else 0)
            && d.active <= d.assignment.Keys
  {
    var d := FailedAssign(site, c, t, v, lot, p, attempts);
    ReleaseIs(c.reserved, p);
    if v.outcome == LogRefused {
      BookHolders(c, d, v.id, p);
    } else {
      assert forall q :: Holders(d, q) == Holders(c, q);
    }
  }

  // ---- one visit ----

  /** What one vehicle's processing may change: the log grows, running assignments stay, and
      a counter only rises where a space is free. */
  ghost predicate VisitEffect(site: Site, c: Core, d: Core, occupied: map<string, nat>) {
    && c.events <= d.events
    && c.active <= d.active && c.assignment.Keys <= d.assignment.Keys
    && (forall v :: v in c.assignment ==> d.assignment[v] == c.assignment[v])
    && (Sound(site) ==> forall p :: Reserved(d.reserved, p) > Reserved(c.reserved, p) ==> FitsAt(site, d, occupied, p))
  }

  lemma FoundIsQuiet(site: Site, c: Core, t: real, occupied: map<string, nat>, v: Visit)
    requires WellFormed(site)
    ensures forall e :: e in Found(site, c, t, occupied, v).events ==> !e.kind.Unserved?
    ensures NoFailure(Found(site, c, t, occupied, v).events)
  {
    SearchIsQuiet(SearchContext(site, c.reserved, t, occupied, v), RecordOf(site, c.records, v.id), 0);
  }

  lemma RerouteKeeps(site: Site, c: Core, t: real, occupied: map<string, nat>, v: Visit, lot: string, attempts: nat)
    requires WellFormed(site)
    ensures var d := RerouteOrUnserved(site, c, t, occupied, v, lot, attempts);
            && c.events <= d.events && SameBooks(c, d)
            && d.completed <= c.completed + {v.id} && c.completed <= d.completed
            && (NoFailure(c.events) <==> NoFailure(d.events))
  {
    FoundIsQuiet(site, c, t, occupied, v);
    var found := Found(site, c, t, occupied, v);
    hide Found, WellFormed;
    SearchedKeeps(c, t, v.id, found, lot, attempts);
  }

  lemma SearchedKeeps(c: Core, t: real, v: string, found: Outcome, lot: string, attempts: nat)
    requires NoFailure(found.events)
    ensures var d := Searched(c, t, v, found, lot, attempts);
            && c.events <= d.events && SameBooks(c, d)
            && d.completed <= c.completed + {v} && c.completed <= d.completed
            && (NoFailure(c.events) <==> NoFailure(d.events))
  {
    var added := SearchLog(t, v, found, lot, attempts);
    assert NoFailure(added);
    NoFailureConcat(c.events, added);
    hide SearchLog, NoFailure;
  }

  lemma NoFailureConcat(a: seq<Event>, b: seq<Event>)
    requires NoFailure(b)
    ensures NoFailure(a + b) <==> NoFailure(a)
  {
    if NoFailure(a + b) {
      forall e | e in a
        ensures !e.kind.AssignmentFailed?
      {
        assert e in a + b;
      }
    }
  }

  /** The effect on the books of one call of Assign. */
  lemma AssignAccounts(site: Site, c: Core, t: real, occupied: map<string, nat>, v: Visit, lot: string, p: string,
                       attempts: nat)
    requires WellFormed(site) && AtMost(c) && v.id !in c.assignment
        && (Sound(site) ==> FreeSpaces(site, c.reserved, occupied, p) > 0)
    ensures var d := Assign(site, c, t, occupied, v, lot, p, attempts);
            && AtMost(d) && VisitEffect(site, c, d, occupied)
            && (Exact(c) && NoFailure(d.events) ==> Exact(d))
            && (v.outcome != LogRefused && Separate(c) && v.id !in c.completed ==> Separate(d))
  {
    assert "" !in site.groups;
    hide RerouteOrUnserved, WellFormed, Holders, AtMost, Exact, VisitEffect;
    var d := Assign(site, c, t, occupied, v, lot, p, attempts);
    if v.outcome == Accepted {
      BookedEffect(site, c, t, occupied, v, p);
      BookedAccounts(site, c, t, v, p);
      SameBooksCount(Booked(site, c, t, v, p), d);
      EffectsExtend(site, c, Booked(site, c, t, v, p), d, occupied);
    } else {
      var failed := FailedAssign(site, c, t, v, lot, p, attempts);
      FailedAccounts(site, c, t, v, lot, p, attempts);
      FailedEffect(site, c, t, occupied, v, lot, p, attempts);
      FailureIsLogged(site, c, t, v, lot, p, attempts);
      RerouteKeeps(site, failed, t, occupied, v, lot, attempts);
      hide FailedAssign;
      SameBooksCount(failed, d);
      EffectsExtend(site, c, failed, d, occupied);
    }
  }

  lemma BookedEffect(site: Site, c: Core, t: real, occupied: map<string, nat>, v: Visit, p: string)
    requires v.id !in c.assignment && (Sound(site) ==> FreeSpaces(site, c.reserved, occupied, p) > 0)
    ensures VisitEffect(site, c, Booked(site, c, t, v, p), occupied)
  {
    ReleaseIs(c.reserved, p);
  }

  lemma FailedEffect(site: Site, c: Core, t: real, occupied: map<string, nat>, v: Visit, lot: string, p: string,
                     attempts: nat)
    requires v.id !in c.assignment
    ensures VisitEffect(site, c, FailedAssign(site, c, t, v, lot, p, attempts), occupied)
  {
    ReleaseIs(c.reserved, p);
  }

  /** More log entries do not matter. */
  lemma EffectsExtend(site: Site, c: Core, d: Core, e: Core, occupied: map<string, nat>)
    requires VisitEffect(site, c, d, occupied) && SameBooks(d, e) && d.events <= e.events
    ensures VisitEffect(site, c, e, occupied)
  {
    forall p | Sound(site) && Reserved(e.reserved, p) > Reserved(c.reserved, p)
      ensures FitsAt(site, e, occupied, p)
    {
      assert FitsAt(site, d, occupied, p);
    }
  }

  lemma FailureIsLogged(site: Site, c: Core, t: real, v: Visit, lot: string, p: string, attempts: nat)
    ensures !NoFailure(FailedAssign(site, c, t, v, lot, p, attempts).events)
  {
    var events := FailedAssign(site, c, t, v, lot, p, attempts).events;
    assert events[|events| - 1].kind.AssignmentFailed? && events[|events| - 1] in events;
  }

  lemma VisitAccounts(site: Site, c: Core, t: real, occupied: map<string, nat>, v: Visit)
    requires WellFormed(site) && AtMost(c)
    ensures var d := ProcessVisit(site, c, t, occupied, v);
            && AtMost(d) && VisitEffect(site, c, d, occupied)
            && (Exact(c) && NoFailure(d.events) ==> Exact(d))
            && (v.outcome != LogRefused && Separate(c) ==> Separate(d))
  {
    hide TryPark, AtMost, Exact;
    var rec := RecordOf(site, c.records, v.id);
    if rec.current in site.groups && v.id !in c.completed && v.id !in c.assignment {
      var (attempt, context) := DecisionTarget(site, rec.current, Unattempted(CandidatesOf(site, v.id), rec), v.road);
      if attempt.Some? && attempt.value in site.groups {
        TryParkAccounts(site, c, t, occupied, v, attempt.value, context);
      }
    }
  }

  lemma TryParkAccounts(site: Site, c: Core, t: real, occupied: map<string, nat>, v: Visit, attempt: string,
                        context: SelectionContext)
    requires WellFormed(site) && AtMost(c) && attempt in site.groups && v.id !in c.assignment && v.id !in c.completed
    ensures var d := TryPark(site, c, t, occupied, v, attempt, context);
            && AtMost(d) && VisitEffect(site, c, d, occupied)
            && (Exact(c) && NoFailure(d.events) ==> Exact(d))
            && (v.outcome != LogRefused && Separate(c) ==> Separate(d))
  {
    assert WellFormed(site) && "" !in site.groups;
    SelectionIsFree(site, c, occupied, v, attempt);
    var (selected, draws) := Selection(site, c, occupied, v, site.groups[attempt]);
    AttemptIsQuiet(site, c, t, v, attempt, selected, draws);
    hide Selection, Assign, RerouteOrUnserved, WellFormed, Holders, Sound, AtMost, Exact, Attempted, Retargeted,
        VisitEffect;
    var c1 := Attempted(site, c, t, v, attempt, selected, draws);
    var attempts := |RecordOf(site, c1.records, v.id).attempted|;
    if selected.None? {
      var c2 := c1.(noAvailable := c1.noAvailable + {(v.id, attempt)});
      SearchAccounts(site, c, c2, t, occupied, v, attempt, attempts);
    } else {
      var c2 := Retargeted(site, c1, t, v, attempt);
      SameBooksCount(c, c2);
      QuietEffect(site, c, c2, occupied);
      AssignAccounts(site, c2, t, occupied, v, attempt, selected.value, attempts);
      EffectsCompose(site, c, c2, Assign(site, c2, t, occupied, v, attempt, selected.value, attempts), occupied);
    }
  }

  /** Neither noting an attempt nor searching for another lot touches the books. */
  lemma SearchAccounts(site: Site, c: Core, c2: Core, t: real, occupied: map<string, nat>, v: Visit, lot: string,
                       attempts: nat)
    requires WellFormed(site) && SameBooks(c, c2) && c.events <= c2.events && c2.completed == c.completed
        && v.id !in c.assignment
    ensures forall d :: d == c2 || d == RerouteOrUnserved(site, c2, t, occupied, v, lot, attempts) ==>
              && AtMost(c) == AtMost(d) && Exact(c) == Exact(d) && VisitEffect(site, c, d, occupied)
              && (Separate(c) ==> Separate(d))
  {
    RerouteKeeps(site, c2, t, occupied, v, lot, attempts);
    hide RerouteOrUnserved, AtMost, Exact, VisitEffect, Holders;
    var d := RerouteOrUnserved(site, c2, t, occupied, v, lot, attempts);
    SameBooksCount(c, c2);
    SameBooksCount(c, d);
    QuietEffect(site, c, c2, occupied);
    QuietEffect(site, c, d, occupied);
  }

  lemma AttemptIsQuiet(site: Site, c: Core, t: real, v: Visit, attempt: string, selected: Option<string>, draws: nat)
    ensures var c1 := Attempted(site, c, t, v, attempt, selected, draws);
            SameBooks(c, c1) && c1.completed == c.completed && c.events <= c1.events
    ensures var c2 := Retargeted(site, Attempted(site, c, t, v, attempt, selected, draws), t, v, attempt);
            SameBooks(c, c2) && c2.completed == c.completed && c.events <= c2.events
  {
    hide RecordOf, AttemptedRecord;
  }

  lemma QuietEffect(site: Site, c: Core, d: Core, occupied: map<string, nat>)
    requires SameBooks(c, d) && c.events <= d.events
    ensures VisitEffect(site, c, d, occupied)
  {
  }

  lemma NoEmptyLot(site: Site)
    requires WellFormed(site)
    ensures "" !in site.groups
  {
  }

  lemma SelectionIsFree(site: Site, c: Core, occupied: map<string, nat>, v: Visit, attempt: string)
    requires attempt in site.groups
    ensures var p := Selection(site, c, occupied, v, site.groups[attempt]).0;
            Sound(site) && p.Some? ==> FreeSpaces(site, c.reserved, occupied, p.value) > 0
  {
    hide Choose;
    ChooseIsFree(site, c.reserved, occupied, v.cost, site.groups[attempt], c.draws);
  }

  lemma EffectsCompose(site: Site, c: Core, d: Core, e: Core, occupied: map<string, nat>)
    requires VisitEffect(site, c, d, occupied) && VisitEffect(site, d, e, occupied)
    ensures VisitEffect(site, c, e, occupied)
    ensures NoFailure(e.events) ==> NoFailure(d.events)
  {
    forall p | Sound(site) && Reserved(e.reserved, p) > Reserved(c.reserved, p)
      ensures FitsAt(site, e, occupied, p)
    {
      if Reserved(e.reserved, p) <= Reserved(d.reserved, p) {
        assert FitsAt(site, d, occupied, p);
      }
    }
  }

  lemma {:induction false} VisitsAccount(site: Site, c: Core, t: real, occupied: map<string, nat>, visits: seq<Visit>)
    requires WellFormed(site) && AtMost(c)
    ensures var d := ProcessVisits(site, c, t, occupied, visits);
            && AtMost(d) && VisitEffect(site, c, d, occupied)
            && (Exact(c) && NoFailure(d.events) ==> Exact(d))
            && ((forall v :: v in visits ==> v.outcome != LogRefused) && Separate(c) ==> Separate(d))
    decreases |visits|
  {
    assert WellFormed(site);
    hide ProcessVisit, Exact, AtMost, Sound, WellFormed, Separate, NoFailure;
    if visits != [] {
      var front, last := visits[..|visits| - 1], visits[|visits| - 1];
      assert visits == front + [last];
      assert "" !in site.groups by { NoEmptyLot(site); }
      VisitsAccount(site, c, t, occupied, front);
      var m := ProcessVisits(site, c, t, occupied, front);
      VisitAccounts(site, m, t, occupied, last);
      EffectsCompose(site, c, m, ProcessVisit(site, m, t, occupied, last), occupied);
    }
  }

  // ---- stops ----

  /** What settling starts and ends keeps. */
  ghost predicate StopEffect(c: Core, d: Core) {
    && c.events <= d.events && (NoFailure(c.events) ==> NoFailure(d.events))
    && (AtMost(c) ==> AtMost(d)) && (Exact(c) ==> Exact(d)) && (Separate(c) ==> Separate(d))
  }

  lemma ExactAfterRelease(c: Core, d: Core, v: string)
    requires Exact(c) && v in c.active && d.active == c.active - {v} && d.assignment == c.assignment
    requires d.reserved == Release(c.reserved, c.assignment[v])
    ensures Exact(d)
  {
    UnbookHolders(c, d, v);
    ReleaseIs(c.reserved, c.assignment[v]);
    assert v in Holders(c, c.assignment[v]);
    forall p
      ensures ExactAt(d, p)
    {
      assert ExactAt(c, p);
    }
  }

  lemma AtMostAfterRelease(c: Core, d: Core, v: string)
    requires AtMost(c) && v in c.active && d.active == c.active - {v} && d.assignment == c.assignment
    requires d.reserved == Release(c.reserved, c.assignment[v])
    ensures AtMost(d)
  {
    UnbookHolders(c, d, v);
    ReleaseIs(c.reserved, c.assignment[v]);
  }

  lemma StartAccounts(site: Site, c: Core, t: real, spawned: set<string>, v: string)
    requires c.active <= c.assignment.Keys
    ensures var d := StopStarts(site, c, t, spawned, v);
            && StopEffect(c, d) && d.active <= d.assignment.Keys && d.assignment == c.assignment
            && (forall p :: Holders(d, p) == Holders(c, p) - {v})
  {
    hide AtMost, Exact, Release, Holders;
    var d := StopStarts(site, c, t, spawned, v);
    StartLog(site, c, t, spawned, v);
    hide StopStarts;
    if v in c.active {
      UnbookHolders(c, d, v);
      if AtMost(c) {
        AtMostAfterRelease(c, d, v);
      }
      if Exact(c) {
        ExactAfterRelease(c, d, v);
      }
    } else {
      SameBooksCount(c, d);
      NotAHolder(c, v);
    }
  }

  lemma NotAHolder(c: Core, v: string)
    requires v !in c.active
    ensures forall p :: Holders(c, p) - {v} == Holders(c, p)
  {
    assert forall p :: v !in Holders(c, p);
  }

  /** The fields a stop start touches. */
  lemma StartLog(site: Site, c: Core, t: real, spawned: set<string>, v: string)
    requires c.active <= c.assignment.Keys
    ensures var d := StopStarts(site, c, t, spawned, v);
            && c.events <= d.events && (NoFailure(c.events) ==> NoFailure(d.events))
            && d.assignment == c.assignment && d.completed == c.completed
            && (if v in c.active then d.active == c.active - {v} && d.reserved == Release(c.reserved, c.assignment[v])
                else SameBooks(c, d))
  {
    hide TargetOf, Release, NoFailure;
    var d := StopStarts(site, c, t, spawned, v);
    if d.events != c.events {
      NoFailureAppend(c.events, d.events[|c.events|]);
    }
  }

  lemma NoFailureAppend(events: seq<Event>, e: Event)
    requires !e.kind.AssignmentFailed?
    ensures NoFailure(events) ==> NoFailure(events + [e])
  {
  }

  lemma {:induction false} AllStartAccounts(site: Site, c: Core, t: real, spawned: set<string>, vs: seq<string>)
    requires c.active <= c.assignment.Keys
    ensures var d := AllStart(site, c, t, spawned, vs);
            && StopEffect(c, d) && d.active <= d.assignment.Keys && d.assignment == c.assignment
            && (forall p :: Holders(d, p) == Holders(c, p) - SetOf(vs))
    decreases |vs|
  {
    hide Holders, AtMost, Exact, Separate, NoFailure, StopStarts;
    if vs != [] {
      var front, last := vs[..|vs| - 1], vs[|vs| - 1];
      assert vs == front + [last];
      AllStartAccounts(site, c, t, spawned, front);
      StartAccounts(site, AllStart(site, c, t, spawned, front), t, spawned, last);
      assert SetOf(vs) == SetOf(front) + {last};
    }
  }

  lemma EndAccounts(site: Site, c: Core, t: real, v: string)
    requires c.active <= c.assignment.Keys
    ensures var d := StopEnds(site, c, t, v);
            && StopEffect(c, d) && d.active <= d.assignment.Keys
            && (forall p :: Reserved(d.reserved, p) <= Reserved(c.reserved, p))
  {
    hide AtMost, Exact;
    var d := StopEnds(site, c, t, v);
    var released := c.(reserved := d.reserved, active := d.active);
    if v in c.active {
      ReleaseIs(c.reserved, c.assignment[v]);
      if AtMost(c) {
        AtMostAfterRelease(c, released, v);
      }
      if Exact(c) {
        ExactAfterRelease(c, released, v);
      }
    }
    DropUnheld(released, d, v);
  }

  /** Dropping the assignment of a vehicle that holds nothing changes no count. */
  lemma DropUnheld(c: Core, d: Core, v: string)
    requires v !in c.active && d.active == c.active && d.reserved == c.reserved && d.assignment == c.assignment - {v}
    ensures AtMost(c) ==> AtMost(d)
    ensures Exact(c) ==> Exact(d)
  {
    assert forall p :: Holders(c, p) == Holders(d, p);
    assert forall p :: ExactAt(c, p) == ExactAt(d, p);
  }

  lemma {:induction false} AllEndAccounts(site: Site, c: Core, t: real, vs: seq<string>)
    requires c.active <= c.assignment.Keys
    ensures var d := AllEnd(site, c, t, vs);
            && StopEffect(c, d) && d.active <= d.assignment.Keys
            && (forall p :: Reserved(d.reserved, p) <= Reserved(c.reserved, p))
    decreases |vs|
  {
    hide AtMost, Exact, Separate, NoFailure, StopEnds, Reserved;
    if vs != [] {
      AllEndAccounts(site, c, t, vs[..|vs| - 1]);
      EndAccounts(site, AllEnd(site, c, t, vs[..|vs| - 1]), t, vs[|vs| - 1]);
    }
  }

  lemma {:induction false} AllArriveKeeps(site: Site, c: Core, t: real, vs: seq<string>)
    ensures var d := AllArrive(site, c, t, vs);
            && SameBooks(c, d) && d.completed == c.completed && d.records == c.records && d.rows == c.rows
            && c.events <= d.events && (NoFailure(c.events) ==> NoFailure(d.events))
    decreases |vs|
  {
    if vs != [] {
      AllArriveKeeps(site, c, t, vs[..|vs| - 1]);
    }
  }

  // ---- one iteration ----

  /** The simulator: occupancy of an area rises by no more than the number of vehicles that
      hold a reservation of it and are reported to start their stop. */
  ghost predicate OnlyStartsOccupy(c: Core, before: map<string, nat>, k: Tick) {
    forall p :: Occupied(k.occupied, p) <= Occupied(before, p) + |Holders(c, p) * SetOf(k.starting)|
  }

  lemma NoFailureBefore(a: seq<Event>, b: seq<Event>)
    requires a <= b
    ensures NoFailure(b) ==> NoFailure(a)
  {
  }

  /** The stages of an iteration, and what is kept between them. */
  lemma StepStages(site: Site, c: Core, k: Tick)
    requires WellFormed(site) && AtMost(c)
    ensures var c1 := Assigning(site, c, k);
            && AtMost(c1) && VisitEffect(site, c, c1, k.occupied)
            && (Exact(c) && NoFailure(c1.events) ==> Exact(c1))
            && ((forall v :: v in k.visits ==> v.outcome != LogRefused) && Separate(c) ==> Separate(c1))
  {
    hide ProcessVisits, Exact, AtMost, Separate, NoFailure, Holders;
    var c0 := Advanced(site, c, k);
    SameBooksCount(c, c0);
    VisitsAccount(site, c0, k.time, k.occupied, k.visits);
  }

  lemma SettleStages(site: Site, c1: Core, k: Tick)
    requires c1.active <= c1.assignment.Keys
    ensures StopEffect(c1, AllArrive(site, Settled(site, c1, k), k.time, k.arrived))
    ensures forall p :: Reserved(AllArrive(site, Settled(site, c1, k), k.time, k.arrived).reserved, p)
                     <= Reserved(AllStart(site, c1, k.time, k.spawned, k.starting).reserved, p)
  {
    hide AllStart, AllEnd, AllArrive, Exact, AtMost, Separate, NoFailure, Holders, Reserved;
    AllStartAccounts(site, c1, k.time, k.spawned, k.starting);
    AllEndAccounts(site, AllStart(site, c1, k.time, k.spawned, k.starting), k.time, k.ending);
    var c3 := Settled(site, c1, k);
    AllArriveKeeps(site, c3, k.time, k.arrived);
    SameBooksCount(c3, AllArrive(site, c3, k.time, k.arrived));
  }

  lemma StepAccounts(site: Site, c: Core, k: Tick)
    requires WellFormed(site) && AtMost(c)
    ensures var d := Step(site, c, k);
            && AtMost(d) && c.events <= d.events
            && (Exact(c) && NoFailure(d.events) ==> Exact(d))
            && ((forall v :: v in k.visits ==> v.outcome != LogRefused) && Separate(c) ==> Separate(d))
  {
    StepStages(site, c, k);
    var c1 := Assigning(site, c, k);
    assert c1.active <= c1.assignment.Keys;
    SettleStages(site, c1, k);
    hide Exact, AtMost, Separate, NoFailure, Assigning, Settled, AllArrive, Sound;
    NoFailureBefore(c1.events, Step(site, c, k).events);
  }

  /** Capacity safety of one iteration, although the simulator raises occupancy before the
      controller releases the reservation. */
  lemma StepFits(site: Site, c: Core, before: map<string, nat>, k: Tick, p: string)
    requires Sound(site) && AtMost(c) && Exact(c) && NoFailure(Step(site, c, k).events)
    requires OnlyStartsOccupy(c, before, k) && FitsAt(site, c, before, p)
    ensures FitsAt(site, Step(site, c, k), k.occupied, p)
  {
    StepStages(site, c, k);
    var c1 := Assigning(site, c, k);
    SettleStages(site, c1, k);
    AllStartAccounts(site, c1, k.time, k.spawned, k.starting);
    var c2 := AllStart(site, c1, k.time, k.spawned, k.starting);
    hide Assigning, AllStart, Settled, AllArrive, Sound, NoFailure;
    NoFailureBefore(c1.events, Step(site, c, k).events);
    assert ExactAt(c, p) && ExactAt(c1, p) && ExactAt(c2, p);
    HeldCounts(Holders(c, p), Holders(c1, p), Holders(c2, p), SetOf(k.starting));
  }

  /** Of the vehicles holding before, those that start are among those released. */
  lemma HeldCounts(before: set<string>, now: set<string>, after: set<string>, starting: set<string>)
    requires before <= now && after == now - starting
    ensures |after| + |before * starting| <= |now|
  {
    var started := now * starting;
    assert now == after + started;
    assert started == before * starting + (started - before * starting);
  }

  // ---- runs ----

  function RunCore(site: Site, begin: real, ticks: seq<Tick>): Core
    requires WellFormed(site)
    decreases |ticks|
  {
    if ticks == [] then Initial(site, begin)
    else Step(site, RunCore(site, begin, ticks[..|ticks| - 1]), ticks[|ticks| - 1])
  }

  function LastOccupied(ticks: seq<Tick>): map<string, nat> {
    if ticks == [] then map[] else ticks[|ticks| - 1].occupied
  }

  /** The simulator keeps to OnlyStartsOccupy in every iteration of the run. */
  ghost predicate Respects(site: Site, begin: real, ticks: seq<Tick>)
    requires WellFormed(site)
    decreases |ticks|
  {
    ticks == [] ||
    var front := ticks[..|ticks| - 1];
    Respects(site, begin, front)
        && OnlyStartsOccupy(RunCore(site, begin, front), LastOccupied(front), ticks[|ticks| - 1])
  }

  lemma InitialAccounts(site: Site, begin: real)
    ensures AtMost(Initial(site, begin)) && Exact(Initial(site, begin)) && Separate(Initial(site, begin))
  {
    forall p
      ensures Holders(Initial(site, begin), p) == {}
    {
    }
  }

  /** On every run the counters never exceed the holders and only assigned vehicles hold
      reservations; completed vehicles are unassigned as long as no assignment failed after
      its bookkeeping. */
  lemma {:induction false} RunAccounts(site: Site, begin: real, ticks: seq<Tick>)
    requires WellFormed(site)
    ensures AtMost(RunCore(site, begin, ticks))
    ensures (forall k, v :: k in ticks && v in k.visits ==> v.outcome != LogRefused) ==>
        Separate(RunCore(site, begin, ticks))
    decreases |ticks|
  {
    if ticks == [] {
      InitialAccounts(site, begin);
    } else {
      var front, last := ticks[..|ticks| - 1], ticks[|ticks| - 1];
      assert ticks == front + [last];
      RunAccounts(site, begin, front);
      StepAccounts(site, RunCore(site, begin, front), last);
    }
  }

  /** On every run without a failed assignment, at every loop boundary, each counter equals
      the number of its holders, and occupied plus reserved never exceeds the capacity. */
  lemma {:induction false} RunIsSafe(site: Site, begin: real, ticks: seq<Tick>)
    requires Sound(site) && Respects(site, begin, ticks) && NoFailure(RunCore(site, begin, ticks).events)
    ensures Exact(RunCore(site, begin, ticks)) && Fits(site, RunCore(site, begin, ticks), LastOccupied(ticks))
    decreases |ticks|
  {
    if ticks == [] {
      InitialAccounts(site, begin);
    } else {
      var front, last := ticks[..|ticks| - 1], ticks[|ticks| - 1];
      var c := RunCore(site, begin, front);
      RunAccounts(site, begin, front);
      StepAccounts(site, c, last);
      NoFailureBefore(c.events, RunCore(site, begin, ticks).events);
      RunIsSafe(site, begin, front);
      forall p | p in site.capacity
        ensures FitsAt(site, RunCore(site, begin, ticks), last.occupied, p)
      {
        StepFits(site, c, LastOccupied(front), last, p);
      }
    }
  }

  // ---- failed assignments ----

  /** A refused assignment releases an area it never reserved. The counter stays right
      exactly when there was nothing to release; a failure after the bookkeeping always
      leaves the counter one short. */
  lemma FailureUnbalances(site: Site, c: Core, t: real, occupied: map<string, nat>, v: Visit, lot: string, p: string,
                          attempts: nat)
    requires WellFormed(site) && Exact(c) && v.id !in c.assignment && v.outcome != Accepted
    ensures var d := Assign(site, c, t, occupied, v, lot, p, attempts);
            && (v.outcome != LogRefused ==> (ExactAt(d, p) <==> Reserved(c.reserved, p) == 0))
            && (v.outcome == LogRefused ==> Reserved(d.reserved, p) == |Holders(d, p)| - 1)
  {
    assert "" !in site.groups;
    hide RerouteOrUnserved, WellFormed, Holders;
    var d, failed := Assign(site, c, t, occupied, v, lot, p, attempts), FailedAssign(site, c, t, v, lot, p, attempts);
    FailedAccounts(site, c, t, v, lot, p, attempts);
    ReleaseIs(c.reserved, p);
    RerouteKeeps(site, failed, t, occupied, v, lot, attempts);
    SameBooksCount(failed, d);
    assert ExactAt(c, p);
  }

  lemma {:induction false} TotalFreeSame(site: Site, r1: map<string, nat>, r2: map<string, nat>, occupied: map<string,
                                         nat>, areas: seq<Area>)
    requires forall p :: Reserved(r1, p) == Reserved(r2, p)
    ensures TotalFree(site, r1, occupied, areas) == TotalFree(site, r2, occupied, areas)
    decreases |areas|
  {
    if areas != [] {
      TotalFreeSame(site, r1, r2, occupied, areas[..|areas| - 1]);
    }
  }

  /** The two contexts give a search the same answers. */
  lemma SameAnswers(site: Site, r1: map<string, nat>, r2: map<string, nat>, t: real, occupied: map<string, nat>,
                    v: Visit, rec: Record)
    requires forall p :: Reserved(r1, p) == Reserved(r2, p)
    ensures var x, y := SearchContext(site, r1, t, occupied, v), SearchContext(site, r2, t, occupied, v);
            && Open(x, rec) == Open(y, rec)
            && (forall i: nat, lot :: UsableAfter(x, rec, 0, i, lot) == UsableAfter(y, rec, 0, i, lot))
  {
    var x, y := SearchContext(site, r1, t, occupied, v), SearchContext(site, r2, t, occupied, v);
    forall lot
      ensures x.free(lot) == y.free(lot)
    {
      if lot in site.groups {
        TotalFreeSame(site, r1, r2, occupied, site.groups[lot]);
      }
    }
  }

  /** No open lot is usable for the vehicle in any round of its next search. */
  ghost predicate NowhereToGo(ctx: Context, rec: Record) {
    forall lot :: lot in Open(ctx, rec) ==> !EverUsable(ctx, rec, 0, lot)
  }

  ghost predicate SomewhereToGo(ctx: Context, rec: Record) {
    exists lot :: lot in Open(ctx, rec) && AlwaysUsable(ctx, rec, 0, lot)
  }

  lemma AnswersDecide(x: Context, y: Context, rec: Record)
    requires "" !in y.lots && Open(x, rec) == Open(y, rec)
    requires forall i: nat, lot :: UsableAfter(x, rec, 0, i, lot) == UsableAfter(y, rec, 0, i, lot)
    ensures var found := Rerouted(y, rec, 0).target.Some?;
            && (NowhereToGo(x, rec) ==> !found) && (SomewhereToGo(x, rec) ==> found)
            && (Steady(x, rec, 0) ==> (found <==> SomewhereToGo(x, rec)) && (!found <==> NowhereToGo(x, rec)))
  {
    SucceedsIff(y, rec);
    hide Rerouted, Open, UsableAfter;
    assert forall lot :: EverUsable(x, rec, 0, lot) == EverUsable(y, rec, 0, lot);
    assert forall lot :: AlwaysUsable(x, rec, 0, lot) == AlwaysUsable(y, rec, 0, lot);
    assert Steady(x, rec, 0) == Steady(y, rec, 0);
    if Steady(x, rec, 0) {
      assert forall lot :: EverUsable(x, rec, 0, lot) ==> AlwaysUsable(x, rec, 0, lot);
      assert forall lot :: AlwaysUsable(x, rec, 0, lot) ==> UsableAfter(x, rec, 0, 0, lot);
      assert forall lot :: UsableAfter(x, rec, 0, 0, lot) ==> EverUsable(x, rec, 0, lot);
    }
  }

  /** After a failure behind the bookkeeping the vehicle is both assigned and completed when the
      state and the answers before the call leave it no open lot that has a route, can be reached
      and is not known to be full, and it is not when they leave one. With answers that do not
      change between the rounds of the search one of the two is the case. */
  lemma LateFailureMixes(site: Site, c: Core, t: real, occupied: map<string, nat>, v: Visit, lot: string, p: string,
                         attempts: nat)
    requires WellFormed(site) && Separate(c) && v.id !in c.completed && v.outcome == LogRefused
    ensures var ctx, rec := SearchContext(site, c.reserved, t, occupied, v), RecordOf(site, c.records, v.id);
            var mixed := !Separate(Assign(site, c, t, occupied, v, lot, p, attempts));
            && (NowhereToGo(ctx, rec) ==> mixed) && (SomewhereToGo(ctx, rec) ==> !mixed)
            && (Steady(ctx, rec, 0) ==> (mixed <==> NowhereToGo(ctx, rec)) && (!mixed <==> SomewhereToGo(ctx, rec)))
  {
    assert "" !in site.groups;
    var failed, rec := FailedAssign(site, c, t, v, lot, p, attempts), RecordOf(site, c.records, v.id);
    ReleaseIs(c.reserved, p);
    SameAnswers(site, c.reserved, failed.reserved, t, occupied, v, rec);
    AnswersDecide(SearchContext(site, c.reserved, t, occupied, v), SearchContext(site, failed.reserved, t, occupied, v),
                  rec);
    LateFailure(site, c, t, occupied, v, lot, p, attempts);
  }

  lemma LateFailure(site: Site, c: Core, t: real, occupied: map<string, nat>, v: Visit, lot: string, p: string,
                    attempts: nat)
    requires WellFormed(site) && Separate(c) && v.id !in c.completed && v.outcome == LogRefused
    ensures var failed := FailedAssign(site, c, t, v, lot, p, attempts);
            RecordOf(site, failed.records, v.id) == RecordOf(site, c.records, v.id)
            && (Separate(Assign(site, c, t, occupied, v, lot, p, attempts))
                <==> Found(site, failed, t, occupied, v).target.Some?)
  {
    assert "" !in site.groups;
    var failed := FailedAssign(site, c, t, v, lot, p, attempts);
    var found := Found(site, failed, t, occupied, v);
    hide Found, WellFormed;
    assert v.id in failed.assignment && v.id !in failed.completed && Separate(failed);
  }

  // ---- unserved means exhausted ----

  /** Every destination lot of the vehicle that exists was attempted or rejected. */
  ghost predicate ExhaustedFor(site: Site, rec: Record, v: string) {
    forall lot :: lot in CandidatesOf(site, v) && lot in site.groups ==> lot in rec.attempted || lot in rec.rejected
  }

  lemma FoundDecides(site: Site, c: Core, t: real, occupied: map<string, nat>, v: Visit)
    requires WellFormed(site)
    ensures var r := Found(site, c, t, occupied, v); r.target.None? <==> ExhaustedFor(site, r.rec, v.id)
  {
    var ctx := SearchContext(site, c.reserved, t, occupied, v);
    GivesUpIffExhausted(ctx, RecordOf(site, c.records, v.id), 0);
    assert NothingLeft(ctx, Found(site, c, t, occupied, v).rec)
        <==> ExhaustedFor(site, Found(site, c, t, occupied, v).rec, v.id);
  }

  lemma RerouteDecides(site: Site, c: Core, t: real, occupied: map<string, nat>, v: Visit, lot: string, attempts: nat)
    requires WellFormed(site)
    ensures var d := RerouteOrUnserved(site, c, t, occupied, v, lot, attempts);
            && v.id in d.records && d.records == c.records[v.id := d.records[v.id]]
            && d.completed == (if ExhaustedFor(site, d.records[v.id], v.id) then c.completed + {v.id} else c.completed)
  {
    FoundDecides(site, c, t, occupied, v);
    var found := Found(site, c, t, occupied, v);
    hide Found, ExhaustedFor, WellFormed, Searched;
    SearchedDecides(site, c, t, v.id, found, lot, attempts);
  }

  lemma SearchedDecides(site: Site, c: Core, t: real, v: string, found: Outcome, lot: string, attempts: nat)
    requires found.target.None? <==> ExhaustedFor(site, found.rec, v)
    ensures var d := Searched(c, t, v, found, lot, attempts);
            && v in d.records && d.records == c.records[v := d.records[v]]
            && d.completed == (if ExhaustedFor(site, d.records[v], v) then c.completed + {v} else c.completed)
  {
    hide ExhaustedFor, SearchLog;
  }

  ghost predicate IsUnserved(e: Event) {
    e.kind == Unserved(Exhausted)
  }

  /** Each vehicle reported unserved is done, and its record shows the exhausted search. */
  ghost predicate UnservedExhausted(site: Site, c: Core) {
    forall e :: e in c.events && IsUnserved(e) ==> UnservedWell(site, c, e.vehicle)
  }

  ghost predicate UnservedWell(site: Site, c: Core, v: string) {
    v in c.completed && v in c.records && ExhaustedFor(site, c.records[v], v)
  }

  /** Log entries other than unserved reports, and records of vehicles that are not done, do
      not matter. */
  lemma UnservedKept(site: Site, c: Core, d: Core, v: string)
    requires UnservedExhausted(site, c) && v !in c.completed && c.completed <= d.completed
    requires forall u :: u in c.records && u != v ==> u in d.records && d.records[u] == c.records[u]
    requires c.events <= d.events
        && forall e :: e in d.events[|c.events|..] && IsUnserved(e) ==> UnservedWell(site, d, e.vehicle)
    ensures UnservedExhausted(site, d)
  {
    hide ExhaustedFor;
    forall e | e in d.events && IsUnserved(e)
      ensures UnservedWell(site, d, e.vehicle)
    {
      assert d.events == c.events + d.events[|c.events|..];
      if e in c.events {
        assert UnservedWell(site, c, e.vehicle);
      }
    }
  }

  lemma SearchedUnserved(site: Site, c: Core, t: real, v: string, found: Outcome, lot: string, attempts: nat)
    requires UnservedExhausted(site, c) && v !in c.completed
    requires found.target.None? ==> ExhaustedFor(site, found.rec, v)
    requires forall e :: e in found.events ==> !IsUnserved(e)
    ensures UnservedExhausted(site, Searched(c, t, v, found, lot, attempts))
  {
    var d, added := Searched(c, t, v, found, lot, attempts), SearchLog(t, v, found, lot, attempts);
    hide ExhaustedFor, UnservedExhausted;
    assert d.events[|c.events|..] == added;
    assert forall e :: e in added && IsUnserved(e) ==> UnservedWell(site, d, e.vehicle);
    hide SearchLog;
    UnservedKept(site, c, d, v);
  }

  lemma RerouteUnserved(site: Site, c: Core, t: real, occupied: map<string, nat>, v: Visit, lot: string, attempts: nat)
    requires WellFormed(site) && UnservedExhausted(site, c) && v.id !in c.completed
    ensures UnservedExhausted(site, RerouteOrUnserved(site, c, t, occupied, v, lot, attempts))
  {
    var found := Found(site, c, t, occupied, v);
    FoundIsQuiet(site, c, t, occupied, v);
    FoundDecides(site, c, t, occupied, v);
    hide Found, WellFormed, ExhaustedFor, UnservedExhausted, Searched;
    SearchedUnserved(site, c, t, v.id, found, lot, attempts);
  }

  lemma TryParkUnserved(site: Site, c: Core, t: real, occupied: map<string, nat>, v: Visit, attempt: string,
                        context: SelectionContext)
    requires WellFormed(site) && attempt in site.groups && UnservedExhausted(site, c) && v.id !in c.completed
    ensures UnservedExhausted(site, TryPark(site, c, t, occupied, v, attempt, context))
  {
    assert "" !in site.groups;
    hide Selection, RerouteOrUnserved, WellFormed, UnservedExhausted, Assign;
    var (selected, draws) := Selection(site, c, occupied, v, site.groups[attempt]);
    var c1 := Attempted(site, c, t, v, attempt, selected, draws);
    var attempts := |RecordOf(site, c1.records, v.id).attempted|;
    UnservedKept(site, c, c1, v.id);
    if selected.None? {
      var c2 := c1.(noAvailable := c1.noAvailable + {(v.id, attempt)});
      UnservedKept(site, c1, c2, v.id);
      if context != PassBy {
        RerouteUnserved(site, c2, t, occupied, v, attempt, attempts);
      }
    } else {
      var c2 := Retargeted(site, c1, t, v, attempt);
      UnservedKept(site, c1, c2, v.id);
      AssignUnserved(site, c2, t, occupied, v, attempt, selected.value, attempts);
    }
  }

  lemma AssignUnserved(site: Site, c: Core, t: real, occupied: map<string, nat>, v: Visit, lot: string, p: string,
                       attempts: nat)
    requires WellFormed(site) && UnservedExhausted(site, c) && v.id !in c.completed
    ensures UnservedExhausted(site, Assign(site, c, t, occupied, v, lot, p, attempts))
  {
    assert "" !in site.groups;
    hide RerouteOrUnserved, WellFormed, UnservedExhausted, ExhaustedFor;
    if v.outcome == Accepted {
      UnservedKept(site, c, Assign(site, c, t, occupied, v, lot, p, attempts), v.id);
    } else {
      var failed := FailedAssign(site, c, t, v, lot, p, attempts);
      UnservedKept(site, c, failed, v.id);
      RerouteUnserved(site, failed, t, occupied, v, lot, attempts);
    }
  }

  lemma {:induction false} VisitsUnserved(site: Site, c: Core, t: real, occupied: map<string, nat>, visits: seq<Visit>)
    requires WellFormed(site) && UnservedExhausted(site, c)
    ensures UnservedExhausted(site, ProcessVisits(site, c, t, occupied, visits))
    decreases |visits|
  {
    hide UnservedExhausted, TryPark;
    if visits != [] {
      VisitsUnserved(site, c, t, occupied, visits[..|visits| - 1]);
      var m, v := ProcessVisits(site, c, t, occupied, visits[..|visits| - 1]), visits[|visits| - 1];
      var rec := RecordOf(site, m.records, v.id);
      if rec.current in site.groups && v.id !in m.completed && v.id !in m.assignment {
        var (attempt, context) := DecisionTarget(site, rec.current, Unattempted(CandidatesOf(site, v.id), rec), v.road);
        if attempt.Some? && attempt.value in site.groups {
          TryParkUnserved(site, m, t, occupied, v, attempt.value, context);
        }
      }
    }
  }

  lemma {:induction false} AllStartUnserved(site: Site, c: Core, t: real, spawned: set<string>, vs: seq<string>)
    requires UnservedExhausted(site, c)
    ensures UnservedExhausted(site, AllStart(site, c, t, spawned, vs))
    decreases |vs|
  {
    hide ExhaustedFor;
    if vs != [] {
      AllStartUnserved(site, c, t, spawned, vs[..|vs| - 1]);
    }
  }

  lemma {:induction false} AllEndUnserved(site: Site, c: Core, t: real, vs: seq<string>)
    requires UnservedExhausted(site, c)
    ensures UnservedExhausted(site, AllEnd(site, c, t, vs))
    decreases |vs|
  {
    hide ExhaustedFor;
    if vs != [] {
      AllEndUnserved(site, c, t, vs[..|vs| - 1]);
    }
  }

  lemma {:induction false} AllArriveUnserved(site: Site, c: Core, t: real, vs: seq<string>)
    requires UnservedExhausted(site, c)
    ensures UnservedExhausted(site, AllArrive(site, c, t, vs))
    decreases |vs|
  {
    hide ExhaustedFor;
    if vs != [] {
      AllArriveUnserved(site, c, t, vs[..|vs| - 1]);
    }
  }

  /** On every run, a vehicle is reported unserved only when every destination lot known to
      the controller was attempted or rejected. */
  lemma {:induction false} RunUnservedExhausted(site: Site, begin: real, ticks: seq<Tick>)
    requires WellFormed(site)
    ensures UnservedExhausted(site, RunCore(site, begin, ticks))
    decreases |ticks|
  {
    if ticks != [] {
      var front, k := ticks[..|ticks| - 1], ticks[|ticks| - 1];
      RunUnservedExhausted(site, begin, front);
      var c := RunCore(site, begin, front);
      StepUnserved(site, c, k);
    }
  }

  lemma StepUnserved(site: Site, c: Core, k: Tick)
    requires WellFormed(site) && UnservedExhausted(site, c)
    ensures UnservedExhausted(site, Step(site, c, k))
  {
    assert UnservedExhausted(site, Advanced(site, c, k));
    hide UnservedExhausted;
    VisitsUnserved(site, Advanced(site, c, k), k.time, k.occupied, k.visits);
    AllStartUnserved(site, Assigning(site, c, k), k.time, k.spawned, k.starting);
    AllEndUnserved(site, AllStart(site, Assigning(site, c, k), k.time, k.spawned, k.starting), k.time, k.ending);
    AllArriveUnserved(site, Settled(site, Assigning(site, c, k), k), k.time, k.arrived);
  }
}
