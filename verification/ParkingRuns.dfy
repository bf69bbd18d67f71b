/** Small runs of the parking controller that reach the states its failure branch spoils
    (backend/sumo/controller/main.py). */
module ParkingRuns {
  import opened Wrappers
  import opened ParkingChoice
  import opened Reroute
  import opened ParkingModel
  import opened ParkingSafety
  import LinearAlgebra
  import PedestrianModel

  /** One lot, to which every vehicle is bound, and no other candidates. */
  function OneLot(policy: Policy, areas: seq<Area>, capacity: map<string, nat>): Site {
    Site(["lot"], map["lot" := areas], capacity, None, map[], map[], map["a" := "lot", "b" := "lot"],
         (v, lot) => false, (v, d, n) => Driver(lot => false, (offers, lot) => 0.0),
         policy, false, false, 0.0, n => 0, n => 0.0, [])
  }

  function VisitOf(id: string, outcome: Assignment, cost: string -> Option<real>): Visit {
    Visit(id, "road", cost, (round, lot) => None, (round, lot) => false, outcome)
  }

  function Visiting(visits: seq<Visit>): Tick {
    Tick(0.0, [], 1.0, [], {}, map[], visits, [], [], {})
  }

  const FREE_ROUTE: string -> Option<real> := edge => Some(0.0)

  lemma OneTick(site: Site, begin: real, k: Tick)
    requires WellFormed(site)
    ensures RunCore(site, begin, [k]) == Step(site, Initial(site, begin), k)
  {
    hide Step;
    assert [k][..0] == [];
    assert RunCore(site, begin, []) == Initial(site, begin);
    assert [k][..|[k]| - 1] == [];
  }

  /** An iteration in which no stop starts or ends and nobody arrives is its visits. */
  lemma OnlyVisits(site: Site, begin: real, visits: seq<Visit>)
    requires WellFormed(site)
    ensures var k := Visiting(visits);
            RunCore(site, begin, [k]) ==
                ProcessVisits(site, Advanced(site, Initial(site, begin), k), 1.0, map[], visits)
  {
    OneTick(site, begin, Visiting(visits));
    hide Advanced, ProcessVisits;
  }

  lemma NothingYet(site: Site, begin: real, k: Tick)
    requires WellFormed(site)
    ensures var c := Advanced(site, Initial(site, begin), k);
            && c.records == map[] && c.assignment == map[] && c.active == {} && c.completed == {}
            && (forall p :: Reserved(c.reserved, p) == 0)
  {
    hide PedestrianModel.Observe, OccupancyRows, LinearAlgebra.Truncate;
  }

  /** Noting an attempt touches no book. */
  lemma NotingKeeps(site: Site, c: Core, t: real, v: Visit, lot: string, p: string, draws: nat)
    ensures var d := Retargeted(site, Attempted(site, c, t, v, lot, Some(p), draws), t, v, lot);
            SameBooks(c, d) && d.completed == c.completed && d.records.Keys == c.records.Keys + {v.id}
  {
    hide AttemptedRecord, RecordOf;
  }

  lemma AssignBooks(site: Site, c: Core, t: real, occupied: map<string, nat>, v: Visit, lot: string, p: string,
                    attempts: nat)
    requires "" !in site.groups
    ensures var d := Assign(site, c, t, occupied, v, lot, p, attempts);
            && (v.outcome == Accepted ==>
                d.reserved == Reserve(c.reserved, p) && d.assignment == c.assignment[v.id := p]
                                          && d.active == c.active + {v.id} && d.completed == c.completed
                                          && d.records == c.records)
            && (v.outcome == StopRefused ==>
                d.reserved == Release(c.reserved, p) && d.assignment == c.assignment && d.active == c.active)
  {
    hide StopDuration, Found, Reserve, Release;
  }

  /** What an attempt at a selected area does to the books. */
  lemma AttemptBooks(site: Site, c: Core, t: real, occupied: map<string, nat>, v: Visit, lot: string, p: string)
    requires "" !in site.groups && lot in site.groups && Selection(site, c, occupied, v, site.groups[lot]).0 == Some(p)
    ensures var d := TryPark(site, c, t, occupied, v, lot, Target);
            && (v.outcome == Accepted ==>
                d.reserved == Reserve(c.reserved, p) && d.assignment == c.assignment[v.id := p]
                                          && d.active == c.active + {v.id} && d.completed == c.completed
                                          && d.records.Keys == c.records.Keys + {v.id})
            && (v.outcome == StopRefused ==>
                d.reserved == Release(c.reserved, p) && d.assignment == c.assignment && d.active == c.active)
  {
    var draws := Selection(site, c, occupied, v, site.groups[lot]).1;
    hide Selection, Attempted, Retargeted, RecordOf, Reserve, Release, Assign;
    var c1 := Attempted(site, c, t, v, lot, Some(p), draws);
    NotingKeeps(site, c, t, v, lot, p, draws);
    AssignBooks(site, Retargeted(site, c1, t, v, lot), t, occupied, v, lot, p,
                |RecordOf(site, c1.records, v.id).attempted|);
  }

  /** The vehicle tries the lot it is bound for. */
  lemma Tries(site: Site, c: Core, v: Visit)
    requires "" !in site.groups && "lot" in site.groups && !site.accessEdgeMode && v.id in site.targets
        && site.targets[v.id] == "lot"
    requires v.id !in c.records && v.id !in c.assignment && v.id !in c.completed
    ensures ProcessVisit(site, c, 1.0, map[], v) == TryPark(site, c, 1.0, map[], v, "lot", Target)
  {
    hide TryPark;
  }

  /** The only area is selected while it has a space. */
  lemma OnlyArea(site: Site, c: Core, v: Visit, a: Area)
    requires site.policy == NearestAvailable && NearCandidate(site, c.reserved, map[], v.cost, a)
    ensures Selection(site, c, map[], v, [a]).0 == Some(a.id)
  {
    assert HasSpace(site, c.reserved, map[], [a][0].id) && a in [a];
  }

  /** From a state without vehicles, one visit that is accepted and one that is refused. */
  lemma RefusalSpoils(site: Site, c: Core, v: Visit, w: Visit, area: Area)
    requires "" !in site.groups && "lot" in site.groups && site.groups["lot"] == [area] && !site.accessEdgeMode
    requires site.policy == NearestAvailable && site.selectable.None? && CapacityOf(site, area.id) >= 2
    requires site.targets == map["a" := "lot", "b" := "lot"] && v.id == "a" && w.id == "b"
    requires v.cost == w.cost == FREE_ROUTE && v.outcome == Accepted && w.outcome == StopRefused
    requires c.records == map[] && c.assignment == map[] && c.active == {} && c.completed == {}
        && Reserved(c.reserved, area.id) == 0
    ensures var d := ProcessVisit(site, ProcessVisit(site, c, 1.0, map[], v), 1.0, map[], w);
            Reserved(d.reserved, area.id) == 0 && Holders(d, area.id) == {"a"}
  {
    hide ProcessVisit, TryPark, Selection;
    Tries(site, c, v);
    OnlyArea(site, c, v, area);
    AttemptBooks(site, c, 1.0, map[], v, "lot", area.id);
    var d := ProcessVisit(site, c, 1.0, map[], v);
    Tries(site, d, w);
    OnlyArea(site, d, w, area);
    AttemptBooks(site, d, 1.0, map[], w, "lot", area.id);
  }

  /** A stop is accepted for one vehicle and refused for the next: the refusal releases the
      first one's reservation, and the counter ends one below the holders. */
  lemma RefusalReached()
    ensures var site := OneLot(NearestAvailable, [Area("p", "edge")], map["p" := 2]);
            var k := Visiting([VisitOf("a", Accepted, FREE_ROUTE), VisitOf("b", StopRefused, FREE_ROUTE)]);
            var c := RunCore(site, 0.0, [k]);
            !Exact(c) && Reserved(c.reserved, "p") == 0 && Holders(c, "p") == {"a"}
  {
    var site := OneLot(NearestAvailable, [Area("p", "edge")], map["p" := 2]);
    var v, w := VisitOf("a", Accepted, FREE_ROUTE), VisitOf("b", StopRefused, FREE_ROUTE);
    var c := Advanced(site, Initial(site, 0.0), Visiting([v, w]));
    OnlyVisits(site, 0.0, [v, w]);
    NothingYet(site, 0.0, Visiting([v, w]));
    TwoVisits(site, c, v, w);
    hide Advanced, ProcessVisit, ProcessVisits, RunCore, Exact, Initial, Holders;
    RefusalSpoils(site, c, v, w, Area("p", "edge"));
    Unbalanced(RunCore(site, 0.0, [Visiting([v, w])]), "p");
  }

  lemma Unbalanced(c: Core, p: string)
    requires !ExactAt(c, p)
    ensures !Exact(c)
  {
  }

  lemma TwoVisits(site: Site, c: Core, v: Visit, w: Visit)
    requires "" !in site.groups
    ensures ProcessVisits(site, c, 1.0, map[], [v, w]) ==
        ProcessVisit(site, ProcessVisit(site, c, 1.0, map[], v), 1.0, map[], w)
  {
    hide ProcessVisit;
    OneVisit(site, c, v);
    assert [v, w][..1] == [v];
  }

  lemma OneVisit(site: Site, c: Core, v: Visit)
    requires "" !in site.groups
    ensures ProcessVisits(site, c, 1.0, map[], [v]) == ProcessVisit(site, c, 1.0, map[], v)
  {
    hide ProcessVisit;
    assert [v][..0] == [];
    assert ProcessVisits(site, c, 1.0, map[], []) == c;
  }

  /** The stop of a vehicle without other candidates is set and booked, and then the assignment
      fails: the vehicle ends assigned and completed. */
  lemma LateFailureReached()
    ensures var site := OneLot(NearestAvailable, [Area("p", "edge")], map["p" := 2]);
            var k := Visiting([VisitOf("a", LogRefused, FREE_ROUTE)]);
            !Separate(RunCore(site, 0.0, [k]))
  {
    var site, area := OneLot(NearestAvailable, [Area("p", "edge")], map["p" := 2]), Area("p", "edge");
    var v := VisitOf("a", LogRefused, FREE_ROUTE);
    var c := Advanced(site, Initial(site, 0.0), Visiting([v]));
    OnlyVisits(site, 0.0, [v]);
    NothingYet(site, 0.0, Visiting([v]));
    OneVisit(site, c, v);
    Tries(site, c, v);
    OnlyArea(site, c, v, area);
    hide Advanced, ProcessVisit, ProcessVisits, Selection, RunCore, Assign, Separate;
    var c1 := Attempted(site, c, 1.0, v, "lot", Some("p"), Selection(site, c, map[], v, [area]).1);
    AttemptIsQuiet(site, c, 1.0, v, "lot", Some("p"), Selection(site, c, map[], v, [area]).1);
    var c2 := Retargeted(site, c1, 1.0, v, "lot");
    var attempts := |RecordOf(site, c1.records, v.id).attempted|;
    hide Attempted, Retargeted;
    NoCandidates(site, c2, v);
    LateFailureMixes(site, c2, 1.0, map[], v, "lot", "p", attempts);
  }

  lemma NoCandidates(site: Site, c: Core, v: Visit)
    requires v.id !in site.candidates
    ensures NowhereToGo(SearchContext(site, c.reserved, 1.0, map[], v), RecordOf(site, c.records, v.id))
  {
    OpenIff(SearchContext(site, c.reserved, 1.0, map[], v), RecordOf(site, c.records, v.id));
  }

  /** The balanced policy books the nearer of two areas although it has no space at all. */
  lemma OverbookingReached()
    ensures var site := OneLot(BalancedAvailable, [Area("p", "near"), Area("q", "far")], map["p" := 0, "q" := 1]);
            var k := Visiting([VisitOf("a", Accepted, edge => Some(if edge == "near" then 0.0 else 1.0))]);
            !Fits(site, RunCore(site, 0.0, [k]), map[])
  {
    var a, b := Area("p", "near"), Area("q", "far");
    var site := OneLot(BalancedAvailable, [a, b], map["p" := 0, "q" := 1]);
    var v := VisitOf("a", Accepted, edge => Some(if edge == "near" then 0.0 else 1.0));
    var c := Advanced(site, Initial(site, 0.0), Visiting([v]));
    OnlyVisits(site, 0.0, [v]);
    NothingYet(site, 0.0, Visiting([v]));
    OneVisit(site, c, v);
    Tries(site, c, v);
    hide Advanced, ProcessVisit, ProcessVisits, Selection, RunCore, TryPark;
    BalancedIgnoresZeroCapacity(site, c, 1.0, v, "lot", a, b);
    assert "p" in site.capacity;
  }
}
