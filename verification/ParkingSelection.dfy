/** Which physical area a policy selects, in the terms of the areas themselves
    (backend/sumo/controller/parking_group_manager.py, backend/sumo/controller/main.py). */
module ParkingSelection {
  import opened Wrappers
  import opened LinearAlgebra
  import opened ParkingModel

  /** The area may be used, has more spaces than are occupied and reserved, and is not too far. */
  ghost predicate Offers(site: Site, reserved: map<string, nat>, occupied: map<string, nat>,
                         cost: string -> Option<real>, a: Area) {
    && (site.selectable.None? || a.id in site.selectable.value)
    && cost(a.edge).Some? && (site.policy == NearestAvailable ==> cost(a.edge).value >= 0.0)
    && Spaces(site, a) > InUse(reserved, occupied, a)
  }

  /** The balanced policy counts at least one space. */
  ghost function Spaces(site: Site, a: Area): nat {
    var capacity := if a.id in site.capacity then site.capacity[a.id] else 0;
    if site.policy == BalancedAvailable && capacity == 0 then 1 else capacity
  }

  ghost function InUse(reserved: map<string, nat>, occupied: map<string, nat>, a: Area): nat {
    OnTheWay(reserved, a) + if a.id in occupied then occupied[a.id] else 0
  }

  ghost function OnTheWay(reserved: map<string, nat>, a: Area): nat {
    if a.id in reserved then reserved[a.id] else 0
  }

  // ---- the order of the balanced policy ----

  /** Fewer vehicles on their way; then a smaller part in use; then nearer; then more free
      spaces. */
  ghost predicate Beats(site: Site, reserved: map<string, nat>, occupied: map<string, nat>,
                        cost: string -> Option<real>, a: Area, b: Area)
    requires site.policy == BalancedAvailable && cost(a.edge).Some? && cost(b.edge).Some?
  {
    var x, y := InUse(reserved, occupied, a), InUse(reserved, occupied, b);
    var m, n := Spaces(site, a), Spaces(site, b);
    var p, q := Times(x as real, n as real), Times(y as real, m as real);
    var near, far := cost(a.edge).value, cost(b.edge).value;
    if OnTheWay(reserved, a) != OnTheWay(reserved, b) then OnTheWay(reserved, a) < OnTheWay(reserved, b)
    else if p != q then p < q
    else if near != far then near < far
    else m - x > n - y
  }

  lemma FractionsCompare(x: real, m: real, y: real, n: real)
    requires m > 0.0 && n > 0.0
    ensures x / m < y / n <==> Times(x, n) < Times(y, m)
    ensures x / m == y / n <==> Times(x, n) == Times(y, m)
  {
    var f, g := x / m, y / n;
    assert f * m == x && g * n == y;
    assert Times(x, n) == f * (m * n) && Times(y, m) == g * (m * n);
    var s := m * n;
    assert s > 0.0;
    ScaledOrder(f, g, s);
  }

  lemma ScaledOrder(f: real, g: real, s: real)
    requires s > 0.0
    ensures f < g <==> f * s < g * s
    ensures f == g <==> f * s == g * s
  {
    if f < g {
      assert (g - f) * s > 0.0;
    } else if f > g {
      assert (f - g) * s > 0.0;
    }
  }

  lemma BetterIsBeats(site: Site, reserved: map<string, nat>, occupied: map<string, nat>, cost: string -> Option<real>,
                      a: Area, b: Area)
    requires site.policy == BalancedAvailable && cost(a.edge).Some? && cost(b.edge).Some?
    ensures BetterBalanced(site, reserved, occupied, cost, a, b) <==> Beats(site, reserved, occupied, cost, a, b)
  {
    FractionsCompare(InUse(reserved, occupied, a) as real, Spaces(site, a) as real,
                     InUse(reserved, occupied, b) as real, Spaces(site, b) as real);
    hide Times;
  }

  /** The policy prefers a to b. */
  ghost predicate Preferred(site: Site, reserved: map<string, nat>, occupied: map<string, nat>,
                            cost: string -> Option<real>, a: Area, b: Area) {
    && cost(a.edge).Some? && cost(b.edge).Some?
    && (site.policy == NearestAvailable ==> cost(a.edge).value < cost(b.edge).value)
    && (site.policy == BalancedAvailable ==> Beats(site, reserved, occupied, cost, a, b))
  }

  /** What is preferred to an area is also preferred to everything that is not preferred to it. */
  lemma PreferredOn(site: Site, reserved: map<string, nat>, occupied: map<string, nat>, cost: string -> Option<real>,
                    a: Area, b: Area, c: Area)
    requires site.policy != RandomAvailable && cost(c.edge).Some?
    requires Preferred(site, reserved, occupied, cost, a, b) && !Preferred(site, reserved, occupied, cost, c, b)
    ensures Preferred(site, reserved, occupied, cost, a, c) && !Preferred(site, reserved, occupied, cost, c, a)
  {
    if site.policy == BalancedAvailable {
      BetterIsBeats(site, reserved, occupied, cost, a, b);
      BetterIsBeats(site, reserved, occupied, cost, c, b);
      BetterIsBeats(site, reserved, occupied, cost, a, c);
      BetterIsBeats(site, reserved, occupied, cost, c, a);
    }
    hide Utilization, BalancedFree, Reserved, Beats;
  }

  lemma NeverToItself(site: Site, reserved: map<string, nat>, occupied: map<string, nat>, cost: string -> Option<real>,
                      a: Area)
    requires site.policy != RandomAvailable
    ensures !Preferred(site, reserved, occupied, cost, a, a)
  {
  }

  // ---- the first best area ----

  /** Nothing on offer is preferred to areas[k], and areas[k] is preferred to everything on offer
      before it. */
  ghost predicate FirstBest(site: Site, reserved: map<string, nat>, occupied: map<string, nat>,
                            cost: string -> Option<real>, areas: seq<Area>, k: nat) {
    && k < |areas| && Offers(site, reserved, occupied, cost, areas[k])
    && forall j :: 0 <= j < |areas| && Offers(site, reserved, occupied, cost, areas[j]) ==>
         && !Preferred(site, reserved, occupied, cost, areas[j], areas[k])
         && (j < k ==> Preferred(site, reserved, occupied, cost, areas[k], areas[j]))
  }

  ghost predicate NoneOffers(site: Site, reserved: map<string, nat>, occupied: map<string, nat>,
                             cost: string -> Option<real>, areas: seq<Area>) {
    forall j :: 0 <= j < |areas| ==> !Offers(site, reserved, occupied, cost, areas[j])
  }

  lemma OffersIs(site: Site, reserved: map<string, nat>, occupied: map<string, nat>, cost: string -> Option<real>,
                 a: Area)
    ensures Offers(site, reserved, occupied, cost, a) <==>
            match site.policy
            case NearestAvailable => NearCandidate(site, reserved, occupied, cost, a)
            case RandomAvailable => HasSpace(site, reserved, occupied, a.id) && cost(a.edge).Some?
            case BalancedAvailable => BalancedCandidate(site, reserved, occupied, cost, a)
  {
  }

  /** One more area, which is taken when it is on offer and preferred to the best so far. */
  lemma OneMoreArea(site: Site, reserved: map<string, nat>, occupied: map<string, nat>, cost: string -> Option<real>,
                    front: seq<Area>, last: Area, k: nat)
    requires site.policy != RandomAvailable && FirstBest(site, reserved, occupied, cost, front, k)
    ensures FirstBest(site, reserved, occupied, cost, front + [last],
                      if Offers(site, reserved, occupied, cost, last)
                         && Preferred(site, reserved, occupied, cost, last, front[k]) then |front| else k)
  {
    var all := front + [last];
    if Offers(site, reserved, occupied, cost, last) && Preferred(site, reserved, occupied, cost, last, front[k]) {
      NeverToItself(site, reserved, occupied, cost, last);
      forall j | 0 <= j < |front| && Offers(site, reserved, occupied, cost, all[j])
        ensures !Preferred(site, reserved, occupied, cost, all[j], last)
        ensures Preferred(site, reserved, occupied, cost, last, all[j])
      {
        CostKnown(site, reserved, occupied, cost, front[j]);
        PreferredOn(site, reserved, occupied, cost, last, front[k], front[j]);
      }
    }
    hide Preferred, Offers;
  }

  lemma CostKnown(site: Site, reserved: map<string, nat>, occupied: map<string, nat>, cost: string -> Option<real>,
                  a: Area)
    requires Offers(site, reserved, occupied, cost, a)
    ensures cost(a.edge).Some?
  {
  }

  lemma OnlyArea(site: Site, reserved: map<string, nat>, occupied: map<string, nat>, cost: string -> Option<real>,
                 front: seq<Area>, last: Area)
    requires site.policy != RandomAvailable && NoneOffers(site, reserved, occupied, cost, front)
    ensures if Offers(site, reserved, occupied, cost, last)
            then FirstBest(site, reserved, occupied, cost, front + [last], |front|)
            else NoneOffers(site, reserved, occupied, cost, front + [last])
  {
    NeverToItself(site, reserved, occupied, cost, last);
    hide Preferred, Offers;
    assert forall j :: 0 <= j < |front| ==> (front + [last])[j] == front[j];
  }

  /** r is the first best of the areas; none when none is on offer. */
  ghost predicate IsFirstBest(site: Site, reserved: map<string, nat>, occupied: map<string, nat>,
                              cost: string -> Option<real>, areas: seq<Area>, r: Option<Area>) {
    if r.None? then NoneOffers(site, reserved, occupied, cost, areas)
    else exists k: nat :: k < |areas| && FirstBest(site, reserved, occupied, cost, areas, k) && areas[k] == r.value
  }

  lemma FirstBestAppend(site: Site, reserved: map<string, nat>, occupied: map<string, nat>,
                        cost: string -> Option<real>, front: seq<Area>, last: Area, best: Option<Area>, r: Option<Area>)
    requires site.policy != RandomAvailable && IsFirstBest(site, reserved, occupied, cost, front, best)
    requires r == if Offers(site, reserved, occupied, cost, last)
                     && (best.None? || Preferred(site, reserved, occupied, cost, last, best.value))
                  then Some(last) else best
    ensures IsFirstBest(site, reserved, occupied, cost, front + [last], r)
  {
    hide Preferred, Offers, NoneOffers, FirstBest;
    if best.None? {
      OnlyArea(site, reserved, occupied, cost, front, last);
      assert (front + [last])[|front|] == last;
    } else {
      var k: nat :| k < |front| && FirstBest(site, reserved, occupied, cost, front, k) && front[k] == best.value;
      OneMoreArea(site, reserved, occupied, cost, front, last, k);
      assert (front + [last])[|front|] == last && (front + [last])[k] == front[k];
    }
  }

  lemma NearestAppend(site: Site, reserved: map<string, nat>, occupied: map<string, nat>, cost: string -> Option<real>,
                      front: seq<Area>, last: Area)
    requires site.policy == NearestAvailable
    ensures var best := Nearest(site, reserved, occupied, cost, front);
            Nearest(site, reserved, occupied, cost, front + [last]) ==
            if Offers(site, reserved, occupied, cost, last)
               && (best.None? || Preferred(site, reserved, occupied, cost, last, best.value))
            then Some(last) else best
  {
    assert (front + [last])[..|front|] == front;
    OffersIs(site, reserved, occupied, cost, last);
    hide Offers, HasSpace;
  }

  lemma {:induction false} NearestIsFirst(site: Site, reserved: map<string, nat>, occupied: map<string, nat>,
                                          cost: string -> Option<real>, areas: seq<Area>)
    requires site.policy == NearestAvailable
    ensures IsFirstBest(site, reserved, occupied, cost, areas, Nearest(site, reserved, occupied, cost, areas))
    decreases |areas|
  {
    if areas != [] {
      var front, last := areas[..|areas| - 1], areas[|areas| - 1];
      assert areas == front + [last];
      NearestIsFirst(site, reserved, occupied, cost, front);
      NearestAppend(site, reserved, occupied, cost, front, last);
      hide Offers, IsFirstBest, Nearest, NearCandidate, Preferred;
      FirstBestAppend(site, reserved, occupied, cost, front, last, Nearest(site, reserved, occupied, cost, front),
                      Nearest(site, reserved, occupied, cost, areas));
    }
  }

  lemma {:induction false} BalancedIsFirst(site: Site, reserved: map<string, nat>, occupied: map<string, nat>,
                                           cost: string -> Option<real>, areas: seq<Area>)
    requires site.policy == BalancedAvailable
    ensures IsFirstBest(site, reserved, occupied, cost, areas, Balanced(site, reserved, occupied, cost, areas))
    decreases |areas|
  {
    if areas != [] {
      var front, last := areas[..|areas| - 1], areas[|areas| - 1];
      assert areas == front + [last];
      BalancedIsFirst(site, reserved, occupied, cost, front);
      OffersIs(site, reserved, occupied, cost, last);
      var best := Balanced(site, reserved, occupied, cost, front);
      if best.Some? && cost(last.edge).Some? {
        BetterIsBeats(site, reserved, occupied, cost, last, best.value);
      }
      hide Offers, IsFirstBest, BetterBalanced, Beats;
      FirstBestAppend(site, reserved, occupied, cost, front, last, best,
                      Balanced(site, reserved, occupied, cost, areas));
    }
  }

  // ---- the random policy ----

  ghost function OfferCount(site: Site, reserved: map<string, nat>, occupied: map<string, nat>,
                            cost: string -> Option<real>, areas: seq<Area>): nat
    decreases |areas|
  {
    if areas == [] then 0
    else
      OfferCount(site, reserved, occupied, cost, areas[..|areas| - 1])
      + if Offers(site, reserved, occupied, cost, areas[|areas| - 1]) then 1 else 0
  }

  /** areas[k] is the n-th area on offer. */
  ghost predicate OfferAt(site: Site, reserved: map<string, nat>, occupied: map<string, nat>,
                          cost: string -> Option<real>, areas: seq<Area>, n: nat, k: nat) {
    && k < |areas| && Offers(site, reserved, occupied, cost, areas[k])
    && OfferCount(site, reserved, occupied, cost, areas[..k]) == n
  }

  /** The areas of r are those on offer, in order. */
  ghost predicate AllOffers(site: Site, reserved: map<string, nat>, occupied: map<string, nat>,
                            cost: string -> Option<real>, areas: seq<Area>, r: seq<Area>) {
    && |r| == OfferCount(site, reserved, occupied, cost, areas)
    && forall n :: 0 <= n < |r| ==> IsOffer(site, reserved, occupied, cost, areas, n, r[n])
  }

  ghost predicate IsOffer(site: Site, reserved: map<string, nat>, occupied: map<string, nat>,
                          cost: string -> Option<real>, areas: seq<Area>, n: nat, a: Area) {
    exists k: nat :: k < |areas| && OfferAt(site, reserved, occupied, cost, areas, n, k) && areas[k] == a
  }

  lemma OfferCountAppend(site: Site, reserved: map<string, nat>, occupied: map<string, nat>,
                         cost: string -> Option<real>, front: seq<Area>, last: Area)
    ensures OfferCount(site, reserved, occupied, cost, front + [last]) ==
            OfferCount(site, reserved, occupied, cost, front)
            + if Offers(site, reserved, occupied, cost, last) then 1 else 0
  {
    assert (front + [last])[..|front|] == front;
    hide Offers;
  }

  lemma AllOffersAppend(site: Site, reserved: map<string, nat>, occupied: map<string, nat>,
                        cost: string -> Option<real>, front: seq<Area>, last: Area, before: seq<Area>, r: seq<Area>)
    requires AllOffers(site, reserved, occupied, cost, front, before)
    requires r == if Offers(site, reserved, occupied, cost, last) then before + [last] else before
    ensures AllOffers(site, reserved, occupied, cost, front + [last], r)
  {
    OfferCountAppend(site, reserved, occupied, cost, front, last);
    hide Offers, OfferCount;
    var areas := front + [last];
    forall n | 0 <= n < |r|
      ensures IsOffer(site, reserved, occupied, cost, areas, n, r[n])
    {
      if n < |before| {
        assert IsOffer(site, reserved, occupied, cost, front, n, before[n]);
        var k: nat :| k < |front| && OfferAt(site, reserved, occupied, cost, front, n, k) && front[k] == before[n];
        assert areas[..k] == front[..k] && areas[k] == front[k];
        assert OfferAt(site, reserved, occupied, cost, areas, n, k);
      } else {
        assert areas[..|front|] == front;
        assert OfferAt(site, reserved, occupied, cost, areas, n, |front|);
      }
    }
  }

  lemma ReachableAppend(site: Site, reserved: map<string, nat>, occupied: map<string, nat>,
                        cost: string -> Option<real>, front: seq<Area>, last: Area)
    requires site.policy == RandomAvailable
    ensures var before := Reachable(site, reserved, occupied, cost, front);
            Reachable(site, reserved, occupied, cost, front + [last]) ==
            if Offers(site, reserved, occupied, cost, last) then before + [last] else before
  {
    OffersIs(site, reserved, occupied, cost, last);
    assert (front + [last])[..|front|] == front;
    hide Offers, HasSpace;
  }

  lemma {:induction false} ReachableIsOffers(site: Site, reserved: map<string, nat>, occupied: map<string, nat>,
                                             cost: string -> Option<real>, areas: seq<Area>)
    requires site.policy == RandomAvailable
    ensures AllOffers(site, reserved, occupied, cost, areas, Reachable(site, reserved, occupied, cost, areas))
    decreases |areas|
  {
    if areas != [] {
      var front, last := areas[..|areas| - 1], areas[|areas| - 1];
      assert areas == front + [last];
      ReachableIsOffers(site, reserved, occupied, cost, front);
      ReachableAppend(site, reserved, occupied, cost, front, last);
      hide AllOffers, Reachable, Offers;
      AllOffersAppend(site, reserved, occupied, cost, front, last, Reachable(site, reserved, occupied, cost, front),
                      Reachable(site, reserved, occupied, cost, areas));
    }
  }

  // ---- the selection ----

  /** Some area of the lot may be used and has more spaces than are occupied and reserved. */
  ghost predicate HasRoom(site: Site, reserved: map<string, nat>, occupied: map<string, nat>, lot: string) {
    lot in site.groups
    && exists a :: a in site.groups[lot] && (site.selectable.None? || a.id in site.selectable.value)
                   && CapacityOf(site, a.id) > Occupied(occupied, a.id) + Reserved(reserved, a.id)
  }

  lemma RoomIffFree(site: Site, reserved: map<string, nat>, occupied: map<string, nat>, lot: string)
    requires lot in site.groups
    ensures HasFreeSpace(site, reserved, occupied, site.groups[lot]) <==> HasRoom(site, reserved, occupied, lot)
  {
    var areas := site.groups[lot];
    if a :| a in areas && (site.selectable.None? || a.id in site.selectable.value)
            && CapacityOf(site, a.id) > Occupied(occupied, a.id) + Reserved(reserved, a.id) {
      var k :| 0 <= k < |areas| && areas[k] == a;
      assert HasSpace(site, reserved, occupied, areas[k].id);
    }
  }

  /** The n-th area on offer is selected, for the next random number n, which is used up. */
  ghost predicate IsRandom(site: Site, reserved: map<string, nat>, occupied: map<string, nat>,
                           cost: string -> Option<real>, areas: seq<Area>, draws: nat, r: Option<string>, drawn: nat) {
    var count := OfferCount(site, reserved, occupied, cost, areas);
    if r.None? then count == 0 && drawn == draws
    else
      && count > 0 && drawn == draws + 1
      && exists k: nat ::
           OfferAt(site, reserved, occupied, cost, areas, site.picks(draws) % count, k) && areas[k].id == r.value
  }

  /** The identifier of the first best area. */
  ghost predicate IsBest(site: Site, reserved: map<string, nat>, occupied: map<string, nat>,
                         cost: string -> Option<real>, areas: seq<Area>, r: Option<string>) {
    if r.None? then NoneOffers(site, reserved, occupied, cost, areas)
    else exists k: nat :: k < |areas| && FirstBest(site, reserved, occupied, cost, areas, k) && areas[k].id == r.value
  }

  lemma FirstBestIsBest(site: Site, reserved: map<string, nat>, occupied: map<string, nat>,
                        cost: string -> Option<real>, areas: seq<Area>, r: Option<Area>)
    requires IsFirstBest(site, reserved, occupied, cost, areas, r)
    ensures IsBest(site, reserved, occupied, cost, areas, if r.Some? then Some(r.value.id) else None)
  {
    hide FirstBest, NoneOffers;
  }

  /** In a lot with room, the nearest and the balanced policy select the first best area on
      offer, and the random one the area that the next random number points to; in a lot
      without room, none is selected. */
  lemma SelectionIsPolicy(site: Site, c: Core, occupied: map<string, nat>, v: Visit, lot: string)
    requires lot in site.groups
    ensures var areas := site.groups[lot];
            var (r, draws) := Selection(site, c, occupied, v, areas);
            if !HasRoom(site, c.reserved, occupied, lot) then r.None? && draws == c.draws
            else if site.policy == RandomAvailable
            then IsRandom(site, c.reserved, occupied, v.cost, areas, c.draws, r, draws)
            else draws == c.draws && IsBest(site, c.reserved, occupied, v.cost, areas, r)
  {
    var areas := site.groups[lot];
    RoomIffFree(site, c.reserved, occupied, lot);
    hide HasRoom, HasFreeSpace, IsBest, Nearest, Balanced;
    match site.policy
    case NearestAvailable =>
      NearestIsFirst(site, c.reserved, occupied, v.cost, areas);
      FirstBestIsBest(site, c.reserved, occupied, v.cost, areas, Nearest(site, c.reserved, occupied, v.cost, areas));
    case BalancedAvailable =>
      BalancedIsFirst(site, c.reserved, occupied, v.cost, areas);
      FirstBestIsBest(site, c.reserved, occupied, v.cost, areas, Balanced(site, c.reserved, occupied, v.cost, areas));
    case RandomAvailable =>
      ReachableIsOffers(site, c.reserved, occupied, v.cost, areas);
      hide Reachable, OfferCount;
  }

  // ---- the totals of a lot ----

  lemma TotalsAppend(site: Site, reserved: map<string, nat>, occupied: map<string, nat>, front: seq<Area>, last: Area)
    ensures var free := FreeSpaces(site, reserved, occupied, last.id);
            TotalFree(site, reserved, occupied, front + [last]) ==
            TotalFree(site, reserved, occupied, front) + if Selectable(site, last.id) && free > 0 then free else 0
    ensures TotalCapacity(site, front + [last]) == TotalCapacity(site, front) + CapacityOf(site, last.id)
  {
    assert (front + [last])[..|front|] == front;
    hide FreeSpaces, CapacityOf, Selectable, HasFreeSpace;
  }

  lemma {:induction false} TotalsAddUp(site: Site, reserved: map<string, nat>, occupied: map<string, nat>,
                                       a: seq<Area>, b: seq<Area>)
    ensures TotalFree(site, reserved, occupied, a + b) ==
            TotalFree(site, reserved, occupied, a) + TotalFree(site, reserved, occupied, b)
    ensures TotalCapacity(site, a + b) == TotalCapacity(site, a) + TotalCapacity(site, b)
    decreases |b|
  {
    if b == [] {
      assert a + b == a;
    } else {
      var front, last := b[..|b| - 1], b[|b| - 1];
      TotalsAddUp(site, reserved, occupied, a, front);
      assert b == front + [last] && a + b == (a + front) + [last];
      TotalsAppend(site, reserved, occupied, front, last);
      TotalsAppend(site, reserved, occupied, a + front, last);
      hide TotalFree, TotalCapacity, FreeSpaces, CapacityOf, Selectable;
    }
  }

  /** The totals of a lot are the sums over its areas: the capacity of every area, and of those
      that may be used the spaces that are neither occupied nor reserved. */
  lemma TotalsAreSums(site: Site, reserved: map<string, nat>, occupied: map<string, nat>, areas: seq<Area>, k: nat)
    requires k < |areas|
    ensures var a, rest := areas[k], areas[..k] + areas[k + 1..];
            var capacity := if a.id in site.capacity then site.capacity[a.id] else 0;
            && TotalCapacity(site, areas) == TotalCapacity(site, rest) + capacity
            && TotalFree(site, reserved, occupied, areas) ==
               TotalFree(site, reserved, occupied, rest)
               + (if (site.selectable.None? || a.id in site.selectable.value)
                     && capacity > InUse(reserved, occupied, a)
                  then capacity - InUse(reserved, occupied, a) else 0)
    ensures TotalCapacity(site, []) == TotalFree(site, reserved, occupied, []) == 0
  {
    var a := areas[k];
    assert areas == (areas[..k] + [a]) + areas[k + 1..];
    TotalsAddUp(site, reserved, occupied, areas[..k], areas[k + 1..]);
    TotalsAddUp(site, reserved, occupied, areas[..k], [a]);
    TotalsAddUp(site, reserved, occupied, areas[..k] + [a], areas[k + 1..]);
    TotalsOfOne(site, reserved, occupied, a);
    hide TotalFree, TotalCapacity;
  }

  lemma TotalsOfOne(site: Site, reserved: map<string, nat>, occupied: map<string, nat>, a: Area)
    ensures var capacity := if a.id in site.capacity then site.capacity[a.id] else 0;
            && TotalCapacity(site, [a]) == capacity
            && TotalFree(site, reserved, occupied, [a]) ==
               (if (site.selectable.None? || a.id in site.selectable.value)
                   && capacity > InUse(reserved, occupied, a)
                then capacity - InUse(reserved, occupied, a) else 0)
    ensures TotalCapacity(site, []) == TotalFree(site, reserved, occupied, []) == 0
  {
    assert [a][..0] == [];
  }
}
