/** Eligibility and ordering of alternative parking lots (backend/sumo/parking_choice.py).
    Utilities and the knowledge draw are parameters. */
module ParkingChoice {
  import opened Wrappers
  import opened Sorting

  datatype Offer = Offer(lot: string, capacity: int, free: Option<int>, visible: bool, driveTime: real)

  /** A driver's view of one decision: does the driver know a lot's occupancy, and what is a
      lot worth among the offers that are compared. */
  datatype Driver = Driver(informed: string -> bool, utility: (seq<Offer>, string) -> real)

  function Capacity(o: Offer): int {
    if o.capacity > 1 then o.capacity else 1
  }

  function ActualFree(o: Offer): Option<int> {
    if o.free.None? then None
    else if o.free.value <= 0 then Some(0)
    else if o.free.value > Capacity(o) then Some(Capacity(o))
    else o.free
  }

  predicate OccupancyKnown(o: Offer, d: Driver) {
    o.visible || (o.free.Some? && d.informed(o.lot))
  }

  predicate KnownFull(o: Offer, d: Driver) {
    OccupancyKnown(o, d) && ActualFree(o) == Some(0)
  }

  predicate Eligible(o: Offer, d: Driver) {
    o.lot != "" && !KnownFull(o, d)
  }

  function Prepared(offers: seq<Offer>, d: Driver): (r: seq<Offer>)
    ensures forall o :: o in r <==> o in offers && Eligible(o, d)
    decreases |offers|
  {
    if offers == [] then []
    else
      var front, last := offers[..|offers| - 1], offers[|offers| - 1];
      assert offers == front + [last];
      if Eligible(last, d) then Prepared(front, d) + [last] else Prepared(front, d)
  }

  /** Higher utility first, then smaller id. */
  function Better(d: Driver, compared: seq<Offer>): (Offer, Offer) -> bool {
    (a: Offer, b: Offer) =>
      var x, y := d.utility(compared, a.lot), d.utility(compared, b.lot);
      x > y || (x == y && StringBefore(a.lot, b.lot))
  }

  function Ranked(offers: seq<Offer>, d: Driver): seq<Offer> {
    Sort(Prepared(offers, d), Better(d, Prepared(offers, d)))
  }

  method RankParkingCandidates(offers: seq<Offer>, d: Driver) returns (r: seq<Offer>)
    ensures r == Ranked(offers, d)
  {
    var prepared: seq<Offer> := [];
    for i := 0 to |offers|
      invariant prepared == Prepared(offers[..i], d)
    {
      assert offers[..i + 1][..i] == offers[..i];
      var candidate := offers[i];
      if candidate.lot == "" {
        continue;
      }
      var known := candidate.visible || (candidate.free.Some? && d.informed(candidate.lot));
      if known && ActualFree(candidate) == Some(0) {
        continue;
      }
      prepared := prepared + [candidate];
    }
    assert offers[..|offers|] == offers;
    r := Sort(prepared, Better(d, prepared));
  }

  lemma BetterOrders(s: seq<Offer>, d: Driver, compared: seq<Offer>)
    ensures Ordering(s, Better(d, compared))
  {
    forall a, b, c | a in s && b in s && c in s
      ensures !Better(d, compared)(a, b) && !Better(d, compared)(b, c) ==> !Better(d, compared)(a, c)
      ensures Better(d, compared)(a, b) ==> !Better(d, compared)(b, a)
    {
      StringOrder(a.lot, b.lot, c.lot);
    }
  }

  /** The ranking keeps exactly the eligible offers, and the first one is worth at least as
      much as every other. */
  lemma RankedSelects(offers: seq<Offer>, d: Driver)
    ensures forall o :: o in Ranked(offers, d) <==> o in offers && Eligible(o, d)
    ensures Sorted(Ranked(offers, d), Better(d, Prepared(offers, d)))
    ensures var r, p := Ranked(offers, d), Prepared(offers, d);
            forall k :: 0 <= k < |r| ==> d.utility(p, r[0].lot) >= d.utility(p, r[k].lot)
  {
    var p := Prepared(offers, d);
    SortMembers(p, Better(d, p));
    BetterOrders(p, d, p);
    SortSorts(p, Better(d, p));
    var r := Ranked(offers, d);
    forall k | 0 <= k < |r|
      ensures d.utility(p, r[0].lot) >= d.utility(p, r[k].lot)
    {
      assert k > 0 ==> !Better(d, p)(r[k], r[0]);
    }
  }
}
