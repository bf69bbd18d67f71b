/** The search for an alternative lot after a failed parking attempt
    (backend/sumo/controller/main.py), as a function of the vehicle's record. */
module Reroute {
  import opened Wrappers
  import opened ParkingChoice
  import opened Sorting

  /** What the tracker remembers of a vehicle's search. */
  datatype Record = Record(current: string, attempted: seq<string>, rejected: seq<string>, decisions: nat)

  datatype RejectReason = NoRoute | KnownFullLot
  datatype UnservedReason = Exhausted | FullBeforeArrival

  datatype Kind = Attempt(selected: bool) | Rejected(reason: RejectReason) | TargetChanged | Assigned | AssignmentFailed
                | Unserved(why: UnservedReason) | Started | Ended

  datatype Event = Event(time: real, vehicle: string, kind: Kind, lot: string, area: string, attempts: nat)

  /** Everything the search reads: the vehicle, its candidate lots, which lots exist, and the
      answers of the simulator and of the choice model, which may differ in every round. */
  datatype Context = Context(
    time: real, vehicle: string, candidates: seq<string>, lots: set<string>,
    route: (nat, string) -> Option<real>, reach: (nat, string) -> bool,
    capacity: string -> int, free: string -> int, visible: string -> bool,
    driver: (nat, nat) -> Driver)

  function Unattempted(candidates: seq<string>, rec: Record): (r: seq<string>)
    ensures forall c :: c in r <==> c in candidates && c !in rec.attempted && c !in rec.rejected
    decreases |candidates|
  {
    if candidates == [] then []
    else
      var front, last := candidates[..|candidates| - 1], candidates[|candidates| - 1];
      assert candidates == front + [last];
      if last !in rec.attempted && last !in rec.rejected then Unattempted(front, rec) + [last]
          else Unattempted(front, rec)
  }

  function Existing(candidates: seq<string>, lots: set<string>): (r: seq<string>)
    ensures forall c :: c in r <==> c in candidates && c in lots
    decreases |candidates|
  {
    if candidates == [] then []
    else
      var front, last := candidates[..|candidates| - 1], candidates[|candidates| - 1];
      assert candidates == front + [last];
      if last in lots then Existing(front, lots) + [last] else Existing(front, lots)
  }

  /** The candidates a round starts from. */
  function Open(ctx: Context, rec: Record): seq<string> {
    Existing(Unattempted(ctx.candidates, rec), ctx.lots)
  }

  function Reject(rec: Record, lot: string): Record {
    if lot != "" && lot !in rec.rejected then rec.(rejected := rec.rejected + [lot]) else rec
  }

  function Rejection(ctx: Context, rec: Record, lot: string, reason: RejectReason): Event {
    Event(ctx.time, ctx.vehicle, Rejected(reason), lot, "", |rec.attempted|)
  }

  function MakeOffer(ctx: Context, lot: string, travelTime: real): Offer {
    Offer(lot, ctx.capacity(lot), Some(ctx.free(lot)), ctx.visible(lot), travelTime)
  }

  datatype Search = Search(offers: seq<Offer>, rec: Record, events: seq<Event>)

  /** Lots without a route are rejected on the spot; the others become offers. */
  function SplitRoutable(ctx: Context, lots: seq<string>, rec: Record, round: nat): Search
    decreases |lots|
  {
    if lots == [] then Search([], rec, [])
    else
      var s := SplitRoutable(ctx, lots[..|lots| - 1], rec, round);
      var lot := lots[|lots| - 1];
      if ctx.route(round, lot).None?
      then s.(rec := Reject(s.rec, lot), events := s.events + [Rejection(ctx, s.rec, lot, NoRoute)])
      else s.(offers := s.offers + [MakeOffer(ctx, lot, ctx.route(round, lot).value)])
  }

  /** Offers that the ranking dropped are rejected as known to be full. */
  function RejectUnranked(ctx: Context, offers: seq<Offer>, ranked: seq<Offer>, rec: Record): Search
    decreases |offers|
  {
    if offers == [] then Search([], rec, [])
    else
      var s := RejectUnranked(ctx, offers[..|offers| - 1], ranked, rec);
      var o := offers[|offers| - 1];
      if o.lot in LotsOf(ranked) then s
      else s.(rec := Reject(s.rec, o.lot), events := s.events + [Rejection(ctx, s.rec, o.lot, KnownFullLot)])
  }

  function LotsOf(offers: seq<Offer>): set<string> {
    set o | o in offers :: o.lot
  }

  datatype Outcome = Outcome(target: Option<string>, rec: Record, events: seq<Event>)

  /** One round: a decision, or the state of the search for the next round. */
  datatype Round = Round(finished: bool, target: Option<string>, rec: Record, events: seq<Event>)

  function OneRound(ctx: Context, rec: Record, round: nat): Round {
    var open := Open(ctx, rec);
    if open == [] then Round(true, None, rec, [])
    else
      var split := SplitRoutable(ctx, open, rec, round);
      if split.offers == [] then Round(true, None, split.rec, split.events) else Decide(ctx, split, round)
  }

  /** The record with this decision counted. */
  function Counted(rec: Record): Record {
    rec.(decisions := rec.decisions + 1)
  }

  function Ranking(ctx: Context, split: Search): seq<Offer> {
    Ranked(split.offers, ctx.driver(split.rec.decisions + 1, |split.rec.attempted|))
  }

  /** Rank the routable offers, reject the dropped ones, and head for the best. */
  function Decide(ctx: Context, split: Search, round: nat): Round {
    var ranked := Ranking(ctx, split);
    var dropped := RejectUnranked(ctx, split.offers, ranked, Counted(split.rec));
    var events := split.events + dropped.events;
    if ranked == [] then Round(true, None, dropped.rec, events)
    else
      var next := ranked[0].lot;
      if ctx.reach(round, next)
      then Round(true, Some(next), dropped.rec.(current := next),
                 events + [Event(ctx.time, ctx.vehicle, TargetChanged, next, "", |dropped.rec.attempted|)])
      else Round(false, None, Reject(dropped.rec, next), events + [Rejection(ctx, dropped.rec, next, NoRoute)])
  }

  /** The loop, round by round. It ends because every unfinished round rejects a lot that was
      open. */
  function Rerouted(ctx: Context, rec: Record, round: nat): Outcome
    requires "" !in ctx.lots
    decreases |Open(ctx, rec)|
  {
    var r := OneRound(ctx, rec, round);
    if r.finished then Outcome(r.target, r.rec, r.events)
    else
      RoundShrinks(ctx, rec, round);
      var rest := Rerouted(ctx, r.rec, round + 1);
      rest.(events := r.events + rest.events)
  }

  // ---- what a round does to the record ----

  /** Attempts are untouched and rejections only grow. */
  ghost predicate Grows(before: Record, after: Record) {
    before.attempted == after.attempted && forall c :: c in before.rejected ==> c in after.rejected
  }

  lemma {:induction false} SplitRoutableRejects(ctx: Context, lots: seq<string>, rec: Record, round: nat)
    requires "" !in lots
    ensures var s := SplitRoutable(ctx, lots, rec, round);
            && Grows(rec, s.rec) && s.rec.current == rec.current && s.rec.decisions == rec.decisions
            && (forall o :: o in s.offers ==> o.lot in lots && o == MakeOffer(ctx, o.lot, o.driveTime))
            && (forall c :: c in lots ==> c in s.rec.rejected || c in LotsOf(s.offers))
            && (forall c :: c in s.rec.rejected ==> c in rec.rejected || c in lots)
    decreases |lots|
  {
    if lots != [] {
      var front, last := lots[..|lots| - 1], lots[|lots| - 1];
      assert lots == front + [last];
      SplitRoutableRejects(ctx, front, rec, round);
      var s := SplitRoutable(ctx, front, rec, round);
      if ctx.route(round, last).Some? {
        var o := MakeOffer(ctx, last, ctx.route(round, last).value);
        assert o in s.offers + [o];
      }
      assert forall c :: c in LotsOf(s.offers) ==> c in LotsOf(SplitRoutable(ctx, lots, rec, round).offers);
    }
  }

  lemma {:induction false} RejectUnrankedRejects(ctx: Context, offers: seq<Offer>, ranked: seq<Offer>, rec: Record)
    requires "" !in LotsOf(offers)
    ensures var s := RejectUnranked(ctx, offers, ranked, rec);
            && Grows(rec, s.rec) && s.rec.current == rec.current && s.rec.decisions == rec.decisions
            && (forall c :: c in LotsOf(offers) ==> c in s.rec.rejected || c in LotsOf(ranked))
            && (forall c :: c in s.rec.rejected ==> c in rec.rejected || c in LotsOf(offers))
    decreases |offers|
  {
    if offers != [] {
      var front, last := offers[..|offers| - 1], offers[|offers| - 1];
      assert offers == front + [last];
      assert LotsOf(offers) == LotsOf(front) + {last.lot};
      RejectUnrankedRejects(ctx, front, ranked, rec);
    }
  }

  lemma OpenIff(ctx: Context, rec: Record)
    ensures forall c ::
        c in Open(ctx, rec) <==> c in ctx.candidates && c in ctx.lots && c !in rec.attempted && c !in rec.rejected
  {
  }

  lemma RankingSelects(ctx: Context, split: Search)
    ensures forall o :: o in Ranking(ctx, split) ==> o in split.offers
    ensures LotsOf(Ranking(ctx, split)) <= LotsOf(split.offers)
    ensures Ranking(ctx, split) != [] ==> Ranking(ctx, split)[0].lot in LotsOf(Ranking(ctx, split))
    ensures forall o :: o in split.offers && o.lot != "" && o.lot !in LotsOf(Ranking(ctx, split))
              ==> KnownFull(o, ctx.driver(split.rec.decisions + 1, |split.rec.attempted|))
  {
    RankedSelects(split.offers, ctx.driver(split.rec.decisions + 1, |split.rec.attempted|));
    assert Ranking(ctx, split) != [] ==> Ranking(ctx, split)[0] in Ranking(ctx, split);
  }

  lemma DecideRejects(ctx: Context, split: Search, round: nat)
    requires "" !in LotsOf(split.offers) && split.offers != []
    ensures var r := Decide(ctx, split, round);
            && Grows(split.rec, r.rec)
            && (r.target.Some? ==>
                r.finished && r.rec.current == r.target.value && r.target.value in LotsOf(split.offers))
            && (r.target.None? ==> r.rec.current == split.rec.current)
            && (forall c :: c in r.rec.rejected ==> c in split.rec.rejected || c in LotsOf(split.offers))
            && (r.finished && r.target.None? ==> forall c :: c in LotsOf(split.offers) ==> c in r.rec.rejected)
            && (!r.finished ==> exists c :: c in LotsOf(split.offers) && c in r.rec.rejected)
            && (r.target.Some? && r.target.value !in split.rec.rejected ==> r.target.value !in r.rec.rejected)
  {
    hide Ranking, RejectUnranked;
    var ranked := Ranking(ctx, split);
    RankingSelects(ctx, split);
    RejectUnrankedRejects(ctx, split.offers, ranked, Counted(split.rec));
    if ranked != [] && ranked[0].lot !in split.rec.rejected {
      RejectUnrankedKeeps(ctx, split.offers, ranked, Counted(split.rec), ranked[0].lot);
    }
  }

  /** A new target can be reached, and no routable lot that is not known to be full is worth
      more. */
  lemma DecideTakesBest(ctx: Context, split: Search, round: nat)
    requires Decide(ctx, split, round).target.Some?
    ensures var target := Decide(ctx, split, round).target.value;
            var driver := ctx.driver(split.rec.decisions + 1, |split.rec.attempted|);
            && ctx.reach(round, target) && (exists o :: o in split.offers && o.lot == target && Eligible(o, driver))
            && var compared := Prepared(split.offers, driver);
               forall o :: o in split.offers && Eligible(o, driver) ==>
                 driver.utility(compared, o.lot) <= driver.utility(compared, target)
  {
    var driver := ctx.driver(split.rec.decisions + 1, |split.rec.attempted|);
    var ranked := Ranking(ctx, split);
    RankedSelects(split.offers, driver);
    var compared := Prepared(split.offers, driver);
    hide Ranked, RejectUnranked, Prepared;
    assert ranked[0] in ranked;
    forall o | o in split.offers && Eligible(o, driver)
      ensures driver.utility(compared, o.lot) <= driver.utility(compared, ranked[0].lot)
    {
      assert o in ranked;
      var k :| 0 <= k < |ranked| && ranked[k] == o;
    }
  }

  /** Every open lot of a round ends up rejected, unless the round moves to it or will try
      again. */
  lemma RoundRejects(ctx: Context, rec: Record, round: nat)
    requires "" !in ctx.lots
    ensures var r := OneRound(ctx, rec, round);
            && Grows(rec, r.rec)
            && (r.target.Some? ==> r.finished && r.rec.current == r.target.value && r.target.value in Open(ctx, rec)
                                   && r.target.value !in r.rec.rejected)
            && (r.target.None? ==> r.rec.current == rec.current)
            && (forall c :: c in r.rec.rejected ==> c in rec.rejected || c in Open(ctx, rec))
            && (r.finished && r.target.None? ==> forall c :: c in Open(ctx, rec) ==> c in r.rec.rejected)
            && (!r.finished ==> exists c :: c in Open(ctx, rec) && c in r.rec.rejected)
  {
    hide SplitRoutable, Decide;
    var open := Open(ctx, rec);
    OpenIff(ctx, rec);
    var split := SplitRoutable(ctx, open, rec, round);
    SplitRoutableRejects(ctx, open, rec, round);
    SplitRoutableJustified(ctx, open, rec, round, 0, 0);
    if split.offers != [] {
      DecideRejects(ctx, split, round);
      forall c | c in LotsOf(split.offers)
        ensures c in open && c !in split.rec.rejected
      {
        SplitRoutableKeeps(ctx, open, rec, round, c);
      }
    } else {
      assert LotsOf(split.offers) == {};
    }
  }

  lemma {:induction false} FilterShrinks(candidates: seq<string>, lots: set<string>, a: Record, b: Record)
    requires Grows(a, b)
    ensures |Existing(Unattempted(candidates, b), lots)| <= |Existing(Unattempted(candidates, a), lots)|
    ensures (exists c :: c in Existing(Unattempted(candidates, a), lots) && c in b.rejected)
        ==> |Existing(Unattempted(candidates, b), lots)| < |Existing(Unattempted(candidates, a), lots)|
    decreases |candidates|
  {
    if candidates != [] {
      var front, last := candidates[..|candidates| - 1], candidates[|candidates| - 1];
      assert candidates == front + [last];
      FilterShrinks(front, lots, a, b);
      ExistingAppend(Unattempted(front, a), last, lots);
      ExistingAppend(Unattempted(front, b), last, lots);
    }
  }

  lemma ExistingAppend(s: seq<string>, c: string, lots: set<string>)
    ensures Existing(s + [c], lots) == if c in lots then Existing(s, lots) + [c] else Existing(s, lots)
  {
    assert (s + [c])[..|s + [c]| - 1] == s;
  }

  lemma RoundShrinks(ctx: Context, rec: Record, round: nat)
    requires "" !in ctx.lots && !OneRound(ctx, rec, round).finished
    ensures |Open(ctx, OneRound(ctx, rec, round).rec)| < |Open(ctx, rec)|
  {
    RoundRejects(ctx, rec, round);
    FilterShrinks(ctx.candidates, ctx.lots, rec, OneRound(ctx, rec, round).rec);
  }

  // ---- the two promises of the search ----

  /** Every candidate lot that exists has been attempted or rejected. */
  ghost predicate NothingLeft(ctx: Context, rec: Record) {
    forall c :: c in ctx.candidates && c in ctx.lots ==> c in rec.attempted || c in rec.rejected
  }

  /** The search gives up exactly when nothing is left, and otherwise moves to a lot that was
      still open. */
  lemma {:induction false} GivesUpIffExhausted(ctx: Context, rec: Record, round: nat)
    requires "" !in ctx.lots
    ensures var r := Rerouted(ctx, rec, round);
            && Grows(rec, r.rec)
            && (r.target.None? <==> NothingLeft(ctx, r.rec))
            && (r.target.None? ==> r.rec.current == rec.current)
            && (r.target.Some? ==>
                r.rec.current == r.target.value && r.target.value in Open(ctx, rec)
                    && r.target.value !in r.rec.rejected)
    decreases |Open(ctx, rec)|
  {
    var r := OneRound(ctx, rec, round);
    RoundRejects(ctx, rec, round);
    OpenIff(ctx, rec);
    if !r.finished {
      RoundShrinks(ctx, rec, round);
      GivesUpIffExhausted(ctx, r.rec, round + 1);
      OpenIff(ctx, r.rec);
    }
  }

  lemma {:induction false} RejectUnrankedKeeps(ctx: Context, offers: seq<Offer>, ranked: seq<Offer>, rec: Record,
                                               lot: string)
    requires lot in LotsOf(ranked) && lot !in rec.rejected
    ensures lot !in RejectUnranked(ctx, offers, ranked, rec).rec.rejected
    decreases |offers|
  {
    if offers != [] {
      RejectUnrankedKeeps(ctx, offers[..|offers| - 1], ranked, rec, lot);
    }
  }

  lemma {:induction false} SplitRoutableKeeps(ctx: Context, lots: seq<string>, rec: Record, round: nat, lot: string)
    requires ctx.route(round, lot).Some? && lot !in rec.rejected
    ensures lot !in SplitRoutable(ctx, lots, rec, round).rec.rejected
    decreases |lots|
  {
    if lots != [] {
      SplitRoutableKeeps(ctx, lots[..|lots| - 1], rec, round, lot);
    }
  }

  /** A lot is only ever rejected because the simulator refused it in this round, or because its
      occupancy was known to this round's decision and it has no free space; the search only
      moves to a lot the simulator gave a route to in this round. */
  ghost predicate Justified(ctx: Context, round: nat, decision: nat, attempts: nat, e: Event) {
    match e.kind
    case Rejected(NoRoute) => Refused(ctx, round, e.lot)
    case Rejected(KnownFullLot) => KnewFull(ctx, decision, attempts, e.lot)
    case TargetChanged =>
        e.lot in ctx.candidates && e.lot in ctx.lots && UsableIn(ctx, round, decision, attempts, e.lot)
    case _ => false
  }

  /** The event is this vehicle's, of this moment, with the number of its attempts. */
  ghost predicate Signed(ctx: Context, rec: Record, e: Event) {
    e.vehicle == ctx.vehicle && e.time == ctx.time && e.area == "" && e.attempts == |rec.attempted|
  }

  ghost predicate Refused(ctx: Context, round: nat, lot: string) {
    ctx.route(round, lot).None? || !ctx.reach(round, lot)
  }

  ghost predicate KnewFull(ctx: Context, decision: nat, attempts: nat, lot: string) {
    ctx.free(lot) <= 0 && (ctx.visible(lot) || ctx.driver(decision, attempts).informed(lot))
  }

  /** The lot has a route, can be reached, and is not known to be full. */
  ghost predicate UsableIn(ctx: Context, round: nat, decision: nat, attempts: nat, lot: string) {
    !Refused(ctx, round, lot) && !KnewFull(ctx, decision, attempts, lot)
  }

  lemma OfferKnownFull(ctx: Context, o: Offer, decision: nat, attempts: nat)
    requires o == MakeOffer(ctx, o.lot, o.driveTime)
    ensures KnownFull(o, ctx.driver(decision, attempts)) <==> KnewFull(ctx, decision, attempts, o.lot)
  {
  }

  lemma {:induction false} SplitRoutableJustified(ctx: Context, lots: seq<string>, rec: Record, round: nat,
                                                  decision: nat, attempts: nat)
    ensures var s := SplitRoutable(ctx, lots, rec, round);
            && (forall e :: e in s.events ==> Justified(ctx, round, decision, attempts, e) && Signed(ctx, rec, e))
            && s.rec.attempted == rec.attempted && (forall o :: o in s.offers ==> ctx.route(round, o.lot).Some?)
            && (forall c :: c in s.rec.rejected ==> c in rec.rejected || Refused(ctx, round, c))
    decreases |lots|
  {
    if lots != [] {
      SplitRoutableJustified(ctx, lots[..|lots| - 1], rec, round, decision, attempts);
    }
  }

  lemma {:induction false} RejectUnrankedJustified(ctx: Context, offers: seq<Offer>, ranked: seq<Offer>, rec: Record,
                                                   round: nat,
                                                   decision: nat, attempts: nat)
    requires forall o :: o in offers && o.lot !in LotsOf(ranked) ==> KnewFull(ctx, decision, attempts, o.lot)
    ensures var s := RejectUnranked(ctx, offers, ranked, rec);
            && s.rec.attempted == rec.attempted
            && (forall e :: e in s.events ==> Justified(ctx, round, decision, attempts, e) && Signed(ctx, rec, e))
            && (forall c :: c in s.rec.rejected ==> c in rec.rejected || KnewFull(ctx, decision, attempts, c))
    decreases |offers|
  {
    if offers != [] {
      var front, last := offers[..|offers| - 1], offers[|offers| - 1];
      assert offers == front + [last];
      RejectUnrankedJustified(ctx, front, ranked, rec, round, decision, attempts);
    }
  }

  /** What a round logs and rejects is justified by its own answers and its own decision. */
  lemma RoundJustified(ctx: Context, rec: Record, round: nat)
    requires "" !in ctx.lots
    ensures var r, d, n := OneRound(ctx, rec, round), rec.decisions + 1, |rec.attempted|;
            && (forall e :: e in r.events ==> Justified(ctx, round, d, n, e) && Signed(ctx, rec, e))
            && (forall c :: c in r.rec.rejected ==> c in rec.rejected || !UsableIn(ctx, round, d, n, c))
            && (r.target.Some? ==> UsableIn(ctx, round, d, n, r.target.value))
            && r.rec.attempted == rec.attempted && (!r.finished ==> r.rec.decisions == d)
  {
    hide SplitRoutable, Decide, Justified, UsableIn;
    var open, d, n := Open(ctx, rec), rec.decisions + 1, |rec.attempted|;
    SplitRoutableJustified(ctx, open, rec, round, d, n);
    SplitRoutableRejects(ctx, open, rec, round);
    RefusedUnusable(ctx, round, d, n);
    var split := SplitRoutable(ctx, open, rec, round);
    if open != [] && split.offers != [] {
      DecideJustified(ctx, split, round);
    }
  }

  lemma RefusedUnusable(ctx: Context, round: nat, decision: nat, attempts: nat)
    ensures forall c ::
        Refused(ctx, round, c) || KnewFull(ctx, decision, attempts, c) ==> !UsableIn(ctx, round, decision, attempts, c)
  {
  }

  lemma DecideJustified(ctx: Context, split: Search, round: nat)
    requires "" !in LotsOf(split.offers)
    requires forall o :: o in split.offers ==>
               && o.lot in ctx.candidates && o.lot in ctx.lots && o == MakeOffer(ctx, o.lot, o.driveTime)
               && ctx.route(round, o.lot).Some?
    requires forall e :: e in split.events ==>
               Justified(ctx, round, split.rec.decisions + 1, |split.rec.attempted|, e) && Signed(ctx, split.rec, e)
    ensures var r, d, n := Decide(ctx, split, round), split.rec.decisions + 1, |split.rec.attempted|;
            && (forall e :: e in r.events ==> Justified(ctx, round, d, n, e) && Signed(ctx, split.rec, e))
            && (forall c :: c in r.rec.rejected ==> c in split.rec.rejected || !UsableIn(ctx, round, d, n, c))
            && (r.target.Some? ==> UsableIn(ctx, round, d, n, r.target.value))
            && r.rec.attempted == split.rec.attempted && r.rec.decisions == d
  {
    hide Ranking, RejectUnranked;
    var d, n, ranked := split.rec.decisions + 1, |split.rec.attempted|, Ranking(ctx, split);
    RankingSelects(ctx, split);
    forall o | o in split.offers
      ensures KnownFull(o, ctx.driver(d, n)) <==> KnewFull(ctx, d, n, o.lot)
    {
      OfferKnownFull(ctx, o, d, n);
    }
    RankedEligible(ctx, split);
    RejectUnrankedJustified(ctx, split.offers, ranked, Counted(split.rec), round, d, n);
    RejectUnrankedRejects(ctx, split.offers, ranked, Counted(split.rec));
    if ranked != [] {
      assert ranked[0] in split.offers;
    }
  }

  lemma RankedEligible(ctx: Context, split: Search)
    ensures forall o ::
        o in Ranking(ctx, split) ==> !KnownFull(o, ctx.driver(split.rec.decisions + 1, |split.rec.attempted|))
  {
    RankedSelects(split.offers, ctx.driver(split.rec.decisions + 1, |split.rec.attempted|));
  }

  /** The rounds of a search, in order. */
  ghost function Rounds(ctx: Context, rec: Record, round: nat): seq<Round>
    requires "" !in ctx.lots
    decreases |Open(ctx, rec)|
  {
    var r := OneRound(ctx, rec, round);
    if r.finished then [r]
    else
      RoundShrinks(ctx, rec, round);
      [r] + Rounds(ctx, r.rec, round + 1)
  }

  ghost function Logs(rounds: seq<Round>): seq<Event> {
    if rounds == [] then [] else rounds[0].events + Logs(rounds[1..])
  }

  /** The log of the i-th round of a search is justified by that round's answers and decision. */
  ghost predicate RoundWell(ctx: Context, rec: Record, round: nat, i: nat, r: Round) {
    forall e :: e in r.events ==>
      Justified(ctx, round + i, rec.decisions + 1 + i, |rec.attempted|, e) && Signed(ctx, rec, e)
  }

  lemma RoundWellShifts(ctx: Context, rec: Record, round: nat, later: Record, i: nat, r: Round)
    requires later.attempted == rec.attempted && later.decisions == rec.decisions + 1
    ensures RoundWell(ctx, later, round + 1, i, r) ==> RoundWell(ctx, rec, round, i + 1, r)
  {
    assert round + 1 + i == round + (i + 1) && later.decisions + 1 + i == rec.decisions + 1 + (i + 1);
    hide Justified;
  }

  lemma FirstRoundWell(ctx: Context, rec: Record, round: nat)
    requires "" !in ctx.lots
    ensures var r := OneRound(ctx, rec, round);
            && RoundWell(ctx, rec, round, 0, r)
            && r.rec.attempted == rec.attempted && (!r.finished ==> r.rec.decisions == rec.decisions + 1)
  {
    RoundJustified(ctx, rec, round);
    hide OneRound, Justified, UsableIn;
  }

  lemma LaterRoundsWell(ctx: Context, rec: Record, round: nat, later: Record, r: Round, rest: seq<Round>)
    requires later.attempted == rec.attempted && later.decisions == rec.decisions + 1
        && RoundWell(ctx, rec, round, 0, r)
    requires forall i :: 0 <= i < |rest| ==> RoundWell(ctx, later, round + 1, i, rest[i])
    ensures forall i :: 0 <= i < |rest| + 1 ==> RoundWell(ctx, rec, round, i, ([r] + rest)[i])
  {
    hide RoundWell;
    forall i | 0 <= i < |rest| + 1
      ensures RoundWell(ctx, rec, round, i, ([r] + rest)[i])
    {
      if i > 0 {
        assert RoundWell(ctx, later, round + 1, i - 1, rest[i - 1]);
        RoundWellShifts(ctx, rec, round, later, i - 1, rest[i - 1]);
      }
    }
  }

  lemma LogsFirst(r: Round, rest: seq<Round>)
    ensures Logs([r] + rest) == r.events + Logs(rest)
  {
    assert ([r] + rest)[1..] == rest;
  }

  /** Every event of the search is justified by the answers of the round that logged it, and by
      that round's decision. */
  lemma {:induction false} RejectionsJustified(ctx: Context, rec: Record, round: nat)
    requires "" !in ctx.lots
    ensures Rerouted(ctx, rec, round).events == Logs(Rounds(ctx, rec, round))
    ensures forall i :: 0 <= i < |Rounds(ctx, rec, round)| ==> RoundWell(ctx, rec, round, i, Rounds(ctx, rec, round)[i])
    decreases |Open(ctx, rec)|
  {
    hide OneRound, RoundWell, Open, Logs;
    var r := OneRound(ctx, rec, round);
    FirstRoundWell(ctx, rec, round);
    if !r.finished {
      RoundShrinks(ctx, rec, round);
      var rest := Rounds(ctx, r.rec, round + 1);
      RejectionsJustified(ctx, r.rec, round + 1);
      LaterRoundsWell(ctx, rec, round, r.rec, r, rest);
      LogsFirst(r, rest);
    } else {
      LogsFirst(r, []);
      NoLogs();
      assert [r] + [] == [r];
    }
  }

  lemma NoLogs()
    ensures Logs([]) == []
  {
  }

  /** The search only logs rejections and a new target. */
  lemma {:induction false} SearchIsQuiet(ctx: Context, rec: Record, round: nat)
    requires "" !in ctx.lots
    ensures forall e :: e in Rerouted(ctx, rec, round).events ==> !e.kind.Unserved? && !e.kind.AssignmentFailed?
    decreases |Open(ctx, rec)|
  {
    RoundJustified(ctx, rec, round);
    hide OneRound;
    if !OneRound(ctx, rec, round).finished {
      RoundShrinks(ctx, rec, round);
      SearchIsQuiet(ctx, OneRound(ctx, rec, round).rec, round + 1);
    }
  }

  // ---- when a search succeeds, from its answers ----

  /** Usable in the i-th round of a search from this record and round. */
  ghost predicate UsableAfter(ctx: Context, rec: Record, round: nat, i: nat, lot: string) {
    UsableIn(ctx, round + i, rec.decisions + 1 + i, |rec.attempted|, lot)
  }

  ghost predicate EverUsable(ctx: Context, rec: Record, round: nat, lot: string) {
    exists i: nat :: UsableAfter(ctx, rec, round, i, lot)
  }

  ghost predicate AlwaysUsable(ctx: Context, rec: Record, round: nat, lot: string) {
    forall i: nat :: UsableAfter(ctx, rec, round, i, lot)
  }

  lemma LaterUsable(ctx: Context, rec: Record, round: nat, later: Record, lot: string)
    requires later.attempted == rec.attempted && later.decisions == rec.decisions + 1
    ensures EverUsable(ctx, later, round + 1, lot) ==> EverUsable(ctx, rec, round, lot)
    ensures AlwaysUsable(ctx, rec, round, lot) ==> AlwaysUsable(ctx, later, round + 1, lot)
  {
    hide UsableIn;
    var next := round + 1;
    if i: nat :| UsableAfter(ctx, later, next, i, lot) {
      assert UsableAfter(ctx, rec, round, i + 1, lot);
    }
    if AlwaysUsable(ctx, rec, round, lot) {
      forall i: nat
        ensures UsableAfter(ctx, later, next, i, lot)
      {
        assert UsableAfter(ctx, rec, round, i + 1, lot);
      }
    }
  }

  /** What the later rounds of a search start from, and a target found in this round. */
  lemma RoundUsable(ctx: Context, rec: Record, round: nat)
    requires "" !in ctx.lots
    ensures var r := OneRound(ctx, rec, round);
            && r.rec.attempted == rec.attempted && (!r.finished ==> r.rec.decisions == rec.decisions + 1)
            && (r.target.Some? ==> EverUsable(ctx, rec, round, r.target.value))
  {
    RoundJustified(ctx, rec, round);
    hide OneRound, UsableIn, Justified, EverUsable;
    var r := OneRound(ctx, rec, round);
    if r.target.Some? {
      UsableNow(ctx, rec, round, r.target.value);
    }
  }

  /** A new target was usable in some round. */
  lemma {:induction false} TargetWasUsable(ctx: Context, rec: Record, round: nat)
    requires "" !in ctx.lots
    ensures var r := Rerouted(ctx, rec, round);
            r.target.Some? ==> r.target.value in Open(ctx, rec) && EverUsable(ctx, rec, round, r.target.value)
    decreases |Open(ctx, rec)|
  {
    hide OneRound, UsableIn, EverUsable, AlwaysUsable, NothingLeft, Grows, Open;
    GivesUpIffExhausted(ctx, rec, round);
    RoundUsable(ctx, rec, round);
    var r, out := OneRound(ctx, rec, round), Rerouted(ctx, rec, round);
    if !r.finished {
      RoundShrinks(ctx, rec, round);
      TargetWasUsable(ctx, r.rec, round + 1);
      if out.target.Some? {
        LaterUsable(ctx, rec, round, r.rec, out.target.value);
      }
    }
  }

  lemma UsableNow(ctx: Context, rec: Record, round: nat, lot: string)
    ensures UsableAfter(ctx, rec, round, 0, lot) ==> EverUsable(ctx, rec, round, lot)
    ensures AlwaysUsable(ctx, rec, round, lot) ==> UsableIn(ctx, round, rec.decisions + 1, |rec.attempted|, lot)
  {
    hide UsableIn;
    assert AlwaysUsable(ctx, rec, round, lot) ==> UsableAfter(ctx, rec, round, 0, lot);
  }

  /** An open lot that is usable in every round keeps the search from giving up. */
  lemma {:induction false} UsableIsFound(ctx: Context, rec: Record, round: nat, lot: string)
    requires "" !in ctx.lots && lot in Open(ctx, rec) && AlwaysUsable(ctx, rec, round, lot)
    ensures Rerouted(ctx, rec, round).target.Some?
    decreases |Open(ctx, rec)|
  {
    RoundRejects(ctx, rec, round);
    RoundJustified(ctx, rec, round);
    UsableNow(ctx, rec, round, lot);
    OpenIff(ctx, rec);
    hide OneRound, UsableIn, AlwaysUsable;
    var r := OneRound(ctx, rec, round);
    if !r.finished {
      RoundShrinks(ctx, rec, round);
      LaterUsable(ctx, rec, round, r.rec, lot);
      OpenIff(ctx, r.rec);
      UsableIsFound(ctx, r.rec, round + 1, lot);
    }
  }

  /** The answers about the lot are the same in every round. */
  ghost predicate Steady(ctx: Context, rec: Record, round: nat) {
    forall lot, i: nat :: UsableAfter(ctx, rec, round, i, lot) == UsableAfter(ctx, rec, round, 0, lot)
  }

  /** Seen from before the search: it fails if no open lot is ever usable, succeeds if one always
      is, and with answers that do not change from round to round it succeeds exactly when an open
      lot is usable. */
  lemma SucceedsIff(ctx: Context, rec: Record)
    requires "" !in ctx.lots
    ensures var found := Rerouted(ctx, rec, 0).target.Some?;
            && ((forall lot :: lot in Open(ctx, rec) ==> !EverUsable(ctx, rec, 0, lot)) ==> !found)
            && ((exists lot :: lot in Open(ctx, rec) && AlwaysUsable(ctx, rec, 0, lot)) ==> found)
            && (Steady(ctx, rec, 0) ==>
                  (found <==> exists lot ::
                   lot in Open(ctx, rec) && UsableIn(ctx, 0, rec.decisions + 1, |rec.attempted|, lot)))
  {
    hide Rerouted, UsableIn, Open, EverUsable, AlwaysUsable, Steady;
    TargetWasUsable(ctx, rec, 0);
    if lot :| lot in Open(ctx, rec) && AlwaysUsable(ctx, rec, 0, lot) {
      UsableIsFound(ctx, rec, 0, lot);
    }
    if Steady(ctx, rec, 0) {
      forall lot | lot in Open(ctx, rec)
        ensures EverUsable(ctx, rec, 0, lot) <==> UsableIn(ctx, 0, rec.decisions + 1, |rec.attempted|, lot)
        ensures AlwaysUsable(ctx, rec, 0, lot) <==> UsableIn(ctx, 0, rec.decisions + 1, |rec.attempted|, lot)
      {
        SteadyIs(ctx, rec, lot);
      }
    }
  }

  lemma SteadyIs(ctx: Context, rec: Record, lot: string)
    requires Steady(ctx, rec, 0)
    ensures EverUsable(ctx, rec, 0, lot) <==> UsableIn(ctx, 0, rec.decisions + 1, |rec.attempted|, lot)
    ensures AlwaysUsable(ctx, rec, 0, lot) <==> UsableIn(ctx, 0, rec.decisions + 1, |rec.attempted|, lot)
  {
    hide UsableIn;
    assert UsableAfter(ctx, rec, 0, 0, lot) == UsableIn(ctx, 0, rec.decisions + 1, |rec.attempted|, lot);
    assert forall i: nat :: UsableAfter(ctx, rec, 0, i, lot) == UsableAfter(ctx, rec, 0, 0, lot);
  }

  // ---- the target is the best of its round ----

  lemma {:induction false} SplitRoutableOffers(ctx: Context, lots: seq<string>, rec: Record, round: nat)
    ensures forall o :: o in SplitRoutable(ctx, lots, rec, round).offers
                   <==> o.lot in lots && ctx.route(round, o.lot).Some?
                        && o == MakeOffer(ctx, o.lot, ctx.route(round, o.lot).value)
    decreases |lots|
  {
    if lots != [] {
      var front, last := lots[..|lots| - 1], lots[|lots| - 1];
      assert lots == front + [last];
      SplitRoutableOffers(ctx, front, rec, round);
      hide MakeOffer;
      OfferNamesLot(ctx, last);
    }
  }

  lemma OfferNamesLot(ctx: Context, lot: string)
    ensures forall travelTime :: MakeOffer(ctx, lot, travelTime).lot == lot
  {
  }

  /** The offers that a round compares: those of the open lots with a route that are not known to
      be full, as the simulator and the lots describe them. */
  ghost predicate Compares(ctx: Context, rec: Record, round: nat, compared: seq<Offer>) {
    forall o :: o in compared
           <==> o.lot in Open(ctx, rec) && ctx.route(round, o.lot).Some?
                && o == MakeOffer(ctx, o.lot, ctx.route(round, o.lot).value)
                && !KnewFull(ctx, rec.decisions + 1, |rec.attempted|, o.lot)
  }

  /** The target is on offer, and nothing on offer is worth more to this decision's driver; among
      equals it has the smallest identifier. */
  ghost predicate IsBestOffer(ctx: Context, rec: Record, compared: seq<Offer>, target: string) {
    var driver := ctx.driver(rec.decisions + 1, |rec.attempted|);
    target in LotsOf(compared)
    && forall o :: o in compared ==>
         && driver.utility(compared, o.lot) <= driver.utility(compared, target)
         && (driver.utility(compared, o.lot) == driver.utility(compared, target) ==> !StringBefore(o.lot, target))
  }

  lemma FirstIsBest(offers: seq<Offer>, d: Driver)
    requires Ranked(offers, d) != []
    ensures var p, first := Prepared(offers, d), Ranked(offers, d)[0];
            first in p
            && forall o :: o in p ==>
                 && d.utility(p, o.lot) <= d.utility(p, first.lot)
                 && (d.utility(p, o.lot) == d.utility(p, first.lot) ==> !StringBefore(o.lot, first.lot))
  {
    RankedSelects(offers, d);
    var p, r := Prepared(offers, d), Ranked(offers, d);
    hide Ranked, StringBefore, Prepared;
    assert r[0] in r;
    forall o | o in p
      ensures d.utility(p, o.lot) <= d.utility(p, r[0].lot)
      ensures d.utility(p, o.lot) == d.utility(p, r[0].lot) ==> !StringBefore(o.lot, r[0].lot)
    {
      assert o in r;
      var k :| 0 <= k < |r| && r[k] == o;
      assert k > 0 ==> !Better(d, p)(r[k], r[0]);
      Irreflexive(o.lot);
    }
  }

  lemma Irreflexive(a: string)
    ensures !StringBefore(a, a)
  {
    StringOrder(a, a, a);
  }

  lemma DecideIsBest(ctx: Context, split: Search, round: nat)
    requires Decide(ctx, split, round).target.Some?
    ensures var driver := ctx.driver(split.rec.decisions + 1, |split.rec.attempted|);
            IsBestOffer(ctx, split.rec, Prepared(split.offers, driver), Decide(ctx, split, round).target.value)
  {
    var driver := ctx.driver(split.rec.decisions + 1, |split.rec.attempted|);
    FirstIsBest(split.offers, driver);
    assert Ranking(ctx, split)[0].lot == Decide(ctx, split, round).target.value;
    hide Ranked, RejectUnranked, StringBefore, Prepared;
  }

  /** The offers are those of the open lots with a route. */
  ghost predicate OffersAll(ctx: Context, rec: Record, round: nat, split: Search) {
    && split.rec.attempted == rec.attempted && split.rec.decisions == rec.decisions
    && forall o :: o in split.offers
              <==> o.lot in Open(ctx, rec) && ctx.route(round, o.lot).Some?
                   && o == MakeOffer(ctx, o.lot, ctx.route(round, o.lot).value)
  }

  lemma SplitOffersAll(ctx: Context, rec: Record, round: nat)
    requires "" !in ctx.lots
    ensures OffersAll(ctx, rec, round, SplitRoutable(ctx, Open(ctx, rec), rec, round))
  {
    OpenIff(ctx, rec);
    SplitRoutableOffers(ctx, Open(ctx, rec), rec, round);
    SplitRoutableRejects(ctx, Open(ctx, rec), rec, round);
    hide Open, SplitRoutable, MakeOffer;
  }

  lemma ComparesPrepared(ctx: Context, rec: Record, round: nat, split: Search)
    requires "" !in ctx.lots && OffersAll(ctx, rec, round, split)
    ensures Compares(ctx, rec, round, Prepared(split.offers, ctx.driver(rec.decisions + 1, |rec.attempted|)))
  {
    OpenIff(ctx, rec);
    assert "" !in Open(ctx, rec);
    hide Open;
    forall o | o in split.offers
      ensures Eligible(o, ctx.driver(rec.decisions + 1, |rec.attempted|))
              <==> !KnewFull(ctx, rec.decisions + 1, |rec.attempted|, o.lot)
    {
      OfferKnownFull(ctx, o, rec.decisions + 1, |rec.attempted|);
    }
    hide KnewFull, Eligible, MakeOffer;
  }

  lemma RoundTakesBest(ctx: Context, rec: Record, round: nat)
    requires "" !in ctx.lots && OneRound(ctx, rec, round).target.Some?
    ensures exists compared ::
              Compares(ctx, rec, round, compared)
              && IsBestOffer(ctx, rec, compared, OneRound(ctx, rec, round).target.value)
  {
    var split := SplitRoutable(ctx, Open(ctx, rec), rec, round);
    SplitOffersAll(ctx, rec, round);
    ComparesPrepared(ctx, rec, round, split);
    hide Open, SplitRoutable, Decide, Compares, Prepared, MakeOffer;
    DecideIsBest(ctx, split, round);
    assert split.rec.attempted == rec.attempted && split.rec.decisions == rec.decisions;
    hide IsBestOffer, OffersAll;
    var compared := Prepared(split.offers, ctx.driver(rec.decisions + 1, |rec.attempted|));
    SameBest(ctx, split.rec, rec, compared, OneRound(ctx, rec, round).target.value);
  }

  lemma SameBest(ctx: Context, a: Record, b: Record, compared: seq<Offer>, target: string)
    requires a.attempted == b.attempted && a.decisions == b.decisions && IsBestOffer(ctx, a, compared, target)
    ensures IsBestOffer(ctx, b, compared, target)
  {
  }

  /** The target of the search is the best offer of the round that found it, which starts from the
      same attempts and more rejections. */
  ghost predicate BestInRound(ctx: Context, rec: Record, round: nat, i: nat, later: Record, compared: seq<Offer>,
                              target: string) {
    && Grows(rec, later) && later.decisions == rec.decisions + i
    && Compares(ctx, later, round + i, compared) && IsBestOffer(ctx, later, compared, target)
  }

  lemma {:induction false} TargetIsBest(ctx: Context, rec: Record, round: nat)
      returns (i: nat, later: Record, compared: seq<Offer>)
    requires "" !in ctx.lots && Rerouted(ctx, rec, round).target.Some?
    ensures BestInRound(ctx, rec, round, i, later, compared, Rerouted(ctx, rec, round).target.value)
    decreases |Open(ctx, rec)|
  {
    hide OneRound, Compares, IsBestOffer, UsableIn, Open;
    var r := OneRound(ctx, rec, round);
    if r.finished {
      RoundTakesBest(ctx, rec, round);
      compared :| Compares(ctx, rec, round, compared) && IsBestOffer(ctx, rec, compared, r.target.value);
      i, later := 0, rec;
    } else {
      RoundShrinks(ctx, rec, round);
      RoundRejects(ctx, rec, round);
      RoundUsable(ctx, rec, round);
      var j: nat;
      j, later, compared := TargetIsBest(ctx, r.rec, round + 1);
      i := j + 1;
      assert round + 1 + j == round + i;
    }
  }

  // ---- the log is complete ----

  /** The lots rejected since `before` are exactly logged as such. */
  ghost predicate LogsRejections(before: Record, after: Record, events: seq<Event>) {
    && (forall c :: c in after.rejected && c !in before.rejected ==> LogsRejection(events, c))
    && (forall e :: e in events && e.kind.Rejected? ==> e.lot in after.rejected)
  }

  ghost predicate LogsRejection(events: seq<Event>, lot: string) {
    exists e :: e in events && e.kind.Rejected? && e.lot == lot
  }

  lemma LogsOn(events: seq<Event>, more: seq<Event>, lot: string)
    ensures LogsRejection(events, lot) || LogsRejection(more, lot) ==> LogsRejection(events + more, lot)
  {
    if e :| e in events && e.kind.Rejected? && e.lot == lot {
      assert e in events + more;
    }
    if e :| e in more && e.kind.Rejected? && e.lot == lot {
      assert e in events + more;
    }
  }

  lemma RejectionsCompose(a: Record, b: Record, c: Record, events: seq<Event>, more: seq<Event>)
    requires LogsRejections(a, b, events) && LogsRejections(b, c, more)
    requires forall lot :: lot in b.rejected ==> lot in c.rejected
    ensures LogsRejections(a, c, events + more)
  {
    forall lot | lot in c.rejected && lot !in a.rejected
      ensures LogsRejection(events + more, lot)
    {
      LogsOn(events, more, lot);
    }
    hide LogsRejection;
  }

  lemma OneRejected(ctx: Context, rec: Record, lot: string, reason: RejectReason)
    requires lot != ""
    ensures LogsRejections(rec, Reject(rec, lot), [Rejection(ctx, rec, lot, reason)])
    ensures forall c :: c in rec.rejected ==> c in Reject(rec, lot).rejected
  {
    assert Rejection(ctx, rec, lot, reason) in [Rejection(ctx, rec, lot, reason)];
  }

  lemma NothingRejected(rec: Record)
    ensures LogsRejections(rec, rec, [])
  {
  }

  lemma {:induction false} SplitLogs(ctx: Context, lots: seq<string>, rec: Record, round: nat)
    requires "" !in lots
    ensures var s := SplitRoutable(ctx, lots, rec, round); LogsRejections(rec, s.rec, s.events)
    decreases |lots|
  {
    if lots == [] {
      NothingRejected(rec);
    } else {
      var front, last := lots[..|lots| - 1], lots[|lots| - 1];
      assert lots == front + [last];
      SplitLogs(ctx, front, rec, round);
      var s := SplitRoutable(ctx, front, rec, round);
      hide LogsRejections, Rejection, Reject, MakeOffer;
      if ctx.route(round, last).None? {
        OneRejected(ctx, s.rec, last, NoRoute);
        RejectionsCompose(rec, s.rec, Reject(s.rec, last), s.events, [Rejection(ctx, s.rec, last, NoRoute)]);
      }
    }
  }

  lemma {:induction false} UnrankedLogs(ctx: Context, offers: seq<Offer>, ranked: seq<Offer>, rec: Record)
    requires forall o :: o in offers ==> o.lot != ""
    ensures var s := RejectUnranked(ctx, offers, ranked, rec); LogsRejections(rec, s.rec, s.events)
    decreases |offers|
  {
    if offers == [] {
      NothingRejected(rec);
    } else {
      var front, o := offers[..|offers| - 1], offers[|offers| - 1];
      assert offers == front + [o];
      UnrankedLogs(ctx, front, ranked, rec);
      var s := RejectUnranked(ctx, front, ranked, rec);
      hide LogsRejections, Rejection, Reject, LotsOf;
      if o.lot !in LotsOf(ranked) {
        OneRejected(ctx, s.rec, o.lot, KnownFullLot);
        RejectionsCompose(rec, s.rec, Reject(s.rec, o.lot), s.events, [Rejection(ctx, s.rec, o.lot, KnownFullLot)]);
      }
    }
  }

  /** A new target is the last thing logged. */
  ghost predicate LogsTarget(ctx: Context, target: Option<string>, rec: Record, events: seq<Event>) {
    target.Some? ==>
      && events != []
      && events[|events| - 1] ==
         Event(ctx.time, ctx.vehicle, TargetChanged, target.value, "", |rec.attempted|)
  }

  lemma SameRejections(rec: Record, a: Record, b: Record, events: seq<Event>, e: Event)
    requires LogsRejections(rec, a, events) && a.rejected == b.rejected && !e.kind.Rejected?
    ensures LogsRejections(rec, b, events + [e])
  {
    forall c | c in b.rejected && c !in rec.rejected
      ensures LogsRejection(events + [e], c)
    {
      LogsOn(events, [e], c);
    }
    hide LogsRejection;
  }

  lemma CountedLogs(rec: Record, after: Record, events: seq<Event>)
    requires LogsRejections(Counted(rec), after, events)
    ensures LogsRejections(rec, after, events)
  {
  }

  lemma DecideLogs(ctx: Context, split: Search, round: nat)
    requires forall o :: o in split.offers ==> o.lot != ""
    ensures var r := Decide(ctx, split, round);
            LogsRejections(split.rec, r.rec, r.events[|split.events|..]) && split.events <= r.events
            && LogsTarget(ctx, r.target, r.rec, r.events)
  {
    var ranked := Ranking(ctx, split);
    var dropped := RejectUnranked(ctx, split.offers, ranked, Counted(split.rec));
    UnrankedLogs(ctx, split.offers, ranked, Counted(split.rec));
    CountedLogs(split.rec, dropped.rec, dropped.events);
    RankingSelects(ctx, split);
    var r := Decide(ctx, split, round);
    hide Ranking, RejectUnranked, LogsRejections, Reject, Rejection;
    if ranked == [] {
      assert r.events[|split.events|..] == dropped.events;
    } else {
      assert ranked[0] in ranked;
      var next := ranked[0].lot;
      var last := r.events[|r.events| - 1];
      assert r.events[|split.events|..] == dropped.events + [last];
      if ctx.reach(round, next) {
        SameRejections(split.rec, dropped.rec, r.rec, dropped.events, last);
      } else {
        OneRejected(ctx, dropped.rec, next, NoRoute);
        RejectionsCompose(split.rec, dropped.rec, r.rec, dropped.events, [last]);
      }
    }
  }

  lemma RoundLogs(ctx: Context, rec: Record, round: nat)
    requires "" !in ctx.lots
    ensures var r := OneRound(ctx, rec, round);
            LogsRejections(rec, r.rec, r.events) && LogsTarget(ctx, r.target, r.rec, r.events)
  {
    var open := Open(ctx, rec);
    OpenIff(ctx, rec);
    SplitLogs(ctx, open, rec, round);
    SplitRoutableRejects(ctx, open, rec, round);
    NothingRejected(rec);
    var split := SplitRoutable(ctx, open, rec, round);
    hide Open, SplitRoutable, LogsRejections, LogsTarget, MakeOffer;
    if open != [] && split.offers != [] {
      DecideLogs(ctx, split, round);
      DecideGrows(ctx, split, round);
      var r := Decide(ctx, split, round);
      hide Decide;
      RejectionsCompose(rec, split.rec, r.rec, split.events, r.events[|split.events|..]);
      assert split.events + r.events[|split.events|..] == r.events;
    } else {
      NoTarget(ctx, split.rec, split.events);
      NoTarget(ctx, rec, []);
    }
  }

  lemma NoTarget(ctx: Context, rec: Record, events: seq<Event>)
    ensures LogsTarget(ctx, None, rec, events)
  {
  }

  lemma DecideGrows(ctx: Context, split: Search, round: nat)
    requires (forall o :: o in split.offers ==> o.lot != "") && split.offers != []
    ensures Grows(split.rec, Decide(ctx, split, round).rec)
  {
    assert "" !in LotsOf(split.offers);
    DecideRejects(ctx, split, round);
    hide Decide;
  }

  /** A search logs exactly the lots it rejects, and last the target it moves to. */
  lemma {:induction false} SearchLogs(ctx: Context, rec: Record, round: nat)
    requires "" !in ctx.lots
    ensures var r := Rerouted(ctx, rec, round);
            LogsRejections(rec, r.rec, r.events) && LogsTarget(ctx, r.target, r.rec, r.events)
    decreases |Open(ctx, rec)|
  {
    RoundLogs(ctx, rec, round);
    hide OneRound, LogsRejections, LogsTarget, NothingLeft, Open;
    var r := OneRound(ctx, rec, round);
    if !r.finished {
      RoundShrinks(ctx, rec, round);
      SearchLogs(ctx, r.rec, round + 1);
      GivesUpIffExhausted(ctx, r.rec, round + 1);
      var rest := Rerouted(ctx, r.rec, round + 1);
      RejectionsCompose(rec, r.rec, rest.rec, r.events, rest.events);
      TargetLast(ctx, rest.target, rest.rec, r.events, rest.events);
    }
  }

  lemma TargetLast(ctx: Context, target: Option<string>, rec: Record, events: seq<Event>, more: seq<Event>)
    requires LogsTarget(ctx, target, rec, more)
    ensures LogsTarget(ctx, target, rec, events + more)
  {
  }
}
