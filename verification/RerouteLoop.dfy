/** The search for another lot as the controller runs it: a loop over the vehicle's record and
    the event log (backend/sumo/controller/main.py). */
module RerouteLoop {
  import opened Wrappers
  import opened ParkingChoice
  import opened Reroute
  import opened ParkingModel
  import opened MetricsLogger
  import opened VehicleTracking

  /** Lots without a route are rejected; the others are offered. */
  method CollectRoutable(ctx: Context, tracker: VehicleTracker, log: CsvLogger<Event>, lots: seq<string>, round: nat)
      returns (routable: seq<Offer>)
    requires ctx.vehicle in tracker.records
    modifies tracker, log
    ensures var s := SplitRoutable(ctx, lots, old(tracker.Of(ctx.vehicle)), round);
            && routable == s.offers && log.rows == old(log.rows) + s.events
            && tracker.records == old(tracker.records)[ctx.vehicle := s.rec]
  {
    hide Reject, Rejection, MakeOffer;
    ghost var rec := tracker.Of(ctx.vehicle);
    routable := [];
    for i := 0 to |lots|
      invariant tracker.records == old(tracker.records)[ctx.vehicle := SplitRoutable(ctx, lots[..i], rec, round).rec]
      invariant log.rows == old(log.rows) + SplitRoutable(ctx, lots[..i], rec, round).events
      invariant routable == SplitRoutable(ctx, lots[..i], rec, round).offers
    {
      assert lots[..i + 1][..i] == lots[..i];
      var route := ctx.route(round, lots[i]);
      if route.None? {
        log.Write(Rejection(ctx, tracker.Of(ctx.vehicle), lots[i], NoRoute));
        tracker.MarkCandidateRejected(ctx.vehicle, lots[i]);
        continue;
      }
      routable := routable + [MakeOffer(ctx, lots[i], route.value)];
    }
    assert lots[..|lots|] == lots;
  }

  /** Offers that the ranking dropped are rejected. */
  method RejectKnownFull(ctx: Context, tracker: VehicleTracker, log: CsvLogger<Event>, routable: seq<Offer>,
                         ranked: seq<Offer>)
    requires ctx.vehicle in tracker.records
    modifies tracker, log
    ensures var s := RejectUnranked(ctx, routable, ranked, old(tracker.Of(ctx.vehicle)));
            && log.rows == old(log.rows) + s.events
            && tracker.records == old(tracker.records)[ctx.vehicle := s.rec]
  {
    hide Reject, Rejection;
    ghost var rec := tracker.Of(ctx.vehicle);
    var rankedIds := set o | o in ranked :: o.lot;
    for i := 0 to |routable|
      invariant tracker.records ==
          old(tracker.records)[ctx.vehicle := RejectUnranked(ctx, routable[..i], ranked, rec).rec]
      invariant log.rows == old(log.rows) + RejectUnranked(ctx, routable[..i], ranked, rec).events
    {
      assert routable[..i + 1][..i] == routable[..i];
      if routable[i].lot in rankedIds {
        continue;
      }
      log.Write(Rejection(ctx, tracker.Of(ctx.vehicle), routable[i].lot, KnownFullLot));
      tracker.MarkCandidateRejected(ctx.vehicle, routable[i].lot);
    }
    assert routable[..|routable|] == routable;
  }

  /** One round of the search. */
  method SearchRound(ctx: Context, tracker: VehicleTracker, log: CsvLogger<Event>, round: nat)
      returns (finished: bool, target: Option<string>)
    requires ctx.vehicle in tracker.records
    modifies tracker, log
    ensures var r := OneRound(ctx, old(tracker.Of(ctx.vehicle)), round);
            && finished == r.finished && target == r.target && log.rows == old(log.rows) + r.events
            && tracker.records == old(tracker.records)[ctx.vehicle := r.rec]
  {
    ghost var rec := tracker.Of(ctx.vehicle);
    var candidates := Existing(Unattempted(ctx.candidates, tracker.Of(ctx.vehicle)), ctx.lots);
    if candidates == [] {
      return true, None;
    }
    var routable := CollectRoutable(ctx, tracker, log, candidates, round);
    if routable == [] {
      return true, None;
    }
    finished, target := DecideRound(ctx, tracker, log, routable, round, SplitRoutable(ctx, candidates, rec, round));
  }

  method DecideRound(ctx: Context, tracker: VehicleTracker, log: CsvLogger<Event>, routable: seq<Offer>, round: nat,
                     ghost split: Search)
      returns (finished: bool, target: Option<string>)
    requires ctx.vehicle in tracker.records && split.rec == tracker.Of(ctx.vehicle) && split.offers == routable
    modifies tracker, log
    ensures var r := Decide(ctx, split, round);
            && finished == r.finished && target == r.target
            && old(log.rows) <= log.rows && split.events + log.rows[|old(log.rows)|..] == r.events
            && tracker.records == old(tracker.records)[ctx.vehicle := r.rec]
  {
    hide RejectUnranked, Reject, Rejection, Ranked;
    ghost var before := log.rows;
    var decision := tracker.NextDecisionIndex(ctx.vehicle);
    var ranked := RankParkingCandidates(routable, ctx.driver(decision, |tracker.Of(ctx.vehicle).attempted|));
    RejectKnownFull(ctx, tracker, log, routable, ranked);
    if ranked == [] {
      return true, None;
    }
    var next := ranked[0].lot;
    var attempts := |tracker.Of(ctx.vehicle).attempted|;
    if ctx.reach(round, next) {
      tracker.MarkTargetChanged(ctx.vehicle, next);
      log.Write(Event(ctx.time, ctx.vehicle, TargetChanged, next, "", attempts));
      return true, Some(next);
    }
    log.Write(Rejection(ctx, tracker.Of(ctx.vehicle), next, NoRoute));
    tracker.MarkCandidateRejected(ctx.vehicle, next);
    return false, None;
  }

  /** The whole loop. It ends, and leaves in the record and the log what the search says. */
  method RerouteToNextCandidate(ctx: Context, tracker: VehicleTracker, log: CsvLogger<Event>)
      returns (target: Option<string>)
    requires "" !in ctx.lots && ctx.vehicle in tracker.records
    modifies tracker, log
    ensures var r := Rerouted(ctx, old(tracker.Of(ctx.vehicle)), 0);
            && target == r.target && log.rows == old(log.rows) + r.events
            && tracker.records == old(tracker.records)[ctx.vehicle := r.rec]
  {
    hide OneRound;
    ghost var whole := Rerouted(ctx, tracker.Of(ctx.vehicle), 0);
    ghost var written: seq<Event> := [];
    var round := 0;
    while true
      invariant tracker.records == old(tracker.records)[ctx.vehicle := tracker.Of(ctx.vehicle)]
      invariant log.rows == old(log.rows) + written
      invariant var rest := Rerouted(ctx, tracker.Of(ctx.vehicle), round);
                rest.target == whole.target && rest.rec == whole.rec && written + rest.events == whole.events
      decreases |Open(ctx, tracker.Of(ctx.vehicle))|
    {
      ghost var rec := tracker.Of(ctx.vehicle);
      var finished, found := SearchRound(ctx, tracker, log, round);
      written := written + OneRound(ctx, rec, round).events;
      if finished {
        return found;
      }
      RoundShrinks(ctx, rec, round);
      round := round + 1;
    }
  }
}
