/** What one poll of the calibration scheduler achieves: which candidates it collects, creates and
    submits, and when it moves to the next phase (vehicle_calibration/calibrate.py). */
module SchedulerProgress {
  import opened Wrappers
  import opened Sorting
  import opened SchedulerModel
  import opened SchedulerSafety
  import opened SchedulerResults
  import Parameters

  // ---- reconciling and collecting ----

  /** The server's word on a candidate: its run is listed with this status. */
  ghost predicate ListedAs(listing: map<string, Status>, t: Candidate, status: Status) {
    t.run.Some? && t.run.value in listing && listing[t.run.value] == status
  }

  /** A candidate takes over the status its run is listed with, unless it is valid; nothing else
      about it changes, and without a listing nothing at all. */
  lemma ReconcileOneIs(listing: map<string, Status>, t: Candidate)
    ensures var u := ReconcileOne(listing, t);
            && (forall status :: ListedAs(listing, t, status) && t.status != Valid ==> u == t.(status := status))
            && (t.status == Valid || (forall status :: !ListedAs(listing, t, status)) ==> u == t)
  {
    if t.run.Some? && t.run.value in listing {
      assert ListedAs(listing, t, listing[t.run.value]);
    }
  }

  /** u is t planned again: its last attempt goes to the previous ones and leaves nothing else
      behind. */
  ghost predicate PlannedAgain(t: Candidate, u: Candidate) {
    && u.status == Planned && u.run == None && u.score == None && u.analyticsAttempts == 0
    && u.previous == t.previous + [Earlier(t.run, t.status)]
    && u.attempt == t.attempt && u.id == t.id && u.phase == t.phase && u.batch == t.batch && u.params == t.params
  }

  /** A bad outcome: the candidate is planned again while an attempt is left, and otherwise stays
      as `last` says. */
  ghost predicate RetriedOr(cfg: Config, t: Candidate, u: Candidate, last: Candidate) {
    if t.attempt as int <= cfg.retryLimit then PlannedAgain(t, u) else u == last
  }

  /** A failed candidate is retried or stays failed. A completed one without a score becomes valid
      with a valid score, and is retried or becomes invalid with another score, or when the
      analytics have been unavailable for the last time; until then it waits. */
  lemma CollectOneIs(cfg: Config, answer: Answer, t: Candidate)
    ensures var u, tried := CollectOne(cfg, answer, t), t.(analyticsAttempts := t.analyticsAttempts + 1);
            if t.status == Failed then RetriedOr(cfg, t, u, t)
            else if t.status == Completed && t.score.None?
            then match answer
              case Scored(score) =>
                var scored := t.(score := Some(score));
                if score.valid then u == scored.(status := Valid)
                else RetriedOr(cfg, t, u, scored.(status := Invalid))
              case Unavailable =>
                if tried.analyticsAttempts < cfg.maxAnalytics then u == tried
                else RetriedOr(cfg, t, u, tried.(status := Invalid))
            else u == t
  {
  }

  /** Fetching treats every candidate this way, each with its own answer. */
  lemma FetchedIs(cfg: Config, s: State, input: Input, i: nat)
    requires i < |s.candidates|
    ensures var d := Fetched(cfg, s, input);
            && |d.candidates| == |s.candidates| && d == s.(candidates := d.candidates)
            && d.candidates[i] == CollectOne(cfg, input.answers(i), ReconcileOne(input.listing, s.candidates[i]))
  {
  }

  // ---- creating ----

  /** A new candidate, with the parameters and the name that were generated for its place. */
  ghost predicate Fresh(input: Input, i: nat, t: Candidate, p: Phase, batch: nat) {
    t == Candidate(input.names(i), p, batch, input.params(i), Planned, None, 0, [], 0, None)
  }

  lemma {:induction false} AddBatchFresh(input: Input, s: State, p: Phase, batch: nat, n: nat)
    ensures var d := AddBatch(input, s, p, batch, n);
            && |d.candidates| == |s.candidates| + n && s.candidates <= d.candidates
            && forall i :: |s.candidates| <= i < |d.candidates| ==> Fresh(input, i, d.candidates[i], p, batch)
  {
    if n > 0 {
      AddBatchFresh(input, s, p, batch, n - 1);
    }
  }

  /** A batch is of generated candidates, under the next batch number. */
  lemma CreateBatchFresh(cfg: Config, input: Input, s: State, p: Phase)
    ensures var d := CreateBatch(cfg, input, s, p);
            && s.candidates <= d.candidates
            && forall i :: |s.candidates| <= i < |d.candidates| ==>
                 Fresh(input, i, d.candidates[i], p, s.phases.Of(p).batches + 1)
  {
    AddBatchFresh(input, s, p, s.phases.Of(p).batches + 1, BatchSize(cfg, s, p));
    hide AddBatch;
  }

  lemma WithinBudget(cfg: Config, s: State, p: Phase, server: map<string, Status>, retries: nat)
    requires ValidConfig(cfg) && p != Validation && Creates(cfg, s, server, retries, p)
    ensures |s.phases.Of(p).ids| % BATCH == 0 && cfg.initial(p) % BATCH == 0
    ensures Budget(cfg, p) >= cfg.initial(p)
  {
    hide AllOK, ActiveCount, SettledDone, Listed, TerminalsDone;
    assert InBudget(cfg, s.current, p, s.phases.Of(p));
  }

  /** The initial design is filled up. */
  lemma {:induction false} FilledIsInitial(cfg: Config, input: Input, s: State, p: Phase, m: nat,
                                           server: map<string, Status>, retries: nat)
    requires ValidConfig(cfg) && p != Validation && Creates(cfg, s, server, retries, p)
        && |s.phases.Of(p).ids| + m >= cfg.initial(p)
    ensures var before, after := |s.phases.Of(p).ids|, |Filled(cfg, input, s, p, m).phases.Of(p).ids|;
            after == if before < cfg.initial(p) then cfg.initial(p) else before
    decreases m
  {
    WithinBudget(cfg, s, p, server, retries);
    hide Inv, CreateBatch, TerminalsDone, Budget, InBudget;
    if m != 0 && |s.phases.Of(p).ids| < cfg.initial(p) {
      CreateBatchKeeps(cfg, input, s, p, server, retries);
      CreateBatchGrows(cfg, input, s, p);
      FilledIsInitial(cfg, input, CreateBatch(cfg, input, s, p), p, m - 1, server, retries);
    }
  }

  ghost predicate SomePlanned(s: State, p: Phase) {
    exists k :: 0 <= k < |s.phases.Of(p).ids| && s.phases.Of(p).ids[k] < |s.candidates|
                && s.candidates[s.phases.Of(p).ids[k]].status == Planned
  }

  lemma PlannedStays(s: State, d: State, p: Phase)
    requires SomePlanned(s, p) && Gains(s, d, p)
    ensures SomePlanned(d, p)
  {
    var k :| 0 <= k < |s.phases.Of(p).ids| && s.phases.Of(p).ids[k] < |s.candidates|
             && s.candidates[s.phases.Of(p).ids[k]].status == Planned;
    assert d.phases.Of(p).ids[k] == s.phases.Of(p).ids[k];
  }

  lemma CreateBatchPlans(cfg: Config, input: Input, s: State, p: Phase)
    requires BatchSize(cfg, s, p) > 0
    ensures SomePlanned(CreateBatch(cfg, input, s, p), p)
  {
    var batch, m := s.phases.Of(p).batches + 1, |s.phases.Of(p).ids|;
    var batches: nat -> nat := k => batch;
    CreateBatchExtends(cfg, input, s, p, batches);
    var d := CreateBatch(cfg, input, s, p);
    hide CreateBatch, BatchSize, ActiveCount;
    assert d.phases.Of(p).ids[m] == |s.candidates|;
    NewIsPlanned(s, d, p, BatchSize(cfg, s, p), batches, |s.candidates|);
  }

  /** While the initial design was not complete, some candidate of it is still to be submitted. */
  lemma FilledPlans(cfg: Config, input: Input, s: State, p: Phase, m: nat)
    requires ValidConfig(cfg) && p != Validation && |s.phases.Of(p).ids| < cfg.initial(p) && m > 0
    ensures SomePlanned(Filled(cfg, input, s, p, m), p)
  {
    assert Budget(cfg, p) == cfg.runs(p) >= cfg.initial(p);
    CreateBatchPlans(cfg, input, s, p);
    FilledGains(cfg, input, CreateBatch(cfg, input, s, p), p, m - 1);
    hide CreateBatch, SomePlanned;
    PlannedStays(CreateBatch(cfg, input, s, p), Filled(cfg, input, s, p, m), p);
  }

  lemma NotFinished(s: State, p: Phase)
    requires SomePlanned(s, p)
    ensures !PhaseFinished(s, p)
  {
  }

  /** Every candidate of the phase is valid, invalid or failed, and there is one. */
  ghost predicate AllOver(s: State, p: Phase) {
    && s.phases.Of(p).ids != []
    && forall k :: 0 <= k < |s.phases.Of(p).ids| ==>
         && s.phases.Of(p).ids[k] < |s.candidates|
         && var status := s.candidates[s.phases.Of(p).ids[k]].status;
            status == Valid || status == Invalid || status == Failed
  }

  lemma AllOverIff(s: State, p: Phase)
    ensures AllOver(s, p) <==> PhaseFinished(s, p)
  {
  }

  /** A calibration phase that has begun can go on; one that has not needs a valid candidate of a
      phase before it, unless it is the first. */
  ghost predicate CanGoOn(s: State, p: Phase) {
    s.phases.Of(p).status == Pending && (p == Shape || p == Joint) ==>
      exists t :: t in s.candidates && t.status == Valid
                  && (t.phase == VolumeRouting || (p == Joint && t.phase == Shape))
  }

  lemma ActivateIff(s: State, p: Phase)
    requires p != Validation
    ensures Activate(s, p).Some? <==> CanGoOn(s, p)
    ensures Activate(s, p).Some? ==>
              && Activate(s, p).value.candidates == s.candidates && Activate(s, p).value.current == s.current
              && forall q :: Activate(s, p).value.phases.Of(q).ids == s.phases.Of(q).ids
  {
    var before := if p == Joint then {VolumeRouting, Shape} else {VolumeRouting};
    if t :| t in s.candidates && t.status == Valid && (t.phase == VolumeRouting || (p == Joint && t.phase == Shape)) {
      var i :| 0 <= i < |s.candidates| && s.candidates[i] == t;
      assert HasValid(s, before);
    }
    if HasValid(s, before) {
      var i :| 0 <= i < |s.candidates| && s.candidates[i].status == Valid && s.candidates[i].phase in before;
      assert s.candidates[i] in s.candidates;
    }
  }

  /** What a poll creates in a calibration phase: the initial design is completed; once it is
      complete, four more candidates when every earlier one is over and the budget is not used up;
      and otherwise none. */
  lemma PollCreates(cfg: Config, s: State, input: Input, p: Phase, server: map<string, Status>, retries: nat)
    requires ValidConfig(cfg) && p != Validation && Creates(cfg, s, server, retries, p)
    ensures var d, before := Prepared(cfg, s, input, p), |s.phases.Of(p).ids|;
            && (d.Some? <==> CanGoOn(s, p))
            && (d.Some? ==>
                  var after := |d.value.phases.Of(p).ids|;
                  if before < cfg.initial(p) then after == cfg.initial(p)
                  else if before < cfg.runs(p) && AllOver(s, p) then after == before + 4
                  else d.value.candidates == s.candidates && after == before)
  {
    ActivateIff(s, p);
    hide CanGoOn, AllOver;
    if Activate(s, p).Some? {
      var active := Activate(s, p).value;
      ActiveCreates(cfg, s, active, p, server, retries);
      hide Activate;
      ActivePrepares(cfg, s, active, input, p, server, retries);
    }
  }

  lemma ActiveCreates(cfg: Config, s: State, active: State, p: Phase, server: map<string, Status>, retries: nat)
    requires Creates(cfg, s, server, retries, p) && Activate(s, p) == Some(active)
    ensures Creates(cfg, active, server, retries, p)
  {
    StatusOnly(cfg, s, p, Active, server, retries);
    hide Inv, HasValid, TerminalsDone;
  }

  lemma ActivePrepares(cfg: Config, s: State, active: State, input: Input, p: Phase, server: map<string, Status>,
                       retries: nat)
    requires ValidConfig(cfg) && p != Validation && Creates(cfg, active, server, retries, p)
    requires active.candidates == s.candidates && active.phases.Of(p).ids == s.phases.Of(p).ids
    ensures var before := |s.phases.Of(p).ids|;
            var filled := Filled(cfg, input, active, p, cfg.initial(p));
            var d := Adapted(cfg, input, filled, p);
            var after := |d.phases.Of(p).ids|;
            if before < cfg.initial(p) then after == cfg.initial(p)
            else if before < cfg.runs(p) && AllOver(s, p) then after == before + 4
            else d.candidates == s.candidates && after == before
  {
    FilledIsInitial(cfg, input, active, p, cfg.initial(p), server, retries);
    FilledKeeps(cfg, input, active, p, cfg.initial(p), server, retries);
    var filled := Filled(cfg, input, active, p, cfg.initial(p));
    if |s.phases.Of(p).ids| < cfg.initial(p) {
      FilledPlans(cfg, input, active, p, cfg.initial(p));
      hide Filled, Creates, SomePlanned, PhaseFinished, CreateBatch;
      NotFinished(filled, p);
    } else {
      assert filled == active;
      AllOverIff(active, p);
      SameOver(s, active, p);
      hide Filled, CreateBatch, Inv, Done, AllOver;
      if WantsAdaptive(cfg, active, p) {
        FinishedIsDone(cfg, active, p);
        CreateBatchKeeps(cfg, input, active, p, server, retries);
      }
    }
  }

  lemma SameOver(s: State, d: State, p: Phase)
    requires d.candidates == s.candidates && d.phases.Of(p).ids == s.phases.Of(p).ids
    ensures AllOver(s, p) == AllOver(d, p)
  {
  }

  // ---- submitting ----

  /** The k-th candidate chosen gets the k-th run that the server creates, with its status; its
      attempt is counted. No other candidate changes. */
  ghost predicate SubmittedIn(input: Input, before: seq<Candidate>, after: seq<Candidate>, chosen: seq<nat>, n: nat)
    requires n <= |chosen|
  {
    && |after| == |before|
    && (forall k :: 0 <= k < n && chosen[k] < |before| ==>
          after[chosen[k]] ==
          before[chosen[k]].(run := Some(input.created(k).0), status := input.created(k).1,
                             attempt := before[chosen[k]].attempt + 1))
    && (forall i :: 0 <= i < |before| && i !in chosen[..n] ==> after[i] == before[i])
  }

  lemma {:induction false} SubmittedIs(input: Input, candidates: seq<Candidate>, chosen: seq<nat>, n: nat)
    requires n <= |chosen| && Distinct(chosen)
    ensures SubmittedIn(input, candidates, Submitted(input, candidates, chosen, n), chosen, n)
  {
    if n > 0 {
      SubmittedIs(input, candidates, chosen, n - 1);
      assert chosen[..n] == chosen[..n - 1] + [chosen[n - 1]];
      assert forall k :: 0 <= k < n - 1 ==> chosen[k] != chosen[n - 1];
    }
  }

  /** A whole poll submits the candidates that come first: each gets a run of its own, no other
      candidate changes, and a planned candidate of the phase is left over only when every slot is
      taken. */
  lemma SentIs(s: State, input: Input, p: Phase)
    requires Listed(s.candidates, p, s.phases.Of(p).ids) && ActiveCount(s.candidates) <= SLOTS
    ensures var chosen, d := Chosen(s, p), Sent(s, input, p, SLOTS);
            && d == s.(candidates := d.candidates)
            && SubmittedIn(input, s.candidates, d.candidates, chosen, |chosen|)
            && (forall i :: i in chosen ==>
                  i < |s.candidates| && s.candidates[i].status == Planned && i in s.phases.Of(p).ids)
            && forall j :: j in s.phases.Of(p).ids && j < |s.candidates| && j !in chosen ==>
                 s.candidates[j].status == Planned ==> |chosen| + ActiveCount(s.candidates) == 4
  {
    var chosen := Chosen(s, p);
    ChosenFit(s, p);
    SubmittedIs(input, s.candidates, chosen, |chosen|);
    forall j | j in s.phases.Of(p).ids && j < |s.candidates| && s.candidates[j].status == Planned && j !in chosen
      ensures |chosen| + ActiveCount(s.candidates) == 4
    {
      EarliestGoFirst(s, p, j);
    }
    hide Chosen, Submitted, ActiveCount, Listed, SubmittedIn, Distinct;
  }

  // ---- moving on ----

  /** A phase is left exactly when it is full and every candidate of it is valid, invalid or failed;
      the next one is then the current one. */
  lemma AdvanceIff(cfg: Config, s: State, p: Phase)
    requires s.current == In(p)
    ensures var d := AdvanceIfReady(cfg, s, p);
            if |s.phases.Of(p).ids| >= Budget(cfg, p) && AllOver(s, p)
            then && d.candidates == s.candidates && d.phases.Of(p) == s.phases.Of(p).(status := Complete)
                 && (forall q :: q != p ==> d.phases.Of(q) == s.phases.Of(q))
                 && CurrentRank(d.current) == Rank(p) + 1
            else d == s
  {
    AllOverIff(s, p);
    hide AllOver, PhaseFinished, Budget;
  }

  // ---- validating ----

  /** A valid calibration candidate with a score. */
  ghost predicate ValidCalibration(t: Candidate) {
    t.status == Valid && t.score.Some? && t.phase != Validation
  }

  ghost predicate SameButSeed(t: Candidate, u: Candidate) {
    t.params == u.params.(seed := t.params.seed)
  }

  ghost predicate NoWorse(t: Candidate, u: Candidate) {
    t.score.Some? && u.score.Some? && t.score.value.objective <= u.score.value.objective
  }

  /** The finalists are valid calibration candidates that differ in more than the seed, at most as
      many as asked for; and every other valid calibration candidate either shares its configuration
      with a finalist that is no worse, or all places went to finalists that are no worse. */
  ghost predicate WellSelected(candidates: seq<Candidate>, r: seq<nat>, count: nat) {
    && |r| <= count
    && (forall k :: 0 <= k < |r| ==> r[k] < |candidates| && ValidCalibration(candidates[r[k]]))
    && (forall j, k :: 0 <= j < k < |r| ==> !SameButSeed(candidates[r[j]], candidates[r[k]]))
    && forall t :: t in candidates && ValidCalibration(t) ==> CoveredBy(candidates, r, count, t)
  }

  ghost predicate CoveredBy(candidates: seq<Candidate>, r: seq<nat>, count: nat, t: Candidate)
    requires forall k :: 0 <= k < |r| ==> r[k] < |candidates|
  {
    || (exists k :: 0 <= k < |r| && SameButSeed(candidates[r[k]], t) && NoWorse(candidates[r[k]], t))
    || (|r| >= count && forall k :: 0 <= k < |r| ==> NoWorse(candidates[r[k]], t))
  }

  lemma ParamsAre(s: State, i: nat, j: nat)
    requires i < |s.candidates| && j < |s.candidates|
    ensures SameConfiguration(ParamsOf(s, i), ParamsOf(s, j)) <==> SameButSeed(s.candidates[i], s.candidates[j])
    ensures s.candidates[i].score.Some? && s.candidates[j].score.Some? ==>
        (Objective(s, i) <= Objective(s, j) <==> NoWorse(s.candidates[i], s.candidates[j]))
  {
  }

  lemma SelectedAreWell(s: State, count: nat)
    requires count >= 1
    ensures WellSelected(s.candidates, Selected(s, Ranking(s), count), count)
  {
    var ranked := Ranking(s);
    var r := Selected(s, ranked, count);
    SelectedBounded(s, ranked, count);
    SelectedAreDistinct(s, ranked, count);
    SortMembers(Finalists(s, |s.candidates|), Cheaper(s));
    hide Selected, Ranking, Sort, ParamsOf, Objective, SameConfiguration, SameButSeed, NoWorse, Represented;
    forall k | 0 <= k < |r|
      ensures IsFinalist(s, r[k])
    {
      assert r[k] in r;
    }
    forall j, k | 0 <= j < k < |r|
      ensures !SameButSeed(s.candidates[r[j]], s.candidates[r[k]])
    {
      assert r[j] in r && r[k] in r;
      ParamsAre(s, r[j], r[k]);
    }
    forall t | t in s.candidates && ValidCalibration(t)
      ensures CoveredBy(s.candidates, r, count, t)
    {
      var i: nat :| i < |s.candidates| && s.candidates[i] == t;
      FinalistsAreBest(s, count, i);
      RepresentedIsCovered(s, r, count, i);
    }
  }

  lemma RepresentedIsCovered(s: State, r: seq<nat>, count: nat, i: nat)
    requires i < |s.candidates| && s.candidates[i].score.Some? && Represented(s, r, count, i)
    requires forall k :: 0 <= k < |r| ==> r[k] < |s.candidates| && s.candidates[r[k]].score.Some?
    ensures CoveredBy(s.candidates, r, count, s.candidates[i])
  {
    forall k | 0 <= k < |r|
      ensures SameConfiguration(ParamsOf(s, r[k]), ParamsOf(s, i)) <==>
          SameButSeed(s.candidates[r[k]], s.candidates[i])
      ensures Objective(s, r[k]) <= Objective(s, i) <==> NoWorse(s.candidates[r[k]], s.candidates[i])
    {
      ParamsAre(s, r[k], i);
    }
    hide ParamsOf, Objective, SameConfiguration, SameButSeed, NoWorse;
  }

  /** The k-th validation candidate of d has the parameters of its finalist, with its seed. */
  ghost predicate ValidatedAt(cfg: Config, s: State, r: seq<nat>, d: State, k: nat)
    requires |cfg.seeds| >= 1
  {
    var i, j := k / |cfg.seeds|, k % |cfg.seeds|;
    && |s.candidates| + k < |d.candidates| && i < |r| && r[i] < |s.candidates|
    && d.candidates[|s.candidates| + k].params == s.candidates[r[i]].params.(seed := cfg.seeds[j])
  }

  lemma ParamsOfValidation(cfg: Config, s: State, s1: State, r: seq<nat>, k: nat)
    requires k < |r| * |cfg.seeds| && s1.candidates == s.candidates && forall i :: i in r ==> i < |s.candidates|
    ensures var i, j := k / |cfg.seeds|, k % |cfg.seeds|;
            i < |r| && r[i] < |s.candidates|
            && ValidationParams(cfg, s1, r, k) == s.candidates[r[i]].params.(seed := cfg.seeds[j])
  {
    IndexInRange(k, |r|, |cfg.seeds|);
    var i := k / |cfg.seeds|;
    assert r[i] in r;
  }

  lemma ValidationOne(cfg: Config, input: Input, s: State, s1: State, r: seq<nat>, n: nat, k: nat)
    requires |cfg.seeds| >= 1 && k < n <= |r| * |cfg.seeds| && s1.candidates == s.candidates
    requires forall i :: i in r ==> i < |s.candidates|
    ensures ValidatedAt(cfg, s, r, AddValidation(cfg, input, s1, r, n), k)
  {
    EverySeedOfEveryFinalist(cfg, input, s1, r, n, k);
    ParamsOfValidation(cfg, s, s1, r, k);
    hide AddValidation, ValidationParams;
  }

  /** One candidate for every finalist and every seed on top of s. */
  ghost predicate ValidatedAll(cfg: Config, s: State, r: seq<nat>, d: State)
    requires |cfg.seeds| >= 1
  {
    && |d.candidates| == |s.candidates| + |r| * |cfg.seeds| && s.candidates <= d.candidates
    && forall k: nat :: k < |r| * |cfg.seeds| ==> ValidatedAt(cfg, s, r, d, k)
  }

  lemma ValidationAll(cfg: Config, input: Input, s: State, s1: State, r: seq<nat>)
    requires |cfg.seeds| >= 1 && s1.candidates == s.candidates && forall i :: i in r ==> i < |s.candidates|
    ensures ValidatedAll(cfg, s, r, AddValidation(cfg, input, s1, r, |r| * |cfg.seeds|))
  {
    var n := |r| * |cfg.seeds|;
    var d := AddValidation(cfg, input, s1, r, n);
    ValidationGrows(cfg, input, s1, r, n);
    hide AddValidation, ValidatedAt;
    forall k: nat | k < n
      ensures ValidatedAt(cfg, s, r, d, k)
    {
      ValidationOne(cfg, input, s, s1, r, n, k);
    }
  }

  lemma SameValidated(cfg: Config, s: State, r: seq<nat>, d: State, e: State)
    requires |cfg.seeds| >= 1 && ValidatedAll(cfg, s, r, d) && d.candidates == e.candidates
    ensures ValidatedAll(cfg, s, r, e)
  {
    forall k: nat | k < |r| * |cfg.seeds|
      ensures ValidatedAt(cfg, s, r, e, k)
    {
      assert ValidatedAt(cfg, s, r, d, k);
    }
  }

  /** Four candidates to a batch, the last of which may have fewer. */
  ghost predicate InFours(ps: PhaseState) {
    4 * ps.batches >= |ps.ids| > 4 * (ps.batches - 1)
  }

  lemma CreateValidationIs(cfg: Config, input: Input, s: State)
    requires ValidConfig(cfg) && s.phases.validation.ids == []
    ensures var s1 := s.(phases := s.phases.(validation := s.phases.validation.(status := Active)));
            var r, d := Selected(s, Ranking(s), cfg.finalists), CreateValidation(cfg, input, s);
            && (d.Some? <==> |r| == cfg.finalists)
            && (d.Some? ==> d.value.candidates == AddValidation(cfg, input, s1, r, |r| * |cfg.seeds|).candidates
                            && InFours(d.value.phases.validation))
  {
    SelectedBounded(s, Ranking(s), cfg.finalists);
    hide Selected, Ranking, AddValidation;
  }

  /** The validation phase starts exactly when enough different configurations are valid, unless it
      has started before. It then has one candidate for every finalist and every seed, with the
      finalist's parameters but for the seed. */
  lemma ValidationIs(cfg: Config, input: Input, s: State) returns (r: seq<nat>)
    requires ValidConfig(cfg) && s.phases.validation.ids == []
    ensures WellSelected(s.candidates, r, cfg.finalists)
    ensures var d := CreateValidation(cfg, input, s);
            && (d.Some? <==> |r| == cfg.finalists)
            && (d.Some? ==> ValidatedAll(cfg, s, r, d.value) && InFours(d.value.phases.validation))
  {
    r := Selected(s, Ranking(s), cfg.finalists);
    SelectedAreWell(s, cfg.finalists);
    SelectedInRange(s.candidates, r, cfg.finalists);
    CreateValidationIs(cfg, input, s);
    var s1 := s.(phases := s.phases.(validation := s.phases.validation.(status := Active)));
    hide Selected, Ranking, AddValidation, WellSelected, ValidatedAll, CreateValidation;
    ValidationAll(cfg, input, s, s1, r);
    var d := CreateValidation(cfg, input, s);
    if d.Some? {
      SameValidated(cfg, s, r, AddValidation(cfg, input, s1, r, |r| * |cfg.seeds|), d.value);
    }
  }

  lemma SelectedInRange(candidates: seq<Candidate>, r: seq<nat>, count: nat)
    requires WellSelected(candidates, r, count)
    ensures forall i :: i in r ==> i < |candidates|
  {
  }
}
