/** What the scheduler's invariant means for a calibration study, and the one way in which a
    phase can stall. */
module SchedulerResults {
  import opened Wrappers
  import opened Sorting
  import opened SchedulerModel
  import opened SchedulerSafety

  /** On every run: at most four candidates in flight, attempts counted exactly, and bounded by the
      retry limit plus one and the number of manual retries. */
  lemma InFlightAndAttempts(cfg: Config, events: seq<Event>)
    requires ValidConfig(cfg) && HonestRun(cfg, events)
    ensures var w := Run(cfg, events);
            && ActiveCount(w.state.candidates) <= 4
            && forall t :: t in w.state.candidates ==>
                 && t.attempt == |t.previous| + (if t.status == Planned then 0 else 1)
                 && t.attempt <= Limit(cfg) + 1 + w.retries
  {
    RunKeeps(cfg, events);
    hide HonestRun, Run, Shaped, SettledDone, ActiveCount;
  }

  /** No phase ever exceeds its budget, and a completed study holds exactly the budget of every
      phase. Without manual retries every candidate is then done. */
  lemma BudgetsAreExact(cfg: Config, events: seq<Event>)
    requires ValidConfig(cfg) && HonestRun(cfg, events)
    ensures var w := Run(cfg, events);
            && (forall p :: |w.state.phases.Of(p).ids| <= Budget(cfg, p))
            && (w.state.current == Finished ==>
                  && (forall p :: |w.state.phases.Of(p).ids| == Budget(cfg, p))
                  && |w.state.candidates| ==
                      Budget(cfg, VolumeRouting) + Budget(cfg, Shape) + Budget(cfg, Joint) + Budget(cfg, Validation)
                  && (w.retries == 0 ==> forall p, k :: 0 <= k < |w.state.phases.Of(p).ids| ==>
                        w.state.phases.Of(p).ids[k] < |w.state.candidates|
                            && Done(cfg, w.state.candidates[w.state.phases.Of(p).ids[k]])))
  {
    RunKeeps(cfg, events);
    var w := Run(cfg, events);
    hide HonestRun, Run, Inv, Budget, Done;
    InvBudgets(cfg, w.state, w.server, w.retries);
    if w.state.current == Finished && w.retries == 0 {
      InvAllDone(cfg, w.state, w.server);
    }
  }

  lemma InvBudgets(cfg: Config, s: State, server: map<string, Status>, retries: nat)
    requires Inv(cfg, s, server, retries)
    ensures forall p :: |s.phases.Of(p).ids| <= Budget(cfg, p)
    ensures s.current == Finished ==>
              && (forall p :: |s.phases.Of(p).ids| == Budget(cfg, p))
              && |s.candidates| ==
                  Budget(cfg, VolumeRouting) + Budget(cfg, Shape) + Budget(cfg, Joint) + Budget(cfg, Validation)
  {
    hide AllOK, ActiveCount, Budget, Listed, SettledDone;
    forall p
      ensures |s.phases.Of(p).ids| <= Budget(cfg, p)
      ensures s.current == Finished ==> |s.phases.Of(p).ids| == Budget(cfg, p)
    {
      assert InBudget(cfg, s.current, p, s.phases.Of(p));
    }
    hide InBudget;
    TotalOf(s.phases);
  }

  lemma InvAllDone(cfg: Config, s: State, server: map<string, Status>)
    requires Inv(cfg, s, server, 0) && s.current == Finished
    ensures forall p, k :: 0 <= k < |s.phases.Of(p).ids| ==>
              s.phases.Of(p).ids[k] < |s.candidates| && Done(cfg, s.candidates[s.phases.Of(p).ids[k]])
  {
    hide AllOK, ActiveCount, Shaped, Done;
    forall p, k | 0 <= k < |s.phases.Of(p).ids|
      ensures s.phases.Of(p).ids[k] < |s.candidates| && Done(cfg, s.candidates[s.phases.Of(p).ids[k]])
    {
      assert SettledDone(cfg, s, p) && Settled(cfg, s, p) == |s.phases.Of(p).ids|;
    }
  }

  /** Without manual retries, beyond the initial design only the newest batch of the current
      phase can still be planned or in flight. */
  lemma OnlyNewestBatchRuns(cfg: Config, events: seq<Event>, p: Phase, k: nat)
    requires ValidConfig(cfg) && HonestRun(cfg, events) && Run(cfg, events).retries == 0 && p != Validation
    requires var ids := Run(cfg, events).state.phases.Of(p).ids; |ids| > cfg.initial(p) && k < |ids| - BATCH
    ensures var s := Run(cfg, events).state;
            s.phases.Of(p).ids[k] < |s.candidates| && Done(cfg, s.candidates[s.phases.Of(p).ids[k]])
  {
    RunKeeps(cfg, events);
    hide HonestRun, Run, AllOK, ActiveCount, Shaped, Done;
    assert SettledDone(cfg, Run(cfg, events).state, p);
  }

  /** No event touches a valid candidate; between manual retries a candidate that is done stays done. */
  lemma {:induction false} ValidIsForever(cfg: Config, events: seq<Event>, n: nat)
    requires ValidConfig(cfg) && HonestRun(cfg, events) && n <= |events|
    ensures ValidKept(Run(cfg, events[..n]).state.candidates, Run(cfg, events).state.candidates)
    ensures (forall k :: n <= k < |events| ==> !events[k].retry)
              ==> DoneKept(cfg, Run(cfg, events[..n]).state.candidates, Run(cfg, events).state.candidates)
    decreases |events|
  {
    hide Poll, Inv, Done, RetryAll, Honest, ValidConfig;
    if n == |events| {
      assert events[..n] == events;
    } else {
      var front, e := events[..|events| - 1], events[|events| - 1];
      ValidIsForever(cfg, front, n);
      assert front[..n] == events[..n];
      RunKeeps(cfg, front);
      var w := Run(cfg, front);
      PollKeeps(cfg, w.state, w.server, e, w.retries);
      if e.retry {
        RetryAllKeeps(cfg, Poll(cfg, w.state, e.input, e.at), e.server, w.retries);
      }
    }
  }

  // ---- an adaptive batch waits ----

  /** A poll adds candidates beyond the initial design only when every earlier candidate of the phase is
      terminal. */
  lemma AdaptiveBatchWaits(cfg: Config, s: State, input: Input, p: Phase)
    requires ValidConfig(cfg) && p != Validation && cfg.initial(p) <= |s.phases.Of(p).ids|
    requires s.current == In(p) && Prepared(cfg, Fetched(cfg, s, input), input, p).Some?
    ensures var fetched := Fetched(cfg, s, input);
            var d := Prepared(cfg, fetched, input, p).value;
            |d.phases.Of(p).ids| > |s.phases.Of(p).ids| ==> PhaseFinished(fetched, p)
  {
    var fetched := Fetched(cfg, s, input);
    var active := Activate(fetched, p).value;
    assert active.candidates == fetched.candidates && active.phases.Of(p).ids == fetched.phases.Of(p).ids;
    assert Filled(cfg, input, active, p, cfg.initial(p)) == active;
  }

  // ---- who is submitted, and who is validated ----

  lemma EarliestOrders(s: State, ids: seq<nat>)
    ensures Ordering(ids, Earliest(s))
  {
    forall a, b, c | a in ids && b in ids && c in ids
      ensures !Earliest(s)(a, b) && !Earliest(s)(b, c) ==> !Earliest(s)(a, c)
      ensures Earliest(s)(a, b) ==> !Earliest(s)(b, a)
    {
      StringOrder(NameOf(s, a), NameOf(s, b), NameOf(s, c));
    }
  }

  lemma {:induction false} PlannedSorted(s: State, ids: seq<nat>)
    requires Sorted(ids, Earliest(s))
    ensures Sorted(OnlyPlanned(s, ids), Earliest(s))
    decreases |ids|
  {
    hide Earliest;
    if ids != [] {
      var front, last := ids[..|ids| - 1], ids[|ids| - 1];
      PlannedSorted(s, front);
      forall i | i in OnlyPlanned(s, front)
        ensures !Earliest(s)(last, i)
      {
        assert i in front;
        var k :| 0 <= k < |front| && front[k] == i;
        assert ids[k] == i;
      }
    }
  }

  /** Candidate i is not behind candidate j. */
  ghost predicate NotBehind(s: State, i: nat, j: nat)
    requires i < |s.candidates| && j < |s.candidates|
  {
    && s.candidates[i].batch <= s.candidates[j].batch
    && (s.candidates[i].batch == s.candidates[j].batch ==> !StringBefore(s.candidates[j].id, s.candidates[i].id))
  }

  /** Earlier batches go first, and within a batch smaller identifiers: a planned candidate is
      passed over only for candidates that are not behind it, and only when every free slot is
      taken. */
  lemma EarliestGoFirst(s: State, p: Phase, j: nat)
    requires j in s.phases.Of(p).ids && j < |s.candidates| && s.candidates[j].status == Planned && j !in Chosen(s, p)
    ensures |Chosen(s, p)| + ActiveCount(s.candidates) >= 4
    ensures forall i :: i in Chosen(s, p) ==>
              i < |s.candidates| && NotBehind(s, i, j)
  {
    var ids := s.phases.Of(p).ids;
    var sorted := Sort(ids, Earliest(s));
    EarliestOrders(s, ids);
    SortSorts(ids, Earliest(s));
    SortMembers(ids, Earliest(s));
    hide Sort, Earliest;
    PlannedSorted(s, sorted);
    var planned, n := OnlyPlanned(s, sorted), Slots(s.candidates);
    assert j in planned;
    var b :| 0 <= b < |planned| && planned[b] == j;
    assert |planned| > n && Chosen(s, p) == planned[..n];
    PrefixHolds(planned, n);
    assert b >= n;
    forall i | i in Chosen(s, p)
      ensures i < |s.candidates| && NotBehind(s, i, j)
    {
      var a :| 0 <= a < n && planned[a] == i;
      assert i in planned;
      EarliestIs(s, i, j);
    }
  }

  lemma EarliestIs(s: State, i: nat, j: nat)
    requires i < |s.candidates| && j < |s.candidates|
    ensures !Earliest(s)(j, i) <==> NotBehind(s, i, j)
  {
    assert BatchOf(s, i) == s.candidates[i].batch && BatchOf(s, j) == s.candidates[j].batch;
    assert NameOf(s, i) == s.candidates[i].id && NameOf(s, j) == s.candidates[j].id;
    hide StringBefore;
  }

  lemma PrefixHolds(s: seq<nat>, n: nat)
    requires n <= |s|
    ensures forall k :: 0 <= k < n ==> s[k] in s[..n]
  {
    assert forall k :: 0 <= k < n ==> s[..n][k] == s[k];
  }

  ghost predicate DifferentConfigurations(s: State, r: seq<nat>) {
    forall j, k :: 0 <= j < k < |r| ==> !SameConfiguration(ParamsOf(s, r[j]), ParamsOf(s, r[k]))
  }

  /** The finalists are among the ranked ones, with pairwise different configurations. */
  lemma {:induction false} SelectedAreDistinct(s: State, ranked: seq<nat>, count: nat)
    ensures DifferentConfigurations(s, Selected(s, ranked, count))
        && forall i :: i in Selected(s, ranked, count) ==> i in ranked
    decreases |ranked|
  {
    hide ParamsOf;
    if ranked != [] {
      var front, last := ranked[..|ranked| - 1], ranked[|ranked| - 1];
      assert ranked == front + [last];
      SelectedAreDistinct(s, front, count);
      var before := Selected(s, front, count);
      if Selected(s, ranked, count) != before {
        assert Selected(s, ranked, count) == before + [last];
        OneMoreConfiguration(s, before, last);
      }
    }
  }

  lemma OneMoreConfiguration(s: State, r: seq<nat>, i: nat)
    requires DifferentConfigurations(s, r)
        && forall k :: 0 <= k < |r| ==> !SameConfiguration(ParamsOf(s, r[k]), ParamsOf(s, i))
    ensures DifferentConfigurations(s, r + [i])
  {
    hide ParamsOf;
  }

  /** i is represented by a finalist that is at least as good, or all places went to
      finalists that are. */
  ghost predicate Represented(s: State, r: seq<nat>, count: nat, i: nat) {
    || (exists k ::
        0 <= k < |r| && SameConfiguration(ParamsOf(s, r[k]), ParamsOf(s, i)) && Objective(s, r[k]) <= Objective(s, i))
    || (|r| >= count && forall k :: 0 <= k < |r| ==> Objective(s, r[k]) <= Objective(s, i))
  }

  lemma {:induction false} SelectedAreBest(s: State, ranked: seq<nat>, count: nat, m: nat)
    requires count >= 1 && m < |ranked|
        && forall i, j :: 0 <= i < j < |ranked| ==> Objective(s, ranked[i]) <= Objective(s, ranked[j])
    ensures Represented(s, Selected(s, ranked, count), count, ranked[m])
    decreases |ranked|
  {
    hide ParamsOf, Objective;
    var front, last := ranked[..|ranked| - 1], ranked[|ranked| - 1];
    var before, r := Selected(s, front, count), Selected(s, ranked, count);
    SelectedAreDistinct(s, front, count);
    forall k | 0 <= k < |before|
      ensures Objective(s, before[k]) <= Objective(s, last)
    {
      assert before[k] in front;
      var j :| 0 <= j < |front| && front[j] == before[k];
      assert ranked[j] == before[k];
    }
    if m < |front| {
      SelectedAreBest(s, front, count, m);
      assert front[m] == ranked[m];
      FinalistsGrow(s, before, r, count, ranked[m], last);
    } else if r != before {
      assert r[|before|] == last;
    }
  }

  /** One more finalist takes nothing away. */
  lemma FinalistsGrow(s: State, before: seq<nat>, r: seq<nat>, count: nat, i: nat, last: nat)
    requires Represented(s, before, count, i) && (r == before || (r == before + [last] && |before| < count))
    ensures Represented(s, r, count, i)
  {
    hide ParamsOf, Objective, SameConfiguration;
    if k :| && r != before && 0 <= k < |before|
            && SameConfiguration(ParamsOf(s, before[k]), ParamsOf(s, i))
            && Objective(s, before[k]) <= Objective(s, i) {
      assert r[k] == before[k];
    }
  }

  /** Every valid calibration candidate is represented: a finalist with its configuration is
      at least as good, or all places went to finalists that are. */
  lemma FinalistsAreBest(s: State, count: nat, i: nat)
    requires count >= 1 && IsFinalist(s, i)
    ensures Represented(s, Selected(s, Ranking(s), count), count, i)
  {
    var valid := Finalists(s, |s.candidates|);
    assert Ordering(valid, Cheaper(s));
    SortSorts(valid, Cheaper(s));
    SortMembers(valid, Cheaper(s));
    assert i in Ranking(s);
    var m :| 0 <= m < |Ranking(s)| && Ranking(s)[m] == i;
    hide Ranking, Selected, Sort;
    SelectedAreBest(s, Ranking(s), count, m);
  }

  lemma ValidationGrows(cfg: Config, input: Input, s: State, selected: seq<nat>, n: nat)
    requires n <= |selected| * |cfg.seeds|
    ensures var d := AddValidation(cfg, input, s, selected, n);
            |d.candidates| == |s.candidates| + n && s.candidates <= d.candidates
  {
    var batches: nat -> nat := j => BatchNumber(j);
    AddValidationExtends(cfg, input, s, selected, n, batches);
    hide AddValidation, ActiveCount, IsNew;
  }

  lemma SameValidationParams(cfg: Config, s: State, t: State, selected: seq<nat>, k: nat)
    requires k < |selected| * |cfg.seeds| && s.candidates <= t.candidates
        && forall i :: i in selected ==> i < |s.candidates|
    ensures ValidationParams(cfg, t, selected, k) == ValidationParams(cfg, s, selected, k)
  {
    IndexInRange(k, |selected|, |cfg.seeds|);
    assert selected[k / |cfg.seeds|] in selected;
  }

  /** Every finalist is run with every seed: the k-th validation candidate has the parameters
      of finalist k / |seeds| and the seed k % |seeds|. */
  lemma {:induction false} EverySeedOfEveryFinalist(cfg: Config, input: Input, s: State, selected: seq<nat>, n: nat,
                                                    k: nat)
    requires k < n <= |selected| * |cfg.seeds| && forall i :: i in selected ==> i < |s.candidates|
    ensures var d := AddValidation(cfg, input, s, selected, n);
            && |d.candidates| == |s.candidates| + n && s.candidates <= d.candidates
            && d.candidates[|s.candidates| + k].params == ValidationParams(cfg, s, selected, k)
    decreases n
  {
    hide AddValidation, ValidationParams;
    var before := AddValidation(cfg, input, s, selected, n - 1);
    ValidationGrows(cfg, input, s, selected, n);
    ValidationGrows(cfg, input, s, selected, n - 1);
    AddValidationStep(cfg, input, s, selected, n);
    if k < n - 1 {
      EverySeedOfEveryFinalist(cfg, input, s, selected, n - 1, k);
    } else {
      SameValidationParams(cfg, s, before, selected, k);
    }
  }

  // ---- a phase that stalls ----

  /** An invalid candidate goes back to completed when its run is listed. It counts as finished
      again exactly when it has no score and the analytics answer or have been asked too often. */
  lemma InvalidReturns(cfg: Config, listing: map<string, Status>, answer: Answer, t: Candidate)
    requires t.status == Invalid && t.attempt as int > cfg.retryLimit
    requires t.run.Some? && t.run.value in listing && listing[t.run.value] == Completed
    ensures var u := CollectOne(cfg, answer, ReconcileOne(listing, t));
            IsTerminal(u) <==> t.score.None? && (answer.Scored? || t.analyticsAttempts + 1 >= cfg.maxAnalytics)
  {
  }

  /** The candidate was scored, and its run is over. */
  ghost predicate Stuck(t: Candidate, run: string) {
    (t.status == Invalid || t.status == Completed) && t.score.Some? && t.run == Some(run)
  }

  ghost predicate StuckAt(s: State, p: Phase, k: nat, run: string) {
    s.current == In(p) && k < |s.phases.Of(p).ids| && s.phases.Of(p).ids[k] < |s.candidates|
        && Stuck(s.candidates[s.phases.Of(p).ids[k]], run)
  }

  lemma FetchedStuck(cfg: Config, s: State, input: Input, p: Phase, k: nat, run: string)
    requires StuckAt(s, p, k, run) && run in input.listing && input.listing[run] == Completed
    ensures var d := Fetched(cfg, s, input);
            StuckAt(d, p, k, run) && d.candidates[d.phases.Of(p).ids[k]].status == Completed && d.phases == s.phases
  {
    var i := s.phases.Of(p).ids[k];
    assert Fetched(cfg, s, input).candidates[i] ==
        CollectOne(cfg, input.answers(i), ReconcileOne(input.listing, s.candidates[i]));
  }

  /** The state only gains candidates. */
  ghost predicate Gains(s: State, d: State, p: Phase) {
    d.current == s.current && s.candidates <= d.candidates && s.phases.Of(p).ids <= d.phases.Of(p).ids
  }

  lemma CreateBatchGains(cfg: Config, input: Input, s: State, p: Phase)
    ensures Gains(s, CreateBatch(cfg, input, s, p), p)
  {
    var n, batch := BatchSize(cfg, s, p), s.phases.Of(p).batches + 1;
    var batches: nat -> nat := k => batch;
    AddBatchExtends(input, s, p, batch, n, batches);
    hide AddBatch, ActiveCount, IsNew;
  }

  lemma {:induction false} FilledGains(cfg: Config, input: Input, s: State, p: Phase, m: nat)
    ensures Gains(s, Filled(cfg, input, s, p, m), p)
    decreases m
  {
    hide CreateBatch;
    if m != 0 && |s.phases.Of(p).ids| < cfg.initial(p) {
      CreateBatchGains(cfg, input, s, p);
      FilledGains(cfg, input, CreateBatch(cfg, input, s, p), p, m - 1);
    }
  }

  lemma PreparedGains(cfg: Config, s: State, input: Input, p: Phase)
    ensures Prepared(cfg, s, input, p).Some? && (p == Validation ==> s.phases.validation.ids != [])
        ==> Gains(s, Prepared(cfg, s, input, p).value, p)
  {
    if p != Validation && Activate(s, p).Some? {
      var active := Activate(s, p).value;
      var filled := Filled(cfg, input, active, p, cfg.initial(p));
      FilledGains(cfg, input, active, p, cfg.initial(p));
      CreateBatchGains(cfg, input, filled, p);
      hide Filled, CreateBatch, HasValid, WantsAdaptive;
    }
  }

  lemma {:induction false} SubmittedLeaves(input: Input, candidates: seq<Candidate>, chosen: seq<nat>, n: nat, i: nat)
    requires n <= |chosen| && i < |candidates| && i !in chosen
    ensures Submitted(input, candidates, chosen, n)[i] == candidates[i]
  {
    if n > 0 {
      SubmittedLeaves(input, candidates, chosen, n - 1, i);
    }
  }

  /** Only planned candidates are submitted. */
  lemma StillThere(s: State, input: Input, p: Phase, n: nat, i: nat)
    requires i < |s.candidates| && s.candidates[i].status != Planned
    ensures var d := Sent(s, input, p, n);
            d.candidates[i] == s.candidates[i] && d.phases == s.phases && d.current == s.current
                && |d.candidates| == |s.candidates|
  {
    var chosen := Chosen(s, p);
    assert i !in chosen;
    hide Chosen;
    SubmittedLeaves(input, s.candidates, chosen, if n <= |chosen| then n else |chosen|, i);
  }

  lemma NeverReady(cfg: Config, s: State, p: Phase, k: nat)
    requires k < |s.phases.Of(p).ids| && s.phases.Of(p).ids[k] < |s.candidates|
        && !IsTerminal(s.candidates[s.phases.Of(p).ids[k]])
    ensures AdvanceIfReady(cfg, s, p) == s
  {
    hide IsTerminal;
    assert !PhaseFinished(s, p);
  }

  /** A completed candidate of the current phase that has its score already. */
  ghost predicate Frozen(s: State, p: Phase, k: nat) {
    && s.current == In(p) && k < |s.phases.Of(p).ids| && s.phases.Of(p).ids[k] < |s.candidates|
    && s.candidates[s.phases.Of(p).ids[k]].status == Completed && s.candidates[s.phases.Of(p).ids[k]].score.Some?
  }

  /** A whole poll that lists the run of a scored invalid candidate freezes it. */
  lemma InvalidFreezes(cfg: Config, s: State, input: Input, p: Phase, k: nat, run: string)
    requires StuckAt(s, p, k, run) && run in input.listing && input.listing[run] == Completed
    ensures Frozen(Poll(cfg, s, input, Whole), p, k) || Prepared(cfg, Fetched(cfg, s, input), input, p).None?
  {
    var fetched := Fetched(cfg, s, input);
    FetchedStuck(cfg, s, input, p, k, run);
    assert Frozen(fetched, p, k);
    WholeIs(cfg, s, input, p);
    hide Poll, Fetched, StuckAt;
    if Prepared(cfg, fetched, input, p).Some? {
      FrozenWhole(cfg, fetched, input, p, k, SLOTS);
    }
  }

  /** Neither creating nor submitting candidates changes a frozen one, and the phase does not end. */
  lemma FrozenWhole(cfg: Config, s: State, input: Input, p: Phase, k: nat, n: nat)
    requires Frozen(s, p, k) && Prepared(cfg, s, input, p).Some?
    ensures var d := Sent(Prepared(cfg, s, input, p).value, input, p, n);
            Frozen(d, p, k) && AdvanceIfReady(cfg, d, p) == d
  {
    PreparedGains(cfg, s, input, p);
    var d := Prepared(cfg, s, input, p).value;
    var i := s.phases.Of(p).ids[k];
    assert p == Validation ==> s.phases.validation.ids != [];
    hide Prepared, Sent, AdvanceIfReady;
    StillThere(d, input, p, n, i);
    NeverReady(cfg, Sent(d, input, p, n), p, k);
  }

  /** Its run is over on the server, so fetching leaves it as it is. */
  lemma FetchLeaves(cfg: Config, candidates: seq<Candidate>, input: Input, m: nat, n: nat, i: nat)
    requires m <= |candidates| && n <= |candidates| && i < |candidates|
    requires candidates[i].status == Completed && candidates[i].score.Some?
    requires candidates[i].run.Some? && candidates[i].run.value in input.listing ==>
        input.listing[candidates[i].run.value] == Completed
    ensures Reconciled(input.listing, candidates, m)[i] == candidates[i]
    ensures Collected(cfg, input.answers, Reconciled(input.listing, candidates, m), n)[i] == candidates[i]
  {
    var reconciled := Reconciled(input.listing, candidates, m);
    assert Collected(cfg, input.answers, reconciled, n)[i]
        == if i < n then CollectOne(cfg, input.answers(i), reconciled[i]) else reconciled[i];
  }

  lemma FrozenCreating(cfg: Config, s: State, input: Input, p: Phase, k: nat, m: nat)
    requires Frozen(s, p, k) && Frozen(Fetched(cfg, s, input), p, k)
    ensures Frozen(Poll(cfg, s, input, Creating(m)), p, k)
  {
    var fetched := Fetched(cfg, s, input);
    hide Fetched, Filled, HasValid;
    if p != Validation && Activate(fetched, p).Some? {
      FilledGains(cfg, input, Activate(fetched, p).value, p, m);
    }
  }

  /** Wherever a poll stops, a frozen candidate stays frozen. */
  lemma FrozenPoll(cfg: Config, s: State, input: Input, at: Point, p: Phase, k: nat)
    requires Frozen(s, p, k)
    requires var t := s.candidates[s.phases.Of(p).ids[k]];
             t.run.Some? && t.run.value in input.listing ==> input.listing[t.run.value] == Completed
    ensures Frozen(Poll(cfg, s, input, at), p, k)
  {
    var i, all, fetched := s.phases.Of(p).ids[k], |s.candidates|, Fetched(cfg, s, input);
    FetchLeaves(cfg, s.candidates, input, all, all, i);
    assert Frozen(fetched, p, k);
    hide Fetched, Prepared, Sent, Filled, AdvanceIfReady, Activate, Reconciled, Collected;
    match at
    case Before =>
    case Reconciling(n) => FetchLeaves(cfg, s.candidates, input, if n <= all then n else all, 0, i);
    case Collecting(n) => FetchLeaves(cfg, s.candidates, input, all, if n <= all then n else all, i);
    case Creating(m) => FrozenCreating(cfg, s, input, p, k, m);
    case Submitting(n) =>
      if Prepared(cfg, fetched, input, p).Some? {
        FrozenWhole(cfg, fetched, input, p, k, n);
      }
    case Whole =>
      WholeIs(cfg, s, input, p);
      if Prepared(cfg, fetched, input, p).Some? {
        FrozenWhole(cfg, fetched, input, p, k, SLOTS);
      }
  }

  /** Nor does a manual retry help: it resets failed and invalid candidates only. */
  lemma FrozenHappens(cfg: Config, w: World, e: Event, p: Phase, k: nat)
    requires Frozen(w.state, p, k) && Honest(w.server, e) && AllOK(cfg, w.server, w.retries, w.state.candidates)
    ensures Frozen(Happens(cfg, w, e).state, p, k)
  {
    var t := w.state.candidates[w.state.phases.Of(p).ids[k]];
    assert CandidateOK(cfg, w.server, w.retries, t);
    FrozenPoll(cfg, w.state, e.input, e.at, p, k);
    hide Poll;
    var d := Poll(cfg, w.state, e.input, e.at);
    assert forall i ::
        0 <= i < |d.candidates| && d.candidates[i].status == Completed ==> RetryAll(d.candidates)[i] == d.candidates[i];
  }

  /** A frozen candidate stalls its phase for good: whatever polls, interrupts, unlisted runs and
      manual retries follow, it stays as it is and the phase never ends. */
  lemma {:induction false} StuckForever(cfg: Config, before: seq<Event>, more: seq<Event>, p: Phase, k: nat)
    requires ValidConfig(cfg) && HonestRun(cfg, before + more) && Frozen(Run(cfg, before).state, p, k)
    ensures Frozen(Run(cfg, before + more).state, p, k)
    decreases |more|
  {
    hide Frozen, Happens, Honest, Inv;
    if more == [] {
      assert before + more == before;
    } else {
      var front, last := more[..|more| - 1], more[|more| - 1];
      assert (before + more)[..|before + more| - 1] == before + front;
      StuckForever(cfg, before, front, p, k);
      RunKeeps(cfg, before + front);
      var w := Run(cfg, before + front);
      InvOK(cfg, w);
      FrozenHappens(cfg, w, last, p, k);
    }
  }

  lemma InvOK(cfg: Config, w: World)
    requires Inv(cfg, w.state, w.server, w.retries)
    ensures AllOK(cfg, w.server, w.retries, w.state.candidates)
  {
  }
}
