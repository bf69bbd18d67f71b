/** No two calibration candidates of a study ever have the same parameters
    (vehicle_calibration/calibrate.py). */
module SchedulerParams {
  import opened Wrappers
  import opened SchedulerModel
  import opened SchedulerSafety
  import Parameters

  /** No two calibration candidates have equal parameters. */
  ghost predicate Apart(candidates: seq<Candidate>) {
    forall i, j :: 0 <= i < j < |candidates| && candidates[i].phase != Validation && candidates[j].phase != Validation
                   ==> candidates[i].params != candidates[j].params
  }

  /** Candidates keep phase and parameters; new calibration candidates have those of the input. */
  ghost predicate Adds(before: seq<Candidate>, after: seq<Candidate>, input: Input) {
    && |before| <= |after|
    && (forall i :: 0 <= i < |before| ==> after[i].phase == before[i].phase && after[i].params == before[i].params)
    && (forall i :: |before| <= i < |after| ==> after[i].phase == Validation || after[i].params == input.params(i))
  }

  /** No new calibration candidates. */
  ghost predicate Keeps(before: seq<Candidate>, after: seq<Candidate>) {
    && |before| <= |after|
    && (forall i :: 0 <= i < |before| ==> after[i].phase == before[i].phase && after[i].params == before[i].params)
    && (forall i :: |before| <= i < |after| ==> after[i].phase == Validation)
  }

  lemma KeepsApart(before: seq<Candidate>, after: seq<Candidate>)
    requires Apart(before) && Keeps(before, after)
    ensures Apart(after)
  {
  }

  // ---- what does not create calibration candidates ----

  lemma FetchedKeeps(cfg: Config, candidates: seq<Candidate>, input: Input, m: nat, n: nat)
    requires m <= |candidates| && n <= |candidates|
    ensures Keeps(candidates, Collected(cfg, input.answers, Reconciled(input.listing, candidates, m), n))
    ensures Keeps(candidates, Reconciled(input.listing, candidates, m))
  {
    var reconciled := Reconciled(input.listing, candidates, m);
    forall i | 0 <= i < |candidates|
      ensures reconciled[i].phase == candidates[i].phase && reconciled[i].params == candidates[i].params
    {
    }
    var collected := Collected(cfg, input.answers, reconciled, n);
    forall i | 0 <= i < |candidates|
      ensures collected[i].phase == reconciled[i].phase && collected[i].params == reconciled[i].params
    {
      assert collected[i] == if i < n then CollectOne(cfg, input.answers(i), reconciled[i]) else reconciled[i];
    }
  }

  lemma {:induction false} AddValidationKeeps(cfg: Config, input: Input, s: State, selected: seq<nat>, n: nat)
    requires n <= |selected| * |cfg.seeds|
    ensures Keeps(s.candidates, AddValidation(cfg, input, s, selected, n).candidates)
  {
    hide ValidationParams;
    if n > 0 {
      AddValidationKeeps(cfg, input, s, selected, n - 1);
    }
  }

  lemma ValidationKeeps(cfg: Config, s: State, input: Input)
    ensures var d := CreateValidation(cfg, input, s); d.Some? ==> Keeps(s.candidates, d.value.candidates)
  {
    var d := CreateValidation(cfg, input, s);
    var ps := s.phases.validation;
    hide Ranking, Selected, AddValidation;
    if d.Some? && ps.ids == [] {
      var selected := Selected(s, Ranking(s), cfg.finalists);
      var active := s.(phases := s.phases.(validation := ps.(status := Active)));
      AddValidationKeeps(cfg, input, active, selected, |selected| * |cfg.seeds|);
    }
  }

  lemma {:induction false} SubmittedKeeps(input: Input, candidates: seq<Candidate>, chosen: seq<nat>, n: nat)
    requires n <= |chosen|
    ensures Keeps(candidates, Submitted(input, candidates, chosen, n))
  {
    if n > 0 {
      SubmittedKeeps(input, candidates, chosen, n - 1);
    }
  }

  lemma SentKeeps(s: State, input: Input, p: Phase, n: nat)
    ensures Keeps(s.candidates, Sent(s, input, p, n).candidates)
  {
    var chosen := Chosen(s, p);
    hide Chosen, Submitted;
    SubmittedKeeps(input, s.candidates, chosen, if n <= |chosen| then n else |chosen|);
  }

  lemma RetryAllKeeps(candidates: seq<Candidate>)
    ensures Keeps(candidates, RetryAll(candidates))
  {
    var r := RetryAll(candidates);
    assert forall i :: 0 <= i < |r| ==> r[i].phase == candidates[i].phase && r[i].params == candidates[i].params;
  }

  // ---- one batch ----

  /** What the generator of parameters gives for a batch, and how the pool's entries score. */
  datatype Draw = Draw(generated: seq<Parameters.Params>, score: (seq<nat>, nat) -> real)

  /** The search space, and what is drawn in each poll on top of any number of candidates; lo, hi and
      t are its peak bounds and peak sum in steps. */
  datatype Study = Study(search: Parameters.Search, poolSize: nat, draws: (nat, nat) -> Draw, lo: int, hi: int, t: int)

  /** Rounding to the search space is stable, and generated parameters are canonical. */
  ghost predicate Stepped(o: Study) {
    && Parameters.SteppedSearch(o.search, o.lo, o.hi, o.t)
    && forall turn, n, p :: p in o.draws(turn, n).generated ==> Parameters.IsCanonical(o.search, p)
  }

  function SeenBy(candidates: seq<Candidate>): (seen: set<Parameters.Params>)
    ensures forall i :: 0 <= i < |candidates| ==> candidates[i].params in seen
  {
    set c | c in candidates :: c.params
  }

  /** The batch drawn in this poll on top of so many candidates. */
  function DrawnBatch(o: Study, turn: nat, seen: set<Parameters.Params>, count: nat,
                      n: nat): Option<seq<Parameters.Params>>
    requires 0 < o.search.countMinimum <= o.search.countMaximum
  {
    var d := o.draws(turn, count);
    Parameters.Drawn(o.search, seen, d.generated, o.poolSize, n, d.score)
  }

  /** The parameters given for the next n candidates are those of a batch: selected from a pool
      that excludes the parameters of all candidates so far. */
  ghost predicate BatchDrawn(o: Study, turn: nat, candidates: seq<Candidate>, input: Input, n: nat)
    requires Stepped(o)
  {
    var drawn := DrawnBatch(o, turn, SeenBy(candidates), |candidates|, n);
    drawn.Some? && |drawn.value| == n && forall k :: 0 <= k < n ==> drawn.value[k] == input.params(|candidates| + k)
  }

  /** The parameters given for candidates up to n are new. */
  ghost predicate Unseen(candidates: seq<Candidate>, input: Input, n: nat) {
    forall j: nat, k: nat :: j < k && |candidates| <= k < n ==>
      if j < |candidates| then candidates[j].params != input.params(k) else input.params(j) != input.params(k)
  }

  /** The parameters of a batch are new: the pool leaves out what has been seen, the selection
      takes no entry twice, and storing changes none of them. */
  lemma DrawnIsUnseen(o: Study, turn: nat, candidates: seq<Candidate>, input: Input, n: nat)
    requires Stepped(o) && BatchDrawn(o, turn, candidates, input, n)
    ensures Unseen(candidates, input, |candidates| + n)
  {
    hide Stepped, Unseen, SeenBy, DrawnBatch, Parameters.Distinct, Parameters.SteppedSearch, Parameters.IsCanonical;
    GeneratedCanonical(o, turn, |candidates|);
    var seen := SeenBy(candidates);
    DrawnBatchIsNew(o, turn, seen, |candidates|, n);
    var drawn := DrawnBatch(o, turn, seen, |candidates|, n).value;
    assert forall k :: 0 <= k < |drawn| ==> drawn[k] == input.params(|candidates| + k);
    NewIsUnseen(candidates, seen, drawn, input);
  }

  lemma DrawnBatchIsNew(o: Study, turn: nat, seen: set<Parameters.Params>, count: nat, n: nat)
    requires Stepped(o) && 0 < o.search.countMinimum <= o.search.countMaximum
    ensures var r := DrawnBatch(o, turn, seen, count, n);
            r.Some? ==>
              && |r.value| == n && Parameters.Distinct(r.value)
              && forall k :: 0 <= k < |r.value| ==> r.value[k] !in seen
  {
    GeneratedCanonical(o, turn, count);
    hide Stepped, Parameters.Drawn, Parameters.Distinct, Parameters.SteppedSearch, Parameters.IsCanonical;
    if DrawnBatch(o, turn, seen, count, n).Some? {
      var d := o.draws(turn, count);
      Parameters.DrawnIsNew(o.search, seen, d.generated, o.poolSize, n, d.score, o.lo, o.hi, o.t);
    }
  }

  lemma GeneratedCanonical(o: Study, turn: nat, n: nat)
    requires Stepped(o)
    ensures 0 < o.search.countMinimum <= o.search.countMaximum && Parameters.SteppedSearch(o.search, o.lo, o.hi, o.t)
    ensures forall p :: p in o.draws(turn, n).generated ==> Parameters.IsCanonical(o.search, p)
  {
    hide Parameters.IsCanonical;
  }

  lemma NewIsUnseen(candidates: seq<Candidate>, seen: set<Parameters.Params>, drawn: seq<Parameters.Params>,
                    input: Input)
    requires forall i :: 0 <= i < |candidates| ==> candidates[i].params in seen
    requires Parameters.Distinct(drawn) && forall k :: 0 <= k < |drawn| ==> drawn[k] !in seen
    requires forall k :: 0 <= k < |drawn| ==> drawn[k] == input.params(|candidates| + k)
    ensures Unseen(candidates, input, |candidates| + |drawn|)
  {
    forall j: nat, k: nat | j < k && |candidates| <= k < |candidates| + |drawn|
      ensures if j < |candidates| then candidates[j].params != input.params(k) else input.params(j) != input.params(k)
    {
      assert drawn[k - |candidates|] == input.params(|candidates| + (k - |candidates|));
      if j >= |candidates| {
        assert drawn[j - |candidates|] == input.params(|candidates| + (j - |candidates|));
      }
    }
  }

  lemma AddsApart(before: seq<Candidate>, after: seq<Candidate>, input: Input)
    requires Apart(before) && Adds(before, after, input) && Unseen(before, input, |after|)
    ensures Apart(after)
  {
    forall i: nat, j: nat | i < j < |after| && after[i].phase != Validation && after[j].phase != Validation
      ensures after[i].params != after[j].params
    {
      if j >= |before| {
        assert after[j].params == input.params(j);
        assert i >= |before| ==> after[i].params == input.params(i);
      }
    }
  }

  lemma {:induction false} AddBatchAdds(input: Input, s: State, p: Phase, batch: nat, n: nat)
    ensures Adds(s.candidates, AddBatch(input, s, p, batch, n).candidates, input)
    ensures |AddBatch(input, s, p, batch, n).candidates| == |s.candidates| + n
  {
    if n > 0 {
      AddBatchAdds(input, s, p, batch, n - 1);
    }
  }

  /** A drawn batch keeps calibration parameters distinct. */
  lemma BatchStaysApart(o: Study, turn: nat, cfg: Config, input: Input, s: State, p: Phase)
    requires Stepped(o) && Apart(s.candidates) && BatchDrawn(o, turn, s.candidates, input, BatchSize(cfg, s, p))
    ensures Apart(CreateBatch(cfg, input, s, p).candidates)
  {
    var n := BatchSize(cfg, s, p);
    AddBatchAdds(input, s, p, s.phases.Of(p).batches + 1, n);
    DrawnIsUnseen(o, turn, s.candidates, input, n);
    hide AddBatch, BatchDrawn, Stepped, BatchSize, Apart, Adds, Unseen;
    if n > 0 {
      AddsApart(s.candidates, AddBatch(input, s, p, s.phases.Of(p).batches + 1, n).candidates, input);
    }
  }

  // ---- a poll ----

  /** The next m batches towards the initial design are drawn, one after the other. */
  ghost predicate FilledDrawn(o: Study, turn: nat, cfg: Config, input: Input, s: State, p: Phase, m: nat)
    requires Stepped(o)
    decreases m
  {
    m == 0 || |s.phases.Of(p).ids| >= cfg.initial(p)
    || (&& BatchDrawn(o, turn, s.candidates, input, BatchSize(cfg, s, p))
        && FilledDrawn(o, turn, cfg, input, CreateBatch(cfg, input, s, p), p, m - 1))
  }

  /** Every batch that the poll creates, when it gets as far as `at`, is drawn on top of the
      candidates before it. */
  ghost predicate PollDrawn(o: Study, turn: nat, cfg: Config, s: State, input: Input, at: Point)
    requires Stepped(o)
  {
    (s.current != Finished && s.current.phase != Validation) ==>
      var p := s.current.phase;
      var active := Activate(Fetched(cfg, s, input), p);
      && (at.Creating? && active.Some? ==> FilledDrawn(o, turn, cfg, input, active.value, p, at.batches))
      && ((at.Submitting? || at.Whole?) && active.Some? ==>
            var filled := Filled(cfg, input, active.value, p, cfg.initial(p));
            && FilledDrawn(o, turn, cfg, input, active.value, p, cfg.initial(p))
            && (WantsAdaptive(cfg, filled, p) ==>
                BatchDrawn(o, turn, filled.candidates, input, BatchSize(cfg, filled, p))))
  }

  lemma {:induction false} FilledApart(o: Study, turn: nat, cfg: Config, input: Input, s: State, p: Phase, m: nat)
    requires Stepped(o) && Apart(s.candidates) && FilledDrawn(o, turn, cfg, input, s, p, m)
    ensures Apart(Filled(cfg, input, s, p, m).candidates)
    decreases m
  {
    hide CreateBatch, Apart, BatchDrawn, Stepped, BatchSize;
    if m != 0 && |s.phases.Of(p).ids| < cfg.initial(p) {
      BatchStaysApart(o, turn, cfg, input, s, p);
      FilledApart(o, turn, cfg, input, CreateBatch(cfg, input, s, p), p, m - 1);
    }
  }

  lemma FetchedApart(cfg: Config, s: State, input: Input)
    requires Apart(s.candidates)
    ensures Apart(Fetched(cfg, s, input).candidates)
  {
    FetchedKeeps(cfg, s.candidates, input, |s.candidates|, |s.candidates|);
    KeepsApart(s.candidates, Fetched(cfg, s, input).candidates);
  }

  lemma ActivateKeeps(s: State, p: Phase)
    ensures Activate(s, p).Some? ==> Activate(s, p).value.candidates == s.candidates
  {
  }

  lemma PreparedApart(o: Study, turn: nat, cfg: Config, s: State, input: Input, p: Phase)
    requires Stepped(o) && s.current == In(p) && Apart(s.candidates) && PollDrawn(o, turn, cfg, s, input, Whole)
    ensures var d := Prepared(cfg, Fetched(cfg, s, input), input, p); d.Some? ==> Apart(d.value.candidates)
  {
    var fetched := Fetched(cfg, s, input);
    FetchedApart(cfg, s, input);
    ActivateKeeps(fetched, p);
    hide Fetched, Apart, Stepped, BatchDrawn, WantsAdaptive, Filled, CreateBatch, CreateValidation, BatchSize, Activate;
    if p == Validation {
      ValidationKeeps(cfg, fetched, input);
      if CreateValidation(cfg, input, fetched).Some? {
        KeepsApart(fetched.candidates, CreateValidation(cfg, input, fetched).value.candidates);
      }
    } else if Activate(fetched, p).Some? {
      var active := Activate(fetched, p).value;
      var filled := Filled(cfg, input, active, p, cfg.initial(p));
      FilledApart(o, turn, cfg, input, active, p, cfg.initial(p));
      if WantsAdaptive(cfg, filled, p) {
        BatchStaysApart(o, turn, cfg, input, filled, p);
      }
    }
  }

  lemma PreparedPollApart(o: Study, turn: nat, cfg: Config, s: State, input: Input, p: Phase, n: nat)
    requires Stepped(o) && s.current == In(p) && Apart(s.candidates) && PollDrawn(o, turn, cfg, s, input, Whole)
    ensures var d := Prepared(cfg, Fetched(cfg, s, input), input, p); d.Some? ==>
        Apart(Sent(d.value, input, p, n).candidates)
  {
    PreparedApart(o, turn, cfg, s, input, p);
    var d := Prepared(cfg, Fetched(cfg, s, input), input, p);
    hide Fetched, Prepared, Sent, Apart, PollDrawn, Stepped;
    if d.Some? {
      SentKeeps(d.value, input, p, n);
      KeepsApart(d.value.candidates, Sent(d.value, input, p, n).candidates);
    }
  }

  lemma CreatingApart(o: Study, turn: nat, cfg: Config, s: State, input: Input, p: Phase, m: nat)
    requires Stepped(o) && s.current == In(p) && Apart(s.candidates) && PollDrawn(o, turn, cfg, s, input, Creating(m))
    ensures Apart(Poll(cfg, s, input, Creating(m)).candidates)
  {
    var fetched := Fetched(cfg, s, input);
    FetchedApart(cfg, s, input);
    ActivateKeeps(fetched, p);
    hide Fetched, Apart, Stepped, Filled, Activate, FilledDrawn;
    if p != Validation && Activate(fetched, p).Some? {
      FilledApart(o, turn, cfg, input, Activate(fetched, p).value, p, m);
    }
  }

  lemma FetchingApart(cfg: Config, s: State, input: Input, at: Point)
    requires Apart(s.candidates) && s.current != Finished && (at.Reconciling? || at.Collecting?)
    ensures Apart(Poll(cfg, s, input, at).candidates)
  {
    var all := |s.candidates|;
    var n := if at.n <= all then at.n else all;
    FetchedKeeps(cfg, s.candidates, input, if at.Reconciling? then n else all, if at.Collecting? then n else 0);
    KeepsApart(s.candidates, Poll(cfg, s, input, at).candidates);
  }

  /** A poll whose batches are drawn keeps calibration parameters distinct, wherever it stops. */
  lemma PollStaysApart(o: Study, turn: nat, cfg: Config, s: State, input: Input, at: Point)
    requires Stepped(o) && Apart(s.candidates) && PollDrawn(o, turn, cfg, s, input, at)
    ensures Apart(Poll(cfg, s, input, at).candidates)
  {
    hide Fetched, Prepared, Sent, Filled, Apart, Stepped, FilledDrawn, BatchDrawn, Activate, WantsAdaptive, BatchSize;
    if s.current != Finished {
      var p := s.current.phase;
      match at
      case Before =>
      case Reconciling(n) => FetchingApart(cfg, s, input, at);
      case Collecting(n) => FetchingApart(cfg, s, input, at);
      case Creating(m) => CreatingApart(o, turn, cfg, s, input, p, m);
      case Submitting(n) =>
        assert PollDrawn(o, turn, cfg, s, input, Whole);
        PreparedPollApart(o, turn, cfg, s, input, p, n);
      case Whole =>
        PreparedPollApart(o, turn, cfg, s, input, p, SLOTS);
    }
  }

  // ---- runs ----

  /** Every batch of the run is drawn on top of the candidates there were. */
  ghost predicate DrawnRun(o: Study, cfg: Config, events: seq<Event>)
    requires Stepped(o)
    decreases |events|
  {
    events == [] ||
    (var front, e := events[..|events| - 1], events[|events| - 1];
     DrawnRun(o, cfg, front) && PollDrawn(o, |front|, cfg, Run(cfg, front).state, e.input, e.at))
  }

  /** In no reachable state do two calibration candidates have equal parameters, when batches are
      drawn as the source draws them and rounding to the search space is stable. */
  lemma {:induction false} ParametersStayApart(o: Study, cfg: Config, events: seq<Event>)
    requires Stepped(o) && DrawnRun(o, cfg, events)
    ensures Apart(Run(cfg, events).state.candidates)
    decreases |events|
  {
    hide Poll, Apart, RetryAll, PollDrawn, Stepped, Keeps;
    if events == [] {
      NoneApart();
    } else {
      var front, e := events[..|events| - 1], events[|events| - 1];
      ParametersStayApart(o, cfg, front);
      var s := Run(cfg, front).state;
      var d := Poll(cfg, s, e.input, e.at);
      PollStaysApart(o, |front|, cfg, s, e.input, e.at);
      RetryAllKeeps(d.candidates);
      KeepsApart(d.candidates, RetryAll(d.candidates));
    }
  }

  lemma NoneApart()
    ensures Apart([])
  {
  }
}
