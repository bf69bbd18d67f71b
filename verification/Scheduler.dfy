/** The scheduler with the state dictionary it updates in place, and the checkpoint it saves
    (vehicle_calibration/calibrate.py). */
module Scheduler {
  import opened Wrappers
  import opened Sorting
  import opened SchedulerModel
  import Parameters

  class CalibrationScheduler {
    const cfg: Config
    var candidates: seq<Candidate>
    var phases: Phases
    var current: Current
    var saved: State

    ghost function View(): State
      reads this
    {
      State(candidates, phases, current)
    }

    constructor (cfg: Config)
      ensures this.cfg == cfg && View() == START && saved == START
    {
      this.cfg := cfg;
      candidates, phases, current := [], Phases(NO_PHASE, NO_PHASE, NO_PHASE, NO_PHASE), In(VolumeRouting);
      saved := START;
    }

    method SaveState()
      modifies this`saved
      ensures saved == View()
    {
      saved := State(candidates, phases, current);
    }

    method ReconcileRemote(listing: map<string, Status>)
      modifies this`candidates
      ensures candidates == Reconciled(listing, old(candidates), |old(candidates)|)
    {
      hide ReconcileOne;
      for i := 0 to |candidates|
        invariant candidates == Reconciled(listing, old(candidates), i)
      {
        var t := candidates[i];
        if t.run.None? || t.run.value !in listing || t.status == Valid {
          SkippedIs(listing, t);
          continue;
        }
        TakenIs(listing, t);
        candidates := candidates[i := t.(status := listing[t.run.value])];
      }
    }

    method ResetForRetry(i: nat)
      requires i < |candidates|
      modifies this`candidates
      ensures candidates == old(candidates)[i := Reset(old(candidates)[i])]
    {
      var t := candidates[i];
      t := t.(previous := t.previous + [Earlier(t.run, t.status)]);
      t := t.(status := Planned, run := None, analyticsAttempts := 0, score := None);
      candidates := candidates[i := t];
    }

    /** One candidate: a failed one may be retried, a completed one is scored. */
    method CollectResult(i: nat, answer: Answer)
      requires i < |candidates|
      modifies this`candidates
      ensures candidates == old(candidates)[i := CollectOne(cfg, answer, old(candidates)[i])]
    {
      hide Reset;
      var t := candidates[i];
      var mayRetry := t.attempt as int <= cfg.retryLimit;
      if t.status == Failed {
        if mayRetry {
          ResetForRetry(i);
        }
        return;
      }
      if t.status != Completed || t.score.Some? {
        return;
      }
      match answer
      case Scored(score) =>
        candidates := candidates[i := t.(score := Some(score))];
        if score.valid {
          candidates := candidates[i := candidates[i].(status := Valid)];
        } else if mayRetry {
          ResetForRetry(i);
        } else {
          candidates := candidates[i := candidates[i].(status := Invalid)];
        }
      case Unavailable =>
        candidates := candidates[i := t.(analyticsAttempts := t.analyticsAttempts + 1)];
        if candidates[i].analyticsAttempts >= cfg.maxAnalytics {
          if mayRetry {
            ResetForRetry(i);
          } else {
            candidates := candidates[i := candidates[i].(status := Invalid)];
          }
        }
    }

    method CollectResults(answers: nat -> Answer)
      modifies this`candidates
      ensures candidates == Collected(cfg, answers, old(candidates), |old(candidates)|)
    {
      hide CollectOne;
      for i := 0 to |candidates|
        invariant candidates == Collected(cfg, answers, old(candidates), i)
      {
        CollectResult(i, answers(i));
      }
    }

    method AddCandidate(p: Phase, id: string, batch: nat, params: Parameters.Params)
      modifies this`candidates, this`phases
      ensures View() == AddOne(old(View()), p, id, batch, params)
    {
      var number := |candidates|;
      candidates := candidates + [NewCandidate(id, p, batch, params)];
      phases := phases.With(p, phases.Of(p).(ids := phases.Of(p).ids + [number]));
    }

    method CreateCalibrationBatch(input: Input, p: Phase)
      modifies this`candidates, this`phases
      ensures View() == CreateBatch(cfg, input, old(View()), p)
    {
      hide AddOne;
      ghost var before := View();
      var remaining := Budget(cfg, p) - |phases.Of(p).ids|;
      if remaining <= 0 {
        return;
      }
      var size := if remaining < BATCH then remaining else BATCH;
      var batch := phases.Of(p).batches + 1;
      for n := 0 to size
        invariant View() == AddBatch(input, before, p, batch, n)
      {
        AddCandidate(p, input.names(|candidates|), batch, input.params(|candidates|));
      }
      phases := phases.With(p, phases.Of(p).(batches := batch));
    }

    /** None of the earlier phases left a valid candidate: the phase cannot start. */
    method ActivatePhase(p: Phase) returns (ok: bool)
      modifies this`phases
      ensures ok == Activate(old(View()), p).Some? && View() == if ok then Activate(old(View()), p).value
          else old(View())
    {
      if phases.Of(p).status != Pending {
        return true;
      }
      var s := State(candidates, phases, current);
      if (p == Shape && !HasValid(s, {VolumeRouting})) || (p == Joint && !HasValid(s, {VolumeRouting, Shape})) {
        return false;
      }
      phases := phases.With(p, phases.Of(p).(status := Active));
      ok := true;
    }

    /** The initial design first, then one batch at a time when everything before is finished. */
    method CreateBatches(input: Input, p: Phase)
      requires p != Validation && cfg.initial(p) <= cfg.runs(p)
      modifies this`candidates, this`phases
      ensures View() == Adapted(cfg, input, Filled(cfg, input, old(View()), p, cfg.initial(p)), p)
    {
      hide CreateBatch, PhaseFinished;
      ghost var before := View();
      ghost var m := cfg.initial(p);
      while |phases.Of(p).ids| < cfg.initial(p)
        invariant m >= cfg.initial(p) - |phases.Of(p).ids| && m >= 0
        invariant Filled(cfg, input, View(), p, m) == Filled(cfg, input, before, p, cfg.initial(p))
        decreases cfg.initial(p) - |phases.Of(p).ids|
      {
        BatchAdds(cfg, input, View(), p);
        CreateCalibrationBatch(input, p);
        m := m - 1;
      }
      var s := State(candidates, phases, current);
      if |phases.Of(p).ids| >= cfg.initial(p) && |phases.Of(p).ids| < Budget(cfg, p) && PhaseFinished(s, p) {
        CreateCalibrationBatch(input, p);
      }
    }

    method CreateValidationCandidates(input: Input) returns (ok: bool)
      modifies this`candidates, this`phases
      ensures ok == CreateValidation(cfg, input, old(View())).Some?
      ensures View() == if ok then CreateValidation(cfg, input, old(View())).value else old(View())
    {
      hide AddOne, Ranking, Selected;
      if phases.validation.ids != [] {
        return true;
      }
      var s := State(candidates, phases, current);
      var selected := Selected(s, Ranking(s), cfg.finalists);
      if selected == [] || |selected| < cfg.finalists {
        return false;
      }
      phases := phases.(validation := phases.validation.(status := Active));
      AddFinalists(input, selected);
      phases := phases.(validation := phases.validation.(batches := (|phases.validation.ids| + 3) / BATCH));
      ok := true;
    }

    /** Every finalist with every seed. */
    method AddFinalists(input: Input, selected: seq<nat>)
      modifies this`candidates, this`phases
      ensures View() == AddValidation(cfg, input, old(View()), selected, |selected| * |cfg.seeds|)
    {
      hide AddOne;
      ghost var before := View();
      var n := 0;
      assert 0 == 0 * |cfg.seeds|;
      for i := 0 to |selected|
        invariant n == i * |cfg.seeds| <= |selected| * |cfg.seeds|
        invariant View() == AddValidation(cfg, input, before, selected, n)
      {
        MoreRows(|selected|, i + 1, |cfg.seeds|);
        for j := 0 to |cfg.seeds|
          invariant n == i * |cfg.seeds| + j <= |selected| * |cfg.seeds|
          invariant View() == AddValidation(cfg, input, before, selected, n)
        {
          RowAndColumn(i, j, |cfg.seeds|);
          assert (i + 1) * |cfg.seeds| == i * |cfg.seeds| + |cfg.seeds|;
          var params := ParamsOf(State(candidates, phases, current), selected[i]);
          n := n + 1;
          AddCandidate(Validation, input.names(|candidates|), (n - 1) / BATCH + 1, params.(seed := cfg.seeds[j]));
        }
      }
    }

    /** Submit planned candidates into the free slots, saving after each; the server may refuse the
        submission number `refused`. */
    method SubmitAvailable(input: Input, p: Phase, refused: Option<nat>) returns (ok: bool)
      modifies this`candidates, this`saved
      ensures !ok ==> refused.Some? && refused.value < |Chosen(old(View()), p)|
      ensures var n := if ok then SLOTS else refused.value;
              && View() == Sent(old(View()), input, p, n)
              && saved == (if |Chosen(old(View()), p)| > 0 && n > 0 then View() else old(saved))
    {
      var s := State(candidates, phases, current);
      var chosen := Chosen(s, p);
      ChosenBound(s, p);
      hide Chosen, SubmitOne;
      for n := 0 to |chosen|
        invariant candidates == Submitted(input, s.candidates, chosen, n)
        invariant saved == if n > 0 then View() else old(saved)
      {
        if refused == Some(n) {
          return false;
        }
        var i := chosen[n];
        if i < |candidates| {
          candidates := candidates[i := SubmitOne(candidates[i], input.created(n).0, input.created(n).1)];
        }
        SaveState();
      }
      ok := true;
    }

    method AdvancePhase(p: Phase)
      modifies this`phases, this`current
      ensures View() == AdvanceIfReady(cfg, old(View()), p)
    {
      hide PhaseFinished;
      var s := State(candidates, phases, current);
      if |phases.Of(p).ids| < Budget(cfg, p) || !PhaseFinished(s, p) {
        return;
      }
      phases := phases.With(p, phases.Of(p).(status := Complete));
      current := Next(p);
    }

    /** One pass of the main loop. Whatever happens, the checkpoint is the previous one or the
        state at one of the points of the poll. */
    method PollOnce(input: Input, refused: Option<nat>) returns (ok: bool)
      requires current.In? && saved == View()
      requires current.phase != Validation ==> cfg.initial(current.phase) <= cfg.runs(current.phase)
      modifies this
      ensures ok ==> View() == Poll(cfg, old(View()), input, Whole) && saved == View()
      ensures !ok ==> saved == Poll(cfg, old(View()), input, Before)
                      || (refused.Some? && saved == Poll(cfg, old(View()), input, Submitting(refused.value)))
    {
      var p := current.phase;
      ghost var before := View();
      ReconcileRemote(input.listing);
      CollectResults(input.answers);
      assert View() == Fetched(cfg, before, input);
      ok := Prepare(input, p);
      PollIs(cfg, before, input, p);
      if !ok {
        return;
      }
      hide Poll, Fetched, Prepared, Chosen, Submitted, AdvanceIfReady, Sent;
      ok := SubmitAvailable(input, p, refused);
      if !ok {
        return;
      }
      AdvancePhase(p);
      SaveState();
    }

    method Prepare(input: Input, p: Phase) returns (ok: bool)
      requires p != Validation ==> cfg.initial(p) <= cfg.runs(p)
      modifies this`candidates, this`phases
      ensures ok == Prepared(cfg, old(View()), input, p).Some?
      ensures ok ==> View() == Prepared(cfg, old(View()), input, p).value
    {
      hide Activate, Filled, Adapted, CreateValidation;
      if p == Validation {
        ok := CreateValidationCandidates(input);
      } else {
        ok := ActivatePhase(p);
        if ok {
          CreateBatches(input, p);
        }
      }
    }

    /** A manual retry on resumption. */
    method RetryFailed()
      modifies this`candidates
      ensures candidates == RetryAll(old(candidates))
    {
      hide Reset;
      for i := 0 to |candidates|
        invariant |candidates| == |old(candidates)|
        invariant forall k :: 0 <= k < |candidates| ==> candidates[k] == if k < i then RetryAll(old(candidates))[k]
            else old(candidates)[k]
      {
        if candidates[i].status == Failed || candidates[i].status == Invalid {
          ResetForRetry(i);
        }
      }
    }
  }

  lemma ChosenBound(s: State, p: Phase)
    ensures |Chosen(s, p)| <= SLOTS
  {
  }

  /** The points of a poll that leave a checkpoint behind. */
  lemma PollIs(cfg: Config, s: State, input: Input, p: Phase)
    requires s.current == In(p)
    ensures Poll(cfg, s, input, Before) == s
    ensures var d := Prepared(cfg, Fetched(cfg, s, input), input, p);
            d.Some? ==> (forall n: nat :: Poll(cfg, s, input, Submitting(n)) == Sent(d.value, input, p, n))
                        && Poll(cfg, s, input, Whole) == AdvanceIfReady(cfg, Sent(d.value, input, p, SLOTS), p)
  {
    hide Fetched, Prepared, Sent, AdvanceIfReady;
  }

  lemma SkippedIs(listing: map<string, Status>, t: Candidate)
    requires t.run.None? || t.run.value !in listing || t.status == Valid
    ensures ReconcileOne(listing, t) == t
  {
  }

  lemma TakenIs(listing: map<string, Status>, t: Candidate)
    requires t.run.Some? && t.run.value in listing && t.status != Valid
    ensures ReconcileOne(listing, t) == t.(status := listing[t.run.value])
  {
  }

  lemma RowAndColumn(i: nat, j: nat, columns: nat)
    requires j < columns
    ensures (i * columns + j) / columns == i && (i * columns + j) % columns == j
  {
    QuotientIs(i * columns + j, columns, i, j);
  }

  lemma QuotientIs(n: nat, d: nat, q: nat, r: nat)
    requires r < d && n == q * d + r
    ensures n / d == q && n % d == r
  {
    if n / d < q {
      MoreRows(q, n / d + 1, d);
    }
    if n / d > q {
      MoreRows(n / d, q + 1, d);
    }
  }

  lemma BatchAdds(cfg: Config, input: Input, s: State, p: Phase)
    requires |s.phases.Of(p).ids| < Budget(cfg, p)
    ensures |CreateBatch(cfg, input, s, p).phases.Of(p).ids| > |s.phases.Of(p).ids|
  {
    BatchCounts(input, s, p, s.phases.Of(p).batches + 1, BatchSize(cfg, s, p));
  }

  lemma {:induction false} BatchCounts(input: Input, s: State, p: Phase, batch: nat, n: nat)
    ensures |AddBatch(input, s, p, batch, n).phases.Of(p).ids| == |s.phases.Of(p).ids| + n
  {
    if n > 0 {
      BatchCounts(input, s, p, batch, n - 1);
    }
  }
}
