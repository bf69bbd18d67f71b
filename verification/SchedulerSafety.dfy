/** Invariants of the calibration scheduler over every sequence of polls, interrupts and
    resumptions, with a server whose run statuses only move forward. */
module SchedulerSafety {
  import opened Wrappers
  import opened Sorting
  import opened SchedulerModel
  import Parameters

  // ---- runs ----

  /** The checkpoint, the server's runs, and the number of manual retries so far. */
  datatype World = World(state: State, server: map<string, Status>, retries: nat)

  /** A poll that gets as far as `at`, the server afterwards, and whether the study is resumed
      with a manual retry. */
  datatype Event = Event(input: Input, at: Point, server: map<string, Status>, retry: bool)

  function Happens(cfg: Config, w: World, e: Event): World {
    var s := Poll(cfg, w.state, e.input, e.at);
    World(if e.retry then s.(candidates := RetryAll(s.candidates)) else s, e.server, if e.retry then w.retries + 1
          else w.retries)
  }

  function Run(cfg: Config, events: seq<Event>): World
    decreases |events|
  {
    if events == [] then World(START, map[], 0)
        else Happens(cfg, Run(cfg, events[..|events| - 1]), events[|events| - 1])
  }

  predicate OnServer(a: Status) {
    a == Queued || a == Running || a == Completed || a == Failed
  }

  predicate Forward(a: Status, b: Status) {
    OnServer(a) && OnServer(b) && (a == b || a == Queued || (a == Running && b != Queued))
  }

  /** The server's statuses move forward, what it reports is between then and now, and a
      submission is not answered with a failed run. */
  ghost predicate Honest(server: map<string, Status>, e: Event) {
    && (forall r :: r in server ==> r in e.server && Forward(server[r], e.server[r]))
    && (forall r :: r in e.input.listing ==> r in e.server && Forward(e.input.listing[r], e.server[r])
                                              && (r in server ==> Forward(server[r], e.input.listing[r])))
    && (forall n: nat :: n < SLOTS ==> e.input.created(n).0 in e.server && e.input.created(n).1 != Failed
                                               && Forward(e.input.created(n).1, e.server[e.input.created(n).0]))
  }

  ghost predicate HonestRun(cfg: Config, events: seq<Event>)
    decreases |events|
  {
    events == []
        || (HonestRun(cfg, events[..|events| - 1])
            && Honest(Run(cfg, events[..|events| - 1]).server, events[|events| - 1]))
  }

  // ---- one candidate ----

  function Limit(cfg: Config): nat {
    if cfg.retryLimit < 0 then 0 else cfg.retryLimit
  }

  /** A candidate's status never runs ahead of the server. */
  predicate Agrees(a: Status, server: Status) {
    match a
    case Queued => true
    case Running => server != Queued
    case Failed => server == Failed
    case _ => server == Completed
  }

  /** Attempts are counted and bounded, a planned candidate carries nothing over from its last
      attempt, and the status agrees with the server. */
  ghost predicate CandidateOK(cfg: Config, server: map<string, Status>, retries: nat, t: Candidate) {
    && (t.status == Planned ==> t.run.None? && t.attempt == |t.previous| <= Limit(cfg) + retries && t.score.None?
                                && t.analyticsAttempts == 0)
    && (t.status != Planned ==> t.run.Some? && t.run.value in server && Agrees(t.status, server[t.run.value])
                                && t.attempt == |t.previous| + 1 <= Limit(cfg) + retries + 1)
    && (t.status == Valid ==> t.score.Some? && t.score.value.valid)
    && (t.status == Invalid ==> t.attempt as int > cfg.retryLimit)
  }

  /** No further run will be started for the candidate without a manual retry. */
  ghost predicate Done(cfg: Config, t: Candidate) {
    t.status == Valid
        || (t.attempt as int > cfg.retryLimit && (t.status == Failed || t.status == Invalid || t.status == Completed))
  }

  /** What may happen to a candidate before submission. */
  ghost predicate Calms(cfg: Config, t: Candidate, u: Candidate) {
    && u.id == t.id && u.phase == t.phase && u.batch == t.batch && u.params == t.params
    && (IsActive(u) ==> IsActive(t)) && (Done(cfg, t) ==> Done(cfg, u)) && (t.status == Valid ==> u == t)
  }

  lemma ReconcileOneKeeps(cfg: Config, server: map<string, Status>, e: Event, retries: nat, t: Candidate)
    requires Honest(server, e) && CandidateOK(cfg, server, retries, t)
    ensures var u := ReconcileOne(e.input.listing, t);
            CandidateOK(cfg, e.server, retries, u) && Calms(cfg, t, u)
  {
  }

  lemma CollectOneKeeps(cfg: Config, server: map<string, Status>, retries: nat, answer: Answer, t: Candidate)
    requires CandidateOK(cfg, server, retries, t)
    ensures var u := CollectOne(cfg, answer, t);
            && CandidateOK(cfg, server, retries, u) && Calms(cfg, t, u)
            && (IsTerminal(u) ==> Done(cfg, u))
  {
  }

  lemma RetryKeeps(cfg: Config, server: map<string, Status>, retries: nat, t: Candidate)
    requires CandidateOK(cfg, server, retries, t)
    ensures CandidateOK(cfg, server, retries + 1, if t.status == Failed || t.status == Invalid then Reset(t) else t)
  {
  }

  // ---- all candidates ----

  ghost predicate AllOK(cfg: Config, server: map<string, Status>, retries: nat, candidates: seq<Candidate>) {
    forall i :: 0 <= i < |candidates| ==> CandidateOK(cfg, server, retries, candidates[i])
  }

  ghost predicate AllCalm(cfg: Config, candidates: seq<Candidate>, after: seq<Candidate>) {
    |after| == |candidates| && forall i :: 0 <= i < |candidates| ==> Calms(cfg, candidates[i], after[i])
  }

  lemma {:induction false} FewerActive(candidates: seq<Candidate>, after: seq<Candidate>)
    requires |after| == |candidates|
        && forall i :: 0 <= i < |candidates| && IsActive(after[i]) ==> IsActive(candidates[i])
    ensures ActiveCount(after) <= ActiveCount(candidates)
    decreases |candidates|
  {
    if candidates != [] {
      FewerActive(candidates[..|candidates| - 1], after[..|after| - 1]);
    }
  }

  lemma {:induction false} UpdateActive(candidates: seq<Candidate>, i: nat, t: Candidate)
    requires i < |candidates|
    ensures ActiveCount(candidates[i := t]) <= ActiveCount(candidates) + 1
    decreases |candidates|
  {
    if i == |candidates| - 1 {
      assert candidates[i := t][..i] == candidates[..i];
    } else {
      var n := |candidates| - 1;
      UpdateActive(candidates[..n], i, t);
      assert candidates[i := t][..n] == candidates[..n][i := t];
    }
  }

  lemma AppendActive(candidates: seq<Candidate>, t: Candidate)
    ensures ActiveCount(candidates + [t]) == ActiveCount(candidates) + if IsActive(t) then 1 else 0
  {
    assert (candidates + [t])[..|candidates|] == candidates;
  }

  lemma CalmTrans(cfg: Config, a: seq<Candidate>, b: seq<Candidate>, c: seq<Candidate>)
    requires AllCalm(cfg, a, b) && AllCalm(cfg, b, c)
    ensures AllCalm(cfg, a, c)
  {
    hide Done, IsActive;
  }

  lemma ReconciledKeeps(cfg: Config, server: map<string, Status>, e: Event, retries: nat, candidates: seq<Candidate>,
                        n: nat)
    requires n <= |candidates| && Honest(server, e) && AllOK(cfg, server, retries, candidates)
    ensures var after := Reconciled(e.input.listing, candidates, n);
            AllOK(cfg, e.server, retries, after) && AllCalm(cfg, candidates, after)
  {
    hide ReconcileOne, CandidateOK, Calms;
    var after := Reconciled(e.input.listing, candidates, n);
    forall i | 0 <= i < |candidates|
      ensures CandidateOK(cfg, e.server, retries, after[i]) && Calms(cfg, candidates[i], after[i])
    {
      ReconcileOneKeeps(cfg, server, e, retries, candidates[i]);
      LaterServer(cfg, server, e, retries, candidates[i]);
    }
  }

  lemma LaterServer(cfg: Config, server: map<string, Status>, e: Event, retries: nat, t: Candidate)
    requires Honest(server, e) && CandidateOK(cfg, server, retries, t)
    ensures CandidateOK(cfg, e.server, retries, t) && Calms(cfg, t, t)
  {
  }

  lemma CollectedKeeps(cfg: Config, server: map<string, Status>, retries: nat, answers: nat -> Answer,
                       candidates: seq<Candidate>, n: nat)
    requires n <= |candidates| && AllOK(cfg, server, retries, candidates)
    ensures var after := Collected(cfg, answers, candidates, n);
            && AllOK(cfg, server, retries, after) && AllCalm(cfg, candidates, after)
            && (forall i :: 0 <= i < n && IsTerminal(after[i]) ==> Done(cfg, after[i]))
  {
    hide CollectOne, CandidateOK, Done, IsActive, IsTerminal;
    var after := Collected(cfg, answers, candidates, n);
    forall i | 0 <= i < |candidates|
      ensures CandidateOK(cfg, server, retries, after[i]) && Calms(cfg, candidates[i], after[i])
      ensures i < n && IsTerminal(after[i]) ==> Done(cfg, after[i])
    {
      CollectOneKeeps(cfg, server, retries, answers(i), candidates[i]);
    }
  }

  // ---- phases ----

  function Rank(p: Phase): nat {
    match p
    case VolumeRouting => 0
    case Shape => 1
    case Joint => 2
    case Validation => 3
  }

  function CurrentRank(c: Current): nat {
    if c == Finished then 4 else Rank(c.phase)
  }

  /** The batch of the k-th candidate of a phase. */
  function BatchNumber(k: nat): nat {
    k / BATCH + 1
  }

  /** The candidates of a phase, numbered in order and grouped in batches of four. */
  ghost predicate Listed(candidates: seq<Candidate>, p: Phase, ids: seq<nat>) {
    && (forall k ::
        0 <= k < |ids| ==>
            ids[k] < |candidates| && candidates[ids[k]].phase == p && candidates[ids[k]].batch == BatchNumber(k))
    && (forall j, k :: 0 <= j < k < |ids| ==> ids[j] < ids[k])
  }

  /** A phase never exceeds its budget, is full once it is over and empty before it starts. */
  ghost predicate InBudget(cfg: Config, current: Current, p: Phase, ps: PhaseState) {
    && |ps.ids| <= Budget(cfg, p)
    && (p == Validation ==> ps.ids == [] || |ps.ids| == Budget(cfg, p))
    && (p != Validation ==> |ps.ids| % BATCH == 0 && ps.batches == |ps.ids| / BATCH)
    && (Rank(p) < CurrentRank(current) ==> |ps.ids| == Budget(cfg, p))
    && (Rank(p) > CurrentRank(current) ==> ps.ids == [] && ps.batches == 0)
  }

  function Total(ph: Phases): nat {
    |ph.volumeRouting.ids| + |ph.shape.ids| + |ph.joint.ids| + |ph.validation.ids|
  }

  ghost predicate Shaped(cfg: Config, s: State) {
    && (forall p :: Listed(s.candidates, p, s.phases.Of(p).ids) && InBudget(cfg, s.current, p, s.phases.Of(p)))
    && |s.candidates| == Total(s.phases)
  }

  /** How many candidates of a phase are certainly done: all of them once the phase is over, and all
      but the newest batch beyond the initial design. */
  function Settled(cfg: Config, s: State, p: Phase): (r: nat)
    ensures r <= |s.phases.Of(p).ids|
  {
    var n := |s.phases.Of(p).ids|;
    if Rank(p) < CurrentRank(s.current) then n
    else if p != Validation && n > cfg.initial(p) && n >= BATCH then n - BATCH
    else 0
  }

  ghost predicate SettledDone(cfg: Config, s: State, p: Phase) {
    forall k :: 0 <= k < Settled(cfg, s, p) ==>
      s.phases.Of(p).ids[k] < |s.candidates| && Done(cfg, s.candidates[s.phases.Of(p).ids[k]])
  }

  ghost predicate Inv(cfg: Config, s: State, server: map<string, Status>, retries: nat) {
    && AllOK(cfg, server, retries, s.candidates) && ActiveCount(s.candidates) <= SLOTS && Shaped(cfg, s)
    && (retries == 0 ==> forall p :: SettledDone(cfg, s, p))
  }

  /** Calm changes keep everything but the facts about single candidates. */
  lemma CalmKeeps(cfg: Config, s: State, after: seq<Candidate>, server: map<string, Status>, later: map<string, Status>,
                  retries: nat)
    requires Inv(cfg, s, server, retries) && AllCalm(cfg, s.candidates, after) && AllOK(cfg, later, retries, after)
    ensures Inv(cfg, s.(candidates := after), later, retries)
  {
    FewerActive(s.candidates, after);
    hide CandidateOK, Done, IsActive, ActiveCount, Budget, InBudget;
    var d := s.(candidates := after);
    forall p
      ensures Listed(after, p, d.phases.Of(p).ids) && InBudget(cfg, d.current, p, d.phases.Of(p))
      ensures retries == 0 ==> SettledDone(cfg, d, p)
    {
      assert Listed(s.candidates, p, s.phases.Of(p).ids);
      if retries == 0 {
        CalmSettled(cfg, s, after, p);
      }
    }
  }

  lemma CalmSettled(cfg: Config, s: State, after: seq<Candidate>, p: Phase)
    requires SettledDone(cfg, s, p) && AllCalm(cfg, s.candidates, after)
    ensures SettledDone(cfg, s.(candidates := after), p)
  {
    hide Done, IsActive;
    var ids := s.phases.Of(p).ids;
    assert Settled(cfg, s.(candidates := after), p) == Settled(cfg, s, p);
    forall k | 0 <= k < Settled(cfg, s, p)
      ensures ids[k] < |after| && Done(cfg, after[ids[k]])
    {
      assert Calms(cfg, s.candidates[ids[k]], after[ids[k]]);
    }
  }

  // ---- creating candidates ----

  ghost predicate IsNew(t: Candidate, p: Phase, batch: nat) {
    t.phase == p && t.batch == batch && t.status == Planned && t.run.None? && t.attempt == 0 && t.previous == []
        && t.score.None? && t.analyticsAttempts == 0
  }

  /** d has n new candidates of phase p; the k-th has batch number `batches(k)`. */
  ghost predicate Extends(s: State, d: State, p: Phase, n: nat, batches: nat -> nat) {
    && d.current == s.current && |d.candidates| == |s.candidates| + n && d.candidates[..|s.candidates|] == s.candidates
    && (forall q :: q != p ==> d.phases.Of(q) == s.phases.Of(q))
    && d.phases.Of(p).ids == s.phases.Of(p).ids + seq(n, k requires 0 <= k < n => |s.candidates| + k)
    && (forall k :: 0 <= k < n ==> IsNew(d.candidates[|s.candidates| + k], p, batches(k)))
    && ActiveCount(d.candidates) == ActiveCount(s.candidates)
  }

  lemma AddOneExtends(s: State, d: State, p: Phase, n: nat, batches: nat -> nat, id: string, params: Parameters.Params)
    requires Extends(s, d, p, n, batches)
    ensures Extends(s, AddOne(d, p, id, batches(n), params), p, n + 1, batches)
  {
    var t := NewCandidate(id, p, batches(n), params);
    AppendActive(d.candidates, t);
    hide ActiveCount;
    assert (d.candidates + [t])[..|s.candidates|] == d.candidates[..|s.candidates|];
  }

  lemma {:induction false} AddBatchExtends(input: Input, s: State, p: Phase, batch: nat, n: nat, batches: nat -> nat)
    requires forall k :: batches(k) == batch
    ensures Extends(s, AddBatch(input, s, p, batch, n), p, n, batches)
  {
    if n == 0 {
      assert s.candidates[..|s.candidates|] == s.candidates;
      assert s.phases.Of(p).ids + seq(0, k requires 0 <= k < 0 => |s.candidates| + k) == s.phases.Of(p).ids;
    } else {
      AddBatchExtends(input, s, p, batch, n - 1, batches);
      var before := AddBatch(input, s, p, batch, n - 1);
      AddOneExtends(s, before, p, n - 1, batches, input.names(|before.candidates|), input.params(|before.candidates|));
      hide Extends, AddOne;
    }
  }

  lemma Renumbered(s: State, d: State, p: Phase, n: nat, batches: nat -> nat, count: nat)
    requires Extends(s, d, p, n, batches)
    ensures var e := d.(phases := d.phases.With(p, d.phases.Of(p).(batches := count)));
            Extends(s, e, p, n, batches) && e.phases.Of(p) == d.phases.Of(p).(batches := count)
  {
    hide ActiveCount, IsNew;
  }

  /** The numbering survives new candidates with the right batch numbers. */
  lemma ExtendedListed(s: State, d: State, p: Phase, n: nat, batches: nat -> nat)
    requires Extends(s, d, p, n, batches) && Listed(s.candidates, p, s.phases.Of(p).ids)
    requires forall k :: 0 <= k < n ==> batches(k) == BatchNumber(|s.phases.Of(p).ids| + k)
    ensures Listed(d.candidates, p, d.phases.Of(p).ids)
  {
    hide ActiveCount;
    var ids, m := d.phases.Of(p).ids, |s.phases.Of(p).ids|;
    forall k | 0 <= k < |ids|
      ensures ids[k] < |d.candidates| && d.candidates[ids[k]].phase == p && d.candidates[ids[k]].batch == BatchNumber(k)
    {
      if k < m {
        assert d.candidates[ids[k]] == d.candidates[..|s.candidates|][ids[k]];
      } else {
        assert ids[k] == |s.candidates| + (k - m) && IsNew(d.candidates[|s.candidates| + (k - m)], p, batches(k - m));
      }
    }
  }

  lemma ExtendedOthers(cfg: Config, s: State, d: State, p: Phase, n: nat, batches: nat -> nat, q: Phase)
    requires Extends(s, d, p, n, batches) && q != p && Listed(s.candidates, q, s.phases.Of(q).ids)
    ensures Listed(d.candidates, q, d.phases.Of(q).ids)
    ensures SettledDone(cfg, s, q) ==> SettledDone(cfg, d, q)
  {
    hide ActiveCount, Done;
    assert forall i :: 0 <= i < |s.candidates| ==> d.candidates[i] == d.candidates[..|s.candidates|][i];
    if SettledDone(cfg, s, q) {
      assert d.phases.Of(q) == s.phases.Of(q) && Settled(cfg, d, q) == Settled(cfg, s, q);
      var ids := s.phases.Of(q).ids;
      forall k | 0 <= k < Settled(cfg, s, q)
        ensures ids[k] < |d.candidates| && Done(cfg, d.candidates[ids[k]])
      {
        assert d.candidates[ids[k]] == s.candidates[ids[k]];
      }
    }
  }

  lemma ExtendedOK(cfg: Config, server: map<string, Status>, retries: nat, s: State, d: State, p: Phase, n: nat,
                   batches: nat -> nat)
    requires Extends(s, d, p, n, batches) && AllOK(cfg, server, retries, s.candidates)
    ensures AllOK(cfg, server, retries, d.candidates)
  {
    hide ActiveCount;
    forall i | 0 <= i < |d.candidates|
      ensures CandidateOK(cfg, server, retries, d.candidates[i])
    {
      if i < |s.candidates| {
        assert d.candidates[i] == d.candidates[..|s.candidates|][i];
      } else {
        assert IsNew(d.candidates[|s.candidates| + (i - |s.candidates|)], p, batches(i - |s.candidates|));
      }
    }
  }

  lemma ExtendedInv(cfg: Config, server: map<string, Status>, retries: nat, s: State, d: State, p: Phase, n: nat,
                    batches: nat -> nat)
    requires Inv(cfg, s, server, retries) && Extends(s, d, p, n, batches)
    requires forall k :: 0 <= k < n ==> batches(k) == BatchNumber(|s.phases.Of(p).ids| + k)
    requires InBudget(cfg, d.current, p, d.phases.Of(p)) && (retries == 0 ==> SettledDone(cfg, d, p))
    ensures Inv(cfg, d, server, retries)
  {
    ExtendedOK(cfg, server, retries, s, d, p, n, batches);
    ExtendedListed(s, d, p, n, batches);
    forall q | q != p
      ensures Listed(d.candidates, q, d.phases.Of(q).ids) && InBudget(cfg, d.current, q, d.phases.Of(q))
      ensures retries == 0 ==> SettledDone(cfg, d, q)
    {
      assert InBudget(cfg, s.current, q, s.phases.Of(q)) && (retries == 0 ==> SettledDone(cfg, s, q));
      ExtendedOthers(cfg, s, d, p, n, batches, q);
    }
    hide AllOK, ActiveCount, Listed, InBudget, SettledDone;
    ExtendedTotal(s, d, p, n, batches);
  }

  lemma ExtendedTotal(s: State, d: State, p: Phase, n: nat, batches: nat -> nat)
    requires Extends(s, d, p, n, batches) && |s.candidates| == Total(s.phases)
    ensures |d.candidates| == Total(d.phases)
  {
    hide ActiveCount, IsNew;
    assert |d.phases.Of(p).ids| == |s.phases.Of(p).ids| + n;
    assert forall q :: q != p ==> |d.phases.Of(q).ids| == |s.phases.Of(q).ids|;
    TotalOf(s.phases);
    TotalOf(d.phases);
  }

  lemma TotalOf(ph: Phases)
    ensures Total(ph) == |ph.Of(VolumeRouting).ids| + |ph.Of(Shape).ids| + |ph.Of(Joint).ids| + |ph.Of(Validation).ids|
  {
  }

  /** A batch of a calibration phase is created as a whole, within the budget. */
  lemma CreateBatchKeeps(cfg: Config, input: Input, s: State, p: Phase, server: map<string, Status>, retries: nat)
    requires ValidConfig(cfg) && Inv(cfg, s, server, retries) && s.current == In(p) && p != Validation
    requires |s.phases.Of(p).ids| < cfg.initial(p)
        || (forall k :: 0 <= k < |s.phases.Of(p).ids| ==> Done(cfg, s.candidates[s.phases.Of(p).ids[k]]))
    ensures Inv(cfg, CreateBatch(cfg, input, s, p), server, retries)
    ensures var before, after := |s.phases.Of(p).ids|, |CreateBatch(cfg, input, s, p).phases.Of(p).ids|;
            after == if before < Budget(cfg, p) then before + BATCH else before
    ensures CreateBatch(cfg, input, s, p).current == s.current
  {
    var ps := s.phases.Of(p);
    assert InBudget(cfg, s.current, p, ps) && Listed(s.candidates, p, ps.ids);
    var n := BatchSize(cfg, s, p);
    if n > 0 {
      assert n == BATCH;
      var batches: nat -> nat := k => ps.batches + 1;
      CreateBatchExtends(cfg, input, s, p, batches);
      var d := CreateBatch(cfg, input, s, p);
      hide CreateBatch, Inv, ActiveCount, Done, Extends, IsNew;
      BatchNumbers(|ps.ids|, n, batches);
      AddedSettled(cfg, s, d, p, n, batches);
      assert InBudget(cfg, d.current, p, d.phases.Of(p));
      ExtendedInv(cfg, server, retries, s, d, p, n, batches);
    }
  }

  lemma CreateBatchExtends(cfg: Config, input: Input, s: State, p: Phase, batches: nat -> nat)
    requires BatchSize(cfg, s, p) > 0 && forall k :: batches(k) == s.phases.Of(p).batches + 1
    ensures var n, d := BatchSize(cfg, s, p), CreateBatch(cfg, input, s, p);
            && Extends(s, d, p, n, batches) && d.current == s.current
            && |d.phases.Of(p).ids| == |s.phases.Of(p).ids| + n && d.phases.Of(p).batches == s.phases.Of(p).batches + 1
  {
    var n, batch := BatchSize(cfg, s, p), s.phases.Of(p).batches + 1;
    AddBatchExtends(input, s, p, batch, n, batches);
    var added := AddBatch(input, s, p, batch, n);
    Renumbered(s, added, p, n, batches, batch);
    hide AddBatch, ActiveCount, IsNew;
  }

  lemma AddedSettled(cfg: Config, s: State, d: State, p: Phase, n: nat, batches: nat -> nat)
    requires Extends(s, d, p, n, batches) && Listed(s.candidates, p, s.phases.Of(p).ids) && s.current == In(p)
        && n == BATCH && p != Validation
    requires |s.phases.Of(p).ids| % BATCH == 0 && cfg.initial(p) % BATCH == 0
    requires |s.phases.Of(p).ids| < cfg.initial(p)
        || (forall k :: 0 <= k < |s.phases.Of(p).ids| ==> Done(cfg, s.candidates[s.phases.Of(p).ids[k]]))
    ensures SettledDone(cfg, d, p)
  {
    hide ActiveCount, Done, IsNew;
    var m := |s.phases.Of(p).ids|;
    assert |d.phases.Of(p).ids| == m + BATCH;
    assert Settled(cfg, d, p) == if m + BATCH > cfg.initial(p) then m else 0;
    forall k | 0 <= k < Settled(cfg, d, p)
      ensures d.phases.Of(p).ids[k] < |d.candidates| && Done(cfg, d.candidates[d.phases.Of(p).ids[k]])
    {
      NewIsPlanned(s, d, p, n, batches, s.phases.Of(p).ids[k]);
    }
  }

  lemma BatchNumbers(m: nat, n: nat, batches: nat -> nat)
    requires m % BATCH == 0 && n <= BATCH && forall k :: batches(k) == m / BATCH + 1
    ensures forall k :: 0 <= k < n ==> batches(k) == BatchNumber(m + k)
  {
  }

  /** Every candidate that counts as finished is done for good. */
  ghost predicate TerminalsDone(cfg: Config, candidates: seq<Candidate>) {
    forall i :: 0 <= i < |candidates| && IsTerminal(candidates[i]) ==> Done(cfg, candidates[i])
  }

  lemma ExtendedTerminals(cfg: Config, s: State, d: State, p: Phase, n: nat, batches: nat -> nat)
    requires Extends(s, d, p, n, batches) && TerminalsDone(cfg, s.candidates)
    ensures TerminalsDone(cfg, d.candidates)
  {
    hide ActiveCount, Done;
    forall i | 0 <= i < |d.candidates| && IsTerminal(d.candidates[i])
      ensures Done(cfg, d.candidates[i])
    {
      NewIsPlanned(s, d, p, n, batches, i);
    }
  }

  lemma NewIsPlanned(s: State, d: State, p: Phase, n: nat, batches: nat -> nat, i: nat)
    requires Extends(s, d, p, n, batches) && i < |d.candidates|
    ensures if i < |s.candidates| then d.candidates[i] == s.candidates[i] else d.candidates[i].status == Planned
  {
    hide ActiveCount;
    if i < |s.candidates| {
      assert d.candidates[i] == d.candidates[..|s.candidates|][i];
    } else {
      assert IsNew(d.candidates[|s.candidates| + (i - |s.candidates|)], p, batches(i - |s.candidates|));
    }
  }

  /** Creating a batch adds candidates and changes none. */
  lemma CreateBatchGrows(cfg: Config, input: Input, s: State, p: Phase)
    ensures var d := CreateBatch(cfg, input, s, p);
            && s.candidates <= d.candidates && (TerminalsDone(cfg, s.candidates) ==> TerminalsDone(cfg, d.candidates))
  {
    var n, batch := BatchSize(cfg, s, p), s.phases.Of(p).batches + 1;
    var batches: nat -> nat := k => batch;
    AddBatchExtends(input, s, p, batch, n, batches);
    var added := AddBatch(input, s, p, batch, n);
    if TerminalsDone(cfg, s.candidates) {
      ExtendedTerminals(cfg, s, added, p, n, batches);
    }
    hide AddBatch, TerminalsDone, ActiveCount, IsNew;
  }

  /** What holds while a poll creates candidates of the current phase. */
  ghost predicate Creates(cfg: Config, s: State, server: map<string, Status>, retries: nat, p: Phase) {
    Inv(cfg, s, server, retries) && s.current == In(p) && TerminalsDone(cfg, s.candidates)
  }

  lemma {:induction false} FilledKeeps(cfg: Config, input: Input, s: State, p: Phase, m: nat, server: map<string,
                                       Status>, retries: nat)
    requires ValidConfig(cfg) && p != Validation && Creates(cfg, s, server, retries, p)
    ensures var d := Filled(cfg, input, s, p, m);
            Creates(cfg, d, server, retries, p) && s.candidates <= d.candidates
    decreases m
  {
    hide Inv, CreateBatch, TerminalsDone;
    if m != 0 && |s.phases.Of(p).ids| < cfg.initial(p) {
      CreateBatchKeeps(cfg, input, s, p, server, retries);
      CreateBatchGrows(cfg, input, s, p);
      FilledKeeps(cfg, input, CreateBatch(cfg, input, s, p), p, m - 1, server, retries);
    }
  }

  lemma FinishedIsDone(cfg: Config, s: State, p: Phase)
    requires TerminalsDone(cfg, s.candidates) && PhaseFinished(s, p)
    ensures forall k ::
        0 <= k < |s.phases.Of(p).ids| ==>
            s.phases.Of(p).ids[k] < |s.candidates| && Done(cfg, s.candidates[s.phases.Of(p).ids[k]])
  {
    hide Done, IsTerminal;
  }

  lemma AdaptedKeeps(cfg: Config, input: Input, s: State, p: Phase, server: map<string, Status>, retries: nat)
    requires ValidConfig(cfg) && p != Validation && Creates(cfg, s, server, retries, p)
    ensures var d := Adapted(cfg, input, s, p);
            Creates(cfg, d, server, retries, p) && s.candidates <= d.candidates
  {
    if WantsAdaptive(cfg, s, p) {
      FinishedIsDone(cfg, s, p);
      hide Inv, CreateBatch, TerminalsDone, Done, PhaseFinished;
      CreateBatchKeeps(cfg, input, s, p, server, retries);
      CreateBatchGrows(cfg, input, s, p);
    }
  }

  lemma StatusOnly(cfg: Config, s: State, p: Phase, status: PhaseStatus, server: map<string, Status>, retries: nat)
    requires Inv(cfg, s, server, retries)
    ensures Inv(cfg, s.(phases := s.phases.With(p, s.phases.Of(p).(status := status))), server, retries)
  {
    hide AllOK, ActiveCount, Done, Budget;
    var d := s.(phases := s.phases.With(p, s.phases.Of(p).(status := status)));
    forall q
      ensures Listed(d.candidates, q, d.phases.Of(q).ids) && InBudget(cfg, d.current, q, d.phases.Of(q))
      ensures retries == 0 ==> SettledDone(cfg, d, q)
    {
      assert Listed(s.candidates, q, s.phases.Of(q).ids) && InBudget(cfg, s.current, q, s.phases.Of(q));
      assert d.phases.Of(q).ids == s.phases.Of(q).ids && Settled(cfg, d, q) == Settled(cfg, s, q);
      assert retries == 0 ==> SettledDone(cfg, s, q);
    }
  }

  // ---- validation ----

  lemma {:induction false} SelectedBounded(s: State, ranked: seq<nat>, count: nat)
    requires count >= 1
    ensures |Selected(s, ranked, count)| <= count
    decreases |ranked|
  {
    if ranked != [] {
      SelectedBounded(s, ranked[..|ranked| - 1], count);
    }
  }

  lemma {:induction false} AddValidationExtends(cfg: Config, input: Input, s: State, selected: seq<nat>, n: nat,
                                                batches: nat -> nat)
    requires n <= |selected| * |cfg.seeds| && forall k :: batches(k) == BatchNumber(k)
    ensures Extends(s, AddValidation(cfg, input, s, selected, n), Validation, n, batches)
  {
    if n == 0 {
      assert s.candidates[..|s.candidates|] == s.candidates;
      assert s.phases.validation.ids + seq(0, k requires 0 <= k < 0 => |s.candidates| + k) == s.phases.validation.ids;
    } else {
      AddValidationExtends(cfg, input, s, selected, n - 1, batches);
      var before := AddValidation(cfg, input, s, selected, n - 1);
      AddValidationStep(cfg, input, s, selected, n);
      hide Extends, AddOne, ParamsOf, AddValidation;
      AddOneExtends(s, before, Validation, n - 1, batches, input.names(|before.candidates|),
                    ValidationParams(cfg, before, selected, n - 1));
    }
  }

  lemma AddValidationStep(cfg: Config, input: Input, s: State, selected: seq<nat>, n: nat)
    requires 0 < n <= |selected| * |cfg.seeds|
    ensures var before := AddValidation(cfg, input, s, selected, n - 1);
            AddValidation(cfg, input, s, selected, n)
            == AddOne(before, Validation, input.names(|before.candidates|), BatchNumber(n - 1),
                      ValidationParams(cfg, before, selected, n - 1))
  {
    IndexInRange(n - 1, |selected|, |cfg.seeds|);
    hide AddOne, ParamsOf;
  }

  /** Validation candidates are created all at once, and then fill the budget exactly. */
  lemma ValidationExtends(cfg: Config, input: Input, s: State, batches: nat -> nat)
    requires ValidConfig(cfg) && s.phases.validation.ids == [] && CreateValidation(cfg, input, s).Some?
    requires forall k :: batches(k) == BatchNumber(k)
    ensures var s1 := s.(phases := s.phases.(validation := s.phases.validation.(status := Active)));
            var d := CreateValidation(cfg, input, s).value;
            Extends(s1, d, Validation, Budget(cfg, Validation), batches)
                && |d.phases.validation.ids| == Budget(cfg, Validation)
  {
    var s1 := s.(phases := s.phases.(validation := s.phases.validation.(status := Active)));
    var selected := Selected(s, Ranking(s), cfg.finalists);
    SelectedBounded(s, Ranking(s), cfg.finalists);
    var n := |selected| * |cfg.seeds|;
    AddValidationExtends(cfg, input, s1, selected, n, batches);
    var added := AddValidation(cfg, input, s1, selected, n);
    Renumbered(s1, added, Validation, n, batches, (|added.phases.validation.ids| + 3) / BATCH);
    hide AddValidation, Selected, Ranking, ActiveCount;
    assert n == Budget(cfg, Validation);
  }

  lemma ValidationKeeps(cfg: Config, input: Input, s: State, server: map<string, Status>, retries: nat)
    requires ValidConfig(cfg) && Creates(cfg, s, server, retries, Validation)
    ensures var d := CreateValidation(cfg, input, s);
            d.Some? ==> Creates(cfg, d.value, server, retries, Validation) && s.candidates <= d.value.candidates
  {
    var d := CreateValidation(cfg, input, s);
    if d.Some? && s.phases.validation.ids == [] {
      var s1 := s.(phases := s.phases.(validation := s.phases.validation.(status := Active)));
      StatusOnly(cfg, s, Validation, Active, server, retries);
      assert s1 == s.(phases := s.phases.With(Validation, s.phases.Of(Validation).(status := Active)));
      var batches: nat -> nat := k => BatchNumber(k);
      ValidationExtends(cfg, input, s, batches);
      hide CreateValidation, AddValidation, Selected, Ranking, Inv, ActiveCount, Done, TerminalsDone, IsNew, Budget;
      var n := Budget(cfg, Validation);
      ExtendedTerminals(cfg, s1, d.value, Validation, n, batches);
      assert InBudget(cfg, d.value.current, Validation, d.value.phases.Of(Validation));
      assert SettledDone(cfg, d.value, Validation);
      ExtendedInv(cfg, server, retries, s1, d.value, Validation, n, batches);
    }
  }

  // ---- submitting ----

  ghost predicate Distinct(s: seq<nat>) {
    forall j, k :: 0 <= j < k < |s| ==> s[j] != s[k]
  }

  lemma {:induction false} DistinctCounts(s: seq<nat>)
    ensures Distinct(s) <==> forall x :: multiset(s)[x] <= 1
    decreases |s|
  {
    if s != [] {
      var front, last := s[..|s| - 1], s[|s| - 1];
      assert s == front + [last];
      DistinctCounts(front);
      if Distinct(s) {
        assert last !in front;
      }
      if forall x :: multiset(s)[x] <= 1 {
        assert forall x :: multiset(front)[x] <= multiset(s)[x];
        assert multiset(s)[last] == multiset(front)[last] + 1;
        assert last !in multiset(front);
      }
    }
  }

  lemma {:induction false} PlannedDistinct(s: State, ids: seq<nat>)
    requires Distinct(ids)
    ensures Distinct(OnlyPlanned(s, ids))
    decreases |ids|
  {
    if ids != [] {
      var front, last := ids[..|ids| - 1], ids[|ids| - 1];
      PlannedDistinct(s, front);
      assert last !in front;
    }
  }

  /** The chosen candidates are distinct planned candidates of the phase, and they fit the free slots. */
  lemma ChosenFit(s: State, p: Phase)
    requires Listed(s.candidates, p, s.phases.Of(p).ids) && ActiveCount(s.candidates) <= SLOTS
    ensures var c := Chosen(s, p);
            && Distinct(c) && |c| + ActiveCount(s.candidates) <= SLOTS
            && forall i :: i in c ==> i < |s.candidates| && s.candidates[i].status == Planned && i in s.phases.Of(p).ids
  {
    var ids := s.phases.Of(p).ids;
    var sorted := Sort(ids, Earliest(s));
    assert Distinct(ids);
    SortDistinct(ids, Earliest(s));
    hide Sort, ActiveCount, Earliest, Listed, Distinct;
    PlannedDistinct(s, sorted);
    var planned := OnlyPlanned(s, sorted);
    DistinctPrefix(planned, if |planned| <= Slots(s.candidates) then |planned| else Slots(s.candidates));
    assert planned[..|planned|] == planned;
  }

  lemma SortDistinct(s: seq<nat>, before: (nat, nat) -> bool)
    requires Distinct(s)
    ensures Distinct(Sort(s, before)) && forall x :: x in Sort(s, before) <==> x in s
  {
    DistinctCounts(s);
    SortHolds(s, before);
    SortMembers(s, before);
    hide Sort, Distinct;
    assert forall x :: multiset(Sort(s, before))[x] == multiset(s)[x];
    DistinctCounts(Sort(s, before));
  }

  lemma DistinctPrefix(s: seq<nat>, n: nat)
    requires n <= |s| && Distinct(s)
    ensures Distinct(s[..n]) && forall x :: x in s[..n] ==> x in s
  {
  }

  /** Submissions leave every candidate that is not planned as it is. */
  ghost predicate Steady(t: Candidate, u: Candidate) {
    u.id == t.id && u.phase == t.phase && u.batch == t.batch && u.params == t.params && (t.status != Planned ==> u == t)
  }

  lemma SubmitOneOK(cfg: Config, e: Event, retries: nat, t: Candidate, n: nat)
    requires n < SLOTS && CandidateOK(cfg, e.server, retries, t) && t.status == Planned
    requires e.input.created(n).0 in e.server && e.input.created(n).1 != Failed
    requires Forward(e.input.created(n).1, e.server[e.input.created(n).0])
    ensures var u := SubmitOne(t, e.input.created(n).0, e.input.created(n).1);
            CandidateOK(cfg, e.server, retries, u) && Steady(t, u) && !IsTerminal(u)
  {
  }

  ghost predicate Sends(candidates: seq<Candidate>, after: seq<Candidate>, chosen: seq<nat>) {
    && |after| == |candidates|
    && (forall i ::
        0 <= i < |candidates| ==>
            Steady(candidates[i], after[i]) && (IsTerminal(after[i]) ==> after[i] == candidates[i]))
    && (forall i :: 0 <= i < |candidates| && i !in chosen ==> after[i] == candidates[i])
  }

  lemma {:induction false} SubmittedKeeps(cfg: Config, server: map<string, Status>, e: Event, retries: nat,
                                          candidates: seq<Candidate>, chosen: seq<nat>, n: nat)
    requires Honest(server, e) && AllOK(cfg, e.server, retries, candidates) && n <= |chosen| <= SLOTS
        && Distinct(chosen)
    requires forall i :: i in chosen ==> i < |candidates| && candidates[i].status == Planned
    ensures var after := Submitted(e.input, candidates, chosen, n);
            AllOK(cfg, e.server, retries, after) && Sends(candidates, after, chosen[..n])
                && ActiveCount(after) <= ActiveCount(candidates) + n
  {
    hide CandidateOK, SubmitOne, Steady, IsTerminal, ActiveCount, IsActive;
    if n == 0 {
      SteadySelf(candidates);
    } else {
      SubmittedKeeps(cfg, server, e, retries, candidates, chosen, n - 1);
      var before, i := Submitted(e.input, candidates, chosen, n - 1), chosen[n - 1];
      assert i in chosen && i !in chosen[..n - 1];
      assert before[i] == candidates[i];
      SubmitOneOK(cfg, e, retries, candidates[i], n - 1);
      UpdateActive(before, i, SubmitOne(before[i], e.input.created(n - 1).0, e.input.created(n - 1).1));
      assert forall j :: j in chosen[..n - 1] ==> j in chosen[..n];
      assert i in chosen[..n];
    }
  }

  lemma SteadySelf(candidates: seq<Candidate>)
    ensures forall i :: 0 <= i < |candidates| ==> Steady(candidates[i], candidates[i])
  {
  }

  lemma SteadySettled(cfg: Config, s: State, after: seq<Candidate>, chosen: seq<nat>, p: Phase)
    requires SettledDone(cfg, s, p) && Sends(s.candidates, after, chosen)
    ensures SettledDone(cfg, s.(candidates := after), p)
  {
    var ids := s.phases.Of(p).ids;
    assert Settled(cfg, s.(candidates := after), p) == Settled(cfg, s, p);
    forall k | 0 <= k < Settled(cfg, s, p)
      ensures ids[k] < |after| && Done(cfg, after[ids[k]])
    {
      assert Steady(s.candidates[ids[k]], after[ids[k]]);
    }
  }

  /** At most four runs are in flight after submitting, and nothing finished is touched. */
  lemma SentKeeps(cfg: Config, s: State, server: map<string, Status>, e: Event, retries: nat, p: Phase, n: nat)
    requires Honest(server, e) && Creates(cfg, s, e.server, retries, p)
    ensures var d := Sent(s, e.input, p, n);
            Creates(cfg, d, e.server, retries, p) && Sends(s.candidates, d.candidates, Chosen(s, p))
                && d.phases == s.phases
  {
    var chosen := Chosen(s, p);
    assert Listed(s.candidates, p, s.phases.Of(p).ids);
    ChosenFit(s, p);
    var m := if n <= |chosen| then n else |chosen|;
    var d := Sent(s, e.input, p, n);
    hide Chosen, Shaped, SettledDone, Honest, ActiveCount, Done, CandidateOK;
    SubmittedKeeps(cfg, server, e, retries, s.candidates, chosen, m);
    hide Submitted, Distinct;
    SendsWiden(s.candidates, d.candidates, chosen, m);
    SendsTerminals(cfg, s.candidates, d.candidates, chosen);
    hide Sends, AllOK, TerminalsDone, Sent;
    SendsShaped(cfg, s, d, chosen);
    if retries == 0 {
      forall q
        ensures SettledDone(cfg, d, q)
      {
        SteadySettled(cfg, s, d.candidates, chosen, q);
      }
    }
  }

  lemma SendsWiden(candidates: seq<Candidate>, after: seq<Candidate>, chosen: seq<nat>, m: nat)
    requires m <= |chosen| && Sends(candidates, after, chosen[..m])
    ensures Sends(candidates, after, chosen)
  {
    assert forall i :: i in chosen[..m] ==> i in chosen;
    hide Steady, IsTerminal;
  }

  lemma SendsTerminals(cfg: Config, candidates: seq<Candidate>, after: seq<Candidate>, chosen: seq<nat>)
    requires Sends(candidates, after, chosen) && TerminalsDone(cfg, candidates)
    ensures TerminalsDone(cfg, after)
  {
    hide Steady, IsTerminal, Done;
  }

  lemma SendsShaped(cfg: Config, s: State, d: State, chosen: seq<nat>)
    requires Shaped(cfg, s) && Sends(s.candidates, d.candidates, chosen) && d == s.(candidates := d.candidates)
    ensures Shaped(cfg, d)
  {
    hide InBudget;
    forall q
      ensures Listed(d.candidates, q, d.phases.Of(q).ids) && InBudget(cfg, d.current, q, d.phases.Of(q))
    {
      assert Listed(s.candidates, q, s.phases.Of(q).ids) && InBudget(cfg, s.current, q, s.phases.Of(q));
      assert forall i :: 0 <= i < |s.candidates| ==> Steady(s.candidates[i], d.candidates[i]);
    }
  }

  // ---- advancing ----

  lemma AdvanceKeeps(cfg: Config, s: State, server: map<string, Status>, retries: nat, p: Phase)
    requires Creates(cfg, s, server, retries, p)
    ensures Inv(cfg, AdvanceIfReady(cfg, s, p), server, retries) && AdvanceIfReady(cfg, s, p).candidates == s.candidates
  {
    var d := AdvanceIfReady(cfg, s, p);
    if d != s {
      FinishedIsDone(cfg, s, p);
      hide AllOK, ActiveCount, Done, Budget, PhaseFinished, TerminalsDone;
      assert CurrentRank(d.current) == Rank(p) + 1;
      forall q
        ensures Listed(d.candidates, q, d.phases.Of(q).ids) && InBudget(cfg, d.current, q, d.phases.Of(q))
        ensures retries == 0 ==> SettledDone(cfg, d, q)
      {
        assert Listed(s.candidates, q, s.phases.Of(q).ids) && InBudget(cfg, s.current, q, s.phases.Of(q));
        assert d.phases.Of(q).ids == s.phases.Of(q).ids && d.phases.Of(q).batches == s.phases.Of(q).batches;
        SameRank(p, q);
        if retries == 0 && q != p {
          assert Settled(cfg, d, q) == Settled(cfg, s, q);
          assert SettledDone(cfg, s, q);
          SettledSame(cfg, s, d, q);
        }
      }
    }
  }

  lemma SettledSame(cfg: Config, s: State, d: State, q: Phase)
    requires SettledDone(cfg, s, q) && d.candidates == s.candidates && d.phases.Of(q).ids == s.phases.Of(q).ids
    requires Settled(cfg, d, q) == Settled(cfg, s, q)
    ensures SettledDone(cfg, d, q)
  {
    hide Settled, Done;
  }

  lemma SameRank(p: Phase, q: Phase)
    ensures Rank(p) == Rank(q) <==> p == q
  {
  }

  // ---- whole polls ----

  lemma FetchedKeeps(cfg: Config, s: State, server: map<string, Status>, e: Event, retries: nat)
    requires Honest(server, e) && Inv(cfg, s, server, retries)
    ensures var d := Fetched(cfg, s, e.input);
            Inv(cfg, d, e.server, retries) && TerminalsDone(cfg, d.candidates)
                && AllCalm(cfg, s.candidates, d.candidates)
  {
    hide Reconciled, Collected, CandidateOK, Calms, Done, IsTerminal, Shaped, ActiveCount, SettledDone;
    var reconciled := Reconciled(e.input.listing, s.candidates, |s.candidates|);
    ReconciledKeeps(cfg, server, e, retries, s.candidates, |s.candidates|);
    CollectedKeeps(cfg, e.server, retries, e.input.answers, reconciled, |s.candidates|);
    var collected := Collected(cfg, e.input.answers, reconciled, |s.candidates|);
    CalmTrans(cfg, s.candidates, reconciled, collected);
    CalmKeeps(cfg, s, collected, server, e.server, retries);
  }

  /** The first stages, interrupted anywhere. */
  lemma PartlyFetched(cfg: Config, s: State, server: map<string, Status>, e: Event, retries: nat, n: nat)
    requires Honest(server, e) && Inv(cfg, s, server, retries) && n <= |s.candidates|
    ensures var reconciled := Reconciled(e.input.listing, s.candidates, n);
            Inv(cfg, s.(candidates := reconciled), e.server, retries) && AllCalm(cfg, s.candidates, reconciled)
    ensures var collected :=
        Collected(cfg, e.input.answers, Reconciled(e.input.listing, s.candidates, |s.candidates|), n);
            Inv(cfg, s.(candidates := collected), e.server, retries) && AllCalm(cfg, s.candidates, collected)
  {
    hide Reconciled, Collected, CandidateOK, Calms, Done, IsTerminal, Shaped, ActiveCount, SettledDone;
    ReconciledKeeps(cfg, server, e, retries, s.candidates, n);
    CalmKeeps(cfg, s, Reconciled(e.input.listing, s.candidates, n), server, e.server, retries);
    var reconciled := Reconciled(e.input.listing, s.candidates, |s.candidates|);
    ReconciledKeeps(cfg, server, e, retries, s.candidates, |s.candidates|);
    CollectedKeeps(cfg, e.server, retries, e.input.answers, reconciled, n);
    CalmTrans(cfg, s.candidates, reconciled, Collected(cfg, e.input.answers, reconciled, n));
    CalmKeeps(cfg, s, Collected(cfg, e.input.answers, reconciled, n), server, e.server, retries);
  }

  lemma ActivateKeeps(cfg: Config, s: State, server: map<string, Status>, retries: nat, p: Phase)
    requires Creates(cfg, s, server, retries, p)
    ensures var d := Activate(s, p);
            d.Some? ==> Creates(cfg, d.value, server, retries, p) && d.value.candidates == s.candidates
  {
    StatusOnly(cfg, s, p, Active, server, retries);
    hide Inv, HasValid, TerminalsDone;
  }

  lemma PreparedKeeps(cfg: Config, s: State, input: Input, server: map<string, Status>, retries: nat, p: Phase)
    requires ValidConfig(cfg) && Creates(cfg, s, server, retries, p)
    ensures var d := Prepared(cfg, s, input, p);
            d.Some? ==> Creates(cfg, d.value, server, retries, p) && s.candidates <= d.value.candidates
  {
    hide Creates, Activate, Filled, Adapted, CreateValidation, ValidConfig;
    if p == Validation {
      ValidationKeeps(cfg, input, s, server, retries);
    } else {
      ActivateKeeps(cfg, s, server, retries, p);
      var active := Activate(s, p);
      if active.Some? {
        FilledKeeps(cfg, input, active.value, p, cfg.initial(p), server, retries);
        AdaptedKeeps(cfg, input, Filled(cfg, input, active.value, p, cfg.initial(p)), p, server, retries);
      }
    }
  }

  /** A valid candidate never changes again. */
  ghost predicate ValidKept(candidates: seq<Candidate>, after: seq<Candidate>) {
    |candidates| <= |after|
        && forall i :: 0 <= i < |candidates| && candidates[i].status == Valid ==> after[i] == candidates[i]
  }

  /** Between manual retries, a candidate that is done stays done. */
  ghost predicate DoneKept(cfg: Config, candidates: seq<Candidate>, after: seq<Candidate>) {
    |candidates| <= |after| && forall i :: 0 <= i < |candidates| && Done(cfg, candidates[i]) ==> Done(cfg, after[i])
  }

  ghost predicate Kept(cfg: Config, candidates: seq<Candidate>, after: seq<Candidate>) {
    ValidKept(candidates, after) && DoneKept(cfg, candidates, after)
  }

  lemma CalmIsKept(cfg: Config, candidates: seq<Candidate>, after: seq<Candidate>, later: seq<Candidate>)
    requires AllCalm(cfg, candidates, after) && after <= later
    ensures Kept(cfg, candidates, later)
  {
    hide Done, IsActive;
    assert forall i :: 0 <= i < |candidates| ==> Calms(cfg, candidates[i], after[i]) && later[i] == after[i];
  }

  lemma SendsIsKept(cfg: Config, candidates: seq<Candidate>, after: seq<Candidate>, later: seq<Candidate>,
                    chosen: seq<nat>)
    requires Kept(cfg, candidates, after) && Sends(after, later, chosen)
    ensures Kept(cfg, candidates, later)
  {
    assert forall i :: 0 <= i < |after| ==> Steady(after[i], later[i]);
  }

  lemma StillOK(cfg: Config, s: State, server: map<string, Status>, e: Event, retries: nat)
    requires Honest(server, e) && Inv(cfg, s, server, retries)
    ensures Inv(cfg, s, e.server, retries) && Kept(cfg, s.candidates, s.candidates)
  {
    hide ActiveCount, Shaped, SettledDone, CandidateOK, Honest;
    forall i | 0 <= i < |s.candidates|
      ensures CandidateOK(cfg, e.server, retries, s.candidates[i])
    {
      LaterServer(cfg, server, e, retries, s.candidates[i]);
    }
  }

  lemma PreparedPoll(cfg: Config, s: State, server: map<string, Status>, e: Event, retries: nat, p: Phase, n: nat)
    requires ValidConfig(cfg) && Honest(server, e) && Inv(cfg, s, server, retries) && s.current == In(p)
    ensures var d := Prepared(cfg, Fetched(cfg, s, e.input), e.input, p);
            d.Some? ==>
              && Creates(cfg, Sent(d.value, e.input, p, n), e.server, retries, p)
              && Kept(cfg, s.candidates, Sent(d.value, e.input, p, n).candidates)
  {
    var fetched := Fetched(cfg, s, e.input);
    assert fetched.current == s.current;
    FetchedKeeps(cfg, s, server, e, retries);
    assert Creates(cfg, fetched, e.server, retries, p);
    hide Fetched, Prepared, Sent, Creates, Inv, AllCalm, Kept, Sends, Honest, ValidConfig, TerminalsDone;
    PreparedKeeps(cfg, fetched, e.input, e.server, retries, p);
    var d := Prepared(cfg, fetched, e.input, p);
    if d.Some? {
      CalmIsKept(cfg, s.candidates, fetched.candidates, d.value.candidates);
      SentKeeps(cfg, d.value, server, e, retries, p, n);
      SendsIsKept(cfg, s.candidates, d.value.candidates, Sent(d.value, e.input, p, n).candidates, Chosen(d.value, p));
    }
  }

  lemma CreatingPoll(cfg: Config, s: State, server: map<string, Status>, e: Event, retries: nat, p: Phase, m: nat)
    requires ValidConfig(cfg) && Honest(server, e) && Inv(cfg, s, server, retries) && s.current == In(p)
        && p != Validation
    ensures var fetched := Fetched(cfg, s, e.input);
            var d := Activate(fetched, p);
            && Inv(cfg, fetched, e.server, retries) && Kept(cfg, s.candidates, fetched.candidates)
            && (d.Some? ==>
                var f := Filled(cfg, e.input, d.value, p, m);
                Inv(cfg, f, e.server, retries) && Kept(cfg, s.candidates, f.candidates))
  {
    var fetched := Fetched(cfg, s, e.input);
    assert fetched.current == s.current;
    FetchedKeeps(cfg, s, server, e, retries);
    CalmIsKept(cfg, s.candidates, fetched.candidates, fetched.candidates);
    hide Fetched, Filled, Activate, Inv, AllCalm, Kept, Honest, ValidConfig, TerminalsDone;
    ActivateKeeps(cfg, fetched, e.server, retries, p);
    var d := Activate(fetched, p);
    if d.Some? {
      FilledKeeps(cfg, e.input, d.value, p, m, e.server, retries);
      CalmIsKept(cfg, s.candidates, fetched.candidates, Filled(cfg, e.input, d.value, p, m).candidates);
    }
  }

  /** Wherever a poll stops, the invariant holds, and valid and done candidates are kept. */
  lemma PollKeeps(cfg: Config, s: State, server: map<string, Status>, e: Event, retries: nat)
    requires ValidConfig(cfg) && Honest(server, e) && Inv(cfg, s, server, retries)
    ensures var d := Poll(cfg, s, e.input, e.at);
            Inv(cfg, d, e.server, retries) && Kept(cfg, s.candidates, d.candidates)
  {
    StillOK(cfg, s, server, e, retries);
    if s.current != Finished {
      var p := s.current.phase;
      hide Inv, Kept, Honest, ValidConfig, Poll;
      match e.at
      case Before => BeforeIs(cfg, s, e.input);
      case Reconciling(n) => FetchingPoll(cfg, s, server, e, retries, n);
      case Collecting(n) => FetchingPoll(cfg, s, server, e, retries, n);
      case Creating(m) => CreatingKeeps(cfg, s, server, e, retries, p, m);
      case Submitting(n) => SubmittingKeeps(cfg, s, server, e, retries, p, n);
      case Whole => WholeKeeps(cfg, s, server, e, retries, p);
    } else {
      FinishedIs(cfg, s, e.input, e.at);
    }
  }

  lemma BeforeIs(cfg: Config, s: State, input: Input)
    ensures Poll(cfg, s, input, Before) == s
  {
  }

  lemma FinishedIs(cfg: Config, s: State, input: Input, at: Point)
    requires s.current == Finished
    ensures Poll(cfg, s, input, at) == s
  {
  }

  /** A whole poll fetches, creates, submits and moves on, in this order; without a phase to start
      from it leaves the study as it is. */
  lemma WholeIs(cfg: Config, s: State, input: Input, p: Phase)
    requires s.current == In(p)
    ensures var d := Prepared(cfg, Fetched(cfg, s, input), input, p);
            Poll(cfg, s, input, Whole) == if d.None? then s else AdvanceIfReady(cfg, Sent(d.value, input, p, SLOTS), p)
  {
    hide Fetched, Prepared, Sent, AdvanceIfReady;
  }

  lemma WholeKeeps(cfg: Config, s: State, server: map<string, Status>, e: Event, retries: nat, p: Phase)
    requires ValidConfig(cfg) && Honest(server, e) && Inv(cfg, s, server, retries) && s.current == In(p)
    ensures var d :=
        Poll(cfg, s, e.input, Whole); Inv(cfg, d, e.server, retries) && Kept(cfg, s.candidates, d.candidates)
  {
    WholeIs(cfg, s, e.input, p);
    StillOK(cfg, s, server, e, retries);
    PreparedPoll(cfg, s, server, e, retries, p, SLOTS);
    var d := Prepared(cfg, Fetched(cfg, s, e.input), e.input, p);
    hide Inv, Kept, Honest, ValidConfig, Poll, Fetched, Prepared, Sent, AdvanceIfReady;
    if d.Some? {
      AdvanceKeeps(cfg, Sent(d.value, e.input, p, SLOTS), e.server, retries, p);
    }
  }

  lemma SubmittingKeeps(cfg: Config, s: State, server: map<string, Status>, e: Event, retries: nat, p: Phase, n: nat)
    requires ValidConfig(cfg) && Honest(server, e) && Inv(cfg, s, server, retries) && s.current == In(p)
    ensures var d :=
        Poll(cfg, s, e.input, Submitting(n)); Inv(cfg, d, e.server, retries) && Kept(cfg, s.candidates, d.candidates)
  {
    SubmittingIs(cfg, s, e.input, p, n);
    StillOK(cfg, s, server, e, retries);
    PreparedPoll(cfg, s, server, e, retries, p, n);
    hide Inv, Kept, Honest, ValidConfig, Poll, Fetched, Prepared, Sent;
  }

  lemma SubmittingIs(cfg: Config, s: State, input: Input, p: Phase, n: nat)
    requires s.current == In(p)
    ensures var d := Prepared(cfg, Fetched(cfg, s, input), input, p);
            Poll(cfg, s, input, Submitting(n)) == if d.None? then s else Sent(d.value, input, p, n)
  {
    hide Fetched, Prepared, Sent;
  }

  lemma CreatingKeeps(cfg: Config, s: State, server: map<string, Status>, e: Event, retries: nat, p: Phase, m: nat)
    requires ValidConfig(cfg) && Honest(server, e) && Inv(cfg, s, server, retries) && s.current == In(p)
    ensures var d :=
        Poll(cfg, s, e.input, Creating(m)); Inv(cfg, d, e.server, retries) && Kept(cfg, s.candidates, d.candidates)
  {
    StillOK(cfg, s, server, e, retries);
    WholeFetch(cfg, s, server, e, retries);
    if p != Validation {
      CreatingPoll(cfg, s, server, e, retries, p, m);
    }
    hide Inv, Kept, Honest, ValidConfig, Fetched, Activate, Filled;
  }

  lemma WholeFetch(cfg: Config, s: State, server: map<string, Status>, e: Event, retries: nat)
    requires Honest(server, e) && Inv(cfg, s, server, retries)
    ensures var d := Fetched(cfg, s, e.input); Inv(cfg, d, e.server, retries) && Kept(cfg, s.candidates, d.candidates)
  {
    FetchedKeeps(cfg, s, server, e, retries);
    CalmIsKept(cfg, s.candidates, Fetched(cfg, s, e.input).candidates, Fetched(cfg, s, e.input).candidates);
  }

  lemma FetchingPoll(cfg: Config, s: State, server: map<string, Status>, e: Event, retries: nat, n: nat)
    requires Honest(server, e) && Inv(cfg, s, server, retries) && s.current != Finished
    ensures forall at :: at == Reconciling(n) || at == Collecting(n) ==>
              var d := Poll(cfg, s, e.input, at);
              Inv(cfg, d, e.server, retries) && Kept(cfg, s.candidates, d.candidates)
  {
    var m := if n <= |s.candidates| then n else |s.candidates|;
    PartlyFetched(cfg, s, server, e, retries, m);
    var reconciled := Reconciled(e.input.listing, s.candidates, m);
    var collected := Collected(cfg, e.input.answers, Reconciled(e.input.listing, s.candidates, |s.candidates|), m);
    hide Inv, Kept, Honest, AllCalm, Reconciled, Collected;
    CalmIsKept(cfg, s.candidates, reconciled, reconciled);
    CalmIsKept(cfg, s.candidates, collected, collected);
  }

  lemma RetryAllKeeps(cfg: Config, s: State, server: map<string, Status>, retries: nat)
    requires Inv(cfg, s, server, retries)
    ensures Inv(cfg, s.(candidates := RetryAll(s.candidates)), server, retries + 1)
    ensures ValidKept(s.candidates, RetryAll(s.candidates))
  {
    var after := RetryAll(s.candidates);
    FewerActive(s.candidates, after);
    forall i | 0 <= i < |after|
      ensures CandidateOK(cfg, server, retries + 1, after[i])
    {
      RetryKeeps(cfg, server, retries, s.candidates[i]);
    }
    forall p
      ensures Listed(after, p, s.phases.Of(p).ids)
    {
      assert Listed(s.candidates, p, s.phases.Of(p).ids);
    }
    hide AllOK, CandidateOK, ActiveCount, Listed, InBudget, RetryAll;
  }

  // ---- runs ----

  lemma StartKeeps(cfg: Config)
    requires ValidConfig(cfg)
    ensures Inv(cfg, START, map[], 0)
  {
    forall p
      ensures Listed([], p, START.phases.Of(p).ids) && InBudget(cfg, START.current, p, START.phases.Of(p))
          && SettledDone(cfg, START, p)
    {
      assert START.phases.Of(p) == NO_PHASE && Settled(cfg, START, p) == 0;
    }
  }

  lemma {:induction false} RunKeeps(cfg: Config, events: seq<Event>)
    requires ValidConfig(cfg) && HonestRun(cfg, events)
    ensures var w := Run(cfg, events); Inv(cfg, w.state, w.server, w.retries)
    decreases |events|
  {
    if events == [] {
      StartKeeps(cfg);
    } else {
      var front, e := events[..|events| - 1], events[|events| - 1];
      RunKeeps(cfg, front);
      var w := Run(cfg, front);
      PollKeeps(cfg, w.state, w.server, e, w.retries);
      hide Inv, Poll, RetryAll, ValidConfig, HonestRun, Honest;
      if e.retry {
        RetryAllKeeps(cfg, Poll(cfg, w.state, e.input, e.at), e.server, w.retries);
      }
    }
  }
}
