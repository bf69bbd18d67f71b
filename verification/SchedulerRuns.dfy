/** A run of the calibration scheduler that reaches a stalled phase
    (vehicle_calibration/calibrate.py). */
module SchedulerRuns {
  import opened Wrappers
  import opened Sorting
  import opened SchedulerModel
  import opened SchedulerSafety
  import opened SchedulerResults
  import Parameters

  // ---- how a phase stalls ----

  /** The k-th candidate of the phase, at work on this run. */
  ghost predicate WorksOn(s: State, p: Phase, k: nat, run: string) {
    && k < |s.phases.Of(p).ids| && s.phases.Of(p).ids[k] < |s.candidates|
    && IsActive(s.candidates[s.phases.Of(p).ids[k]]) && s.candidates[s.phases.Of(p).ids[k]].run == Some(run)
  }

  /** A candidate whose run ends with a score that is not valid and that has no attempt left
      stalls its phase if another candidate of the phase is still running. */
  lemma BecomesStuck(cfg: Config, s: State, input: Input, p: Phase, k: nat, run: string, j: nat, other: string)
    requires s.current == In(p) && p != Validation && Prepared(cfg, Fetched(cfg, s, input), input, p).Some?
    requires WorksOn(s, p, k, run) && WorksOn(s, p, j, other)
    requires run in input.listing && input.listing[run] == Completed && other in input.listing
        && input.listing[other] == Running
    requires var i := s.phases.Of(p).ids[k];
             && s.candidates[i].score.None? && s.candidates[i].attempt as int > cfg.retryLimit
             && input.answers(i).Scored? && !input.answers(i).score.valid
    ensures StuckAt(Poll(cfg, s, input, Whole), p, k, run)
  {
    var i, o := s.phases.Of(p).ids[k], s.phases.Of(p).ids[j];
    var fetched := Fetched(cfg, s, input);
    assert fetched.candidates[i] == CollectOne(cfg, input.answers(i), ReconcileOne(input.listing, s.candidates[i]));
    assert fetched.candidates[o] == CollectOne(cfg, input.answers(o), ReconcileOne(input.listing, s.candidates[o]));
    assert Stuck(fetched.candidates[i], run) && fetched.candidates[o].status == Running && fetched.phases == s.phases;
    WholeIs(cfg, s, input, p);
    var d := Prepared(cfg, fetched, input, p).value;
    PreparedGains(cfg, fetched, input, p);
    hide Poll, Fetched, Prepared, Sent, AdvanceIfReady;
    StillThere(d, input, p, SLOTS, i);
    StillThere(d, input, p, SLOTS, o);
    NeverReady(cfg, Sent(d, input, p, SLOTS), p, j);
  }

  // ---- the first poll of a small study ----

  /** One batch of four in every phase, and one retry. */
  const SMALL := Config(p => 4, p => 4, 1, [1], 1, 1)

  function RunName(n: nat): string {
    if n == 0 then "r0" else if n == 1 then "r1" else if n == 2 then "r2" else "r3"
  }

  function RetryName(n: nat): string {
    if n == 0 then "s0" else if n == 1 then "s1" else if n == 2 then "s2" else "s3"
  }

  function Told(listing: map<string, Status>, retry: bool): Input {
    Input(listing, n => Scored(Score(false, 0.0)), n => Parameters.Params(n, [], [], 0), n => "candidate",
          (n: nat) => (if retry then RetryName(n) else RunName(n), Running))
  }

  const SUBMITTED: map<string, Status> := map["r0" := Running, "r1" := Running, "r2" := Running, "r3" := Running]
  const ENDED := SUBMITTED["r0" := Completed]
  const RETRIED: map<string, Status> := ENDED["s0" := Running]["s1" := Running]["s2" := Running]["s3" := Running]
  const ENDED_AGAIN := RETRIED["s0" := Completed]

  /** Four runs are started; the first ends with a score that is not valid and is retried; the
      retry ends like that too; the scheduler polls once more. */
  const FIRST := Event(Told(map[], false), Whole, SUBMITTED, false)
  const SECOND := Event(Told(ENDED, true), Whole, RETRIED, false)
  const THIRD := Event(Told(ENDED_AGAIN, true), Whole, ENDED_AGAIN, false)

  ghost predicate ArePlanned(s: State, ids: seq<nat>) {
    forall k :: 0 <= k < |ids| ==> ids[k] < |s.candidates| && s.candidates[ids[k]].status == Planned
  }

  lemma {:induction false} AllPlanned(s: State, ids: seq<nat>)
    requires ArePlanned(s, ids)
    ensures OnlyPlanned(s, ids) == ids
    decreases |ids|
  {
    if ids != [] {
      var front, last := ids[..|ids| - 1], ids[|ids| - 1];
      assert ids == front + [last] && ArePlanned(s, front);
      assert last < |s.candidates| && s.candidates[last].status == Planned;
      AllPlanned(s, front);
      hide ArePlanned;
    }
  }

  lemma {:induction false} NoneActive(candidates: seq<Candidate>)
    requires forall t :: t in candidates ==> t.status == Planned
    ensures ActiveCount(candidates) == 0
    decreases |candidates|
  {
    if candidates != [] {
      NoneActive(candidates[..|candidates| - 1]);
    }
  }

  lemma {:induction false} SubmittedAt(input: Input, candidates: seq<Candidate>, chosen: seq<nat>, n: nat, k: nat)
    requires Distinct(chosen) && k < n <= |chosen| && chosen[k] < |candidates|
    ensures Submitted(input, candidates, chosen, n)[chosen[k]]
            == SubmitOne(candidates[chosen[k]], input.created(k).0, input.created(k).1)
  {
    if k < n - 1 {
      SubmittedAt(input, candidates, chosen, n - 1, k);
    } else {
      assert chosen[k] !in chosen[..k];
      SubmittedPrefix(input, candidates, chosen, k, chosen[k]);
    }
  }

  lemma {:induction false} SubmittedPrefix(input: Input, candidates: seq<Candidate>, chosen: seq<nat>, n: nat, i: nat)
    requires n <= |chosen| && i < |candidates| && i !in chosen[..n]
    ensures Submitted(input, candidates, chosen, n)[i] == candidates[i]
  {
    if n > 0 {
      assert chosen[..n][..n - 1] == chosen[..n - 1] && chosen[..n][n - 1] == chosen[n - 1];
      assert forall x :: x in chosen[..n - 1] ==> x in chosen[..n];
      SubmittedPrefix(input, candidates, chosen, n - 1, i);
    }
  }

  /** Four planned candidates are all chosen. */
  lemma AllChosen(s: State, p: Phase)
    requires |s.candidates| == 4 && s.phases.Of(p).ids == [0, 1, 2, 3]
    requires forall t :: t in s.candidates ==> t.status == Planned
    ensures var c := Chosen(s, p);
            |c| == 4 && Distinct(c) && (forall i :: i in c ==> 0 <= i < 4) && (forall i: nat :: i < 4 ==> i in c)
  {
    var ids := s.phases.Of(p).ids;
    var sorted := Sort(ids, Earliest(s));
    FourIds();
    SortDistinct(ids, Earliest(s));
    NoneActive(s.candidates);
    hide Sort, Earliest, ActiveCount, Distinct;
    SortedPlanned(s, ids, sorted);
    AllPlanned(s, sorted);
    assert Chosen(s, p) == sorted;
  }

  lemma FourIds()
    ensures var ids: seq<nat> := [0, 1, 2, 3];
            Distinct(ids) && (forall i :: i in ids ==> 0 <= i < 4) && (forall i: nat :: i < 4 ==> i in ids)
  {
    var ids: seq<nat> := [0, 1, 2, 3];
    forall i: nat | i < 4
      ensures i in ids
    {
      assert ids[i] == i;
    }
  }

  lemma SortedPlanned(s: State, ids: seq<nat>, sorted: seq<nat>)
    requires (forall i :: i in sorted <==> i in ids) && (forall i :: i in ids ==> 0 <= i < |s.candidates|)
    requires forall t :: t in s.candidates ==> t.status == Planned
    ensures ArePlanned(s, sorted)
  {
    forall k | 0 <= k < |sorted|
      ensures sorted[k] < |s.candidates| && s.candidates[sorted[k]].status == Planned
    {
      assert sorted[k] in ids;
    }
  }

  /** And submitted. */
  lemma AllSubmitted(s: State, input: Input, p: Phase)
    requires |s.candidates| == 4 && s.phases.Of(p).ids == [0, 1, 2, 3]
    requires forall t :: t in s.candidates ==> t.status == Planned
    ensures var c := Chosen(s, p);
            && |c| == 4 && Distinct(c)
            && (forall k :: 0 <= k < 4 ==> 0 <= c[k] < 4) && (forall i: nat :: i < 4 ==> i in c)
            && var after := Sent(s, input, p, SLOTS).candidates;
               forall k :: 0 <= k < 4 ==>
                   after[c[k]] == SubmitOne(s.candidates[c[k]], input.created(k).0, input.created(k).1)
  {
    AllChosen(s, p);
    hide Chosen, Submitted, Distinct;
    var c := Chosen(s, p);
    forall k | 0 <= k < 4
      ensures 0 <= c[k] < 4
      ensures Sent(s, input, p, SLOTS).candidates[c[k]] ==
                SubmitOne(s.candidates[c[k]], input.created(k).0, input.created(k).1)
    {
      assert c[k] in c;
      SubmittedAt(input, s.candidates, c, 4, k);
    }
  }

  lemma {:induction false} AddBatchStatus(input: Input, s: State, p: Phase, batch: nat, n: nat)
    ensures AddBatch(input, s, p, batch, n).phases.Of(p).status == s.phases.Of(p).status
  {
    if n > 0 {
      AddBatchStatus(input, s, p, batch, n - 1);
    }
  }

  /** A batch of four on top of no candidates. */
  lemma FirstBatch(cfg: Config, input: Input, s: State)
    requires cfg.runs(VolumeRouting) == 4 && s.candidates == [] && s.phases.volumeRouting.ids == []
        && s.phases.volumeRouting.batches == 0
    ensures var d := CreateBatch(cfg, input, s, VolumeRouting);
            && d.current == s.current && |d.candidates| == 4 && d.phases.volumeRouting.ids == [0, 1, 2, 3]
            && d.phases.volumeRouting.status == s.phases.volumeRouting.status
            && forall k :: 0 <= k < 4 ==> IsNew(d.candidates[k], VolumeRouting, 1)
  {
    var batches: nat -> nat := k => 1;
    AddBatchExtends(input, s, VolumeRouting, 1, 4, batches);
    AddBatchStatus(input, s, VolumeRouting, 1, 4);
    var added := AddBatch(input, s, VolumeRouting, 1, 4);
    hide AddBatch, ActiveCount, IsNew;
    forall k | 0 <= k < 4
      ensures IsNew(added.candidates[k], VolumeRouting, 1)
    {
      assert IsNew(added.candidates[|s.candidates| + k], VolumeRouting, batches(k));
    }
    assert added.phases.volumeRouting.ids == [0, 1, 2, 3];
  }

  /** The first poll creates four candidates. */
  lemma FirstCreates(cfg: Config, input: Input)
    requires cfg.runs(VolumeRouting) == cfg.initial(VolumeRouting) == 4
    ensures var d := Prepared(cfg, Fetched(cfg, START, input), input, VolumeRouting);
            && d.Some? && d.value.current == In(VolumeRouting) && |d.value.candidates| == 4
            && d.value.phases.volumeRouting.ids == [0, 1, 2, 3] && d.value.phases.volumeRouting.status == Active
            && forall k :: 0 <= k < 4 ==> IsNew(d.value.candidates[k], VolumeRouting, 1)
  {
    assert Fetched(cfg, START, input) == START;
    var active := Activate(START, VolumeRouting).value;
    FirstBatch(cfg, input, active);
    hide CreateBatch, IsNew, PhaseFinished, Fetched;
    var created := CreateBatch(cfg, input, active, VolumeRouting);
    assert Filled(cfg, input, created, VolumeRouting, 3) == created;
    assert Filled(cfg, input, active, VolumeRouting, 4) == created;
  }

  /** At work on its runs, as many as it has had attempts. */
  ghost predicate Works(t: Candidate, run: string, attempt: nat) {
    t.status == Running && t.run == Some(run) && t.attempt == attempt && t.score.None?
  }

  /** All four candidates are running, the k-th submitted one on its k-th run. */
  ghost predicate AllWork(s: State, input: Input, c: seq<nat>) {
    && s.current == In(VolumeRouting) && |s.candidates| == 4 && s.phases.volumeRouting.ids == [0, 1, 2, 3]
    && s.phases.volumeRouting.status == Active
    && |c| == 4 && Distinct(c) && (forall i: nat :: i < 4 ==> i in c)
    && forall k :: 0 <= k < 4 ==> 0 <= c[k] < 4 && Works(s.candidates[c[k]], input.created(k).0, 1)
  }

  lemma FirstPoll(cfg: Config, input: Input)
    requires cfg.runs(VolumeRouting) == cfg.initial(VolumeRouting) == 4
    requires forall n: nat :: input.created(n).1 == Running
    ensures exists c :: AllWork(Poll(cfg, START, input, Whole), input, c)
  {
    FirstCreates(cfg, input);
    WholeIs(cfg, START, input, VolumeRouting);
    hide Poll, Prepared, Fetched, AdvanceIfReady, AllWork;
    FourSent(cfg, Prepared(cfg, Fetched(cfg, START, input), input, VolumeRouting).value, input);
  }

  lemma FourSent(cfg: Config, d: State, input: Input)
    requires d.current == In(VolumeRouting) && |d.candidates| == 4 && d.phases.volumeRouting.ids == [0, 1, 2, 3]
    requires d.phases.volumeRouting.status == Active
    requires forall k :: 0 <= k < 4 ==> IsNew(d.candidates[k], VolumeRouting, 1)
    requires forall n: nat :: input.created(n).1 == Running
    ensures var sent := Sent(d, input, VolumeRouting, SLOTS);
            AdvanceIfReady(cfg, sent, VolumeRouting) == sent && exists c :: AllWork(sent, input, c)
  {
    AllSubmitted(d, input, VolumeRouting);
    var c, sent := Chosen(d, VolumeRouting), Sent(d, input, VolumeRouting, SLOTS);
    SentPhases(d, input, VolumeRouting, SLOTS);
    hide Chosen, Sent, AdvanceIfReady;
    forall k | 0 <= k < 4
      ensures Works(sent.candidates[c[k]], input.created(k).0, 1)
    {
      assert IsNew(d.candidates[c[k]], VolumeRouting, 1);
      assert sent.candidates[c[k]] == SubmitOne(d.candidates[c[k]], input.created(k).0, input.created(k).1);
    }
    NeverReady(cfg, sent, VolumeRouting, c[0]);
    assert AllWork(sent, input, c);
  }

  lemma SentPhases(s: State, input: Input, p: Phase, n: nat)
    ensures var d := Sent(s, input, p, n);
            d.phases == s.phases && d.current == s.current && |d.candidates| == |s.candidates|
  {
    hide Chosen, Submitted;
  }

  // ---- the retry ----

  /** Someone is not at work. */
  lemma {:induction false} OneIdle(candidates: seq<Candidate>, i: nat)
    requires i < |candidates| && !IsActive(candidates[i])
    ensures ActiveCount(candidates) < |candidates|
    decreases |candidates|
  {
    var front := candidates[..|candidates| - 1];
    if i < |front| {
      OneIdle(front, i);
    } else {
      ActiveBound(front);
    }
  }

  lemma {:induction false} ActiveBound(candidates: seq<Candidate>)
    ensures ActiveCount(candidates) <= |candidates|
    decreases |candidates|
  {
    if candidates != [] {
      ActiveBound(candidates[..|candidates| - 1]);
    }
  }

  /** The only planned candidate of four is chosen. */
  lemma OnlyOneChosen(s: State, a: nat)
    requires |s.candidates| == 4 && s.phases.volumeRouting.ids == [0, 1, 2, 3]
    requires a < 4 && forall i :: 0 <= i < 4 ==> (s.candidates[i].status == Planned <==> i == a)
    ensures Chosen(s, VolumeRouting) == [a]
  {
    var ids := s.phases.volumeRouting.ids;
    var sorted := Sort(ids, Earliest(s));
    assert Distinct(ids) && a in ids by { assert ids[a] == a; }
    SortDistinct(ids, Earliest(s));
    PlannedDistinct(s, sorted);
    OneIdle(s.candidates, a);
    var planned := OnlyPlanned(s, sorted);
    hide Sort, Earliest, ActiveCount;
    assert a in planned;
    SingleOf(planned, a);
  }

  lemma SingleOf(s: seq<nat>, a: nat)
    requires Distinct(s) && a in s && forall i :: i in s ==> i == a
    ensures s == [a]
  {
    NotTwice(s, a);
  }

  lemma NotTwice(s: seq<nat>, a: nat)
    ensures (forall i :: i in s ==> i == a) && |s| > 1 ==> !Distinct(s)
  {
    if (forall i :: i in s ==> i == a) && |s| > 1 {
      assert s[0] in s && s[1] in s;
    }
  }

  /** The first run has ended and the others have not. */
  ghost predicate FirstEnded(first: Input, input: Input) {
    forall k :: 0 <= k < 4 ==>
      && first.created(k).0 in input.listing
      && input.listing[first.created(k).0] == if k == 0 then Completed else Running
  }

  /** Everything of the phase has been created already. */
  lemma FullPhase(cfg: Config, s: State, input: Input)
    requires cfg.runs(VolumeRouting) == cfg.initial(VolumeRouting) == 4
    requires |s.phases.volumeRouting.ids| == 4 && s.phases.volumeRouting.status == Active
    ensures Prepared(cfg, s, input, VolumeRouting) == Some(s)
  {
  }

  /** What fetching does when the first run has ended. */
  lemma FetchedRetries(cfg: Config, s: State, first: Input, c: seq<nat>, input: Input)
    requires cfg.retryLimit == 1 && AllWork(s, first, c)
    requires FirstEnded(first, input)
    requires forall i: nat :: input.answers(i) == Scored(Score(false, 0.0))
    ensures var f := Fetched(cfg, s, input);
            && f.phases == s.phases && f.current == s.current && |f.candidates| == 4
            && f.candidates[c[0]].status == Planned && f.candidates[c[0]].attempt == 1 && f.candidates[c[0]].score.None?
            && (forall k :: 1 <= k < 4 ==> f.candidates[c[k]] == s.candidates[c[k]])
  {
    var f := Fetched(cfg, s, input);
    forall k | 0 <= k < 4
      ensures f.candidates[c[k]] ==
          CollectOne(cfg, input.answers(c[k]), ReconcileOne(input.listing, s.candidates[c[k]]))
    {
    }
    assert Works(s.candidates[c[0]], first.created(0).0, 1);
    forall k | 1 <= k < 4
      ensures f.candidates[c[k]] == s.candidates[c[k]]
    {
      assert Works(s.candidates[c[k]], first.created(k).0, 1);
    }
  }

  /** The first run has ended with a score that is not valid: its candidate is started again. */
  lemma SecondPoll(cfg: Config, s: State, first: Input, c: seq<nat>, input: Input)
    requires cfg.runs(VolumeRouting) == cfg.initial(VolumeRouting) == 4 && cfg.retryLimit == 1 && AllWork(s, first, c)
    requires FirstEnded(first, input)
    requires forall i: nat :: input.answers(i) == Scored(Score(false, 0.0))
    requires input.created(0).1 == Running
    ensures var d := Poll(cfg, s, input, Whole);
            && d.current == In(VolumeRouting) && |d.candidates| == 4 && d.phases == s.phases
            && Works(d.candidates[c[0]], input.created(0).0, 2) && Works(d.candidates[c[1]], first.created(1).0, 1)
  {
    var f := Fetched(cfg, s, input);
    FetchedRetries(cfg, s, first, c, input);
    assert Works(s.candidates[c[1]], first.created(1).0, 1);
    OnlyFirstPlanned(s, f, first, c);
    OnlyOneChosen(f, c[0]);
    FullPhase(cfg, f, input);
    WholeIs(cfg, s, input, VolumeRouting);
    hide Poll, Prepared, Fetched, AdvanceIfReady, AllWork;
    RetrySent(cfg, f, input, c[0], c[1]);
  }

  lemma OnlyFirstPlanned(s: State, f: State, first: Input, c: seq<nat>)
    requires AllWork(s, first, c) && |f.candidates| == 4 && f.candidates[c[0]].status == Planned
    requires forall k :: 1 <= k < 4 ==> f.candidates[c[k]] == s.candidates[c[k]]
    ensures c[0] != c[1] && forall i :: 0 <= i < 4 ==> (f.candidates[i].status == Planned <==> i == c[0])
  {
    forall i: nat | i < 4
      ensures f.candidates[i].status == Planned <==> i == c[0]
    {
      assert i in c;
      var k :| 0 <= k < 4 && c[k] == i;
      assert Works(s.candidates[c[k]], first.created(k).0, 1);
    }
  }

  lemma RetrySent(cfg: Config, f: State, input: Input, a: nat, b: nat)
    requires Chosen(f, VolumeRouting) == [a] && f.phases.volumeRouting.ids == [0, 1, 2, 3] && |f.candidates| == 4
    requires a < 4 && b < 4 && a != b && f.candidates[b].status == Running
    requires f.candidates[a].attempt == 1 && f.candidates[a].score.None? && input.created(0).1 == Running
    ensures var sent := Sent(f, input, VolumeRouting, SLOTS);
            && AdvanceIfReady(cfg, sent, VolumeRouting) == sent
            && sent.phases == f.phases && sent.current == f.current && |sent.candidates| == 4
            && Works(sent.candidates[a], input.created(0).0, 2) && sent.candidates[b] == f.candidates[b]
  {
    StillThere(f, input, VolumeRouting, SLOTS, b);
    SubmittedAt(input, f.candidates, [a], 1, 0);
    hide Chosen, AdvanceIfReady, Submitted;
    NeverReady(cfg, Sent(f, input, VolumeRouting, SLOTS), VolumeRouting, b);
  }

  // ---- the stalled phase ----

  /** A study with a retry reaches a stalled phase: the first candidate's run and its retry both
      end with a score that is not valid while another run goes on. At the next poll the candidate
      is completed with its score, and stays so. */
  lemma StuckIsReached()
    ensures ValidConfig(SMALL) && HonestRun(SMALL, [FIRST, SECOND, THIRD, THIRD])
    ensures exists k :: StuckAt(Run(SMALL, [FIRST, SECOND, THIRD]).state, VolumeRouting, k, "s0")
                        && Frozen(Run(SMALL, [FIRST, SECOND, THIRD, THIRD]).state, VolumeRouting, k)
  {
    RunsAre();
    Stalls(SMALL, FIRST.input, SECOND.input, THIRD.input);
    hide Poll, HonestRun, Run, StuckAt, Frozen;
  }

  lemma Stalls(cfg: Config, first: Input, second: Input, third: Input)
    requires cfg.runs(VolumeRouting) == cfg.initial(VolumeRouting) == 4 && cfg.retryLimit == 1
    requires (forall n: nat :: first.created(n).1 == Running) && second.created(0).1 == Running
    requires FirstEnded(first, second)
    requires (forall i: nat :: second.answers(i) == Scored(Score(false, 0.0))) && second.answers == third.answers
    requires second.created(0).0 in third.listing && third.listing[second.created(0).0] == Completed
    requires first.created(1).0 in third.listing && third.listing[first.created(1).0] == Running
    ensures var s1 := Poll(cfg, START, first, Whole);
            var s2 := Poll(cfg, s1, second, Whole);
            var s3 := Poll(cfg, s2, third, Whole);
            exists k :: StuckAt(s3, VolumeRouting, k, second.created(0).0)
                        && Frozen(Poll(cfg, s3, third, Whole), VolumeRouting, k)
  {
    FirstPoll(cfg, first);
    var s1 := Poll(cfg, START, first, Whole);
    hide Poll, StuckAt, Frozen, FirstEnded;
    var c :| AllWork(s1, first, c);
    SecondPoll(cfg, s1, first, c, second);
    var s2 := Poll(cfg, s1, second, Whole);
    LastPolls(cfg, s2, third, c[0], second.created(0).0, c[1], first.created(1).0);
  }

  /** The retry ends with a score that is not valid, and then the scheduler polls again. */
  lemma LastPolls(cfg: Config, s: State, input: Input, a: nat, run: string, b: nat, other: string)
    requires cfg.runs(VolumeRouting) == cfg.initial(VolumeRouting) == 4 && cfg.retryLimit == 1
    requires s.current == In(VolumeRouting) && |s.candidates| == 4 && a < 4 && b < 4
    requires s.phases.volumeRouting.ids == [0, 1, 2, 3] && s.phases.volumeRouting.status == Active
    requires Works(s.candidates[a], run, 2) && Works(s.candidates[b], other, 1)
    requires run in input.listing && input.listing[run] == Completed
    requires other in input.listing && input.listing[other] == Running
    requires forall i: nat :: input.answers(i) == Scored(Score(false, 0.0))
    ensures var d := Poll(cfg, s, input, Whole);
            StuckAt(d, VolumeRouting, a, run) && Frozen(Poll(cfg, d, input, Whole), VolumeRouting, a)
  {
    ActiveStays(cfg, s, input);
    BecomesStuck(cfg, s, input, VolumeRouting, a, run, b, other);
    var d := Poll(cfg, s, input, Whole);
    WholeActive(cfg, s, input);
    hide Poll, Prepared, Fetched, StuckAt, Frozen;
    ActiveStays(cfg, d, input);
    InvalidFreezes(cfg, d, input, VolumeRouting, a, run);
  }

  lemma ActiveStays(cfg: Config, s: State, input: Input)
    requires s.phases.volumeRouting.status == Active
    ensures Prepared(cfg, Fetched(cfg, s, input), input, VolumeRouting).Some?
  {
    hide Filled, Adapted;
  }

  lemma RunsAre()
    ensures var s1 := Poll(SMALL, START, FIRST.input, Whole);
            var s2 := Poll(SMALL, s1, SECOND.input, Whole);
            var s3 := Poll(SMALL, s2, THIRD.input, Whole);
            && Run(SMALL, [FIRST, SECOND, THIRD]).state == s3
            && Run(SMALL, [FIRST, SECOND, THIRD, THIRD]).state == Poll(SMALL, s3, THIRD.input, Whole)
    ensures HonestRun(SMALL, [FIRST, SECOND, THIRD, THIRD])
  {
    hide Poll, Honest;
    assert Honest(map[], FIRST) by { FirstIsHonest(); }
    assert Honest(SUBMITTED, SECOND) by { SecondIsHonest(); }
    assert Honest(RETRIED, THIRD) && Honest(ENDED_AGAIN, THIRD) by { ThirdIsHonest(); }
    RunOf(SMALL, [], FIRST);
    RunOf(SMALL, [FIRST], SECOND);
    RunOf(SMALL, [FIRST, SECOND], THIRD);
    RunOf(SMALL, [FIRST, SECOND, THIRD], THIRD);
    assert [] + [FIRST] == [FIRST] && [FIRST] + [SECOND] == [FIRST, SECOND];
    assert [FIRST, SECOND] + [THIRD] == [FIRST, SECOND, THIRD];
    assert [FIRST, SECOND, THIRD] + [THIRD] == [FIRST, SECOND, THIRD, THIRD];
    hide Run, HonestRun;
  }

  lemma RunOf(cfg: Config, events: seq<Event>, e: Event)
    requires !e.retry
    ensures Run(cfg, events + [e]).state == Poll(cfg, Run(cfg, events).state, e.input, e.at)
    ensures Run(cfg, events + [e]).server == e.server
    ensures HonestRun(cfg, events + [e]) <==> HonestRun(cfg, events) && Honest(Run(cfg, events).server, e)
    ensures events == [] ==> Run(cfg, events) == World(START, map[], 0) && HonestRun(cfg, events)
  {
    hide Poll, Honest;
    assert (events + [e])[..|events|] == events;
  }

  lemma FirstIsHonest()
    ensures Honest(map[], FIRST)
  {
  }

  lemma SecondIsHonest()
    ensures Honest(SUBMITTED, SECOND)
  {
  }

  lemma ThirdIsHonest()
    ensures Honest(RETRIED, THIRD) && Honest(ENDED_AGAIN, THIRD)
  {
  }

  /** While the phase goes on it stays active. */
  lemma WholeActive(cfg: Config, s: State, input: Input)
    requires cfg.runs(VolumeRouting) == cfg.initial(VolumeRouting) == 4
    requires s.current == In(VolumeRouting) && s.phases.volumeRouting.status == Active
        && |s.phases.volumeRouting.ids| == 4
    requires Poll(cfg, s, input, Whole).current == In(VolumeRouting)
    ensures Poll(cfg, s, input, Whole).phases.volumeRouting.status == Active
  {
    FullPhase(cfg, Fetched(cfg, s, input), input);
    WholeIs(cfg, s, input, VolumeRouting);
    SentPhases(Fetched(cfg, s, input), input, VolumeRouting, SLOTS);
    hide Poll, Prepared, Sent, PhaseFinished;
  }

  // ---- an interrupted creation of the validation candidates ----

  /** The state an interrupt leaves behind the n-th validation candidate. */
  function Interrupted(cfg: Config, input: Input, s: State, n: nat): State
    requires n <= |Selected(s, Ranking(s), cfg.finalists)| * |cfg.seeds|
  {
    var active := s.(phases := s.phases.(validation := s.phases.validation.(status := Active)));
    AddValidation(cfg, input, active, Selected(s, Ranking(s), cfg.finalists), n)
  }

  lemma InterruptedSize(cfg: Config, input: Input, s: State, n: nat)
    requires n <= |Selected(s, Ranking(s), cfg.finalists)| * |cfg.seeds| && s.phases.validation.ids == []
    ensures |Interrupted(cfg, input, s, n).phases.validation.ids| == n
        && Interrupted(cfg, input, s, n).current == s.current
  {
    var active := s.(phases := s.phases.(validation := s.phases.validation.(status := Active)));
    hide Selected, Ranking;
    ValidationCount(cfg, input, active, Selected(s, Ranking(s), cfg.finalists), n);
  }

  lemma {:induction false} ValidationCount(cfg: Config, input: Input, s: State, selected: seq<nat>, n: nat)
    requires n <= |selected| * |cfg.seeds|
    ensures var d := AddValidation(cfg, input, s, selected, n);
            d.current == s.current && |d.phases.validation.ids| == |s.phases.validation.ids| + n
  {
    hide ValidationParams;
    if n > 0 {
      ValidationCount(cfg, input, s, selected, n - 1);
    }
  }

  /** Once a validation candidate exists no other is created, and the phase ends only with as many
      as the budget asks for. */
  lemma ValidationIsFixed(cfg: Config, w: World, e: Event)
    requires w.state.current == In(Validation) && w.state.phases.validation.ids != []
    ensures var d := Happens(cfg, w, e).state;
            && d.phases.validation.ids == w.state.phases.validation.ids
            && (d.current == In(Validation) || |d.phases.validation.ids| >= Budget(cfg, Validation))
  {
    hide Collected, Reconciled, Chosen, Submitted, Budget, PhaseFinished, RetryAll;
  }

  function Continued(cfg: Config, w: World, events: seq<Event>): World
    decreases |events|
  {
    if events == [] then w else Happens(cfg, Continued(cfg, w, events[..|events| - 1]), events[|events| - 1])
  }

  /** A validation phase that was left with some, but not all, of its candidates never ends. */
  lemma {:induction false} PartialValidationStalls(cfg: Config, w: World, events: seq<Event>)
    requires w.state.current == In(Validation) && 0 < |w.state.phases.validation.ids| < Budget(cfg, Validation)
    ensures var d := Continued(cfg, w, events).state;
            d.current == In(Validation) && d.phases.validation.ids == w.state.phases.validation.ids
    decreases |events|
  {
    hide Happens, Budget;
    if events != [] {
      var front := events[..|events| - 1];
      PartialValidationStalls(cfg, w, front);
      ValidationIsFixed(cfg, Continued(cfg, w, front), events[|events| - 1]);
    }
  }
}
