/** The batch calibration scheduler as values: its checkpointed state, and what one poll does
    to it (vehicle_calibration/calibrate.py). Server answers arrive with the poll. */
module SchedulerModel {
  import opened Wrappers
  import opened Sorting
  import Parameters

  const SLOTS := 4
  const BATCH := 4

  datatype Phase = VolumeRouting | Shape | Joint | Validation
  datatype Status = Planned | Queued | Running | Completed | Failed | Valid | Invalid
  datatype Score = Score(valid: bool, objective: real)
  datatype Earlier = Earlier(run: Option<string>, status: Status)

  datatype Candidate = Candidate(id: string, phase: Phase, batch: nat, params: Parameters.Params, status: Status,
                                 run: Option<string>,
                       attempt: nat, previous: seq<Earlier>, analyticsAttempts: nat, score: Option<Score>)

  datatype PhaseStatus = Pending | Active | Complete
  datatype PhaseState = PhaseState(status: PhaseStatus, ids: seq<nat>, batches: nat)
  datatype Phases = Phases(volumeRouting: PhaseState, shape: PhaseState, joint: PhaseState, validation: PhaseState) {
    function Of(p: Phase): PhaseState {
      match p
      case VolumeRouting => volumeRouting
      case Shape => shape
      case Joint => joint
      case Validation => validation
    }

    function With(p: Phase, s: PhaseState): Phases {
      match p
      case VolumeRouting => this.(volumeRouting := s)
      case Shape => this.(shape := s)
      case Joint => this.(joint := s)
      case Validation => this.(validation := s)
    }
  }

  datatype Current = In(phase: Phase) | Finished

  /** Candidates are numbered in order of creation. */
  datatype State = State(candidates: seq<Candidate>, phases: Phases, current: Current)

  datatype Config = Config(runs: Phase -> nat, initial: Phase -> nat, finalists: nat, seeds: seq<int>, retryLimit: int,
                           maxAnalytics: int)

  datatype Answer = Scored(score: Score) | Unavailable

  /** What one poll is told: the server's run list, the analytics answers, the parameters and
      ids of the candidates it creates, and the server's answers to submissions. */
  datatype Input = Input(listing: map<string, Status>, answers: nat -> Answer, params: nat -> Parameters.Params,
                         names: nat -> string,
                         created: nat -> (string, Status))

  /** What the configuration check accepts. */
  ghost predicate ValidConfig(cfg: Config) {
    && (forall p ::
        p != Validation ==>
            cfg.runs(p) % BATCH == 0 && cfg.initial(p) % BATCH == 0 && 4 <= cfg.initial(p) <= cfg.runs(p))
    && cfg.finalists >= 1 && |cfg.seeds| >= 1
  }

  function Budget(cfg: Config, p: Phase): nat {
    if p == Validation then cfg.finalists * |cfg.seeds| else cfg.runs(p)
  }

  const NO_PHASE := PhaseState(Pending, [], 0)

  const START := State([], Phases(NO_PHASE, NO_PHASE, NO_PHASE, NO_PHASE), In(VolumeRouting))

  predicate IsActive(t: Candidate) {
    t.status == Queued || t.status == Running
  }

  predicate IsTerminal(t: Candidate) {
    t.status == Valid || t.status == Invalid || t.status == Failed
  }

  function ActiveCount(candidates: seq<Candidate>): nat
    decreases |candidates|
  {
    if candidates == [] then 0
        else ActiveCount(candidates[..|candidates| - 1]) + if IsActive(candidates[|candidates| - 1]) then 1 else 0
  }

  /** f applied to the first n candidates. */
  function MapFirst(candidates: seq<Candidate>, n: nat, f: (nat, Candidate) -> Candidate): (r: seq<Candidate>)
    requires n <= |candidates|
    ensures |r| == |candidates|
    ensures forall i :: 0 <= i < |candidates| ==> r[i] == if i < n then f(i, candidates[i]) else candidates[i]
  {
    seq(|candidates|, i requires 0 <= i < |candidates| => if i < n then f(i, candidates[i]) else candidates[i])
  }

  // ---- reconciling and collecting ----

  /** Take over the server's status, except for a valid candidate. */
  function ReconcileOne(listing: map<string, Status>, t: Candidate): Candidate {
    if t.run.None? || t.run.value !in listing || t.status == Valid then t else t.(status := listing[t.run.value])
  }

  function Reset(t: Candidate): Candidate {
    t.(previous := t.previous + [Earlier(t.run, t.status)], status := Planned, run := None, analyticsAttempts := 0,
       score := None)
  }

  /** A last failure is final only when no retry is left. */
  function RetryOr(cfg: Config, t: Candidate, otherwise: Candidate): Candidate {
    if t.attempt as int <= cfg.retryLimit then Reset(t) else otherwise
  }

  function CollectOne(cfg: Config, answer: Answer, t: Candidate): Candidate {
    if t.status == Failed then RetryOr(cfg, t, t)
    else if t.status != Completed || t.score.Some? then t
    else match answer
      case Scored(score) =>
        var scored := t.(score := Some(score));
        if score.valid then scored.(status := Valid) else RetryOr(cfg, scored, scored.(status := Invalid))
      case Unavailable =>
        var tried := t.(analyticsAttempts := t.analyticsAttempts + 1);
        if tried.analyticsAttempts < cfg.maxAnalytics then tried else RetryOr(cfg, tried, tried.(status := Invalid))
  }

  function Reconciled(listing: map<string, Status>, candidates: seq<Candidate>, n: nat): (r: seq<Candidate>)
    requires n <= |candidates|
    ensures |r| == |candidates|
  {
    MapFirst(candidates, n, (i: nat, t: Candidate) => ReconcileOne(listing, t))
  }

  function Collected(cfg: Config, answers: nat -> Answer, candidates: seq<Candidate>, n: nat): (r: seq<Candidate>)
    requires n <= |candidates|
    ensures |r| == |candidates|
  {
    MapFirst(candidates, n, (i: nat, t: Candidate) => CollectOne(cfg, answers(i), t))
  }

  // ---- creating candidates ----

  function NewCandidate(id: string, p: Phase, batch: nat, params: Parameters.Params): Candidate {
    Candidate(id, p, batch, params, Planned, None, 0, [], 0, None)
  }

  function AddOne(s: State, p: Phase, id: string, batch: nat, params: Parameters.Params): State {
    var ps := s.phases.Of(p);
    s.(candidates := s.candidates + [NewCandidate(id, p, batch, params)],
       phases := s.phases.With(p, ps.(ids := ps.ids + [|s.candidates|])))
  }

  /** The first n of a calibration batch. */
  function AddBatch(input: Input, s: State, p: Phase, batch: nat, n: nat): State {
    if n == 0 then s
    else
      var before := AddBatch(input, s, p, batch, n - 1);
      AddOne(before, p, input.names(|before.candidates|), batch, input.params(|before.candidates|))
  }

  function BatchSize(cfg: Config, s: State, p: Phase): nat {
    var remaining := Budget(cfg, p) - |s.phases.Of(p).ids|;
    if remaining <= 0 then 0 else if remaining < BATCH then remaining else BATCH
  }

  function CreateBatch(cfg: Config, input: Input, s: State, p: Phase): State {
    var n := BatchSize(cfg, s, p);
    if n == 0 then s
    else
      var batch := s.phases.Of(p).batches + 1;
      var s' := AddBatch(input, s, p, batch, n);
      s'.(phases := s'.phases.With(p, s'.phases.Of(p).(batches := batch)))
  }

  /** At most m batches towards the initial design. */
  function Filled(cfg: Config, input: Input, s: State, p: Phase, m: nat): State
    decreases m
  {
    if m == 0 || |s.phases.Of(p).ids| >= cfg.initial(p) then s
        else Filled(cfg, input, CreateBatch(cfg, input, s, p), p, m - 1)
  }

  predicate PhaseFinished(s: State, p: Phase) {
    var ids := s.phases.Of(p).ids;
    ids != [] && forall k :: 0 <= k < |ids| ==> ids[k] < |s.candidates| && IsTerminal(s.candidates[ids[k]])
  }

  predicate WantsAdaptive(cfg: Config, s: State, p: Phase) {
    cfg.initial(p) <= |s.phases.Of(p).ids| < Budget(cfg, p) && PhaseFinished(s, p)
  }

  function Adapted(cfg: Config, input: Input, s: State, p: Phase): State {
    if WantsAdaptive(cfg, s, p) then CreateBatch(cfg, input, s, p) else s
  }

  predicate HasValid(s: State, phases: set<Phase>) {
    exists i :: 0 <= i < |s.candidates| && s.candidates[i].status == Valid && s.candidates[i].phase in phases
  }

  /** A phase starts from the best valid candidate of the phases before it. */
  function Activate(s: State, p: Phase): Option<State> {
    if s.phases.Of(p).status != Pending then Some(s)
    else if (p == Shape && !HasValid(s, {VolumeRouting})) || (p == Joint && !HasValid(s, {VolumeRouting, Shape}))
        then None
    else Some(s.(phases := s.phases.With(p, s.phases.Of(p).(status := Active))))
  }

  // ---- validation ----

  predicate IsFinalist(s: State, i: nat) {
    i < |s.candidates| && s.candidates[i].status == Valid && s.candidates[i].score.Some?
        && s.candidates[i].phase != Validation
  }

  function Finalists(s: State, n: nat): (r: seq<nat>)
    requires n <= |s.candidates|
    ensures forall i: nat :: i in r <==> i < n && IsFinalist(s, i)
  {
    if n == 0 then [] else Finalists(s, n - 1) + if IsFinalist(s, n - 1) then [n - 1] else []
  }

  function Objective(s: State, i: nat): real {
    if i < |s.candidates| && s.candidates[i].score.Some? then s.candidates[i].score.value.objective else 0.0
  }

  function ParamsOf(s: State, i: nat): Parameters.Params {
    if i < |s.candidates| then s.candidates[i].params else Parameters.Params(0, [], [], 0)
  }

  function Cheaper(s: State): (nat, nat) -> bool {
    (a: nat, b: nat) => Objective(s, a) < Objective(s, b)
  }

  function Ranking(s: State): seq<nat> {
    Sort(Finalists(s, |s.candidates|), Cheaper(s))
  }

  /** Equal but for the seed. */
  predicate SameConfiguration(a: Parameters.Params, b: Parameters.Params) {
    a.(seed := b.seed) == b
  }

  /** The best distinct configurations, at most `count` of them but at least one. */
  function Selected(s: State, ranked: seq<nat>, count: nat): seq<nat>
    decreases |ranked|
  {
    if ranked == [] then []
    else
      var before, last := Selected(s, ranked[..|ranked| - 1], count), ranked[|ranked| - 1];
      if (|before| >= count && before != [])
          || exists k :: 0 <= k < |before| && SameConfiguration(ParamsOf(s, before[k]), ParamsOf(s, last))
      then before else before + [last]
  }

  lemma IndexInRange(k: nat, rows: nat, columns: nat)
    requires k < rows * columns
    ensures columns > 0 && k / columns < rows
  {
    if columns > 0 && k / columns >= rows {
      MoreRows(k / columns, rows, columns);
    }
  }

  lemma MoreRows(a: nat, b: nat, columns: nat)
    requires a >= b
    ensures a * columns >= b * columns
  {
    assert a * columns == b * columns + (a - b) * columns;
  }

  /** The parameters of the k-th validation candidate. */
  function ValidationParams(cfg: Config, s: State, selected: seq<nat>, k: nat): Parameters.Params
    requires k < |selected| * |cfg.seeds|
  {
    assert |cfg.seeds| > 0 && k / |cfg.seeds| < |selected| by { IndexInRange(k, |selected|, |cfg.seeds|); }
    ParamsOf(s, selected[k / |cfg.seeds|]).(seed := cfg.seeds[k % |cfg.seeds|])
  }

  /** The first n of the finalists' runs, one for every finalist and seed. */
  function AddValidation(cfg: Config, input: Input, s: State, selected: seq<nat>, n: nat): State
    requires n <= |selected| * |cfg.seeds|
  {
    if n == 0 then s
    else
      var before := AddValidation(cfg, input, s, selected, n - 1);
      AddOne(before, Validation, input.names(|before.candidates|), (n - 1) / BATCH + 1,
             ValidationParams(cfg, before, selected, n - 1))
  }

  /** None when fewer distinct valid configurations exist than requested. */
  function CreateValidation(cfg: Config, input: Input, s: State): Option<State> {
    var ps := s.phases.validation;
    if ps.ids != [] then Some(s)
    else
      var selected := Selected(s, Ranking(s), cfg.finalists);
      if selected == [] || |selected| < cfg.finalists then None
      else
        var n := |selected| * |cfg.seeds|;
        var s' := AddValidation(cfg, input, s.(phases := s.phases.(validation := ps.(status := Active))), selected, n);
        Some(s'.(phases := s'.phases.(validation := s'.phases.validation.(batches := (|s'.phases.validation.ids|
            + 3) / BATCH))))
  }

  // ---- submitting ----

  function BatchOf(s: State, i: nat): nat {
    if i < |s.candidates| then s.candidates[i].batch else 0
  }

  function NameOf(s: State, i: nat): string {
    if i < |s.candidates| then s.candidates[i].id else ""
  }

  /** By batch, then by id. */
  function Earliest(s: State): (nat, nat) -> bool {
    (a: nat, b: nat) =>
        BatchOf(s, a) < BatchOf(s, b) || (BatchOf(s, a) == BatchOf(s, b) && StringBefore(NameOf(s, a), NameOf(s, b)))
  }

  function OnlyPlanned(s: State, ids: seq<nat>): (r: seq<nat>)
    ensures forall i :: i in r <==> i in ids && i < |s.candidates| && s.candidates[i].status == Planned
    decreases |ids|
  {
    if ids == [] then []
    else
      var front, last := ids[..|ids| - 1], ids[|ids| - 1];
      assert ids == front + [last];
      OnlyPlanned(s, front) + if last < |s.candidates| && s.candidates[last].status == Planned then [last] else []
  }

  function Slots(candidates: seq<Candidate>): nat {
    if ActiveCount(candidates) < SLOTS then SLOTS - ActiveCount(candidates) else 0
  }

  /** The candidates to submit now. */
  function Chosen(s: State, p: Phase): seq<nat> {
    var planned := OnlyPlanned(s, Sort(s.phases.Of(p).ids, Earliest(s)));
    if |planned| <= Slots(s.candidates) then planned else planned[..Slots(s.candidates)]
  }

  function SubmitOne(t: Candidate, run: string, status: Status): Candidate {
    t.(run := Some(run), status := status, attempt := t.attempt + 1)
  }

  function Submitted(input: Input, candidates: seq<Candidate>, chosen: seq<nat>, n: nat): (r: seq<Candidate>)
    requires n <= |chosen|
    ensures |r| == |candidates|
  {
    if n == 0 then candidates
    else
      var before, i := Submitted(input, candidates, chosen, n - 1), chosen[n - 1];
      if i < |candidates| then before[i := SubmitOne(before[i], input.created(n - 1).0, input.created(n - 1).1)]
          else before
  }

  // ---- phases ----

  function Next(p: Phase): Current {
    match p
    case VolumeRouting => In(Shape)
    case Shape => In(Joint)
    case Joint => In(Validation)
    case Validation => Finished
  }

  function AdvanceIfReady(cfg: Config, s: State, p: Phase): State {
    if |s.phases.Of(p).ids| < Budget(cfg, p) || !PhaseFinished(s, p) then s
    else s.(phases := s.phases.With(p, s.phases.Of(p).(status := Complete)), current := Next(p))
  }

  // ---- a poll ----

  /** How far a poll got before it stopped: an interrupt or an error leaves one of these
      states in the checkpoint. */
  datatype Point = Before | Reconciling(n: nat) | Collecting(n: nat) | Creating(batches: nat)
                 | Submitting(n: nat) | Whole

  function Fetched(cfg: Config, s: State, input: Input): State {
    s.(candidates := Collected(cfg, input.answers, Reconciled(input.listing, s.candidates, |s.candidates|),
                               |s.candidates|))
  }

  /** With the candidates of the current phase created; None when the phase cannot start. */
  function Prepared(cfg: Config, s: State, input: Input, p: Phase): Option<State> {
    if p == Validation then CreateValidation(cfg, input, s)
    else match Activate(s, p)
      case None => None
      case Some(active) => Some(Adapted(cfg, input, Filled(cfg, input, active, p, cfg.initial(p)), p))
  }

  function Sent(s: State, input: Input, p: Phase, n: nat): State {
    var chosen := Chosen(s, p);
    s.(candidates := Submitted(input, s.candidates, chosen, if n <= |chosen| then n else |chosen|))
  }

  /** The checkpointed state when a poll gets as far as `at`. */
  function Poll(cfg: Config, s: State, input: Input, at: Point): State {
    if s.current == Finished then s
    else
      var p := s.current.phase;
      match at
      case Before => s
      case Reconciling(n) =>
          s.(candidates := Reconciled(input.listing, s.candidates, if n <= |s.candidates| then n else |s.candidates|))
      case Collecting(n) =>
        var reconciled := Reconciled(input.listing, s.candidates, |s.candidates|);
        s.(candidates := Collected(cfg, input.answers, reconciled, if n <= |s.candidates| then n else |s.candidates|))
      case Creating(m) =>
        var fetched := Fetched(cfg, s, input);
        if p == Validation then fetched
        else (match Activate(fetched, p)
              case None => s
              case Some(active) => Filled(cfg, input, active, p, m))
      case Submitting(n) =>
        (match Prepared(cfg, Fetched(cfg, s, input), input, p)
         case None => s
         case Some(prepared) => Sent(prepared, input, p, n))
      case Whole =>
        (match Prepared(cfg, Fetched(cfg, s, input), input, p)
         case None => s
         case Some(prepared) => AdvanceIfReady(cfg, Sent(prepared, input, p, SLOTS), p))
  }

  /** A manual retry gives every failed or invalid candidate another attempt. */
  function RetryAll(candidates: seq<Candidate>): (r: seq<Candidate>)
    ensures |r| == |candidates|
  {
    MapFirst(candidates, |candidates|, (i: nat, t: Candidate) => if t.status == Failed || t.status == Invalid
             then Reset(t) else t)
  }
}
