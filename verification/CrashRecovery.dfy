/** Checkpoints and rollbacks around simulator crashes (backend/sumo/controller/main.py,
    backend/sumo/controller/metrics_logger.py): every state reached with crashes is one that a
    run without crashes reaches. */
module CrashRecovery {
  import opened Wrappers
  import opened Reroute
  import opened ParkingModel
  import LinearAlgebra
  import PedestrianModel
  import opened ParkingSafety

  /** The logs are captured as positions, the counter as a snapshot. */
  datatype Checkpoint = Checkpoint(
    time: real, persons: set<string>,
    records: map<string, Record>, assignment: map<string, string>, durations: map<string, real>,
    active: set<string>, completed: set<string>, arrived: set<string>, noAvailable: set<(string, string)>,
    reserved: map<string, nat>, spawned: set<string>, draws: nat,
    eventsAt: nat, rowsAt: nat, detector: PedestrianModel.Snapshot)

  datatype Config = Config(enabled: bool, maxAttempts: nat, interval: real)

  /** An iteration that completes, or one in which the simulator dies after the pedestrians
      were observed. `recoverable` is the verdict on the signal and the saved state file. */
  datatype Outcome = Stepped(tick: Tick)
                   | Crashed(observedAt: real, positions: seq<(string, PedestrianModel.Position)>,
                             candidates: set<string>, recoverable: bool)

  datatype Run = Run(core: Core, persons: set<string>, checkpoint: Option<Checkpoint>, lastCheckpoint: real,
                     attempts: nat, quarantined: set<string>, failed: bool)

  function Capture(c: Core, persons: set<string>): Checkpoint {
    Checkpoint(c.clock, persons, c.records, c.assignment, c.durations, c.active, c.completed, c.arrived, c.noAvailable,
               c.reserved, c.spawned, c.draws, |c.events|, |c.rows|, PedestrianModel.TakeSnapshot(c.detector))
  }

  function Truncated<T>(log: seq<T>, position: nat): seq<T> {
    if position <= |log| then log[..position] else log
  }

  function Restore(c: Core, p: Checkpoint): Core {
    Core(p.records, p.assignment, p.durations, p.active, p.completed, p.arrived, p.noAvailable, p.reserved, p.spawned,
         p.draws,
         Truncated(c.events, p.eventsAt), Truncated(c.rows, p.rowsAt), PedestrianModel.RestoreSnapshot(p.detector),
             p.time)
  }

  predicate Due(cfg: Config, t: real, lastCheckpoint: real) {
    Recovering(cfg) && t - lastCheckpoint >= cfg.interval
  }

  predicate CanRecover(cfg: Config, r: Run, candidates: set<string>, recoverable: bool) {
    cfg.enabled && recoverable && r.checkpoint.Some? && candidates != {} && r.attempts < cfg.maxAttempts
  }

  predicate Recovering(cfg: Config) {
    cfg.enabled && cfg.maxAttempts > 0
  }

  /** With recovery on, a first checkpoint is taken before the loop. */
  function Start(site: Site, cfg: Config, begin: real): Run {
    var c := Initial(site, begin);
    Run(c, {}, if Recovering(cfg) then Some(Capture(c, {})) else None, begin, 0, {}, false)
  }

  /** A completed iteration, with a checkpoint at its end when one is due. */
  function Advance(site: Site, cfg: Config, r: Run, k: Tick): Run
    requires WellFormed(site)
  {
    var r' := r.(core := Step(site, r.core, k), persons := r.persons + k.arrivedPersons);
    if Due(cfg, k.time, r.lastCheckpoint)
    then r'.(checkpoint := Some(Capture(r'.core, r'.persons)), lastCheckpoint := k.time) else r'
  }

  function Observed(site: Site, c: Core, at: real, positions: seq<(string, PedestrianModel.Position)>): Core
    requires WellFormed(site)
  {
    c.(detector := PedestrianModel.Observe(site.zones, c.detector, at, positions))
  }

  /** Roll back to the checkpoint and quarantine the candidates. */
  function Recover(r: Run, p: Checkpoint, candidates: set<string>): Run {
    r.(core := Restore(r.core, p), lastCheckpoint := p.time, attempts := r.attempts + 1,
       quarantined := r.quarantined + candidates, persons := p.persons + r.quarantined + candidates)
  }

  /** One turn of the main loop. A crash that cannot be recovered ends the run. */
  function Turn(site: Site, cfg: Config, r: Run, o: Outcome): Run
    requires WellFormed(site)
  {
    if r.failed then r
    else match o
      case Stepped(k) => Advance(site, cfg, r, k)
      case Crashed(at, positions, candidates, recoverable) =>
        var seen := r.(core := Observed(site, r.core, at, positions));
        if CanRecover(cfg, r, candidates, recoverable) then Recover(seen, r.checkpoint.value, candidates)
        else seen.(failed := true)
  }

  function Execute(site: Site, cfg: Config, begin: real, outcomes: seq<Outcome>): Run
    requires WellFormed(site)
    decreases |outcomes|
  {
    if outcomes == [] then Start(site, cfg, begin)
    else Turn(site, cfg, Execute(site, cfg, begin, outcomes[..|outcomes| - 1]), outcomes[|outcomes| - 1])
  }

  // ---- a run without crashes ----

  function Undisturbed(site: Site, cfg: Config, begin: real, ticks: seq<Tick>): Run
    requires WellFormed(site)
    decreases |ticks|
  {
    if ticks == [] then Start(site, cfg, begin)
    else Advance(site, cfg, Undisturbed(site, cfg, begin, ticks[..|ticks| - 1]), ticks[|ticks| - 1])
  }

  /** Its last checkpoint was taken after this many iterations, if any was taken. */
  function CheckpointAt(site: Site, cfg: Config, begin: real, ticks: seq<Tick>): (n: nat)
    requires WellFormed(site)
    ensures n <= |ticks|
    decreases |ticks|
  {
    if ticks == [] then 0
    else
      var front := ticks[..|ticks| - 1];
      if Due(cfg, ticks[|ticks| - 1].time, Undisturbed(site, cfg, begin, front).lastCheckpoint) then |ticks|
      else CheckpointAt(site, cfg, begin, front)
  }

  /** The iterations that were not rolled back. */
  function Survivors(site: Site, cfg: Config, begin: real, outcomes: seq<Outcome>): seq<Tick>
    requires WellFormed(site)
    decreases |outcomes|
  {
    if outcomes == [] then []
    else
      var front, last := outcomes[..|outcomes| - 1], outcomes[|outcomes| - 1];
      var r, kept := Execute(site, cfg, begin, front), Survivors(site, cfg, begin, front);
      if r.failed then kept
      else match last
        case Stepped(k) => kept + [k]
        case Crashed(_, _, candidates, recoverable) =>
          if CanRecover(cfg, r, candidates, recoverable) then kept[..CheckpointAt(site, cfg, begin, kept)] else kept
  }

  // ---- an iteration only appends to the logs ----

  ghost predicate Appends(c: Core, d: Core) {
    c.events <= d.events && c.rows == d.rows && c.detector == d.detector && c.clock == d.clock
  }

  lemma SearchAppends(c: Core, t: real, v: string, found: Reroute.Outcome, lot: string, attempts: nat)
    ensures Appends(c, Searched(c, t, v, found, lot, attempts))
  {
  }

  lemma TryParkAppends(site: Site, c: Core, t: real, occupied: map<string, nat>, v: Visit, attempt: string,
                       context: SelectionContext)
    requires "" !in site.groups && attempt in site.groups
    ensures Appends(c, TryPark(site, c, t, occupied, v, attempt, context))
  {
    var (selected, draws) := Selection(site, c, occupied, v, site.groups[attempt]);
    hide Selection, Found, Searched, RecordOf, AttemptedRecord, Reserve, Release, StopDuration;
    var c1 := Attempted(site, c, t, v, attempt, selected, draws);
    var attempts := |RecordOf(site, c1.records, v.id).attempted|;
    assert Appends(c, c1);
    if selected.None? {
      var c2 := c1.(noAvailable := c1.noAvailable + {(v.id, attempt)});
      SearchAppends(c2, t, v.id, Found(site, c2, t, occupied, v), attempt, attempts);
    } else {
      var c2 := Retargeted(site, c1, t, v, attempt);
      assert Appends(c1, c2);
      hide Attempted, Retargeted;
      AssignAppends(site, c2, t, occupied, v, attempt, selected.value, attempts);
    }
  }

  lemma AssignAppends(site: Site, c: Core, t: real, occupied: map<string, nat>, v: Visit, lot: string, p: string,
                      attempts: nat)
    requires "" !in site.groups
    ensures Appends(c, Assign(site, c, t, occupied, v, lot, p, attempts))
  {
    hide Found, Searched, Reserve, Release, StopDuration;
    var failed := FailedAssign(site, c, t, v, lot, p, attempts);
    SearchAppends(failed, t, v.id, Found(site, failed, t, occupied, v), lot, attempts);
  }

  lemma VisitAppends(site: Site, c: Core, t: real, occupied: map<string, nat>, v: Visit)
    requires "" !in site.groups
    ensures Appends(c, ProcessVisit(site, c, t, occupied, v))
  {
    hide TryPark;
    var rec := RecordOf(site, c.records, v.id);
    if rec.current in site.groups {
      var (attempt, context) := DecisionTarget(site, rec.current, Unattempted(CandidatesOf(site, v.id), rec), v.road);
      if attempt.Some? && attempt.value in site.groups {
        TryParkAppends(site, c, t, occupied, v, attempt.value, context);
      }
    }
  }

  lemma {:induction false} VisitsAppend(site: Site, c: Core, t: real, occupied: map<string, nat>, visits: seq<Visit>)
    requires "" !in site.groups
    ensures Appends(c, ProcessVisits(site, c, t, occupied, visits))
    decreases |visits|
  {
    hide ProcessVisit;
    if visits != [] {
      VisitsAppend(site, c, t, occupied, visits[..|visits| - 1]);
      VisitAppends(site, ProcessVisits(site, c, t, occupied, visits[..|visits| - 1]), t, occupied,
                   visits[|visits| - 1]);
    }
  }

  lemma {:induction false} StartsAppend(site: Site, c: Core, t: real, spawned: set<string>, vs: seq<string>)
    ensures Appends(c, AllStart(site, c, t, spawned, vs))
    decreases |vs|
  {
    hide TargetOf, Release;
    if vs != [] {
      StartsAppend(site, c, t, spawned, vs[..|vs| - 1]);
    }
  }

  lemma {:induction false} EndsAppend(site: Site, c: Core, t: real, vs: seq<string>)
    ensures Appends(c, AllEnd(site, c, t, vs))
    decreases |vs|
  {
    hide TargetOf, Release;
    if vs != [] {
      EndsAppend(site, c, t, vs[..|vs| - 1]);
    }
  }

  lemma {:induction false} ArrivalsAppend(site: Site, c: Core, t: real, vs: seq<string>)
    ensures Appends(c, AllArrive(site, c, t, vs))
    decreases |vs|
  {
    hide TargetOf;
    if vs != [] {
      ArrivalsAppend(site, c, t, vs[..|vs| - 1]);
    }
  }

  /** The logs of d continue those of c. */
  ghost predicate Continues(c: Core, d: Core) {
    c.events <= d.events && c.rows <= d.rows
  }

  lemma StepContinues(site: Site, c: Core, k: Tick)
    requires WellFormed(site) && PedestrianModel.Walking(c.detector)
    ensures Continues(c, Step(site, c, k)) && Step(site, c, k).clock == k.time
    ensures PedestrianModel.Walking(Step(site, c, k).detector)
  {
    assert "" !in site.groups;
    PedestrianModel.ObserveKeepsWalking(site.zones, c.detector, k.observedAt, k.positions);
    var c0 := Advanced(site, c, k);
    assert Continues(c, c0) && c0.clock == k.time && PedestrianModel.Walking(c0.detector) by {
      hide PedestrianModel.Observe, OccupancyRows, LinearAlgebra.Truncate;
    }
    hide Advanced, ProcessVisits, AllStart, AllEnd, AllArrive, WellFormed, PedestrianModel.Walking;
    VisitsAppend(site, c0, k.time, k.occupied, k.visits);
    var c1 := Assigning(site, c, k);
    StartsAppend(site, c1, k.time, k.spawned, k.starting);
    EndsAppend(site, AllStart(site, c1, k.time, k.spawned, k.starting), k.time, k.ending);
    ArrivalsAppend(site, Settled(site, c1, k), k.time, k.arrived);
  }

  // ---- rollback ----

  /** Restoring undoes whatever came after the capture, however often it is done. */
  lemma RestoreUndoes(c: Core, persons: set<string>, later: Core)
    requires PedestrianModel.Walking(c.detector) && Continues(c, later)
    ensures Restore(later, Capture(c, persons)) == c
  {
    PedestrianModel.RestoreIsIdentityIff(c.detector);
  }

  lemma {:induction false} StepsContinue(site: Site, c: Core, ticks: seq<Tick>)
    requires WellFormed(site) && PedestrianModel.Walking(c.detector)
    ensures Continues(c, Steps(site, c, ticks)) && PedestrianModel.Walking(Steps(site, c, ticks).detector)
    decreases |ticks|
  {
    hide Step, PedestrianModel.Walking, WellFormed;
    if ticks != [] {
      StepsContinue(site, c, ticks[..|ticks| - 1]);
      StepContinues(site, Steps(site, c, ticks[..|ticks| - 1]), ticks[|ticks| - 1]);
    }
  }

  function Steps(site: Site, c: Core, ticks: seq<Tick>): Core
    requires WellFormed(site)
    decreases |ticks|
  {
    if ticks == [] then c else Step(site, Steps(site, c, ticks[..|ticks| - 1]), ticks[|ticks| - 1])
  }

  /** One checkpoint restored after any iterations, and again after any others, gives the
      captured state both times. */
  lemma RestoreRepeatable(site: Site, c: Core, persons: set<string>, first: seq<Tick>, second: seq<Tick>)
    requires WellFormed(site) && PedestrianModel.Walking(c.detector)
    ensures var p := Capture(c, persons);
            var once := Restore(Steps(site, c, first), p);
            once == c && Restore(Steps(site, once, second), p) == c
  {
    StepsContinue(site, c, first);
    StepsContinue(site, c, second);
    hide Restore, Capture, Continues;
    RestoreUndoes(c, persons, Steps(site, c, first));
    RestoreUndoes(c, persons, Steps(site, c, second));
  }

  // ---- the refinement ----

  /** m is the state at r's last checkpoint, and only the logs have gone on since. */
  ghost predicate Anchor(r: Run, m: Run) {
    && m.checkpoint == r.checkpoint && m.lastCheckpoint == r.lastCheckpoint
    && (r.checkpoint.Some? ==> r.checkpoint.value == Capture(m.core, m.persons) && r.lastCheckpoint == m.core.clock
                               && PedestrianModel.Walking(m.core.detector) && Continues(m.core, r.core))
  }

  lemma AdvanceAnchors(site: Site, cfg: Config, r: Run, m: Run, k: Tick)
    requires WellFormed(site) && PedestrianModel.Walking(r.core.detector) && Anchor(r, m)
    ensures var r' := Advance(site, cfg, r, k);
            && PedestrianModel.Walking(r'.core.detector)
            && Anchor(r', if Due(cfg, k.time, r.lastCheckpoint) then r' else m)
  {
    StepContinues(site, r.core, k);
    hide Step, PedestrianModel.Walking, WellFormed, Capture;
  }

  /** The state at the last checkpoint of an undisturbed run. */
  lemma {:induction false} Anchored(site: Site, cfg: Config, begin: real, ticks: seq<Tick>)
    requires WellFormed(site)
    ensures var r := Undisturbed(site, cfg, begin, ticks);
            && !r.failed && r.attempts == 0 && r.quarantined == {} && r.core == RunCore(site, begin, ticks)
            && PedestrianModel.Walking(r.core.detector)
            && Anchor(r, Undisturbed(site, cfg, begin, ticks[..CheckpointAt(site, cfg, begin, ticks)]))
    decreases |ticks|
  {
    if ticks != [] {
      var front, k := ticks[..|ticks| - 1], ticks[|ticks| - 1];
      Anchored(site, cfg, begin, front);
      var n := CheckpointAt(site, cfg, begin, front);
      AdvanceAnchors(site, cfg, Undisturbed(site, cfg, begin, front), Undisturbed(site, cfg, begin, front[..n]), k);
      hide Step, PedestrianModel.Walking, WellFormed, Capture, Anchor;
      assert ticks[..|ticks|] == ticks && ticks[..n] == front[..n];
    }
  }

  /** The two checkpoints differ at most in persons. */
  ghost predicate SamePoint(a: Option<Checkpoint>, b: Option<Checkpoint>, quarantined: set<string>) {
    && a.Some? == b.Some?
    && (a.Some? ==> a.value == b.value.(persons := a.value.persons)
                    && b.value.persons <= a.value.persons <= b.value.persons + quarantined)
  }

  /** A run with crashes agrees with one without, apart from quarantined persons, the recovery
      counter and, after an unrecovered crash, the pedestrian counter. */
  ghost predicate Refines(r: Run, s: Run, limit: nat) {
    && (if r.failed then r.core.(detector := s.core.detector) == s.core else r.core == s.core)
    && SamePoint(r.checkpoint, s.checkpoint, r.quarantined) && r.lastCheckpoint == s.lastCheckpoint
    && r.persons == s.persons + r.quarantined
    && r.attempts <= limit
  }

  lemma AdvanceRefines(site: Site, cfg: Config, r: Run, s: Run, k: Tick)
    requires WellFormed(site) && !r.failed && Refines(r, s, cfg.maxAttempts)
    ensures Refines(Advance(site, cfg, r, k), Advance(site, cfg, s, k), cfg.maxAttempts)
  {
    hide Step;
  }

  lemma RecoverRefines(site: Site, cfg: Config, r: Run, s: Run, m: Run, seen: Core, candidates: set<string>)
    requires !r.failed && Refines(r, s, cfg.maxAttempts) && r.checkpoint.Some? && r.attempts < cfg.maxAttempts
    requires seen.events == r.core.events && seen.rows == r.core.rows
    requires s.checkpoint == m.checkpoint && s.checkpoint == Some(Capture(m.core, m.persons))
        && m.lastCheckpoint == m.core.clock
    requires PedestrianModel.Walking(m.core.detector) && Continues(m.core, s.core)
    ensures Refines(Recover(r.(core := seen), r.checkpoint.value, candidates), m, cfg.maxAttempts)
  {
    RestoreUndoes(m.core, m.persons, seen);
    assert Restore(seen, r.checkpoint.value) == Restore(seen, s.checkpoint.value);
  }

  /** Every state and log reached with any number of crashes is the one that a run of the
      surviving iterations reaches without crashes. */
  lemma {:induction false} CrashesAreInvisible(site: Site, cfg: Config, begin: real, outcomes: seq<Outcome>)
    requires WellFormed(site)
    ensures Refines(Execute(site, cfg, begin, outcomes),
                    Undisturbed(site, cfg, begin, Survivors(site, cfg, begin, outcomes)), cfg.maxAttempts)
    decreases |outcomes|
  {
    if outcomes != [] {
      var front, last := outcomes[..|outcomes| - 1], outcomes[|outcomes| - 1];
      CrashesAreInvisible(site, cfg, begin, front);
      var r, kept := Execute(site, cfg, begin, front), Survivors(site, cfg, begin, front);
      var s := Undisturbed(site, cfg, begin, kept);
      Anchored(site, cfg, begin, kept);
      hide Advance, Recover, Capture, Continues, PedestrianModel.Walking, WellFormed;
      if !r.failed {
        match last
        case Stepped(k) =>
          AdvanceRefines(site, cfg, r, s, k);
          assert (kept + [k])[..|kept|] == kept;
        case Crashed(at, positions, candidates, recoverable) =>
          if CanRecover(cfg, r, candidates, recoverable) {
            var m := Undisturbed(site, cfg, begin, kept[..CheckpointAt(site, cfg, begin, kept)]);
            RecoverRefines(site, cfg, r, s, m, Observed(site, r.core, at, positions), candidates);
          }
      }
    }
  }

  /** The number of recovered crashes is the recovery counter and never exceeds the limit. */
  function Recovered(site: Site, cfg: Config, begin: real, outcomes: seq<Outcome>): nat
    requires WellFormed(site)
    decreases |outcomes|
  {
    if outcomes == [] then 0
    else
      var front, last := outcomes[..|outcomes| - 1], outcomes[|outcomes| - 1];
      var r := Execute(site, cfg, begin, front);
      Recovered(site, cfg, begin, front)
      + if !r.failed && last.Crashed? && CanRecover(cfg, r, last.candidates, last.recoverable) then 1 else 0
  }

  lemma {:induction false} RestartsAreBounded(site: Site, cfg: Config, begin: real, outcomes: seq<Outcome>)
    requires WellFormed(site)
    ensures Recovered(site, cfg, begin, outcomes) == Execute(site, cfg, begin, outcomes).attempts <= cfg.maxAttempts
    decreases |outcomes|
  {
    hide Step, Restore, Observed, WellFormed, Capture;
    if outcomes != [] {
      RestartsAreBounded(site, cfg, begin, outcomes[..|outcomes| - 1]);
    }
  }

  /** There is a checkpoint to go back to from the start on. */
  lemma {:induction false} CheckpointExists(site: Site, cfg: Config, begin: real, outcomes: seq<Outcome>)
    requires WellFormed(site)
    ensures Execute(site, cfg, begin, outcomes).checkpoint.Some? <==> cfg.enabled && cfg.maxAttempts > 0
    decreases |outcomes|
  {
    hide Step, Restore, Observed, WellFormed, Capture;
    if outcomes != [] {
      CheckpointExists(site, cfg, begin, outcomes[..|outcomes| - 1]);
    }
  }

  /** A crash ends the run exactly when recovery is off, it is not of the kind to recover from,
      it leaves no candidate, or the attempts are used up. The run then keeps what it had, with
      the pedestrians observed. */
  lemma FatalIff(site: Site, cfg: Config, begin: real, outcomes: seq<Outcome>, o: Outcome)
    requires WellFormed(site) && o.Crashed? && !Execute(site, cfg, begin, outcomes).failed
    ensures Execute(site, cfg, begin, outcomes + [o]).failed
            <==> !cfg.enabled || !o.recoverable || o.candidates == {}
                 || Recovered(site, cfg, begin, outcomes) >= cfg.maxAttempts
    ensures var r, d := Execute(site, cfg, begin, outcomes), Execute(site, cfg, begin, outcomes + [o]);
            d.failed ==> d == r.(failed := true, core := r.core.(detector :=
                                 PedestrianModel.Observe(site.zones, r.core.detector, o.observedAt, o.positions)))
  {
    CheckpointExists(site, cfg, begin, outcomes);
    RestartsAreBounded(site, cfg, begin, outcomes);
    assert (outcomes + [o])[..|outcomes|] == outcomes;
    hide Restore, WellFormed, Capture, Recovered, PedestrianModel.Observe;
  }

  // ---- who is quarantined ----

  /** The i-th outcome is a crash that the run survived. */
  ghost predicate SurvivedCrash(site: Site, cfg: Config, begin: real, outcomes: seq<Outcome>, i: nat)
    requires WellFormed(site) && i < |outcomes|
  {
    outcomes[i].Crashed? && !Execute(site, cfg, begin, outcomes[..i + 1]).failed
  }

  /** The run survived a crash that found the person finishing a walk. */
  ghost predicate Suspected(site: Site, cfg: Config, begin: real, outcomes: seq<Outcome>, person: string)
    requires WellFormed(site)
  {
    exists i: nat :: i < |outcomes| && SurvivedCrash(site, cfg, begin, outcomes, i)
                     && person in outcomes[i].candidates
  }

  lemma SuspectedAppend(site: Site, cfg: Config, begin: real, front: seq<Outcome>, o: Outcome, person: string)
    requires WellFormed(site)
    ensures var outcomes := front + [o];
            Suspected(site, cfg, begin, outcomes, person)
            <==> Suspected(site, cfg, begin, front, person)
                 || (o.Crashed? && !Execute(site, cfg, begin, outcomes).failed && person in o.candidates)
  {
    hide Execute;
    var outcomes := front + [o];
    assert outcomes[..|front| + 1] == outcomes;
    assert SurvivedCrash(site, cfg, begin, outcomes, |front|) <==>
        o.Crashed? && !Execute(site, cfg, begin, outcomes).failed;
    forall i: nat | i < |front|
      ensures SurvivedCrash(site, cfg, begin, outcomes, i) == SurvivedCrash(site, cfg, begin, front, i)
    {
      assert outcomes[..i + 1] == front[..i + 1];
    }
  }

  /** Exactly the candidates of the crashes that the run survived are quarantined, and they count
      as completed. */
  lemma {:induction false} QuarantineIsExact(site: Site, cfg: Config, begin: real, outcomes: seq<Outcome>)
    requires WellFormed(site)
    ensures var r := Execute(site, cfg, begin, outcomes);
            && (forall person :: person in r.quarantined <==> Suspected(site, cfg, begin, outcomes, person))
            && r.quarantined <= r.persons
    decreases |outcomes|
  {
    hide Step, Restore, Observed, WellFormed, Capture, Suspected;
    if outcomes == [] {
      assert forall person :: !Suspected(site, cfg, begin, [], person) by { NobodySuspected(site, cfg, begin); }
    } else {
      var front, last := outcomes[..|outcomes| - 1], outcomes[|outcomes| - 1];
      QuarantineIsExact(site, cfg, begin, front);
      assert outcomes == front + [last];
      forall person
        ensures Suspected(site, cfg, begin, outcomes, person) <==>
            Suspected(site, cfg, begin, front, person)
            || (last.Crashed? && !Execute(site, cfg, begin, outcomes).failed && person in last.candidates)
      {
        SuspectedAppend(site, cfg, begin, front, last, person);
      }
    }
  }

  lemma NobodySuspected(site: Site, cfg: Config, begin: real)
    requires WellFormed(site)
    ensures forall person :: !Suspected(site, cfg, begin, [], person)
  {
  }

  ghost predicate ArrivedIn(ticks: seq<Tick>, person: string) {
    exists k :: k in ticks && person in k.arrivedPersons
  }

  /** A run without crashes counts as completed exactly the persons that arrived. */
  lemma {:induction false} UndisturbedPersons(site: Site, cfg: Config, begin: real, ticks: seq<Tick>)
    requires WellFormed(site)
    ensures forall person :: person in Undisturbed(site, cfg, begin, ticks).persons <==> ArrivedIn(ticks, person)
    decreases |ticks|
  {
    hide Step, WellFormed, Capture;
    if ticks != [] {
      var front, last := ticks[..|ticks| - 1], ticks[|ticks| - 1];
      UndisturbedPersons(site, cfg, begin, front);
      assert ticks == front + [last];
      forall person
        ensures ArrivedIn(ticks, person) <==> ArrivedIn(front, person) || person in last.arrivedPersons
      {
        assert last in ticks;
      }
    }
  }

  /** Completed are exactly the persons that arrived in an iteration that was not rolled back,
      and the candidates of the crashes that the run survived. */
  lemma CompletedPersons(site: Site, cfg: Config, begin: real, outcomes: seq<Outcome>, person: string)
    requires WellFormed(site)
    ensures person in Execute(site, cfg, begin, outcomes).persons
            <==> ArrivedIn(Survivors(site, cfg, begin, outcomes), person)
                 || Suspected(site, cfg, begin, outcomes, person)
  {
    CrashesAreInvisible(site, cfg, begin, outcomes);
    QuarantineIsExact(site, cfg, begin, outcomes);
    UndisturbedPersons(site, cfg, begin, Survivors(site, cfg, begin, outcomes));
    hide Execute, Undisturbed, Survivors, ArrivedIn, Suspected;
  }

  // ---- when checkpoints are taken ----

  /** With recovery on, the last checkpoint is never as old as the interval. */
  lemma {:induction false} CheckpointIsRecent(site: Site, cfg: Config, begin: real, outcomes: seq<Outcome>)
    requires WellFormed(site) && cfg.enabled && cfg.maxAttempts > 0 && cfg.interval > 0.0
    ensures var r := Execute(site, cfg, begin, outcomes);
            !r.failed ==> r.core.clock - r.lastCheckpoint < cfg.interval
    decreases |outcomes|
  {
    if outcomes != [] {
      var front := outcomes[..|outcomes| - 1];
      CheckpointIsRecent(site, cfg, begin, front);
      WalksOn(site, cfg, begin, front);
      var r := Execute(site, cfg, begin, front);
      hide Step, WellFormed, Capture, PedestrianModel.Walking;
      if !r.failed && outcomes[|outcomes| - 1].Stepped? {
        StepContinues(site, r.core, outcomes[|outcomes| - 1].tick);
      }
    }
  }

  lemma WalksOn(site: Site, cfg: Config, begin: real, outcomes: seq<Outcome>)
    requires WellFormed(site)
    ensures var r := Execute(site, cfg, begin, outcomes);
            !r.failed ==> PedestrianModel.Walking(r.core.detector)
  {
    CrashesAreInvisible(site, cfg, begin, outcomes);
    Anchored(site, cfg, begin, Survivors(site, cfg, begin, outcomes));
    hide Execute, Undisturbed, Survivors, PedestrianModel.Walking;
  }

  /** A completed iteration takes a checkpoint exactly when the last one is at least an interval
      old, and what it takes is the state at its own end. */
  lemma CheckpointIff(site: Site, cfg: Config, begin: real, outcomes: seq<Outcome>, k: Tick)
    requires WellFormed(site) && cfg.enabled && cfg.maxAttempts > 0 && !Execute(site, cfg, begin, outcomes).failed
    ensures var r, d := Execute(site, cfg, begin, outcomes), Execute(site, cfg, begin, outcomes + [Stepped(k)]);
            if k.time - r.lastCheckpoint < cfg.interval
            then d.checkpoint == r.checkpoint && d.lastCheckpoint == r.lastCheckpoint
            else d.lastCheckpoint == k.time && d.checkpoint.Some? && Restore(d.core, d.checkpoint.value) == d.core
                 && d.checkpoint.value.time == k.time && d.checkpoint.value.persons == d.persons
  {
    var r := Execute(site, cfg, begin, outcomes);
    assert (outcomes + [Stepped(k)])[..|outcomes|] == outcomes;
    WalksOn(site, cfg, begin, outcomes);
    StepContinues(site, r.core, k);
    var d := Step(site, r.core, k);
    RestoreUndoes(d, r.persons + k.arrivedPersons, d);
    hide Step, WellFormed, PedestrianModel.Walking, Restore;
  }

  // ---- what carries over ----

  /** Reservation accounting and capacity safety hold at every loop boundary of every run with
      crashes; the simulator's obligation concerns the surviving iterations. */
  lemma CrashedRunIsSafe(site: Site, cfg: Config, begin: real, outcomes: seq<Outcome>)
    requires WellFormed(site) && !Execute(site, cfg, begin, outcomes).failed
    ensures var c := Execute(site, cfg, begin, outcomes).core;
            var kept := Survivors(site, cfg, begin, outcomes);
            && AtMost(c) && UnservedExhausted(site, c)
            && (Sound(site) && Respects(site, begin, kept) && NoFailure(c.events) ==>
                Exact(c) && Fits(site, c, LastOccupied(kept)))
  {
    var kept := Survivors(site, cfg, begin, outcomes);
    CrashesAreInvisible(site, cfg, begin, outcomes);
    Anchored(site, cfg, begin, kept);
    RunAccounts(site, begin, kept);
    RunUnservedExhausted(site, begin, kept);
    hide RunCore, Respects, NoFailure, Exact, AtMost, UnservedExhausted, Fits, Execute, Survivors, Undisturbed;
    if Sound(site) && Respects(site, begin, kept) && NoFailure(RunCore(site, begin, kept).events) {
      RunIsSafe(site, begin, kept);
    }
  }
}
