/** Cancelling a simulation run: one database row, API calls and any number of worker
    executions of the run, interleaved step by step (backend/shared/database.py,
    backend/domain/simulations/service.py). The database answers every call. */
module Cancellation {
  import opened Wrappers

  datatype Status = Queued | Running | Completed | Failed

  /** A run record as a process holds it. */
  datatype Record = Record(status: Status, stop: bool)

  /** The database row: the status column, the cancel column, and the stored record. */
  datatype Row = Row(status: Status, cancel: bool, payload: Record)

  /** Write a record; the cancel column keeps what it has. */
  function Upserted(row: Row, r: Record): Row {
    Row(r.status, row.cancel || r.stop, r)
  }

  /** A read shows the cancel column as the stop request. */
  function ReadRecord(row: Row): Record {
    if row.cancel then row.payload.(stop := true) else row.payload
  }

  function CancelRequested(row: Row): Row {
    row.(cancel := true, payload := row.payload.(stop := true))
  }

  /** How many commands there are, and after which of them the record is written with what they
      found. Only the last one, the simulation, reports its progress in the record. */
  datatype Plan = Plan(commands: nat, noted: set<nat>)

  predicate IsLast(plan: Plan, i: nat) {
    i + 1 >= plan.commands
  }

  /** Where an execution stands. Commands are numbered from 0. */
  datatype Pc =
    | Waiting | Claiming | Beginning | FirstCheck | Preparing
    | BeforeCommand(i: nat) | Launching(i: nat) | InCommand(i: nat) | AfterCommand(i: nat) | SecondCheck(i: nat)
    | Noting(i: nat) | Finalizing | Completing | Failing

  /** A worker's execution of the run; `started` counts the commands it ever started for it. */
  datatype Execution = Execution(pc: Pc, record: Record, started: nat)

  const FRESH := Execution(Waiting, Record(Queued, false), 0)

  /** The API call in progress: the record as first read, then as the cancel returned it. */
  datatype Api = Free | Asked(record: Record) | Cancelled(queued: bool, record: Record)

  datatype State = State(row: Row, executions: map<string, Execution>, api: Api)

  /** A worker step may meet a failure, or a stop request known only locally; the simulation may
      report its progress any number of times. The API reads, cancels, and then may mark a queued run failed. */
  datatype Event =
    | WorkerStep(worker: string, trouble: bool, local: bool)
    | Progress(worker: string)
    | Crash(worker: string)
    | ApiRead | ApiCancel | ApiFail(running: bool)
    | QueueFailure

  /** Back to waiting for a delivery. */
  function Ended(x: Execution): Execution {
    Execution(Waiting, FRESH.record, x.started)
  }

  function ExecutionOf(s: State, w: string): Execution {
    if w in s.executions then s.executions[w] else FRESH
  }

  function IsOver(status: Status): bool {
    status == Completed || status == Failed
  }

  /** Move on, or fail when stopped or in trouble. */
  function Checked(row: Row, e: WorkerEvent, next: Pc): Pc {
    if row.cancel || e.local || e.trouble then Failing else next
  }

  datatype WorkerEvent = WorkerEvent(trouble: bool, local: bool)

  /** One step of one execution: its new state and the row. */
  function Executed(plan: Plan, row: Row, x: Execution, e: WorkerEvent): (Row, Execution) {
    match x.pc
    case Waiting => if IsOver(ReadRecord(row).status) then (row, x)
        else (row, Execution(Claiming, ReadRecord(row), x.started))
    case Claiming => (Upserted(row, x.record), x.(pc := Beginning))
    case Beginning =>
        (Upserted(row, x.record.(status := Running)), x.(pc := FirstCheck, record := x.record.(status := Running)))
    case FirstCheck => (row, x.(pc := Checked(row, e, Preparing)))
    case Preparing => (row, x.(pc := if e.trouble then Failing else BeforeCommand(0)))
    case BeforeCommand(i) => (row, x.(pc := Checked(row, e, Launching(i))))
    case Launching(i) => (Upserted(row, x.record), x.(pc := InCommand(i), started := x.started + 1))
    case InCommand(i) =>
      (if e.trouble || !IsLast(plan, i) then row else Upserted(row, x.record), x.(pc := AfterCommand(i)))
    case AfterCommand(i) => (row, x.(pc := Checked(row, e, if IsLast(plan, i) then Finalizing else SecondCheck(i))))
    case SecondCheck(i) =>
      (row, x.(pc := Checked(row, e, if i in plan.noted then Noting(i) else BeforeCommand(i + 1))))
    case Noting(i) =>
      if e.trouble then (row, x.(pc := Failing)) else (Upserted(row, x.record), x.(pc := BeforeCommand(i + 1)))
    case Finalizing => (Upserted(row, x.record), x.(pc := if e.trouble then Failing else Completing))
    case Completing => (Upserted(row, x.record.(status := Completed)), Ended(x))
    case Failing => (Upserted(row, x.record.(status := Failed)), Ended(x))
  }

  function Step(plan: Plan, s: State, e: Event): State {
    match e
    case WorkerStep(w, trouble, local) =>
      var (row, x) := Executed(plan, s.row, ExecutionOf(s, w), WorkerEvent(trouble, local));
      s.(row := row, executions := s.executions[w := x])
    case Progress(w) =>
      var x := ExecutionOf(s, w);
      if x.pc.InCommand? && IsLast(plan, x.pc.i) then s.(row := Upserted(s.row, x.record)) else s
    case Crash(w) => s.(executions := s.executions[w := Ended(ExecutionOf(s, w))])
    case ApiRead => if IsOver(ReadRecord(s.row).status) || ReadRecord(s.row).stop then s.(api := Free)
        else s.(api := Asked(ReadRecord(s.row)))
    case ApiCancel =>
      if !s.api.Asked? then s
      else s.(row := CancelRequested(s.row),
              api := Cancelled(s.api.record.status == Queued, CancelRequested(s.row).payload))
    case ApiFail(running) =>
      if !s.api.Cancelled? then s
      else if !s.api.queued || running then s.(api := Free)
      else s.(row := Upserted(s.row, s.api.record.(status := Failed)), api := Free)
    case QueueFailure => if IsOver(ReadRecord(s.row).status) then s
        else s.(row := Upserted(s.row, ReadRecord(s.row).(status := Failed)))
  }

  function After(plan: Plan, s: State, events: seq<Event>): State
    decreases |events|
  {
    if events == [] then s else Step(plan, After(plan, s, events[..|events| - 1]), events[|events| - 1])
  }

  // ---- a cancel sticks ----

  lemma StepSticks(plan: Plan, s: State, e: Event)
    requires s.row.cancel
    ensures Step(plan, s, e).row.cancel
  {
  }

  /** Once a cancel has committed, nothing clears it, and every read shows it. */
  lemma {:induction false} CancelSticks(plan: Plan, s: State, events: seq<Event>)
    requires s.row.cancel
    ensures After(plan, s, events).row.cancel && ReadRecord(After(plan, s, events).row).stop
    decreases |events|
  {
    if events != [] {
      CancelSticks(plan, s, events[..|events| - 1]);
      StepSticks(plan, After(plan, s, events[..|events| - 1]), events[|events| - 1]);
    }
  }

  /** A worker's stale record, read before the cancel, does not clear it. */
  lemma StaleWriteKeepsCancel(row: Row, stale: Record)
    ensures Upserted(CancelRequested(row), stale).cancel && ReadRecord(Upserted(CancelRequested(row), stale)).stop
  {
  }

  // ---- no command starts ----

  /** Commands the execution has started, and the one it is about to start unchecked. */
  function Committed(x: Execution): nat {
    x.started + if x.pc.Launching? then 1 else 0
  }

  /** After the cancel an execution only ever starts a command whose check came before it. */
  lemma CancelledStep(plan: Plan, row: Row, x: Execution, e: WorkerEvent)
    requires row.cancel
    ensures var (row', y) := Executed(plan, row, x, e);
            && x.started <= y.started && Committed(y) <= Committed(x)
            && (y.started > x.started ==> x.pc.Launching?)
            && (x.pc.Launching? || !y.pc.Launching?)
  {
  }

  /** Once a cancel has committed, a worker starts at most the command it was just about to
      launch, and otherwise none. */
  lemma {:induction false} NoCommandStarts(plan: Plan, s: State, events: seq<Event>, w: string)
    requires s.row.cancel
    ensures var x, y := ExecutionOf(s, w), ExecutionOf(After(plan, s, events), w);
            && x.started <= y.started && Committed(y) <= Committed(x)
            && (!x.pc.Launching? ==> y.started == x.started)
    decreases |events|
  {
    if events != [] {
      var front, e := events[..|events| - 1], events[|events| - 1];
      NoCommandStarts(plan, s, front, w);
      CancelSticks(plan, s, front);
      var t := After(plan, s, front);
      if e.WorkerStep? && e.worker == w {
        CancelledStep(plan, t.row, ExecutionOf(t, w), WorkerEvent(e.trouble, e.local));
      }
      hide Executed;
    }
  }

  /** A cancel that commits before a worker's first check: the worker never starts a command
      of the run. */
  lemma EarlyCancelStartsNothing(plan: Plan, s: State, events: seq<Event>, w: string)
    requires s.row.cancel && BeforeFirstCheck(ExecutionOf(s, w))
    ensures ExecutionOf(After(plan, s, events), w).started == 0
  {
    NoCommandStarts(plan, s, events, w);
  }

  ghost predicate BeforeFirstCheck(x: Execution) {
    (x.pc == Waiting || x.pc == Claiming || x.pc == Beginning || x.pc == FirstCheck) && x.started == 0
  }

  // ---- never completed ----

  /** The execution has still to pass its last check. */
  predicate Checkable(x: Execution) {
    x.pc != Finalizing && x.pc != Completing && x.record.status != Completed
  }

  ghost predicate NeverCompletes(s: State) {
    && s.row.cancel && s.row.status != Completed && s.row.payload.status != Completed
    && (forall w :: w in s.executions ==> Checkable(s.executions[w]))
    && (s.api.Asked? ==> s.api.record.status != Completed) && (s.api.Cancelled? ==> s.api.record.status != Completed)
  }

  lemma CheckableStep(plan: Plan, row: Row, x: Execution, e: WorkerEvent)
    requires row.cancel && row.status != Completed && row.payload.status != Completed && Checkable(x)
    ensures var (row', y) := Executed(plan, row, x, e);
            row'.status != Completed && row'.payload.status != Completed && Checkable(y)
  {
  }

  /** A cancel that commits before the last check of every execution: the run is never written
      as completed. */
  lemma {:induction false} CancelledNeverCompletes(plan: Plan, s: State, events: seq<Event>)
    requires NeverCompletes(s)
    ensures NeverCompletes(After(plan, s, events))
    decreases |events|
  {
    if events != [] {
      var front, e := events[..|events| - 1], events[|events| - 1];
      CancelledNeverCompletes(plan, s, front);
      var t := After(plan, s, front);
      StepSticks(plan, t, e);
      if e.WorkerStep? {
        CheckableStep(plan, t.row, ExecutionOf(t, e.worker), WorkerEvent(e.trouble, e.local));
      }
      hide Executed;
    }
  }

  /** An execution past its last check completes the run although a cancel has committed; with
      CancelledNeverCompletes, this is the only way. */
  lemma LateCancelCompletes(plan: Plan, s: State, w: string)
    requires s.row.cancel && w in s.executions && s.executions[w].pc == Finalizing
    ensures After(plan, s, [WorkerStep(w, false, false), WorkerStep(w, false, false)]).row.status == Completed
  {
    var e := WorkerStep(w, false, false);
    assert [e, e][..1] == [e] && [e][..0] == [];
    assert After(plan, s, [e]) == Step(plan, s, e);
  }

  /** The row can still become completed after a cancel exactly when it or some process has
      got there before. */
  lemma CompletesIff(plan: Plan, s: State)
    requires s.row.cancel && s.row.status != Completed && s.row.payload.status != Completed && s.api == Free
    requires forall w :: w in s.executions ==> s.executions[w].record.status != Completed
    ensures (exists events :: After(plan, s, events).row.status == Completed)
            <==> exists w :: w in s.executions && !Checkable(s.executions[w])
  {
    if w :| w in s.executions && !Checkable(s.executions[w]) {
      var e := WorkerStep(w, false, false);
      assert [e][..0] == [];
      if s.executions[w].pc == Finalizing {
        LateCancelCompletes(plan, s, w);
      } else {
        assert After(plan, s, [e]).row.status == Completed;
      }
    }
    if forall w :: w in s.executions ==> Checkable(s.executions[w]) {
      forall events: seq<Event>
        ensures After(plan, s, events).row.status != Completed
      {
        CancelledNeverCompletes(plan, s, events);
      }
    }
  }

  // ---- completed only after all commands ----

  /** The execution has started the commands before the one it stands at, and shows the run as
      running from its first check on. */
  ghost predicate InOrder(plan: Plan, x: Execution) {
    match x.pc
    case Waiting | Claiming | Beginning => true
    case FirstCheck | Preparing | Failing => x.record.status == Running
    case BeforeCommand(i) => x.record.status == Running && x.started >= i
    case Launching(i) => x.record.status == Running && x.started >= i
    case InCommand(i) => x.record.status == Running && x.started >= i + 1
    case AfterCommand(i) => x.record.status == Running && x.started >= i + 1
    case SecondCheck(i) => x.record.status == Running && x.started >= i + 1
    case Noting(i) => x.record.status == Running && x.started >= i + 1
    case Finalizing | Completing => x.record.status == Running && x.started >= plan.commands
  }

  ghost predicate StartedAll(plan: Plan, executions: map<string, Execution>) {
    exists w :: w in executions && executions[w].started >= plan.commands
  }

  /** Executions are in order and hold records of an open run; a run that shows as completed has
      had all its commands started; and the API call in progress has read an open run, or has
      returned a stopped one. */
  ghost predicate Orderly(plan: Plan, s: State) {
    && (forall w :: w in s.executions ==> InOrder(plan, s.executions[w]) && !IsOver(s.executions[w].record.status))
    && (s.row.status == Completed || s.row.payload.status == Completed ==> StartedAll(plan, s.executions))
    && (s.api.Asked? ==> !IsOver(s.api.record.status) && !s.api.record.stop)
    && (s.api.Cancelled? ==> s.api.record.stop)
  }

  lemma OrderlyWorker(plan: Plan, row: Row, x: Execution, e: WorkerEvent)
    requires InOrder(plan, x) && !IsOver(x.record.status)
    ensures var (row', y) := Executed(plan, row, x, e);
            && InOrder(plan, y) && !IsOver(y.record.status) && y.started >= x.started
            && (row'.status == Completed || row'.payload.status == Completed ==>
                  y.started >= plan.commands || row.status == Completed || row.payload.status == Completed)
            && (x.pc.Launching? ==> row'.status == Running && ReadRecord(row').status == Running)
  {
  }

  lemma StartedAllStays(plan: Plan, executions: map<string, Execution>, w: string, y: Execution)
    requires w in executions ==> executions[w].started <= y.started
    ensures StartedAll(plan, executions) ==> StartedAll(plan, executions[w := y])
    ensures y.started >= plan.commands ==> StartedAll(plan, executions[w := y])
  {
    if u :| u in executions && executions[u].started >= plan.commands {
      assert u in executions[w := y];
    }
    assert w in executions[w := y];
  }

  lemma OrderlyStep(plan: Plan, s: State, e: Event)
    requires Orderly(plan, s)
    ensures Orderly(plan, Step(plan, s, e))
  {
    hide Executed, StartedAll;
    match e
    case WorkerStep(w, trouble, local) =>
      var x := ExecutionOf(s, w);
      OrderlyWorker(plan, s.row, x, WorkerEvent(trouble, local));
      StartedAllStays(plan, s.executions, w, Executed(plan, s.row, x, WorkerEvent(trouble, local)).1);
    case Crash(w) => StartedAllStays(plan, s.executions, w, Ended(ExecutionOf(s, w)));
    case _ =>
  }

  /** A run is completed only when some worker has started all its commands, one after the other. */
  lemma {:induction false} CompletedAfterAll(plan: Plan, s: State, events: seq<Event>)
    requires Orderly(plan, s)
    ensures Orderly(plan, After(plan, s, events))
    ensures After(plan, s, events).row.status == Completed ==>
        StartedAll(plan, After(plan, s, events).executions)
    decreases |events|
  {
    if events != [] {
      CompletedAfterAll(plan, s, events[..|events| - 1]);
      OrderlyStep(plan, After(plan, s, events[..|events| - 1]), events[|events| - 1]);
    }
  }

  /** A failure of the queue leaves a run over, and one that was over as it is. */
  lemma QueueFailureEnds(plan: Plan, s: State)
    ensures var t := After(plan, s, [QueueFailure]);
            && IsOver(ReadRecord(t.row).status) && t.executions == s.executions
            && (if IsOver(ReadRecord(s.row).status) then t == s else t.row.status == Failed)
  {
    assert [QueueFailure][..0] == [];
    assert After(plan, s, []) == s;
  }

  // ---- an undisturbed execution completes ----

  /** n steps of one worker, without trouble. */
  function Alone(w: string, n: nat): seq<Event> {
    seq(n, _ => WorkerStep(w, false, false))
  }

  lemma AloneNext(plan: Plan, s: State, w: string, n: nat)
    ensures After(plan, s, Alone(w, n + 1)) == Step(plan, After(plan, s, Alone(w, n)), WorkerStep(w, false, false))
    ensures After(plan, s, Alone(w, 0)) == s
  {
    assert Alone(w, n + 1)[..n] == Alone(w, n);
  }

  lemma {:induction false} AloneAdds(plan: Plan, s: State, w: string, m: nat, n: nat)
    ensures After(plan, After(plan, s, Alone(w, m)), Alone(w, n)) == After(plan, s, Alone(w, m + n))
    decreases n
  {
    hide Step, After;
    if n == 0 {
      AloneNext(plan, After(plan, s, Alone(w, m)), w, 0);
    } else {
      AloneAdds(plan, s, w, m, n - 1);
      AloneNext(plan, s, w, m + n - 1);
      AloneNext(plan, After(plan, s, Alone(w, m)), w, n - 1);
    }
  }

  /** After n steps of worker w the run is completed, with so many commands started. */
  ghost predicate Reaches(plan: Plan, s: State, w: string, started: nat, n: nat) {
    var t := After(plan, s, Alone(w, n));
    t.row.status == Completed && ExecutionOf(t, w).started == started
  }

  lemma ReachesFromNext(plan: Plan, s: State, w: string, started: nat, n: nat)
    requires Reaches(plan, Step(plan, s, WorkerStep(w, false, false)), w, started, n)
    ensures Reaches(plan, s, w, started, n + 1)
  {
    AloneNext(plan, s, w, 0);
    AloneAdds(plan, s, w, 1, n);
    hide Step, After;
  }

  /** The commands an execution has still to start. */
  ghost function Remaining(plan: Plan, pc: Pc): nat {
    match pc
    case BeforeCommand(i) => if plan.commands > i + 1 then plan.commands - i else 1
    case Launching(i) => if plan.commands > i + 1 then plan.commands - i else 1
    case InCommand(i) => if plan.commands > i + 1 then plan.commands - i - 1 else 0
    case AfterCommand(i) => if plan.commands > i + 1 then plan.commands - i - 1 else 0
    case SecondCheck(i) => if plan.commands > i + 1 then plan.commands - i - 1 else 0
    case Noting(i) => if plan.commands > i + 1 then plan.commands - i - 1 else 0
    case Finalizing | Completing | Failing => 0
    case _ => if plan.commands > 1 then plan.commands else 1
  }

  /** What an execution has still to do; it shrinks with every step. */
  ghost function Distance(plan: Plan, pc: Pc): nat {
    match pc
    case Waiting => 10 * Remaining(plan, pc) + 14
    case Claiming => 10 * Remaining(plan, pc) + 13
    case Beginning => 10 * Remaining(plan, pc) + 12
    case FirstCheck => 10 * Remaining(plan, pc) + 11
    case Preparing => 10 * Remaining(plan, pc) + 10
    case BeforeCommand(_) => 10 * Remaining(plan, pc) + 9
    case Launching(_) => 10 * Remaining(plan, pc) + 8
    case InCommand(_) => 10 * Remaining(plan, pc) + 17
    case AfterCommand(_) => 10 * Remaining(plan, pc) + 16
    case SecondCheck(_) => 10 * Remaining(plan, pc) + 11
    case Noting(_) => 10 * Remaining(plan, pc) + 10
    case Finalizing => 2
    case Completing => 1
    case Failing => 0
  }

  /** An execution that can still complete the run, which nobody has asked to stop. */
  ghost predicate Undisturbed(plan: Plan, s: State, w: string) {
    var x := ExecutionOf(s, w);
    && !s.row.cancel && !x.record.stop
    && (match x.pc
        case Waiting => !IsOver(s.row.payload.status) && !s.row.payload.stop
        case SecondCheck(i) => !IsLast(plan, i)
        case Noting(i) => !IsLast(plan, i)
        case Failing => false
        case _ => true)
  }

  lemma UndisturbedStep(plan: Plan, s: State, w: string)
    requires Undisturbed(plan, s, w)
    ensures var t, x := Step(plan, s, WorkerStep(w, false, false)), ExecutionOf(s, w);
            var y := ExecutionOf(t, w);
            if x.pc == Completing then t.row.status == Completed && y.started == x.started
            else && Undisturbed(plan, t, w) && Distance(plan, y.pc) < Distance(plan, x.pc)
                 && y.started + Remaining(plan, y.pc) == x.started + Remaining(plan, x.pc)
  {
  }

  /** An execution without trouble in a run that nobody asks to stop completes the run, and starts
      every command once. */
  lemma {:induction false} UndisturbedCompletes(plan: Plan, s: State, w: string) returns (n: nat)
    requires Undisturbed(plan, s, w)
    ensures Reaches(plan, s, w, ExecutionOf(s, w).started + Remaining(plan, ExecutionOf(s, w).pc), n)
    decreases Distance(plan, ExecutionOf(s, w).pc)
  {
    UndisturbedStep(plan, s, w);
    var t, x := Step(plan, s, WorkerStep(w, false, false)), ExecutionOf(s, w);
    if x.pc == Completing {
      AloneNext(plan, s, w, 0);
      n := 1;
    } else {
      hide Undisturbed, Reaches, Step;
      var m := UndisturbedCompletes(plan, t, w);
      ReachesFromNext(plan, s, w, x.started + Remaining(plan, x.pc), m);
      n := m + 1;
    }
  }

  /** A delivered run that is open completes with each of its commands started once. */
  lemma DeliveredRunCompletes(plan: Plan, s: State, w: string)
    requires ExecutionOf(s, w) == FRESH && s.row == Row(Queued, false, Record(Queued, false)) && plan.commands >= 1
    ensures exists n :: Reaches(plan, s, w, plan.commands, n)
  {
    var n := UndisturbedCompletes(plan, s, w);
  }

  // ---- a removed run stays failed, or not ----

  /** The records executions hold were read while the run was not over. */
  ghost predicate HoldOpenRecords(s: State) {
    forall w :: w in s.executions ==> !IsOver(s.executions[w].record.status)
  }

  lemma {:induction false} RecordsStayOpen(plan: Plan, s: State, events: seq<Event>)
    requires HoldOpenRecords(s)
    ensures HoldOpenRecords(After(plan, s, events))
    decreases |events|
  {
    if events != [] {
      var front, e := events[..|events| - 1], events[|events| - 1];
      RecordsStayOpen(plan, s, front);
      if e.WorkerStep? {
        var t := After(plan, s, front);
        OpenStep(plan, t.row, ExecutionOf(t, e.worker), WorkerEvent(e.trouble, e.local));
      }
      hide Executed;
    }
  }

  lemma OpenStep(plan: Plan, row: Row, x: Execution, e: WorkerEvent)
    requires !IsOver(x.record.status)
    ensures !IsOver(Executed(plan, row, x, e).1.record.status)
  {
  }

  /** The execution reads the cancel column before it writes its record again. */
  predicate ChecksFirst(plan: Plan, x: Execution) {
    match x.pc
    case Waiting | FirstCheck | Preparing | BeforeCommand(_) | AfterCommand(_) | SecondCheck(_) | Failing => true
    case InCommand(i) => !IsLast(plan, i)
    case Claiming | Beginning | Launching(_) | Noting(_) | Finalizing | Completing => false
  }

  ghost predicate StaysFailed(plan: Plan, s: State) {
    && s.row.cancel && s.row.status == Failed && s.row.payload.status == Failed
    && forall w :: w in s.executions ==> ChecksFirst(plan, s.executions[w])
  }

  lemma FailedStep(plan: Plan, row: Row, x: Execution, e: WorkerEvent)
    requires row.cancel && row.status == Failed && row.payload.status == Failed && ChecksFirst(plan, x)
    ensures var (row', y) := Executed(plan, row, x, e);
            row'.cancel && row'.status == Failed && row'.payload.status == Failed && ChecksFirst(plan, y)
  {
  }

  lemma {:induction false} RemovedStaysFailed(plan: Plan, s: State, events: seq<Event>)
    requires StaysFailed(plan, s)
    ensures StaysFailed(plan, After(plan, s, events))
    decreases |events|
  {
    if events != [] {
      var front, e := events[..|events| - 1], events[|events| - 1];
      RemovedStaysFailed(plan, s, front);
      var t := After(plan, s, front);
      if e.WorkerStep? {
        FailedStep(plan, t.row, ExecutionOf(t, e.worker), WorkerEvent(e.trouble, e.local));
      }
      hide Executed;
    }
  }

  /** A cancelled run that was marked failed stays failed, whatever happens, exactly when no
      execution is about to write a record it read before. */
  lemma RemovedStaysFailedIff(plan: Plan, s: State)
    requires s.row.cancel && s.row.status == Failed && s.row.payload.status == Failed && HoldOpenRecords(s)
    ensures (forall events :: After(plan, s, events).row.status == Failed)
            <==> forall w :: w in s.executions ==> ChecksFirst(plan, s.executions[w])
  {
    if w :| w in s.executions && !ChecksFirst(plan, s.executions[w]) {
      var e := WorkerStep(w, false, false);
      assert [e][..0] == [];
      assert After(plan, s, [e]).row.status != Failed;
    } else {
      forall events: seq<Event>
        ensures After(plan, s, events).row.status == Failed
      {
        RemovedStaysFailed(plan, s, events);
      }
    }
  }

  /** A cancel ends by marking the run failed exactly when the run was read as queued and no process
      of it is at work; otherwise it leaves the run as it is. */
  lemma RemovalIff(plan: Plan, s: State, running: bool)
    requires s.api.Cancelled?
    ensures var t := After(plan, s, [ApiFail(running)]);
            && t.api == Free && t.executions == s.executions
            && (if s.api.queued && !running
                then t.row == Row(Failed, s.row.cancel || s.api.record.stop, Record(Failed, s.api.record.stop))
                else t.row == s.row)
  {
    assert [ApiFail(running)][..0] == [];
    assert After(plan, s, []) == s;
  }

  /** Such an execution can be there when the run is removed from the queue: it has read the
      queued run before the cancel, and the run shows as running again. It starts no command. */
  lemma RemovedRunRevives(plan: Plan)
    ensures var s := State(Row(Queued, false, Record(Queued, false)), map[], Free);
            var removed := After(plan, s, [ApiRead, WorkerStep("w", false, false), ApiCancel, ApiFail(false)]);
            var later := After(plan, removed, [WorkerStep("w", false, false), WorkerStep("w", false, false)]);
            removed.row.status == Failed && removed.api == Free
            && later.row.status == Running && ReadRecord(later.row).stop
  {
    var s := State(Row(Queued, false, Record(Queued, false)), map[], Free);
    var e := WorkerStep("w", false, false);
    var all := [ApiRead, e, ApiCancel, ApiFail(false)];
    assert all[..3][..2] == all[..2] && all[..2][..1] == all[..1] && all[..1][..0] == [];
    assert [e, e][..1] == [e] && [e][..0] == [];
    var s1 := Step(plan, s, ApiRead);
    var s2 := Step(plan, s1, e);
    var s3 := Step(plan, s2, ApiCancel);
    var removed := Step(plan, s3, ApiFail(false));
    assert After(plan, s, all[..1]) == s1;
    assert After(plan, s, all[..2]) == s2;
    assert After(plan, s, all[..3]) == s3;
    assert After(plan, s, all) == removed;
    var t := Step(plan, removed, e);
    assert After(plan, removed, [e]) == t;
  }

  // ---- the database calls ----

  /** The row behind the calls, updated in place. */
  class RunTable {
    var status: Status
    var cancelRequested: bool
    var payload: Record

    ghost function View(): Row
      reads this
    {
      Row(status, cancelRequested, payload)
    }

    constructor (r: Record)
      ensures View() == Row(r.status, r.stop, r)
    {
      status, cancelRequested, payload := r.status, r.stop, r;
    }

    method UpsertSimulationRun(r: Record)
      modifies this
      ensures View() == Upserted(old(View()), r)
      ensures old(cancelRequested) ==> cancelRequested
    {
      status, payload := r.status, r;
      if !cancelRequested {
        cancelRequested := r.stop;
      }
    }

    method RequestSimulationCancel() returns (r: Record)
      modifies this
      ensures View() == CancelRequested(old(View())) && r == payload && r == ReadRecord(View())
    {
      r := payload.(stop := true);
      cancelRequested, payload := true, r;
    }

    method GetSimulationRun() returns (r: Record)
      ensures r == ReadRecord(View()) && (cancelRequested ==> r.stop)
    {
      r := payload;
      if cancelRequested {
        r := r.(stop := true);
      }
    }
  }
}
