/** At-least-once delivery to long-running workers (backend/shared/worker_runtime.py,
    backend/services/simulation_worker/main.py), over every interleaving of deliveries, handler
    steps, settlements and lost connections of any number of workers. */
module WorkerQueue {
  import opened Wrappers

  type Message = string

  /** The run's record in the database. Executions, cancels and retries may write it at any time. */
  datatype RunStatus = Queued | Running | Completed | Failed

  predicate Terminal(r: RunStatus) {
    r == Completed || r == Failed
  }

  /** How far a handler has got: it must see a terminal run record, then publish its status. */
  datatype Stage = Working | SawTerminal(status: RunStatus) | Announced

  datatype Job = Job(token: nat, message: Message, stage: Stage)

  /** The delivery a worker has to settle, with the flag it came with. */
  datatype Owned = Owned(token: nat, message: Message, redelivered: bool)

  /** A worker runs one job at a time; jobs of lost deliveries run on. `results` are the
      finished jobs. */
  datatype Worker = Worker(owned: Option<Owned>, jobs: seq<Job>, results: map<nat, bool>)

  /** What a handler sees and publishes, and the acknowledgement, carry the delivery's token. */
  datatype Effect = Observed(token: nat, message: Message, status: RunStatus)
                  | Published(token: nat, message: Message, status: RunStatus)
                  | Acked(token: nat, message: Message)
                  | Requeued(message: Message) | Dead(message: Message)
                  | Wrote(message: Message, status: RunStatus)

  datatype State = State(ready: seq<Message>, returned: set<Message>, workers: map<string, Worker>,
                         acked: set<Message>, dead: set<Message>, tokens: nat, log: seq<Effect>,
                         records: map<Message, RunStatus>)

  datatype Event =
    | Submit(message: Message)
    | Write(message: Message, status: RunStatus)
    | Deliver(worker: string)
    | Garbled(worker: string)
    | Observe(worker: string)
    | Announce(worker: string)
    | Finish(worker: string, ok: bool)
    | Mark(worker: string)
    | Settle(worker: string)
    | Lose(worker: string, killed: bool)

  const IDLE := Worker(None, [], map[])
  const EMPTY := State([], {}, map[], {}, {}, 0, [], map[])

  function WorkerOf(s: State, w: string): Worker {
    if w in s.workers then s.workers[w] else IDLE
  }

  function With(s: State, w: string, worker: Worker): State {
    s.(workers := s.workers[w := worker])
  }

  /** Take the next message: own it and hand it to the executor. */
  function Delivered(s: State, w: string): State
    requires s.ready != []
  {
    var m := s.ready[0];
    var worker := WorkerOf(s, w);
    With(s, w, worker.(owned := Some(Owned(s.tokens, m, m in s.returned)),
                       jobs := worker.jobs + [Job(s.tokens, m, Working)]))
    .(ready := s.ready[1..], tokens := s.tokens + 1)
  }

  /** The front job reaches a stage. */
  function Reached(s: State, w: string, stage: Stage, e: Effect): State
    requires WorkerOf(s, w).jobs != []
  {
    var worker := WorkerOf(s, w);
    With(s, w, worker.(jobs := [worker.jobs[0].(stage := stage)] + worker.jobs[1..])).(log := s.log + [e])
  }

  function Finished(s: State, w: string, ok: bool): State
    requires WorkerOf(s, w).jobs != []
  {
    var worker := WorkerOf(s, w);
    With(s, w, worker.(jobs := worker.jobs[1..], results := worker.results[worker.jobs[0].token := ok]))
  }

  /** Acknowledge a success; requeue a first failure; dead-letter a failure after redelivery. */
  function Settled(s: State, w: string, o: Owned, ok: bool): State {
    var released := With(s, w, WorkerOf(s, w).(owned := None));
    if ok then released.(acked := s.acked + {o.message}, log := s.log + [Acked(o.token, o.message)])
    else if o.redelivered then released.(dead := s.dead + {o.message}, log := s.log + [Dead(o.message)])
    else released.(ready := s.ready + [o.message], returned := s.returned + {o.message},
                   log := s.log + [Requeued(o.message)])
  }

  /** The broker takes an unsettled delivery back; a killed process also forgets its jobs. */
  function Lost(s: State, w: string, killed: bool): State {
    var worker := WorkerOf(s, w);
    var left := if killed then IDLE else worker.(owned := None);
    match worker.owned
    case None => With(s, w, left)
    case Some(o) => With(s, w, left).(ready := s.ready + [o.message], returned := s.returned + {o.message})
  }

  function Written(s: State, m: Message, status: RunStatus): State {
    s.(records := s.records[m := status], log := s.log + [Wrote(m, status)])
  }

  predicate IsTerminal(s: State, m: Message) {
    m in s.records && Terminal(s.records[m])
  }

  /** Before a last failure is settled, a run that is still open is marked failed. */
  predicate MarksFailed(s: State, w: string) {
    && WorkerOf(s, w).owned.Some?
    && var o := WorkerOf(s, w).owned.value;
       && o.redelivered && o.token in WorkerOf(s, w).results && !WorkerOf(s, w).results[o.token]
       && o.message in s.records && !Terminal(s.records[o.message])
  }

  function Known(s: State): set<Message> {
    (set m | m in s.ready) + s.acked + s.dead + set w | w in s.workers && s.workers[w].owned.Some? ::
        s.workers[w].owned.value.message
  }

  /** An event that cannot happen changes nothing. */
  function Step(s: State, e: Event): State {
    match e
    case Submit(m) => if m in Known(s) then s else s.(ready := s.ready + [m])
    case Write(m, status) => Written(s, m, status)
    case Deliver(w) => if s.ready == [] || WorkerOf(s, w).owned.Some? then s else Delivered(s, w)
    case Garbled(w) =>
      if s.ready == [] || WorkerOf(s, w).owned.Some? then s
      else s.(ready := s.ready[1..], dead := s.dead + {s.ready[0]}, log := s.log + [Dead(s.ready[0])])
    case Observe(w) =>
      var jobs := WorkerOf(s, w).jobs;
      if jobs == [] || jobs[0].stage != Working || !IsTerminal(s, jobs[0].message) then s
      else
        var status := s.records[jobs[0].message];
        Reached(s, w, SawTerminal(status), Observed(jobs[0].token, jobs[0].message, status))
    case Announce(w) =>
      var jobs := WorkerOf(s, w).jobs;
      if jobs == [] || !jobs[0].stage.SawTerminal? then s
      else Reached(s, w, Announced, Published(jobs[0].token, jobs[0].message, jobs[0].stage.status))
    case Finish(w, ok) =>
      var jobs := WorkerOf(s, w).jobs;
      if jobs == [] || (ok && jobs[0].stage != Announced) then s else Finished(s, w, ok)
    case Mark(w) => if MarksFailed(s, w) then Written(s, WorkerOf(s, w).owned.value.message, Failed) else s
    case Settle(w) =>
      var worker := WorkerOf(s, w);
      if worker.owned.None? || worker.owned.value.token !in worker.results then s
      else Settled(s, w, worker.owned.value, worker.results[worker.owned.value.token])
    case Lose(w, killed) => Lost(s, w, killed)
  }

  function Run(events: seq<Event>): State
    decreases |events|
  {
    if events == [] then EMPTY else Step(Run(events[..|events| - 1]), events[|events| - 1])
  }

  // ---- exactly one place ----

  function Occurrences(s: seq<Message>, m: Message): nat
    decreases |s|
  {
    if s == [] then 0 else Occurrences(s[..|s| - 1], m) + if s[|s| - 1] == m then 1 else 0
  }

  ghost function Owners(s: State, m: Message): set<string> {
    OwnersIn(s.workers, m)
  }

  predicate Owns(worker: Worker, m: Message) {
    worker.owned.Some? && worker.owned.value.message == m
  }

  ghost function OwnersIn(workers: map<string, Worker>, m: Message): set<string> {
    set w | w in workers && Owns(workers[w], m)
  }

  /** How many places hold the message: ready slots, owners, the acknowledged, the dead. */
  ghost function Places(s: State, m: Message): nat {
    Occurrences(s.ready, m) + |Owners(s, m)| + (if m in s.acked then 1 else 0) + if m in s.dead then 1 else 0
  }

  ghost predicate OnePlace(s: State, m: Message) {
    Places(s, m) == if m in Known(s) then 1 else 0
  }

  lemma {:induction false} OccurrencesIn(s: seq<Message>, m: Message)
    ensures Occurrences(s, m) > 0 <==> m in s
    decreases |s|
  {
    if s != [] {
      OccurrencesIn(s[..|s| - 1], m);
      assert s == s[..|s| - 1] + [s[|s| - 1]];
    }
  }

  lemma OccurrencesAppend(s: seq<Message>, x: Message, m: Message)
    ensures Occurrences(s + [x], m) == Occurrences(s, m) + if x == m then 1 else 0
  {
    assert (s + [x])[..|s|] == s;
  }

  lemma {:induction false} OccurrencesFirst(s: seq<Message>, m: Message)
    requires s != []
    ensures Occurrences(s, m) == Occurrences(s[1..], m) + if s[0] == m then 1 else 0
    decreases |s|
  {
    if |s| > 1 {
      OccurrencesFirst(s[..|s| - 1], m);
      assert s[1..][..|s[1..]| - 1] == s[..|s| - 1][1..];
    }
  }

  /** A message is known exactly when it is somewhere. */
  lemma KnownIff(s: State, m: Message)
    ensures m in Known(s) <==> Places(s, m) > 0
  {
    OccurrencesIn(s.ready, m);
    if Owners(s, m) != {} {
      var w :| w in Owners(s, m);
    }
    if m in Known(s) && m !in s.ready && m !in s.acked && m !in s.dead {
      var w :| w in s.workers && s.workers[w].owned.Some? && s.workers[w].owned.value.message == m;
      assert w in Owners(s, m);
    }
  }

  /** The owners when one worker changes. */
  lemma OwnersChange(s: State, w: string, worker: Worker, m: Message)
    ensures var t := With(s, w, worker);
            |Owners(t, m)| == |Owners(s, m) - {w}| + if worker.owned.Some? && worker.owned.value.message == m then 1
                else 0
    ensures |Owners(s, m)| == |Owners(s, m) - {w}| + if WorkerOf(s, w).owned.Some?
        && WorkerOf(s, w).owned.value.message == m then 1 else 0
  {
    OwnersUpdate(s.workers, w, worker, m);
    SplitOff(OwnersIn(s.workers[w := worker], m), w);
    SplitOff(OwnersIn(s.workers, m), w);
  }

  lemma OwnersUpdate(workers: map<string, Worker>, w: string, worker: Worker, m: Message)
    ensures OwnersIn(workers[w := worker], m) - {w} == OwnersIn(workers, m) - {w}
    ensures w in OwnersIn(workers[w := worker], m) <==> Owns(worker, m)
    ensures w in OwnersIn(workers, m) <==> w in workers && Owns(workers[w], m)
  {
  }

  lemma SplitOff(s: set<string>, w: string)
    ensures |s| == |s - {w}| + if w in s then 1 else 0
  {
  }

  lemma SameOwners(s: State, t: State, m: Message)
    requires s.workers == t.workers
    ensures Owners(s, m) == Owners(t, m)
  {
  }

  /** Each event moves a message from one place to another. */
  lemma StepPlaces(s: State, e: Event, m: Message)
    requires OnePlace(s, m)
    ensures OnePlace(Step(s, e), m)
  {
    var t := Step(s, e);
    KnownIff(s, m);
    KnownIff(t, m);
    hide Known, Occurrences, Owners;
    match e
    case Submit(x) =>
      OccurrencesAppend(s.ready, x, m);
      SameOwners(s, t, m);
    case Write(x, status) => SameOwners(s, t, m);
    case Mark(w) => SameOwners(s, t, m);
    case Deliver(w) =>
      DeliverPlaces(s, w, m);
    case Garbled(w) =>
      if s.ready != [] {
        OccurrencesFirst(s.ready, m);
        SameOwners(s, t, m);
      }
    case Observe(w) => JobPlaces(s, t, w, m);
    case Announce(w) => JobPlaces(s, t, w, m);
    case Finish(w, ok) => JobPlaces(s, t, w, m);
    case Settle(w) =>
      SettlePlaces(s, w, m);
    case Lose(w, killed) =>
      LosePlaces(s, w, killed, m);
  }

  /** Jobs and results do not matter. */
  lemma JobPlaces(s: State, t: State, w: string, m: Message)
    requires t == s
        || (t.workers == s.workers[w := WorkerOf(t, w)] && t.ready == s.ready && t.acked == s.acked && t.dead == s.dead
                        && WorkerOf(t, w).owned == WorkerOf(s, w).owned)
    ensures Places(t, m) == Places(s, m)
  {
    if t != s {
      OwnersChange(s, w, WorkerOf(t, w), m);
      SameOwners(t, With(s, w, WorkerOf(t, w)), m);
      hide Owners, Occurrences;
    }
  }

  lemma DeliverPlaces(s: State, w: string, m: Message)
    ensures Places(Step(s, Deliver(w)), m) == Places(s, m)
  {
    var t := Step(s, Deliver(w));
    if t != s {
      OccurrencesFirst(s.ready, m);
      OwnersChange(s, w, WorkerOf(t, w), m);
      SameOwners(t, With(s, w, WorkerOf(t, w)), m);
      hide Occurrences, Owners;
    }
  }

  /** Settling moves the owned message to exactly one other place. */
  lemma SettleMoves(s: State, w: string)
    requires Step(s, Settle(w)) != s
    ensures var t := Step(s, Settle(w));
            && WorkerOf(s, w).owned.Some? && t.workers == s.workers[w := WorkerOf(t, w)] && WorkerOf(t, w).owned.None?
            && var m := WorkerOf(s, w).owned.value.message;
               || (t.ready == s.ready && t.acked == s.acked + {m} && t.dead == s.dead)
               || (t.ready == s.ready && t.acked == s.acked && t.dead == s.dead + {m})
               || (t.ready == s.ready + [m] && t.acked == s.acked && t.dead == s.dead)
  {
  }

  lemma SettlePlaces(s: State, w: string, m: Message)
    requires Places(s, m) <= 1
    ensures Places(Step(s, Settle(w)), m) == Places(s, m)
  {
    var t := Step(s, Settle(w));
    if t != s {
      SettleMoves(s, w);
      hide Occurrences, Owners, Step;
      OccurrencesAppend(s.ready, WorkerOf(s, w).owned.value.message, m);
      OwnersChange(s, w, WorkerOf(t, w), m);
      SameOwners(t, With(s, w, WorkerOf(t, w)), m);
    }
  }

  lemma LosePlaces(s: State, w: string, killed: bool, m: Message)
    ensures Places(Step(s, Lose(w, killed)), m) == Places(s, m)
  {
    var t, worker := Step(s, Lose(w, killed)), WorkerOf(s, w);
    hide Occurrences, Owners;
    OwnersChange(s, w, WorkerOf(t, w), m);
    SameOwners(t, With(s, w, WorkerOf(t, w)), m);
    if worker.owned.Some? {
      OccurrencesAppend(s.ready, worker.owned.value.message, m);
      assert t.ready == s.ready + [worker.owned.value.message];
    }
    assert t.acked == s.acked && t.dead == s.dead && WorkerOf(t, w).owned.None?;
    hide Step;
  }

  /** In every reachable state, a known message is in exactly one place. */
  lemma {:induction false} RunPlaces(events: seq<Event>, m: Message)
    ensures OnePlace(Run(events), m)
    decreases |events|
  {
    if events == [] {
      assert Owners(EMPTY, m) == {};
    } else {
      RunPlaces(events[..|events| - 1], m);
      StepPlaces(Run(events[..|events| - 1]), events[|events| - 1], m);
    }
  }

  // ---- acknowledged means done ----

  /** The status last written to the run's record. */
  function LastWritten(log: seq<Effect>, m: Message): Option<RunStatus>
    decreases |log|
  {
    if log == [] then None
    else
      var e := log[|log| - 1];
      if e.Wrote? && e.message == m then Some(e.status) else LastWritten(log[..|log| - 1], m)
  }

  /** At position i the handler of this delivery saw the run's record, and it was terminal. */
  ghost predicate SeenAt(log: seq<Effect>, i: nat, token: nat, m: Message, status: RunStatus) {
    && i < |log| && log[i] == Observed(token, m, status) && LastWritten(log[..i], m) == Some(status)
    && (status == Completed || status == Failed)
  }

  ghost predicate Seen(log: seq<Effect>, token: nat, m: Message, status: RunStatus) {
    exists i: nat :: SeenAt(log, i, token, m, status)
  }

  /** The handler of this delivery saw a terminal record, and then published its status. */
  ghost predicate Succeeded(log: seq<Effect>, token: nat, m: Message) {
    exists i: nat, j: nat, status ::
        i < j < |log| && SeenAt(log, i, token, m, status) && log[j] == Published(token, m, status)
  }

  ghost predicate JobOK(log: seq<Effect>, tokens: nat, job: Job) {
    && job.token < tokens
    && (job.stage.SawTerminal? ==> Seen(log, job.token, job.message, job.stage.status))
    && (job.stage == Announced ==> Succeeded(log, job.token, job.message))
  }

  ghost predicate WorkerOK(log: seq<Effect>, tokens: nat, worker: Worker) {
    && (forall job :: job in worker.jobs ==> JobOK(log, tokens, job))
    && (forall t :: t in worker.results ==> t < tokens)
    && (worker.owned.Some? ==>
          var o := worker.owned.value;
          && o.token < tokens
          && (o.token in worker.results && worker.results[o.token] ==> Succeeded(log, o.token, o.message))
          && forall job :: job in worker.jobs && job.token == o.token ==> job.message == o.message)
  }

  ghost predicate AckJustified(log: seq<Effect>, k: nat) {
    k < |log| && log[k].Acked? ==> Succeeded(log[..k], log[k].token, log[k].message)
  }

  ghost predicate RecordOK(s: State, m: Message) {
    LastWritten(s.log, m) == if m in s.records then Some(s.records[m]) else None
  }

  ghost predicate Sound(s: State) {
    && (forall w :: w in s.workers ==> WorkerOK(s.log, s.tokens, s.workers[w]))
    && (forall k :: 0 <= k < |s.log| ==> AckJustified(s.log, k))
    && (forall m :: RecordOK(s, m))
  }

  lemma LastWrittenAppend(log: seq<Effect>, e: Effect, m: Message)
    ensures LastWritten(log + [e], m) == if e.Wrote? && e.message == m then Some(e.status) else LastWritten(log, m)
  {
    assert (log + [e])[..|log|] == log;
  }

  /** What an effect does to the records. */
  lemma RecordsFollow(s: State, t: State, e: Effect)
    requires (forall m :: RecordOK(s, m)) && t.log == s.log + [e]
    requires t.records == if e.Wrote? then s.records[e.message := e.status] else s.records
    ensures forall m :: RecordOK(t, m)
  {
    forall m
      ensures RecordOK(t, m)
    {
      assert RecordOK(s, m);
      LastWrittenAppend(s.log, e, m);
    }
  }

  lemma SeenStays(log: seq<Effect>, e: Effect, i: nat, token: nat, m: Message, status: RunStatus)
    requires SeenAt(log, i, token, m, status)
    ensures SeenAt(log + [e], i, token, m, status)
  {
    assert (log + [e])[..i] == log[..i];
  }

  lemma LongerSeen(log: seq<Effect>, e: Effect, token: nat, m: Message, status: RunStatus)
    ensures Seen(log, token, m, status) ==> Seen(log + [e], token, m, status)
  {
    if i: nat :| SeenAt(log, i, token, m, status) {
      SeenStays(log, e, i, token, m, status);
    }
  }

  lemma LongerSucceeded(log: seq<Effect>, e: Effect, token: nat, m: Message)
    ensures Succeeded(log, token, m) ==> Succeeded(log + [e], token, m)
  {
    if i: nat, j: nat,
        status :| i < j < |log| && SeenAt(log, i, token, m, status) && log[j] == Published(token, m, status) {
      SeenStays(log, e, i, token, m, status);
      assert (log + [e])[j] == log[j];
    }
  }

  lemma LongerLog(log: seq<Effect>, tokens: nat, e: Effect, more: nat, worker: Worker)
    requires WorkerOK(log, tokens, worker) && tokens <= more
    ensures WorkerOK(log + [e], more, worker) && WorkerOK(log, more, worker)
  {
    hide Seen, Succeeded;
    forall job | job in worker.jobs
      ensures JobOK(log + [e], more, job) && JobOK(log, more, job)
    {
      assert JobOK(log, tokens, job);
      LongerSucceeded(log, e, job.token, job.message);
      if job.stage.SawTerminal? {
        LongerSeen(log, e, job.token, job.message, job.stage.status);
      }
    }
    if worker.owned.Some? {
      LongerSucceeded(log, e, worker.owned.value.token, worker.owned.value.message);
    }
  }

  lemma NowSeen(log: seq<Effect>, token: nat, m: Message, status: RunStatus)
    requires LastWritten(log, m) == Some(status) && Terminal(status)
    ensures Seen(log + [Observed(token, m, status)], token, m, status)
  {
    var longer := log + [Observed(token, m, status)];
    assert longer[..|log|] == log;
    assert SeenAt(longer, |log|, token, m, status);
  }

  lemma NowPublished(log: seq<Effect>, token: nat, m: Message, status: RunStatus)
    requires Seen(log, token, m, status)
    ensures Succeeded(log + [Published(token, m, status)], token, m)
  {
    var e := Published(token, m, status);
    var i: nat :| SeenAt(log, i, token, m, status);
    SeenStays(log, e, i, token, m, status);
    assert (log + [e])[|log|] == e;
  }

  lemma ReachedOK(log: seq<Effect>, tokens: nat, worker: Worker, stage: Stage, e: Effect)
    requires WorkerOK(log, tokens, worker) && worker.jobs != []
    requires var job := worker.jobs[0];
             || (stage.SawTerminal? && e == Observed(job.token, job.message, stage.status)
                 && LastWritten(log, job.message) == Some(stage.status) && Terminal(stage.status))
             || (stage == Announced && job.stage.SawTerminal?
                 && e == Published(job.token, job.message, job.stage.status))
    ensures WorkerOK(log + [e], tokens, worker.(jobs := [worker.jobs[0].(stage := stage)] + worker.jobs[1..]))
  {
    LongerLog(log, tokens, e, tokens, worker);
    var job, longer := worker.jobs[0], log + [e];
    assert JobOK(log, tokens, job);
    if stage == Announced {
      NowPublished(log, job.token, job.message, job.stage.status);
    } else {
      NowSeen(log, job.token, job.message, stage.status);
    }
    assert JobOK(longer, tokens, job.(stage := stage));
    assert forall x :: x in worker.jobs[1..] ==> x in worker.jobs;
    hide JobOK, Succeeded, Seen;
  }

  lemma FinishedOK(log: seq<Effect>, tokens: nat, worker: Worker, ok: bool)
    requires WorkerOK(log, tokens, worker) && worker.jobs != [] && (ok ==> worker.jobs[0].stage == Announced)
    ensures WorkerOK(log, tokens,
                     worker.(jobs := worker.jobs[1..], results := worker.results[worker.jobs[0].token := ok]))
  {
    assert JobOK(log, tokens, worker.jobs[0]);
    hide Succeeded;
    assert forall x :: x in worker.jobs[1..] ==> x in worker.jobs;
  }

  lemma DeliveredOK(log: seq<Effect>, tokens: nat, worker: Worker, m: Message, redelivered: bool)
    requires WorkerOK(log, tokens, worker)
    ensures WorkerOK(log, tokens + 1,
                     worker.(owned := Some(Owned(tokens, m, redelivered)),
                             jobs := worker.jobs + [Job(tokens, m, Working)]))
  {
    hide Succeeded;
    assert forall job :: job in worker.jobs ==> JobOK(log, tokens, job);
  }

  lemma ReleasedOK(log: seq<Effect>, tokens: nat, worker: Worker)
    requires WorkerOK(log, tokens, worker)
    ensures WorkerOK(log, tokens, worker.(owned := None)) && WorkerOK(log, tokens, IDLE)
  {
  }

  lemma LogJustified(s: State, e: Effect)
    requires Sound(s) && (e.Acked? ==> Succeeded(s.log, e.token, e.message))
    ensures forall k :: 0 <= k <= |s.log| ==> AckJustified(s.log + [e], k)
  {
    hide WorkerOK, Succeeded;
    forall k | 0 <= k <= |s.log|
      ensures AckJustified(s.log + [e], k)
    {
      assert (s.log + [e])[..k] == s.log[..k];
      assert s.log[..|s.log|] == s.log;
      assert k < |s.log| ==> AckJustified(s.log, k);
    }
  }

  /** Replacing one worker, with or without one more log entry. */
  lemma SoundUpdate(s: State, t: State, w: string, e: Option<Effect>)
    requires Sound(s) && s.tokens <= t.tokens && t.workers == s.workers[w := WorkerOf(t, w)]
    requires t.log == (if e.Some? then s.log + [e.value] else s.log) && t.records == s.records
    requires e.Some? ==> !e.value.Wrote? && (e.value.Acked? ==> Succeeded(s.log, e.value.token, e.value.message))
    requires WorkerOK(t.log, t.tokens, WorkerOf(t, w))
    ensures Sound(t)
  {
    hide JobOK, Succeeded, AckJustified, WorkerOK, LastWritten;
    if e.Some? {
      LogJustified(s, e.value);
      RecordsFollow(s, t, e.value);
    } else {
      assert forall m :: RecordOK(t, m) == RecordOK(s, m);
    }
    forall x | x in t.workers
      ensures WorkerOK(t.log, t.tokens, t.workers[x])
    {
      if x != w {
        LongerLog(s.log, s.tokens, if e.Some? then e.value else Requeued(""), t.tokens, s.workers[x]);
      }
    }
  }

  lemma IdleOK(s: State, w: string)
    requires Sound(s)
    ensures WorkerOK(s.log, s.tokens, WorkerOf(s, w))
  {
  }

  lemma StepSound(s: State, e: Event)
    requires Sound(s)
    ensures Sound(Step(s, e))
  {
    var t := Step(s, e);
    hide Sound, WorkerOK, Succeeded, Known;
    if t != s {
      match e
      case Submit(x) => SoundReady(s, t);
      case Write(m, status) => SoundLog(s, t, Wrote(m, status));
      case Mark(w) => SoundLog(s, t, Wrote(WorkerOf(s, w).owned.value.message, Failed));
      case Garbled(w) => SoundLog(s, t, Dead(s.ready[0]));
      case Deliver(w) =>
        IdleOK(s, w);
        DeliveredOK(s.log, s.tokens, WorkerOf(s, w), s.ready[0], s.ready[0] in s.returned);
        SoundUpdate(s, t, w, None);
      case Observe(w) => ObserveSound(s, w);
      case Announce(w) => AnnounceSound(s, w);
      case Finish(w, ok) =>
        IdleOK(s, w);
        FinishedOK(s.log, s.tokens, WorkerOf(s, w), ok);
        SoundUpdate(s, t, w, None);
      case Settle(w) => SettleSound(s, w);
      case Lose(w, killed) =>
        IdleOK(s, w);
        ReleasedOK(s.log, s.tokens, WorkerOf(s, w));
        SoundUpdate(s, t, w, None);
    }
  }

  lemma ObserveSound(s: State, w: string)
    requires Sound(s) && Step(s, Observe(w)) != s
    ensures Sound(Step(s, Observe(w)))
  {
    var t, job := Step(s, Observe(w)), WorkerOf(s, w).jobs[0];
    var status := s.records[job.message];
    IdleOK(s, w);
    assert RecordOK(s, job.message);
    hide Sound, WorkerOK, Succeeded, RecordOK, LastWritten;
    ReachedOK(s.log, s.tokens, WorkerOf(s, w), SawTerminal(status), Observed(job.token, job.message, status));
    SoundUpdate(s, t, w, Some(Observed(job.token, job.message, status)));
  }

  lemma AnnounceSound(s: State, w: string)
    requires Sound(s) && Step(s, Announce(w)) != s
    ensures Sound(Step(s, Announce(w)))
  {
    var t, job := Step(s, Announce(w)), WorkerOf(s, w).jobs[0];
    IdleOK(s, w);
    hide Sound, WorkerOK, Succeeded;
    ReachedOK(s.log, s.tokens, WorkerOf(s, w), Announced, Published(job.token, job.message, job.stage.status));
    SoundUpdate(s, t, w, Some(Published(job.token, job.message, job.stage.status)));
  }

  lemma SoundReady(s: State, t: State)
    requires Sound(s) && t.workers == s.workers && t.log == s.log && t.tokens == s.tokens && t.records == s.records
    ensures Sound(t)
  {
    hide WorkerOK, AckJustified, LastWritten;
    assert forall m :: RecordOK(t, m) == RecordOK(s, m);
  }

  lemma SoundLog(s: State, t: State, e: Effect)
    requires Sound(s) && t.workers == s.workers && t.log == s.log + [e] && t.tokens == s.tokens && !e.Acked?
    requires t.records == if e.Wrote? then s.records[e.message := e.status] else s.records
    ensures Sound(t)
  {
    LogJustified(s, e);
    RecordsFollow(s, t, e);
    hide AckJustified, WorkerOK, RecordOK;
    forall x | x in t.workers
      ensures WorkerOK(t.log, t.tokens, t.workers[x])
    {
      LongerLog(s.log, s.tokens, e, t.tokens, s.workers[x]);
    }
  }

  lemma SettleSound(s: State, w: string)
    requires Sound(s) && Step(s, Settle(w)) != s
    ensures Sound(Step(s, Settle(w)))
  {
    var t, worker := Step(s, Settle(w)), WorkerOf(s, w);
    var o := worker.owned.value;
    IdleOK(s, w);
    assert worker.results[o.token] ==> Succeeded(s.log, o.token, o.message);
    ReleasedOK(s.log, s.tokens, worker);
    var e := if worker.results[o.token] then Acked(o.token, o.message) else if o.redelivered then Dead(o.message)
        else Requeued(o.message);
    hide Sound, WorkerOK, Succeeded;
    LongerLog(s.log, s.tokens, e, s.tokens, worker.(owned := None));
    SoundUpdate(s, t, w, Some(e));
  }

  /** On every run: each acknowledgement comes after the handler of the same delivery saw the
      run's record, which was terminal at that moment, and then published the status it saw. */
  lemma {:induction false} AckMeansDone(events: seq<Event>)
    ensures Sound(Run(events))
    ensures forall k ::
        0 <= k < |Run(events).log| && Run(events).log[k].Acked? ==>
            Succeeded(Run(events).log[..k], Run(events).log[k].token, Run(events).log[k].message)
    decreases |events|
  {
    hide WorkerOK, Succeeded, Step;
    if events != [] {
      AckMeansDone(events[..|events| - 1]);
      StepSound(Run(events[..|events| - 1]), events[|events| - 1]);
    }
    var log := Run(events).log;
    forall k | 0 <= k < |log| && log[k].Acked?
      ensures Succeeded(log[..k], log[k].token, log[k].message)
    {
      assert AckJustified(log, k);
    }
  }

  // ---- at most one failure is requeued ----

  function Requeues(log: seq<Effect>, m: Message): nat
    decreases |log|
  {
    if log == [] then 0 else Requeues(log[..|log| - 1], m) + if log[|log| - 1] == Requeued(m) then 1 else 0
  }

  /** The flag of an owned delivery says whether its message was ever returned, and a message
      is requeued at most once, and then flagged. */
  ghost predicate FlagsOK(s: State, m: Message) {
    && (forall w :: w in Owners(s, m) ==> s.workers[w].owned.value.redelivered == (m in s.returned))
    && Requeues(s.log, m) <= (if m in s.returned then 1 else 0)
  }

  lemma RequeuesAppend(log: seq<Effect>, e: Effect, m: Message)
    ensures Requeues(log + [e], m) == Requeues(log, m) + if e == Requeued(m) then 1 else 0
  {
    assert (log + [e])[..|log|] == log;
  }

  /** Two workers never own the same message. */
  lemma OneOwner(s: State, m: Message, v: string, w: string)
    requires Places(s, m) <= 1 && v in Owners(s, m) && w in Owners(s, m)
    ensures v == w
  {
    var owners := Owners(s, m);
    if v != w {
      assert {v, w} <= owners;
      Subset({v, w}, owners);
    }
  }

  lemma Subset(a: set<string>, b: set<string>)
    requires a <= b
    ensures |a| <= |b|
  {
    assert b == a + (b - a);
  }

  lemma StepFlags(s: State, e: Event, m: Message)
    requires FlagsOK(s, m) && OnePlace(s, m)
    ensures FlagsOK(Step(s, e), m)
  {
    var t := Step(s, e);
    hide Known, Places, Requeues;
    if t.log != s.log {
      assert t.log == s.log + [t.log[|s.log|]];
      RequeuesAppend(s.log, t.log[|s.log|], m);
    }
    match e
    case Settle(w) => SettleFlags(s, w, m);
    case Lose(w, killed) => LoseFlags(s, w, killed, m);
    case _ =>
      assert t.returned == s.returned;
  }

  lemma SettleFlags(s: State, w: string, m: Message)
    requires FlagsOK(s, m) && OnePlace(s, m)
    ensures FlagsOK(Step(s, Settle(w)), m)
  {
    var t := Step(s, Settle(w));
    hide Known, Places, Requeues;
    if t != s {
      var o := WorkerOf(s, w).owned.value;
      RequeuesAppend(s.log, t.log[|s.log|], m);
      assert o.message == m ==> w in Owners(s, m);
      forall v | v in Owners(t, m)
        ensures t.workers[v].owned.value.redelivered == (m in t.returned)
      {
        assert v != w && v in Owners(s, m);
        if o.message == m {
          OneOwner(s, m, v, w);
        }
      }
    }
  }

  lemma LoseFlags(s: State, w: string, killed: bool, m: Message)
    requires FlagsOK(s, m) && OnePlace(s, m)
    ensures FlagsOK(Step(s, Lose(w, killed)), m)
  {
    var t := Step(s, Lose(w, killed));
    hide Known, Places, Requeues;
    var worker := WorkerOf(s, w);
    assert worker.owned.Some? && worker.owned.value.message == m ==> w in Owners(s, m);
    forall v | v in Owners(t, m)
      ensures t.workers[v].owned.value.redelivered == (m in t.returned)
    {
      assert v != w && v in Owners(s, m);
      if worker.owned.Some? && worker.owned.value.message == m {
        OneOwner(s, m, v, w);
      }
    }
  }

  /** On every run a message is requeued after at most one failure; from then on a settled
      failure is dead-lettered. */
  lemma {:induction false} OneRequeue(events: seq<Event>, m: Message)
    ensures FlagsOK(Run(events), m) && Requeues(Run(events).log, m) <= 1
    decreases |events|
  {
    hide Step, OnePlace;
    if events == [] {
      assert Owners(EMPTY, m) == {};
    } else {
      OneRequeue(events[..|events| - 1], m);
      RunPlaces(events[..|events| - 1], m);
      StepFlags(Run(events[..|events| - 1]), events[|events| - 1], m);
    }
  }

  lemma NextFailureIsFinal(events: seq<Event>, w: string)
    requires var s := Run(events);
             && w in s.workers && s.workers[w].owned.Some? && s.workers[w].owned.value.token in s.workers[w].results
             && !s.workers[w].results[s.workers[w].owned.value.token]
             && Requeues(s.log, s.workers[w].owned.value.message) > 0
    ensures var s := Run(events);
            var m := s.workers[w].owned.value.message;
            m in Step(s, Settle(w)).dead && m !in Step(s, Settle(w)).ready
  {
    var s := Run(events);
    var m := s.workers[w].owned.value.message;
    OneRequeue(events, m);
    assert w in Owners(s, m);
    RunPlaces(events, m);
    RunPlaces(events + [Settle(w)], m);
    assert (events + [Settle(w)])[..|events|] == events;
    OccurrencesIn(Step(s, Settle(w)).ready, m);
    hide Run, Occurrences;
  }

  // ---- the redelivery flag ----

  /** The event hands out the message. */
  ghost predicate HandsOut(s: State, e: Event, m: Message) {
    e.Deliver? && WorkerOf(s, e.worker).owned.None? && s.ready != [] && s.ready[0] == m
  }

  /** How often the message was handed out to a worker. */
  ghost function Deliveries(events: seq<Event>, m: Message): nat
    decreases |events|
  {
    if events == [] then 0
    else
      var front := events[..|events| - 1];
      Deliveries(front, m) + if HandsOut(Run(front), events[|events| - 1], m) then 1 else 0
  }

  /** If the worker owns the message, its delivery is the n-th. */
  ghost predicate Flagged(worker: Worker, m: Message, n: nat) {
    Owns(worker, m) ==> n > 0 && (worker.owned.value.redelivered <==> n > 1)
  }

  ghost predicate AllFlagged(workers: map<string, Worker>, m: Message, n: nat) {
    forall w :: w in workers ==> Flagged(workers[w], m, n)
  }

  /** One worker changes; the count changes only while nobody else owns the message. */
  lemma FlaggedOn(workers: map<string, Worker>, w: string, worker: Worker, m: Message, n: nat, k: nat)
    requires AllFlagged(workers, m, n) && Flagged(worker, m, k)
    requires k == n || forall v :: v in workers && v != w ==> !Owns(workers[v], m)
    ensures AllFlagged(workers[w := worker], m, k)
  {
  }

  /** The message was handed out n times, and its next delivery, or the one that is owned, says
      whether an earlier one was. */
  ghost predicate FlagIs(s: State, m: Message, n: nat) {
    && (m in s.ready ==> (m in s.returned <==> n > 0))
    && AllFlagged(s.workers, m, n)
    && (Places(s, m) == 0 ==> n == 0 && m !in s.returned)
  }

  lemma NobodyOwns(s: State, m: Message)
    requires Places(s, m) <= 1 && m in s.ready
    ensures forall v :: v in s.workers ==> !Owns(s.workers[v], m)
  {
    OccurrencesIn(s.ready, m);
    assert |Owners(s, m)| == 0 by {
      hide Owners, Occurrences;
    }
    assert forall v :: v in s.workers && Owns(s.workers[v], m) ==> v in Owners(s, m);
    hide Occurrences;
  }

  lemma OwnerOnly(s: State, m: Message, w: string)
    requires Places(s, m) <= 1 && w in s.workers && Owns(s.workers[w], m)
    ensures m !in s.ready
  {
    OccurrencesIn(s.ready, m);
    assert w in Owners(s, m);
    Subset({w}, Owners(s, m));
    hide Owners, Occurrences;
  }

  /** A message stays where it is or moves to another place; only its submission adds one. */
  lemma PlacesStay(s: State, e: Event, m: Message)
    requires OnePlace(s, m)
    ensures Places(Step(s, e), m) == if e == Submit(m) then 1 else Places(s, m)
  {
    var t := Step(s, e);
    KnownIff(s, m);
    hide Known, Occurrences, Owners;
    match e
    case Submit(x) =>
      OccurrencesAppend(s.ready, x, m);
      SameOwners(s, t, m);
    case Write(x, status) => SameOwners(s, t, m);
    case Mark(w) => SameOwners(s, t, m);
    case Deliver(w) => DeliverPlaces(s, w, m);
    case Garbled(w) =>
      if s.ready != [] {
        OccurrencesFirst(s.ready, m);
      }
      SameOwners(s, t, m);
    case Observe(w) => JobPlaces(s, t, w, m);
    case Announce(w) => JobPlaces(s, t, w, m);
    case Finish(w, ok) => JobPlaces(s, t, w, m);
    case Settle(w) => SettlePlaces(s, w, m);
    case Lose(w, killed) => LosePlaces(s, w, killed, m);
  }

  lemma DeliverFlag(s: State, w: string, m: Message, n: nat)
    requires FlagIs(s, m, n) && OnePlace(s, m)
    ensures FlagIs(Step(s, Deliver(w)), m, n + if HandsOut(s, Deliver(w), m) then 1 else 0)
  {
    var t, k := Step(s, Deliver(w)), n + if HandsOut(s, Deliver(w), m) then 1 else 0;
    PlacesStay(s, Deliver(w), m);
    PlacesIff(s, m);
    PlacesOnce(s, m);
    hide Known, Places, Occurrences, AllFlagged;
    if t != s {
      assert t.workers == s.workers[w := WorkerOf(t, w)];
      if s.ready[0] == m {
        NobodyOwns(s, m);
      }
      FlaggedOn(s.workers, w, WorkerOf(t, w), m, n, k);
    }
  }

  /** A message that is taken from the queue is not in it any more. */
  lemma PlacesOnce(s: State, m: Message)
    requires OnePlace(s, m)
    ensures s.ready != [] && s.ready[0] == m ==> m !in s.ready[1..]
  {
    if s.ready != [] {
      OccurrencesFirst(s.ready, m);
      OccurrencesIn(s.ready[1..], m);
    }
    hide Known, Owners, Occurrences;
  }

  lemma SettleFlag(s: State, w: string, m: Message, n: nat)
    requires FlagIs(s, m, n) && OnePlace(s, m)
    ensures FlagIs(Step(s, Settle(w)), m, n)
  {
    var t := Step(s, Settle(w));
    PlacesStay(s, Settle(w), m);
    PlacesIff(s, m);
    if t != s {
      GivenBack(s, w, m, n);
      hide Known, Places, Occurrences, AllFlagged, Flagged;
      assert t.workers == s.workers[w := WorkerOf(t, w)];
      FlaggedOn(s.workers, w, WorkerOf(t, w), m, n, n);
    }
  }

  /** What a worker gives back was handed out, and nothing is owned afterwards. */
  lemma GivenBack(s: State, w: string, m: Message, n: nat)
    requires FlagIs(s, m, n) && OnePlace(s, m)
    ensures WorkerOf(s, w).owned.Some? && WorkerOf(s, w).owned.value.message == m ==> n > 0 && m !in s.ready
    ensures forall worker: Worker :: worker.owned.None? ==> Flagged(worker, m, n)
  {
    if WorkerOf(s, w).owned.Some? && WorkerOf(s, w).owned.value.message == m {
      assert Flagged(s.workers[w], m, n);
      hide Known, Places, Occurrences;
      OwnerOnly(s, m, w);
    }
  }

  lemma LoseFlag(s: State, w: string, killed: bool, m: Message, n: nat)
    requires FlagIs(s, m, n) && OnePlace(s, m)
    ensures FlagIs(Step(s, Lose(w, killed)), m, n)
  {
    var t := Step(s, Lose(w, killed));
    PlacesStay(s, Lose(w, killed), m);
    PlacesIff(s, m);
    GivenBack(s, w, m, n);
    hide Known, Places, Occurrences, AllFlagged, Flagged;
    assert t.workers == s.workers[w := WorkerOf(t, w)];
    FlaggedOn(s.workers, w, WorkerOf(t, w), m, n, n);
  }

  lemma OtherFlag(s: State, e: Event, m: Message, n: nat)
    requires FlagIs(s, m, n) && OnePlace(s, m) && !e.Deliver? && !e.Settle? && !e.Lose?
    ensures FlagIs(Step(s, e), m, n)
  {
    KnownIff(s, m);
    PlacesStay(s, e, m);
    PlacesIff(s, m);
    hide Known, Places, Occurrences;
  }

  lemma StepFlag(s: State, e: Event, m: Message, n: nat)
    requires FlagIs(s, m, n) && OnePlace(s, m)
    ensures FlagIs(Step(s, e), m, n + if HandsOut(s, e, m) then 1 else 0)
  {
    hide FlagIs, OnePlace, Step;
    match e
    case Deliver(w) => DeliverFlag(s, w, m, n);
    case Settle(w) => SettleFlag(s, w, m, n);
    case Lose(w, killed) => LoseFlag(s, w, killed, m, n);
    case _ => OtherFlag(s, e, m, n);
  }

  lemma PlacesIff(s: State, m: Message)
    ensures m in s.ready || Owners(s, m) != {} ==> Places(s, m) > 0
  {
    OccurrencesIn(s.ready, m);
    hide Owners, Occurrences;
  }

  /** A delivery is flagged as redelivered exactly when the message was handed out before; a
      message that was never submitted was never handed out. */
  lemma {:induction false} FlagIsExact(events: seq<Event>, m: Message)
    ensures FlagIs(Run(events), m, Deliveries(events, m))
    decreases |events|
  {
    hide Step, OnePlace, HandsOut;
    if events == [] {
      assert Owners(EMPTY, m) == {} && AllFlagged(EMPTY.workers, m, 0);
    } else {
      FlagIsExact(events[..|events| - 1], m);
      RunPlaces(events[..|events| - 1], m);
      StepFlag(Run(events[..|events| - 1]), events[|events| - 1], m, Deliveries(events[..|events| - 1], m));
    }
  }

  ghost predicate Submitted(events: seq<Event>, m: Message) {
    Submit(m) in events
  }

  /** A submitted message is never lost: from then on it is in exactly one place. */
  lemma {:induction false} NeverLost(events: seq<Event>, m: Message)
    ensures Places(Run(events), m) == if Submitted(events, m) then 1 else 0
    decreases |events|
  {
    hide Step, Places, OnePlace;
    if events == [] {
      NothingKnown(m);
    } else {
      var front, e := events[..|events| - 1], events[|events| - 1];
      assert events == front + [e];
      NeverLost(front, m);
      RunPlaces(front, m);
      PlacesStay(Run(front), e, m);
    }
  }

  lemma NothingKnown(m: Message)
    ensures Places(EMPTY, m) == 0
  {
    assert Owners(EMPTY, m) == {};
  }

  /** A lost connection takes the delivery back at the end of the queue. The jobs of a process that
      lives run on, and those of one that was killed are gone. */
  lemma LoseGivesBack(s: State, w: string, killed: bool)
    ensures var t, worker := Step(s, Lose(w, killed)), WorkerOf(s, w);
            && WorkerOf(t, w) ==
                Worker(None, if killed then [] else worker.jobs, if killed then map[] else worker.results)
            && (worker.owned.Some? ==> t.ready == s.ready + [worker.owned.value.message]
                                       && worker.owned.value.message in t.returned)
            && (worker.owned.None? ==> t.ready == s.ready && t.returned == s.returned)
            && t.acked == s.acked && t.dead == s.dead && t.records == s.records && t.log == s.log
  {
  }

  // ---- the handler and the consumer ----

  /** What the simulation handler meets on its way, in order. An execution leaves a status in
      the record, or none; `marks` says whether a last failure can be written to the record. */
  datatype Answers = Answers(supported: bool, hasIds: bool, downloads: bool, leaves: Option<RunStatus>, executes: bool,
                             uploads: bool,
                             publishes: bool, cleans: bool, marks: bool)

  predicate Prepared(s: State, m: Message, a: Answers) {
    a.supported && a.hasIds && a.downloads && m in s.records
  }

  /** A terminal run is not claimed again. */
  predicate Claims(s: State, m: Message, a: Answers) {
    Prepared(s, m, a) && !IsTerminal(s, m)
  }

  function Executed(s: State, m: Message, a: Answers): State {
    if Claims(s, m, a) && a.leaves.Some? then Written(s, m, a.leaves.value) else s
  }

  predicate SeesTerminal(s: State, m: Message, a: Answers) {
    Prepared(s, m, a) && (Claims(s, m, a) ==> a.executes && a.uploads) && IsTerminal(Executed(s, m, a), m)
  }

  predicate Succeeds(s: State, m: Message, a: Answers) {
    SeesTerminal(s, m, a) && a.publishes && a.cleans
  }

  function ExecutionEvents(s: State, m: Message, a: Answers): seq<Event> {
    if Claims(s, m, a) && a.leaves.Some? then [Write(m, a.leaves.value)] else []
  }

  function HandlerEvents(s: State, w: string, m: Message, a: Answers): seq<Event> {
    ExecutionEvents(s, m, a)
    + (if SeesTerminal(s, m, a) then [Observe(w)] else [])
    + (if SeesTerminal(s, m, a) && a.publishes then [Announce(w)] else [])
    + [Finish(w, Succeeds(s, m, a))]
  }

  function After(s: State, events: seq<Event>): State
    decreases |events|
  {
    if events == [] then s else Step(After(s, events[..|events| - 1]), events[|events| - 1])
  }

  lemma AfterAppend(s: State, events: seq<Event>, e: Event)
    ensures After(s, events + [e]) == Step(After(s, events), e)
  {
    assert (events + [e])[..|events|] == events;
  }

  lemma AfterOne(s: State, e: Event)
    ensures After(s, [e]) == Step(s, e)
  {
    hide Step;
    assert [e][..0] == [];
  }

  lemma AfterNone(s: State)
    ensures After(s, []) == s
  {
  }

  lemma {:induction false} RunsCompose(before: seq<Event>, events: seq<Event>)
    ensures Run(before + events) == After(Run(before), events)
    decreases |events|
  {
    if events == [] {
      assert before + events == before;
    } else {
      RunsCompose(before, events[..|events| - 1]);
      assert (before + events)[..|before + events| - 1] == before + events[..|events| - 1];
    }
  }

  lemma {:induction false} AfterConcat(s: State, a: seq<Event>, b: seq<Event>)
    ensures After(s, a + b) == After(After(s, a), b)
    decreases |b|
  {
    if b == [] {
      assert a + b == a;
    } else {
      AfterConcat(s, a, b[..|b| - 1]);
      assert (a + b)[..|a + b| - 1] == a + b[..|b| - 1];
    }
  }

  /** After the handler: a last failure is marked, and the delivery is settled. */
  function SettlingEvents(w: string, a: Answers): seq<Event> {
    (if a.marks then [Mark(w)] else []) + [Settle(w)]
  }

  /** The whole life of one delivery to a worker with no other jobs. */
  function DeliveryEvents(s: State, w: string, a: Answers): seq<Event>
    requires s.ready != []
  {
    [Deliver(w)] + HandlerEvents(s, w, s.ready[0], a) + SettlingEvents(w, a)
  }

  ghost predicate IsOver(s: State, m: Message) {
    m in s.records && (s.records[m] == Completed || s.records[m] == Failed)
  }

  /** Everything is there, the run is over or is executed, uploaded and left over, and its status
      is published. */
  ghost predicate GoesWell(s: State, m: Message, a: Answers) {
    && a.supported && a.hasIds && a.downloads && m in s.records
    && (IsOver(s, m) || (a.executes && a.uploads && (a.leaves == Some(Completed) || a.leaves == Some(Failed))))
    && a.publishes && a.cleans
  }

  lemma GoesWellIff(s: State, m: Message, a: Answers)
    ensures GoesWell(s, m, a) <==> Succeeds(s, m, a)
    ensures forall t :: IsOver(t, m) <==> IsTerminal(t, m)
  {
  }

  /** A success is acknowledged, and the run is then over; a failure goes back to the queue, or,
      when the message had been returned before, is dead-lettered, and then the run is over if it
      could be marked. A run that was over is not touched, and neither is any other run. */
  lemma DeliverySettles(s: State, w: string, a: Answers)
    requires s.ready != [] && WorkerOf(s, w).owned.None? && WorkerOf(s, w).jobs == []
    ensures var t, m := After(s, DeliveryEvents(s, w, a)), s.ready[0];
            var ok := GoesWell(s, m, a);
            && WorkerOf(t, w).owned.None? && WorkerOf(t, w).jobs == []
            && t.acked == (if ok then s.acked + {m} else s.acked)
            && t.dead == (if !ok && m in s.returned then s.dead + {m} else s.dead)
            && t.ready == (if !ok && m !in s.returned then s.ready[1..] + [m] else s.ready[1..])
            && t.returned == (if !ok && m !in s.returned then s.returned + {m} else s.returned)
            && (ok ==> IsOver(t, m))
            && (!ok && m in s.returned && a.marks && m in s.records ==> IsOver(t, m))
            && (IsOver(s, m) ==> t.records == s.records)
            && t.records - {m} == s.records - {m}
  {
    var got, m := Step(s, Deliver(w)), s.ready[0];
    GoesWellIff(s, m, a);
    GotIs(s, w);
    SameAnswers(s, got, m, a);
    var handled := HandledIs(got, w, a);
    AfterConcat(s, [Deliver(w)], HandlerEvents(s, w, m, a));
    AfterConcat(s, [Deliver(w)] + HandlerEvents(s, w, m, a), SettlingEvents(w, a));
    var settled := SettledIs(handled, w, a);
    hide After, HandlerEvents, Step, SettlingEvents, Succeeds, Executed;
    assert After(s, DeliveryEvents(s, w, a)) == settled;
    ExecutedRecords(s, m, a);
    hide IsTerminal;
    MarkedRecords(handled, w);
    hide MarksFailed;
  }

  /** What the handler does to the run's record, and to no other. */
  lemma ExecutedRecords(s: State, m: Message, a: Answers)
    ensures var r := Executed(s, m, a).records;
            && (Succeeds(s, m, a) ==> m in r && Terminal(r[m]))
            && (IsTerminal(s, m) ==> r == s.records)
            && (m in s.records ==> m in r)
            && r - {m} == s.records - {m}
  {
  }

  /** What marking does to the owned run's record, and to no other. */
  lemma MarkedRecords(s: State, w: string)
    requires WorkerOf(s, w).owned.Some? && WorkerOf(s, w).owned.value.token in WorkerOf(s, w).results
    ensures var o := WorkerOf(s, w).owned.value;
            var r := if MarksFailed(s, w) then s.records[o.message := Failed] else s.records;
            && (!WorkerOf(s, w).results[o.token] && o.redelivered && o.message in s.records ==>
                o.message in r && Terminal(r[o.message]))
            && (WorkerOf(s, w).results[o.token] || IsTerminal(s, o.message) ==> r == s.records)
            && r - {o.message} == s.records - {o.message}
  {
  }

  lemma FrontObserved(s: State, w: string)
    requires WorkerOf(s, w).jobs != [] && WorkerOf(s, w).jobs[0].stage == Working
        && IsTerminal(s, WorkerOf(s, w).jobs[0].message)
    ensures var t, job := Step(s, Observe(w)), WorkerOf(s, w).jobs[0];
            && t.records == s.records && WorkerOf(t, w).jobs != []
            && WorkerOf(t, w).jobs[0] == job.(stage := SawTerminal(s.records[job.message]))
  {
  }

  /** Only the record matters to the handler. */
  lemma SameAnswers(s: State, t: State, m: Message, a: Answers)
    requires t.records == s.records
    ensures Prepared(s, m, a) == Prepared(t, m, a) && Claims(s, m, a) == Claims(t, m, a)
    ensures SeesTerminal(s, m, a) == SeesTerminal(t, m, a) && Succeeds(s, m, a) == Succeeds(t, m, a)
    ensures Executed(s, m, a).records == Executed(t, m, a).records
    ensures forall w :: HandlerEvents(s, w, m, a) == HandlerEvents(t, w, m, a)
  {
  }

  lemma GotIs(s: State, w: string)
    requires s.ready != [] && WorkerOf(s, w).owned.None? && WorkerOf(s, w).jobs == []
    ensures var t, m := Step(s, Deliver(w)), s.ready[0];
            && After(s, [Deliver(w)]) == t
            && t.ready == s.ready[1..] && t.acked == s.acked && t.dead == s.dead && t.returned == s.returned
            && t.records == s.records
            && WorkerOf(t, w).owned == Some(Owned(s.tokens, m, m in s.returned))
            && WorkerOf(t, w).jobs == [Job(s.tokens, m, Working)]
  {
    AfterOne(s, Deliver(w));
  }

  /** Nothing but records and the log differs. */
  ghost predicate SameQueue(s: State, t: State) {
    t.ready == s.ready && t.acked == s.acked && t.dead == s.dead && t.returned == s.returned && t.workers == s.workers
  }

  lemma ExecutedIs(s: State, m: Message, a: Answers)
    ensures After(s, ExecutionEvents(s, m, a)) == Executed(s, m, a) && SameQueue(s, Executed(s, m, a))
  {
    AfterNone(s);
    if Claims(s, m, a) && a.leaves.Some? {
      AfterOne(s, Write(m, a.leaves.value));
    }
  }

  /** The state after the handler of the only job. */
  lemma HandledIs(s: State, w: string, a: Answers) returns (t: State)
    requires |WorkerOf(s, w).jobs| == 1 && WorkerOf(s, w).jobs[0].stage == Working
    ensures t == After(s, HandlerEvents(s, w, WorkerOf(s, w).jobs[0].message, a))
    ensures t.ready == s.ready && t.acked == s.acked && t.dead == s.dead && t.returned == s.returned
        && WorkerOf(t, w).jobs == []
    ensures WorkerOf(t, w).owned == WorkerOf(s, w).owned
    ensures var job := WorkerOf(s, w).jobs[0];
            && WorkerOf(t, w).results == WorkerOf(s, w).results[job.token := Succeeds(s, job.message, a)]
            && t.records == Executed(s, job.message, a).records
  {
    var m := WorkerOf(s, w).jobs[0].message;
    var s0 := Executed(s, m, a);
    ExecutedIs(s, m, a);
    var sees, ok := SeesTerminal(s, m, a), Succeeds(s, m, a);
    var s1 := if sees then Step(s0, Observe(w)) else s0;
    var s2 := if sees && a.publishes then Step(s1, Announce(w)) else s1;
    t := Step(s2, Finish(w, ok));
    StagesAre(s0, w, m, sees, a.publishes);
    FinishedIs(s0, s2, w, ok);
    var e0 := ExecutionEvents(s, m, a);
    var e1 := e0 + if sees then [Observe(w)] else [];
    var e2 := e1 + if sees && a.publishes then [Announce(w)] else [];
    assert e0 + [] == e0 && e1 + [] == e1;
    AfterAppend(s, e0, Observe(w));
    AfterAppend(s, e1, Announce(w));
    AfterAppend(s, e2, Finish(w, ok));
    hide Step, After, SeesTerminal;
  }

  /** How far the only job gets. */
  lemma StagesAre(s: State, w: string, m: Message, sees: bool, publishes: bool)
    requires |WorkerOf(s, w).jobs| == 1 && WorkerOf(s, w).jobs[0].stage == Working
        && WorkerOf(s, w).jobs[0].message == m
    requires sees ==> IsTerminal(s, m)
    ensures var s1 := if sees then Step(s, Observe(w)) else s;
            var s2 := if sees && publishes then Step(s1, Announce(w)) else s1;
            && OneJob(s, s1, w) && OneJob(s, s2, w)
            && (sees ==> WorkerOf(s1, w).jobs[0].stage == SawTerminal(s.records[m]))
            && (sees && publishes ==> WorkerOf(s2, w).jobs[0].stage == Announced)
  {
    if sees {
      ObservedIs(s, w);
      AnnouncedIs(s, Step(s, Observe(w)), w);
    }
    hide Step;
  }

  lemma ObservedIs(s: State, w: string)
    requires |WorkerOf(s, w).jobs| == 1 && WorkerOf(s, w).jobs[0].stage == Working
        && IsTerminal(s, WorkerOf(s, w).jobs[0].message)
    ensures var t := Step(s, Observe(w));
            OneJob(s, t, w) && WorkerOf(t, w).jobs[0].stage == SawTerminal(s.records[WorkerOf(s, w).jobs[0].message])
  {
  }

  lemma AnnouncedIs(s: State, t: State, w: string)
    requires OneJob(s, t, w) && WorkerOf(t, w).jobs[0].stage.SawTerminal?
    ensures OneJob(s, Step(t, Announce(w)), w) && WorkerOf(Step(t, Announce(w)), w).jobs[0].stage == Announced
  {
  }

  /** t is s with the worker's only job at another stage, and more in the log. */
  ghost predicate OneJob(s: State, t: State, w: string) {
    && t.ready == s.ready && t.acked == s.acked && t.dead == s.dead && t.returned == s.returned
    && t.records == s.records
    && WorkerOf(t, w).owned == WorkerOf(s, w).owned && WorkerOf(t, w).results == WorkerOf(s, w).results
    && |WorkerOf(s, w).jobs| == 1 == |WorkerOf(t, w).jobs|
    && WorkerOf(t, w).jobs[0] == WorkerOf(s, w).jobs[0].(stage := WorkerOf(t, w).jobs[0].stage)
  }

  lemma FinishedIs(s: State, t: State, w: string, ok: bool)
    requires OneJob(s, t, w) && (ok ==> WorkerOf(t, w).jobs[0].stage == Announced)
    ensures var u := Step(t, Finish(w, ok));
            && u.ready == s.ready && u.acked == s.acked && u.dead == s.dead && u.returned == s.returned
            && u.records == s.records
            && WorkerOf(u, w).owned == WorkerOf(s, w).owned && WorkerOf(u, w).jobs == []
            && WorkerOf(u, w).results == WorkerOf(s, w).results[WorkerOf(s, w).jobs[0].token := ok]
  {
  }

  lemma SettledIs(s: State, w: string, a: Answers) returns (t: State)
    requires WorkerOf(s, w).owned.Some? && WorkerOf(s, w).owned.value.token in WorkerOf(s, w).results
    ensures var o := WorkerOf(s, w).owned.value;
            var ok := WorkerOf(s, w).results[o.token];
            && t == After(s, SettlingEvents(w, a))
            && WorkerOf(t, w).owned.None? && WorkerOf(t, w).jobs == WorkerOf(s, w).jobs
            && t.acked == (if ok then s.acked + {o.message} else s.acked)
            && t.dead == (if !ok && o.redelivered then s.dead + {o.message} else s.dead)
            && t.ready == (if !ok && !o.redelivered then s.ready + [o.message] else s.ready)
            && t.returned == (if !ok && !o.redelivered then s.returned + {o.message} else s.returned)
            && t.records == if a.marks && MarksFailed(s, w) then s.records[o.message := Failed] else s.records
  {
    var s1 := if a.marks then Step(s, Mark(w)) else s;
    t := Step(s1, Settle(w));
    var e1: seq<Event> := if a.marks then [Mark(w)] else [];
    AfterNone(s);
    AfterOne(s, Mark(w));
    AfterAppend(s, e1, Settle(w));
    MarkedIs(s, w);
    hide After, MarksFailed;
  }

  lemma MarkedIs(s: State, w: string)
    ensures var t := Step(s, Mark(w));
            && SameQueue(s, t)
            && t.records == if MarksFailed(s, w) then s.records[WorkerOf(s, w).owned.value.message := Failed]
                else s.records
  {
  }

  /** The broker and the run records as the workers change them. */
  class Runtime {
    var state: State

    constructor ()
      ensures state == EMPTY == Run([])
    {
      state := EMPTY;
    }

    /** The handler of the worker's front job, up to publishing: every failure leaves it at once.
        It goes on only when the run's record is terminal, and it executes only a run that is
        not over. */
    method Handle(w: string, a: Answers) returns (ok: bool)
      requires WorkerOf(state, w).jobs != [] && WorkerOf(state, w).jobs[0].stage == Working
      modifies this
      ensures var m := WorkerOf(old(state), w).jobs[0].message;
              && (ok ==> IsTerminal(state, m) && WorkerOf(state, w).jobs != []
                         && WorkerOf(state, w).jobs[0] ==
                             WorkerOf(old(state), w).jobs[0].(stage := SawTerminal(state.records[m])))
              && (!ok ==> state.workers == old(state).workers)
              && (IsTerminal(old(state), m) ==> state.records == old(state).records)
              && state.records - {m} == old(state).records - {m}
              && ok == SeesTerminal(old(state), m, a)
              && state == After(old(state), ExecutionEvents(old(state), m, a) + if ok then [Observe(w)] else [])
    {
      var m := WorkerOf(state, w).jobs[0].message;
      ghost var e0 := ExecutionEvents(state, m, a);
      assert e0 + [] == e0;
      ExecutedIs(state, m, a);
      AfterAppend(state, e0, Observe(w));
      ExecutedRecords(state, m, a);
      hide After, Step, ExecutionEvents;
      if !a.supported || !a.hasIds || !a.downloads || m !in state.records {
        return false;
      }
      if !Terminal(state.records[m]) {
        if a.leaves.Some? {
          state := Written(state, m, a.leaves.value);
        }
        if !a.executes || !a.uploads {
          return false;
        }
      }
      if !Terminal(state.records[m]) {
        return false;
      }
      FrontObserved(state, w);
      state := Step(state, Observe(w));
      ok := true;
    }

    /** One delivery: hand it to the executor, wait for the handler, settle. From a reachable
        state it leads to a reachable one, so what holds of every run holds of the object. */
    method Consume(w: string, a: Answers, ghost history: seq<Event>)
      requires state == Run(history)
      requires state.ready != [] && WorkerOf(state, w).owned.None? && WorkerOf(state, w).jobs == []
      modifies this
      ensures state == After(old(state), DeliveryEvents(old(state), w, a))
      ensures state == Run(history + DeliveryEvents(old(state), w, a))
    {
      hide Step, After, Succeeds, HandlerEvents, SettlingEvents, Run;
      ghost var m := state.ready[0];
      ghost var handler := HandlerEvents(state, w, m, a);
      Get(w);
      SameAnswers(old(state), state, m, a);
      RunHandler(w, a);
      AfterConcat(old(state), [Deliver(w)], handler);
      AfterConcat(old(state), [Deliver(w)] + handler, SettlingEvents(w, a));
      Release(w, a);
      RunsCompose(history, DeliveryEvents(old(state), w, a));
    }

    method Get(w: string)
      requires state.ready != [] && WorkerOf(state, w).owned.None? && WorkerOf(state, w).jobs == []
      modifies this
      ensures state == After(old(state), [Deliver(w)]) && state.records == old(state).records
      ensures |WorkerOf(state, w).jobs| == 1 && WorkerOf(state, w).jobs[0].stage == Working
      ensures WorkerOf(state, w).jobs[0].message == old(state).ready[0]
    {
      AfterOne(state, Deliver(w));
      state := Step(state, Deliver(w));
    }

    method RunHandler(w: string, a: Answers)
      requires |WorkerOf(state, w).jobs| == 1 && WorkerOf(state, w).jobs[0].stage == Working
      modifies this
      ensures state == After(old(state), HandlerEvents(old(state), w, WorkerOf(old(state), w).jobs[0].message, a))
    {
      hide Step, After;
      ghost var m := WorkerOf(state, w).jobs[0].message;
      var ok := Handle(w, a);
      ghost var done := ExecutionEvents(old(state), m, a) + if ok then [Observe(w)] else [];
      if ok && a.publishes {
        AfterAppend(old(state), done, Announce(w));
        state := Step(state, Announce(w));
        done := done + [Announce(w)];
      }
      AfterAppend(old(state), done, Finish(w, Succeeds(old(state), m, a)));
      assert done + [Finish(w, Succeeds(old(state), m, a))] == HandlerEvents(old(state), w, m, a);
      state := Step(state, Finish(w, ok && a.publishes && a.cleans));
    }

    /** Mark a last failure, then settle. */
    method Release(w: string, a: Answers)
      modifies this
      ensures state == After(old(state), SettlingEvents(w, a))
    {
      hide Step;
      AfterNone(state);
      AfterOne(state, Mark(w));
      AfterAppend(state, if a.marks then [Mark(w)] else [], Settle(w));
      hide After;
      if a.marks {
        state := Step(state, Mark(w));
      }
      state := Step(state, Settle(w));
    }
  }
}
