/** The flow-calibration session: created once, then advanced by finished runs whose messages
    may be delivered any number of times, with crashes between any two writes
    (backend/domain/calibration/service.py). */
module FlowCalibration {
  import opened Wrappers
  import opened PeakUpdate

  datatype Status = Running | Completed | Failed
  type Profiles = map<string, Profile>

  /** The locked request: `settings` stands for everything but the two profiles. */
  datatype Request = Request(settings: string, profiles: Profiles)
  datatype IterationResult = IterationResult(iteration: nat, run: string)

  datatype Session = Session(request: Request, subjects: seq<string>, total: nat, step: real, status: Status,
                             completed: nat, profiles: Profiles, runIds: seq<string>, results: seq<IterationResult>)

  datatype Run = Run(iteration: nat, request: Request, queueFailed: bool, analysed: bool)

  /** The database and the queue: the session, all runs, and the runs whose messages were
      published. */
  datatype Store = Store(session: Option<Session>, runs: map<string, Run>, published: set<string>)

  /** Where a handler crashes, if it does. AfterMark is between the two writes of a failed
      publication: the run is marked failed, the session not yet. */
  datatype Stop = AtOnce | AfterResult | AfterRun | AfterIds | AfterMark | NoCrash

  /** The answers a call gets: a new run's id, whether creating the run succeeds, and whether
      its message is published. */
  datatype Answers = Answers(newId: string, creates: bool, publishes: bool, stop: Stop)

  datatype Delivery = Delivery(run: string, completed: bool, analyses: string -> Result<Analysis, string>,
                               snapshot: bool, answers: Answers)

  // ---- creating the session ----

  function NewSession(request: Request, subjects: seq<string>, total: nat, step: real): Session {
    Session(request, subjects, total, step, Running, 0, request.profiles, [], [])
  }

  /** The run for an iteration: the locked request with these profiles. */
  function NewRun(s: Session, iteration: nat, profiles: Profiles): Run {
    Run(iteration, s.request.(profiles := profiles), false, false)
  }

  /** Persist the session with the new run id, then publish. When that fails, mark the run and
      then persist the failed session. */
  function Launched(s: Session, runs: map<string, Run>, published: set<string>, a: Answers): Store
    requires a.newId in runs
  {
    var s' := s.(runIds := s.runIds + [a.newId]);
    if a.stop == AfterIds then Store(Some(s'), runs, published)
    else if !a.publishes then
      var marked := runs[a.newId := runs[a.newId].(queueFailed := true)];
      Store(Some(if a.stop == AfterMark then s' else s'.(status := Failed)), marked, published)
    else Store(Some(s'), runs, published + {a.newId})
  }

  function Created(s: Session, a: Answers): Store {
    if a.stop == AtOnce then Store(Some(s), map[], {})
    else if !a.creates then Store(Some(s.(status := Failed)), map[], {})
    else
      var runs := map[a.newId := NewRun(s, 1, s.profiles)];
      if a.stop == AfterRun || a.stop == AfterResult then Store(Some(s), runs, {}) else Launched(s, runs, {}, a)
  }

  // ---- advancing it ----

  /** The profiles after the first n subjects. */
  function NextProfiles(current: Profiles, subjects: seq<string>, analyses: string -> Result<Analysis, string>,
                        step: real): Result<Profiles, string>
    decreases |subjects|
  {
    if subjects == [] then Ok(current)
    else
      var subject := subjects[|subjects| - 1];
      match NextProfiles(current, subjects[..|subjects| - 1], analyses, step)
      case Err(e) => Err(e)
      case Ok(next) =>
        if analyses(subject).Err? then Err(analyses(subject).error)
        else if subject !in current then Err("unknown subject")
        else match Updated(current[subject], analyses(subject).value, step)
          case Err(e) => Err(e)
          case Ok(profile) => Ok(next[subject := profile])
  }

  predicate ZeroFlow(s: Session, analyses: string -> Result<Analysis, string>) {
    exists k :: 0 <= k < |s.subjects| && analyses(s.subjects[k]).Ok? && analyses(s.subjects[k]).value.zeroFlow
  }

  /** The session with iteration i recorded. */
  function Recorded(s: Session, i: nat, run: string, next: Profiles): Session {
    s.(completed := i, profiles := next, results := s.results + [IterationResult(i, run)])
  }

  function Fail(st: Store, s: Session, runs: map<string, Run>): Store {
    st.(session := Some(s.(status := Failed)), runs := runs)
  }

  /** After a successful comparison: the result is noted in the run, then in the session. */
  function Continued(st: Store, s: Session, i: nat, next: Profiles, d: Delivery): Store
    requires d.run in st.runs
  {
    var runs := st.runs[d.run := st.runs[d.run].(analysed := true)];
    if d.answers.stop == AfterResult then st.(runs := runs)
    else Proceeded(st, runs, Recorded(s, i, d.run, next), ZeroFlow(s, d.analyses), d.snapshot, d.answers)
  }

  /** Finish, fail, or start the next iteration. */
  function Proceeded(st: Store, runs: map<string, Run>, s: Session, zero: bool, snapshot: bool, a: Answers): Store {
    if zero then Fail(st, s, runs)
    else if s.completed >= s.total then st.(session := Some(s.(status := Completed)), runs := runs)
    else if !snapshot || !a.creates then Fail(st, s, runs)
    else
      var all := runs[a.newId := NewRun(s, s.completed + 1, s.profiles)];
      if a.stop == AfterRun then st.(runs := all) else Launched(s, all, st.published, a)
  }

  /** One delivery of a finished run's message. */
  function Delivered(st: Store, d: Delivery): Store {
    if st.session.None? || d.run !in st.runs then st
    else
      var s, i := st.session.value, st.runs[d.run].iteration;
      if s.status != Running || s.completed >= i || d.answers.stop == AtOnce then st
      else if !d.completed then Fail(st, s, st.runs)
      else match NextProfiles(st.runs[d.run].request.profiles, s.subjects, d.analyses, s.step)
        case Err(_) => Fail(st, s, st.runs)
        case Ok(next) => Continued(st, s, i, next, d)
  }

  /** Only published messages are delivered, and new ids are new. */
  ghost predicate Possible(st: Store, d: Delivery) {
    d.run in st.published && d.answers.newId !in st.runs
  }

  function After(st: Store, deliveries: seq<Delivery>): Store
    decreases |deliveries|
  {
    if deliveries == [] then st else Delivered(After(st, deliveries[..|deliveries| - 1]), deliveries[|deliveries| - 1])
  }

  ghost predicate AllPossible(st: Store, deliveries: seq<Delivery>)
    decreases |deliveries|
  {
    deliveries == [] ||
    (AllPossible(st, deliveries[..|deliveries| - 1])
     && Possible(After(st, deliveries[..|deliveries| - 1]), deliveries[|deliveries| - 1]))
  }

  // ---- what is locked ----

  /** Same subjects; the selected ones differ at most in peak heights, the others not at all. */
  ghost predicate LockedProfiles(original: Profiles, subjects: seq<string>, p: Profiles) {
    && p.Keys == original.Keys
    && forall x :: x in original ==> if x in subjects then SameButHeights(original[x], p[x]) else p[x] == original[x]
  }

  ghost predicate InRange(p: Profiles, subjects: seq<string>) {
    forall x :: x in subjects && x in p ==> HeightsInRange(p[x])
  }

  ghost predicate LockedRun(s: Session, r: Run) {
    && r.request.settings == s.request.settings && LockedProfiles(s.request.profiles, s.subjects, r.request.profiles)
    && (r.iteration > 1 ==> InRange(r.request.profiles, s.subjects))
  }

  lemma {:induction false} NextProfilesLocked(original: Profiles, all: seq<string>, current: Profiles,
                                              subjects: seq<string>,
                                              analyses: string -> Result<Analysis, string>, step: real)
    requires LockedProfiles(original, all, current) && forall x :: x in subjects ==> x in all
    ensures var r := NextProfiles(current, subjects, analyses, step);
            r.Ok? ==>
              && LockedProfiles(original, all, r.value)
              && (forall x :: x in subjects ==> x in r.value && HeightsInRange(r.value[x]))
    decreases |subjects|
  {
    hide Updated;
    if subjects != [] {
      var front, subject := subjects[..|subjects| - 1], subjects[|subjects| - 1];
      assert subjects == front + [subject];
      NextProfilesLocked(original, all, current, front, analyses, step);
      if analyses(subject).Ok? && subject in current {
        UpdatedIsLocked(current[subject], analyses(subject).value, step);
      }
    }
  }

  // ---- what a delivery does ----

  /** The subject can be compared: it was measured, it has a profile, and the profile has as many
      heights as peaks. */
  ghost predicate Comparable(current: Profiles, subject: string, analyses: string -> Result<Analysis, string>) {
    analyses(subject).Ok? && subject in current && |current[subject].peakHeights| == current[subject].peakCount
  }

  /** The next profiles are there exactly when every subject can be compared. Each subject's profile
      is then the update of its own current one by its own analysis, and no other changes. */
  lemma {:induction false} NextProfilesAre(current: Profiles, subjects: seq<string>,
                                           analyses: string -> Result<Analysis, string>, step: real)
    ensures var r := NextProfiles(current, subjects, analyses, step);
            && (r.Ok? <==> forall x :: x in subjects ==> Comparable(current, x, analyses))
            && (r.Ok? ==>
                  && r.value.Keys == current.Keys
                  && forall x :: x in current ==>
                       if x in subjects
                       then analyses(x).Ok? && Updated(current[x], analyses(x).value, step) == Ok(r.value[x])
                       else r.value[x] == current[x])
    decreases |subjects|
  {
    if subjects != [] {
      var front, subject := subjects[..|subjects| - 1], subjects[|subjects| - 1];
      assert subjects == front + [subject];
      NextProfilesAre(current, front, analyses, step);
      if Comparable(current, subject, analyses) {
        UpdatedIsLocked(current[subject], analyses(subject).value, step);
      }
      hide NewHeight, HeightsInRange;
    }
  }

  /** A subject was measured to have flow while the simulation has none. */
  ghost predicate SomeZeroFlow(subjects: seq<string>, analyses: string -> Result<Analysis, string>) {
    exists x :: x in subjects && analyses(x).Ok? && analyses(x).value.zeroFlow
  }

  lemma ZeroFlowIs(s: Session, analyses: string -> Result<Analysis, string>)
    ensures ZeroFlow(s, analyses) <==> SomeZeroFlow(s.subjects, analyses)
  {
    if x :| x in s.subjects && analyses(x).Ok? && analyses(x).value.zeroFlow {
      var k :| 0 <= k < |s.subjects| && s.subjects[k] == x;
    }
  }

  /** The session goes on with the next run, which is published: the request with the new profiles,
      for the iteration after those that are completed. */
  ghost predicate GoesOn(st: Store, before: Store, run: string, s: Session, newId: string)
    requires run in before.runs
  {
    && st == Store(Some(s.(runIds := s.runIds + [newId])),
                   before.runs[run := before.runs[run].(analysed := true)]
                   [newId := Run(s.completed + 1, Request(s.request.settings, s.profiles), false, false)],
                   before.published + {newId})
  }

  ghost predicate Ends(st: Store, before: Store, run: string, s: Session, status: Status)
    requires run in before.runs
  {
    st ==
    Store(Some(s.(status := status)), before.runs[run := before.runs[run].(analysed := true)], before.published)
  }

  ghost predicate NotesResult(runs: map<string, Run>, after: map<string, Run>, run: string) {
    run in runs && after == runs[run := runs[run].(analysed := true)]
  }

  /** A delivery without a crash, of a run that is news to a running session. When every subject can
      be compared, the result and the updated profiles are recorded; then the session fails for
      want of simulated flow, is completed with its last iteration, goes on, or fails for want of
      the next run. A run that failed fails the session. After a crash behind the first write only
      the run's own result is noted. */
  lemma DeliveryDoes(st: Store, d: Delivery, next: Profiles)
    requires st.session.Some? && d.run in st.runs && st.session.value.status == Running
        && st.session.value.completed < st.runs[d.run].iteration && d.answers.newId !in st.runs
    requires d.answers.stop == NoCrash || d.answers.stop == AfterResult
    requires NextProfiles(st.runs[d.run].request.profiles, st.session.value.subjects, d.analyses,
                          st.session.value.step) == Ok(next)
    ensures var s, i, t := st.session.value, st.runs[d.run].iteration, Delivered(st, d);
            var recorded := s.(completed := i, profiles := next, results := s.results + [IterationResult(i, d.run)]);
            if !d.completed then t == st.(session := Some(s.(status := Failed)))
            else if d.answers.stop == AfterResult then t == st.(runs := t.runs) && NotesResult(st.runs, t.runs, d.run)
            else if SomeZeroFlow(s.subjects, d.analyses) then Ends(t, st, d.run, recorded, Failed)
            else if i >= s.total then Ends(t, st, d.run, recorded, Completed)
            else if !d.snapshot || !d.answers.creates then Ends(t, st, d.run, recorded, Failed)
            else if d.answers.publishes then GoesOn(t, st, d.run, recorded, d.answers.newId)
            else t.session == Some(recorded.(status := Failed, runIds := s.runIds + [d.answers.newId]))
                 && t.published == st.published && d.answers.newId in t.runs && t.runs[d.answers.newId].queueFailed
  {
    hide NextProfiles;
    ZeroFlowIs(st.session.value, d.analyses);
    hide ZeroFlow, SomeZeroFlow;
  }

  /** The delivery is of a failed run, or of one that cannot be compared: the session fails, and
      nothing is recorded. Without news nothing changes. */
  lemma DeliveryFails(st: Store, d: Delivery)
    requires st.session.Some? && d.run in st.runs && d.answers.stop == NoCrash
    ensures var s, r := st.session.value, st.runs[d.run];
            if s.status != Running || s.completed >= r.iteration then Delivered(st, d) == st
            else (exists x :: x in s.subjects && !Comparable(r.request.profiles, x, d.analyses)) || !d.completed ==>
              Delivered(st, d) == st.(session := Some(s.(status := Failed)))
  {
    NextProfilesAre(st.runs[d.run].request.profiles, st.session.value.subjects, d.analyses, st.session.value.step);
    hide NextProfiles, Comparable, Continued;
  }

  /** Creation without a crash launches the first iteration with the request as it is, or fails the
      session. */
  lemma CreationDoes(request: Request, subjects: seq<string>, total: nat, step: real, a: Answers)
    requires a.stop == NoCrash
    ensures var st := Created(NewSession(request, subjects, total, step), a);
            && st.session.Some? && st.session.value.request == request && st.session.value.profiles == request.profiles
            && st.session.value.results == [] && st.session.value.completed == 0 && st.session.value.total == total
            && st.session.value.status == (if a.creates && a.publishes then Running else Failed)
            && st.published == (if a.creates && a.publishes then {a.newId} else {})
            && st.session.value.runIds == (if a.creates then [a.newId] else [])
            && st.runs == if a.creates then map[a.newId := Run(1, request, !a.publishes, false)] else map[]
  {
  }

  // ---- the invariant ----

  ghost predicate Distinct(ids: seq<string>) {
    forall j, k :: 0 <= j < k < |ids| ==> ids[j] != ids[k]
  }

  /** The results are exactly iterations 1 to `completed`, in order, each from its own run. */
  ghost predicate Bookkeeping(s: Session) {
    && s.completed == |s.results| <= |s.runIds| && s.completed <= s.total && Distinct(s.runIds)
    && (forall k :: 0 <= k < |s.results| ==> s.results[k] == IterationResult(k + 1, s.runIds[k]))
    && (s.status == Running ==> |s.runIds| == s.completed + 1 <= s.total || s.runIds == [])
    && (s.status == Completed ==> |s.runIds| == s.completed == s.total)
  }

  ghost predicate Inv(st: Store) {
    && st.session.Some?
    && var s := st.session.value;
       && s.total >= 1 && Bookkeeping(s)
       && (forall k :: 0 <= k < |s.runIds| ==> s.runIds[k] in st.runs && st.runs[s.runIds[k]].iteration == k + 1)
       && (forall r :: r in st.published ==> r in s.runIds)
       && (forall r :: r in st.runs ==> LockedRun(s, st.runs[r]))
  }

  lemma CreatedKeeps(request: Request, subjects: seq<string>, total: nat, step: real, a: Answers)
    requires total >= 1
    ensures var st := Created(NewSession(request, subjects, total, step), a);
            && Inv(st)
            && (a.stop == NoCrash && st.session.value.status == Running ==>
                |st.session.value.runIds| == st.session.value.completed + 1)
  {
  }

  lemma LaunchedKeeps(st: Store, s: Session, runs: map<string, Run>, a: Answers)
    requires Inv(st) && s.total == st.session.value.total && s.request == st.session.value.request
        && s.subjects == st.session.value.subjects
    requires s.status == Running && s.runIds == st.session.value.runIds
        && s.completed == |s.runIds| == |s.results| < s.total
    requires forall k :: 0 <= k < |s.results| ==> s.results[k] == IterationResult(k + 1, s.runIds[k])
    requires a.newId !in st.runs && a.newId in runs && runs[a.newId].iteration == s.completed + 1
    requires forall r :: r in st.runs ==> r in runs && runs[r].iteration == st.runs[r].iteration
    requires forall r :: r in runs ==> LockedRun(s, runs[r])
    ensures Inv(Launched(s, runs, st.published, a))
  {
    hide LockedRun;
    var after := Launched(s, runs, st.published, a);
    assert forall r ::
        r in runs ==> LockedRun(after.session.value, runs[r]) by { LockedSame(s, after.session.value, runs); }
    assert a.newId !in s.runIds;
    if a.stop != AfterIds && !a.publishes {
      LockedFailed(after.session.value, runs[a.newId]);
    }
  }

  lemma LockedSame(s: Session, t: Session, runs: map<string, Run>)
    requires s.request == t.request && s.subjects == t.subjects && forall r :: r in runs ==> LockedRun(s, runs[r])
    ensures forall r :: r in runs ==> LockedRun(t, runs[r])
  {
  }

  lemma LockedFailed(s: Session, r: Run)
    ensures LockedRun(s, r.(queueFailed := true)) == LockedRun(s, r)
        && LockedRun(s, r.(analysed := true)) == LockedRun(s, r)
  {
  }

  /** A failed session keeps its books. */
  lemma FailKeeps(st: Store, s: Session, runs: map<string, Run>)
    requires Inv(st) && Bookkeeping(s.(status := Failed)) && s.total >= 1
    requires RunsOK(st, runs) && SameIdentity(st.session.value, s)
    ensures Inv(Fail(st, s, runs))
  {
    hide LockedRun;
    LockedSame(st.session.value, s.(status := Failed), runs);
  }

  /** A delivered run that is still news is the one for the next iteration. */
  lemma NewsIsNext(st: Store, run: string)
    requires Inv(st) && run in st.published && st.session.value.status == Running
        && st.session.value.completed < st.runs[run].iteration
    ensures var s := st.session.value;
            run in st.runs && st.runs[run].iteration == s.completed + 1 == |s.runIds| <= s.total
                && s.runIds[s.completed] == run
  {
    var s := st.session.value;
    assert run in s.runIds;
    var k :| 0 <= k < |s.runIds| && s.runIds[k] == run;
  }

  lemma RecordedBooks(s: Session, run: string, next: Profiles)
    requires Bookkeeping(s) && s.status == Running && |s.runIds| == s.completed + 1 <= s.total
        && s.runIds[s.completed] == run
    ensures var t := Recorded(s, s.completed + 1, run, next);
            && t.completed == |t.results| == |t.runIds|
            && (forall k :: 0 <= k < |t.results| ==> t.results[k] == IterationResult(k + 1, t.runIds[k]))
            && Bookkeeping(t.(status := Failed)) && (t.completed == t.total ==> Bookkeeping(t.(status := Completed)))
  {
  }

  lemma AnalysedLocked(s: Session, runs: map<string, Run>, run: string)
    requires run in runs && forall r :: r in runs ==> LockedRun(s, runs[r])
    ensures forall r :: r in runs ==> LockedRun(s, runs[run := runs[run].(analysed := true)][r])
  {
    LockedFailed(s, runs[run]);
    hide LockedRun;
  }

  lemma NewRunLocked(s: Session, i: nat, next: Profiles)
    requires LockedProfiles(s.request.profiles, s.subjects, next) && InRange(next, s.subjects)
    ensures LockedRun(s, NewRun(s, i, next))
  {
  }

  lemma ContinuedKeeps(st: Store, d: Delivery, next: Profiles)
    requires Inv(st) && Possible(st, d) && d.run in st.runs && st.session.value.status == Running
    requires st.session.value.completed < st.runs[d.run].iteration
    requires LockedProfiles(st.session.value.request.profiles, st.session.value.subjects, next)
        && InRange(next, st.session.value.subjects)
    ensures Inv(Continued(st, st.session.value, st.runs[d.run].iteration, next, d))
  {
    var s, i := st.session.value, st.runs[d.run].iteration;
    hide LockedRun, LockedProfiles, InRange, Bookkeeping, ZeroFlow, Proceeded, Inv, RunsOK;
    NewsIsNext(st, d.run);
    InvBooks(st);
    RecordedBooks(s, d.run, next);
    AnalysedOK(st, d.run);
    var runs := st.runs[d.run := st.runs[d.run].(analysed := true)];
    RunsKeep(st, runs);
    ProceededKeeps(st, runs, Recorded(s, i, d.run, next), ZeroFlow(s, d.analyses), d.snapshot, d.answers);
  }

  lemma ProceededKeeps(st: Store, runs: map<string, Run>, s: Session, zero: bool, snapshot: bool, a: Answers)
    requires Inv(st) && RunsOK(st, runs) && a.newId !in st.runs && SameIdentity(st.session.value, s) && s.total >= 1
    requires s.status == Running && s.completed == |s.runIds| == |s.results| <= s.total
    requires forall k :: 0 <= k < |s.results| ==> s.results[k] == IterationResult(k + 1, s.runIds[k])
    requires Bookkeeping(s.(status := Failed)) && (s.completed == s.total ==> Bookkeeping(s.(status := Completed)))
    requires LockedProfiles(st.session.value.request.profiles, st.session.value.subjects, s.profiles)
        && InRange(s.profiles, st.session.value.subjects)
    ensures Inv(Proceeded(st, runs, s, zero, snapshot, a))
  {
    hide LockedRun, LockedProfiles, InRange, Bookkeeping, Launched, Inv, RunsOK, NewRun;
    if !zero && s.completed >= s.total {
      CompletedKeeps(st, s, runs);
    } else if zero || !snapshot || !a.creates {
      FailKeeps(st, s, runs);
    } else {
      NextKeeps(st, s, runs, a);
    }
  }

  lemma InvBooks(st: Store)
    requires Inv(st)
    ensures st.session.Some? && Bookkeeping(st.session.value) && st.session.value.total >= 1
  {
  }

  lemma AnalysedOK(st: Store, run: string)
    requires Inv(st) && run in st.runs
    ensures RunsOK(st, st.runs[run := st.runs[run].(analysed := true)])
  {
    hide Bookkeeping;
    AnalysedLocked(st.session.value, st.runs, run);
    hide LockedRun;
  }

  /** Other runs, but the session's own with their iterations, all of them locked. */
  ghost predicate RunsOK(st: Store, runs: map<string, Run>) {
    && (forall r :: r in st.runs ==> r in runs && runs[r].iteration == st.runs[r].iteration)
    && st.session.Some? && (forall r :: r in runs ==> LockedRun(st.session.value, runs[r]))
  }

  /** The next iteration's run keeps the books, whether or not it gets launched. */
  lemma NextKeeps(st: Store, s: Session, runs: map<string, Run>, a: Answers)
    requires Inv(st) && RunsOK(st, runs) && a.newId !in st.runs && SameIdentity(st.session.value, s)
    requires s.status == Running && s.completed == |s.runIds| == |s.results| < s.total
    requires forall k :: 0 <= k < |s.results| ==> s.results[k] == IterationResult(k + 1, s.runIds[k])
    requires LockedProfiles(st.session.value.request.profiles, st.session.value.subjects, s.profiles)
        && InRange(s.profiles, st.session.value.subjects)
    ensures var all := runs[a.newId := NewRun(s, s.completed + 1, s.profiles)];
            Inv(st.(runs := all)) && Inv(Launched(s, all, st.published, a))
  {
    var before, run := st.session.value, NewRun(s, s.completed + 1, s.profiles);
    NewRunLocked(before, s.completed + 1, s.profiles);
    var all := runs[a.newId := run];
    assert RunsOK(st, all);
    hide LockedRun, LockedProfiles, InRange, Inv, Launched;
    RunsKeep(st, all);
    LockedSame(before, s, all);
    LaunchedKeeps(st, s, all, a);
  }

  ghost predicate SameIdentity(s: Session, t: Session) {
    t.request == s.request && t.subjects == s.subjects && t.runIds == s.runIds && t.total == s.total
  }

  /** Other runs do not matter to the session. */
  lemma RunsKeep(st: Store, runs: map<string, Run>)
    requires Inv(st) && RunsOK(st, runs)
    ensures Inv(st.(runs := runs))
  {
    hide LockedRun, Bookkeeping;
  }

  lemma CompletedKeeps(st: Store, s: Session, runs: map<string, Run>)
    requires Inv(st) && Bookkeeping(s.(status := Completed)) && s.total >= 1
    requires RunsOK(st, runs) && SameIdentity(st.session.value, s)
    ensures Inv(st.(session := Some(s.(status := Completed)), runs := runs))
  {
    LockedSame(st.session.value, s.(status := Completed), runs);
    hide LockedRun, Bookkeeping;
  }

  lemma DeliveredKeeps(st: Store, d: Delivery)
    requires Inv(st) && Possible(st, d)
    ensures Inv(Delivered(st, d))
  {
    var s := st.session.value;
    assert d.run in s.runIds && d.run in st.runs && LockedRun(s, st.runs[d.run]);
    if s.status == Running && s.completed < st.runs[d.run].iteration && d.answers.stop != AtOnce {
      if !d.completed {
        FailKeeps(st, s, st.runs);
      } else {
        NextProfilesLocked(s.request.profiles, s.subjects, st.runs[d.run].request.profiles, s.subjects, d.analyses,
                           s.step);
        var next := NextProfiles(st.runs[d.run].request.profiles, s.subjects, d.analyses, s.step);
        if next.Ok? {
          ContinuedKeeps(st, d, next.value);
        } else {
          FailKeeps(st, s, st.runs);
        }
        hide Continued, Inv, NextProfiles;
      }
    }
  }

  /** Over every sequence of deliveries, repeated or interrupted, the books stay exact and
      every run keeps the locked configuration. */
  lemma {:induction false} SessionKeeps(st: Store, deliveries: seq<Delivery>)
    requires Inv(st) && AllPossible(st, deliveries)
    ensures Inv(After(st, deliveries))
    decreases |deliveries|
  {
    hide Inv, Delivered, Possible;
    if deliveries != [] {
      SessionKeeps(st, deliveries[..|deliveries| - 1]);
      DeliveredKeeps(After(st, deliveries[..|deliveries| - 1]), deliveries[|deliveries| - 1]);
    }
  }

  /** A session from its creation on. */
  lemma SessionIsSound(request: Request, subjects: seq<string>, total: nat, step: real, a: Answers,
                       deliveries: seq<Delivery>)
    requires total >= 1 && AllPossible(Created(NewSession(request, subjects, total, step), a), deliveries)
    ensures Inv(After(Created(NewSession(request, subjects, total, step), a), deliveries))
  {
    CreatedKeeps(request, subjects, total, step, a);
    SessionKeeps(Created(NewSession(request, subjects, total, step), a), deliveries);
  }

  // ---- results are never lost, terminal sessions never change ----

  /** A delivery leaves a terminal session alone, and otherwise keeps the results so far and
      adds at most one. */
  lemma DeliveredExtends(st: Store, d: Delivery)
    requires Inv(st) && Possible(st, d)
    ensures var s, t := st.session.value, Delivered(st, d).session.value;
            && (s.status != Running ==> t == s)
            && s.results <= t.results && |t.results| <= |s.results| + 1 && s.runIds <= t.runIds
  {
    hide LockedRun, NextProfiles, ZeroFlow;
  }

  lemma {:induction false} ResultsAreKept(st: Store, deliveries: seq<Delivery>)
    requires Inv(st) && AllPossible(st, deliveries)
    ensures After(st, deliveries).session.Some?
    ensures var s, t := st.session.value, After(st, deliveries).session.value;
            && (s.status != Running ==> t == s)
            && s.results <= t.results && s.runIds <= t.runIds
    decreases |deliveries|
  {
    hide Delivered, Possible, LockedRun, Bookkeeping;
    if deliveries != [] {
      var front, d := deliveries[..|deliveries| - 1], deliveries[|deliveries| - 1];
      ResultsAreKept(st, front);
      SessionKeeps(st, front);
      DeliveredExtends(After(st, front), d);
      DeliveredKeeps(After(st, front), d);
    }
  }

  // ---- a stranded session ----

  /** The message of the newest run was never published. */
  ghost predicate Stranded(st: Store) {
    st.session.Some? && var s := st.session.value;
      s.status == Running && (s.runIds == [] || s.runIds[|s.runIds| - 1] !in st.published)
  }

  lemma StrandedIsIdle(st: Store, d: Delivery)
    requires Inv(st) && Possible(st, d) && Stranded(st)
    ensures Delivered(st, d) == st
  {
    var s := st.session.value;
    assert d.run in s.runIds;
    var k :| 0 <= k < |s.runIds| && s.runIds[k] == d.run;
  }

  /** A running session can be advanced exactly when its newest run's message was published:
      a crash between the two writes strands it for good. */
  lemma AdvancesIffPublished(st: Store, unused: string)
    requires Inv(st) && st.session.value.status == Running && unused !in st.runs
    ensures (exists d :: Possible(st, d) && Delivered(st, d) != st) <==> !Stranded(st)
  {
    var s := st.session.value;
    if Stranded(st) {
      forall d | Possible(st, d)
        ensures Delivered(st, d) == st
      {
        StrandedIsIdle(st, d);
      }
    } else {
      var d := Delivery(s.runIds[|s.runIds| - 1], false, x => Err(""), false, Answers(unused, false, false, NoCrash));
      assert Possible(st, d);
      assert Delivered(st, d).session.value.status == Failed;
    }
  }

  lemma {:induction false} StrandedForever(st: Store, deliveries: seq<Delivery>)
    requires Inv(st) && Stranded(st) && AllPossible(st, deliveries)
    ensures After(st, deliveries) == st
    decreases |deliveries|
  {
    hide Delivered, Possible, Inv, Stranded;
    if deliveries != [] {
      StrandedForever(st, deliveries[..|deliveries| - 1]);
      StrandedIsIdle(st, deliveries[|deliveries| - 1]);
    }
  }

  /** The crashes that leave the newest run unpublished: right after its id was persisted, and
      after a failed publication has marked the run but not the session. */
  predicate Strands(a: Answers) {
    a.stop == AfterIds || (!a.publishes && a.stop == AfterMark)
  }

  lemma CrashStrands(s: Session, runs: map<string, Run>, published: set<string>, a: Answers)
    requires a.newId in runs && a.newId !in published && s.status == Running
    ensures Stranded(Launched(s, runs, published, a)) <==> Strands(a)
    ensures !a.publishes && a.stop == AfterMark ==> Launched(s, runs, published, a).runs[a.newId].queueFailed
  {
  }

  /** Which creations leave a session that nothing will ever advance. */
  lemma CreationStrandsIff(request: Request, subjects: seq<string>, total: nat, step: real, a: Answers)
    ensures Stranded(Created(NewSession(request, subjects, total, step), a))
            <==> a.stop == AtOnce || (a.creates && (a.stop == AfterRun || a.stop == AfterResult || Strands(a)))
  {
  }

  /** The delivery starts another iteration. */
  ghost predicate StartsNext(st: Store, d: Delivery)
    requires st.session.Some? && d.run in st.runs
  {
    var s, i := st.session.value, st.runs[d.run].iteration;
    && s.status == Running && s.completed < i < s.total && d.completed && d.snapshot && d.answers.creates
    && !ZeroFlow(s, d.analyses)
    && NextProfiles(st.runs[d.run].request.profiles, s.subjects, d.analyses, s.step).Ok?
  }

  /** Which deliveries strand a session that was not stranded before. */
  lemma DeliveryStrandsIff(st: Store, d: Delivery)
    requires Inv(st) && Possible(st, d) && !Stranded(st)
    ensures Stranded(Delivered(st, d)) <==> StartsNext(st, d) && Strands(d.answers)
  {
    var s, i := st.session.value, st.runs[d.run].iteration;
    hide LockedRun, NextProfiles, ZeroFlow, NewRun;
    if s.status == Running && s.completed < i && d.answers.stop != AtOnce && d.completed {
      NewsIsNext(st, d.run);
      var next := NextProfiles(st.runs[d.run].request.profiles, s.subjects, d.analyses, s.step);
      if next.Ok? {
        ContinuationStrands(st, s, i, next.value, d);
      }
      hide Continued;
    }
  }

  lemma ContinuationStrands(st: Store, s: Session, i: nat, next: Profiles, d: Delivery)
    requires st.session == Some(s) && d.run in st.runs && s.status == Running && s.runIds != []
    requires s.runIds[|s.runIds| - 1] in st.published && d.answers.newId !in st.published && d.answers.stop != AtOnce
    ensures Stranded(Continued(st, s, i, next, d))
            <==> i < s.total && d.snapshot && d.answers.creates && !ZeroFlow(s, d.analyses) && Strands(d.answers)
  {
    hide ZeroFlow, NewRun;
  }

  // ---- the calls ----

  /** The database rows and the queue, updated in place. */
  class CalibrationStore {
    var session: Option<Session>
    var runs: map<string, Run>
    var published: set<string>

    ghost function View(): Store
      reads this
    {
      Store(session, runs, published)
    }

    constructor ()
      ensures View() == Store(None, map[], {})
    {
      session, runs, published := None, map[], {};
    }

    method Persist(s: Session)
      modifies this`session
      ensures session == Some(s)
    {
      session := Some(s);
    }

    method FailSession(s: Session)
      modifies this`session
      ensures session == Some(s.(status := Failed))
    {
      Persist(s.(status := Failed));
    }

    method CreateIterationRun(s: Session, iteration: nat, profiles: Profiles, a: Answers) returns (ok: bool)
      modifies this`runs
      ensures ok == a.creates && runs == if ok then old(runs)[a.newId := NewRun(s, iteration, profiles)] else old(runs)
    {
      ok := a.creates;
      if ok {
        runs := runs[a.newId := Run(iteration, s.request.(profiles := profiles), false, false)];
      }
    }

    /** Note the run in the session, persist, and publish its message. */
    method Launch(s: Session, a: Answers)
      requires a.newId in runs
      modifies this
      ensures View() == Launched(s, old(runs), old(published), a)
    {
      var s' := s.(runIds := s.runIds + [a.newId]);
      Persist(s');
      if a.stop == AfterIds {
        return;
      }
      if a.publishes {
        published := published + {a.newId};
      } else {
        runs := runs[a.newId := runs[a.newId].(queueFailed := true)];
        if a.stop == AfterMark {
          return;
        }
        FailSession(s');
      }
    }

    method CreateFlowCalibration(request: Request, subjects: seq<string>, total: nat, step: real, a: Answers)
      requires View() == Store(None, map[], {})
      modifies this
      ensures View() == Created(NewSession(request, subjects, total, step), a)
    {
      var s := NewSession(request, subjects, total, step);
      Persist(s);
      if a.stop == AtOnce {
        return;
      }
      var ok := CreateIterationRun(s, 1, s.profiles, a);
      if !ok {
        FailSession(s);
        return;
      }
      if a.stop == AfterRun || a.stop == AfterResult {
        return;
      }
      Launch(s, a);
    }

    method CompareSubjects(s: Session, current: Profiles, analyses: string -> Result<Analysis, string>)
        returns (r: Result<Profiles, string>)
      ensures r == NextProfiles(current, s.subjects, analyses, s.step)
    {
      hide Updated;
      var next := current;
      for k := 0 to |s.subjects|
        invariant NextProfiles(current, s.subjects[..k], analyses, s.step) == Ok(next)
      {
        assert s.subjects[..k + 1][..k] == s.subjects[..k];
        var subject := s.subjects[k];
        if analyses(subject).Err? {
          ErrorStays(current, s.subjects, k + 1, analyses, s.step);
          return Err(analyses(subject).error);
        }
        if subject !in current {
          ErrorStays(current, s.subjects, k + 1, analyses, s.step);
          return Err("unknown subject");
        }
        var profile := CompareAndUpdateProfile(current[subject], analyses(subject).value, s.step);
        if profile.Err? {
          ErrorStays(current, s.subjects, k + 1, analyses, s.step);
          return Err(profile.error);
        }
        next := next[subject := profile.value];
      }
      assert s.subjects[..|s.subjects|] == s.subjects;
      r := Ok(next);
    }

    method AdvanceFlowCalibration(d: Delivery)
      modifies this
      ensures View() == Delivered(old(View()), d)
    {
      if session.None? || d.run !in runs {
        return;
      }
      var s, i := session.value, runs[d.run].iteration;
      if s.status != Running || s.completed >= i || d.answers.stop == AtOnce {
        return;
      }
      if !d.completed {
        FailSession(s);
        return;
      }
      var next := CompareSubjects(s, runs[d.run].request.profiles, d.analyses);
      if next.Err? {
        FailSession(s);
        return;
      }
      hide NextProfiles;
      Continue(s, i, next.value, d);
    }

    method Continue(s: Session, i: nat, next: Profiles, d: Delivery)
      requires d.run in runs
      modifies this
      ensures View() == Continued(old(View()), s, i, next, d)
    {
      hide ZeroFlow, Launched;
      runs := runs[d.run := runs[d.run].(analysed := true)];
      if d.answers.stop == AfterResult {
        return;
      }
      var s' := s.(completed := i);
      s' := s'.(profiles := next);
      s' := s'.(results := s'.results + [IterationResult(i, d.run)]);
      if ZeroFlow(s, d.analyses) {
        FailSession(s');
        return;
      }
      if i >= s.total {
        Persist(s'.(status := Completed));
        return;
      }
      if !d.snapshot {
        FailSession(s');
        return;
      }
      var ok := CreateIterationRun(s', i + 1, next, d.answers);
      if !ok {
        FailSession(s');
        return;
      }
      if d.answers.stop == AfterRun {
        return;
      }
      Launch(s', d.answers);
    }
  }

  /** An error for one subject is the error of the whole comparison. */
  lemma {:induction false} ErrorStays(current: Profiles, subjects: seq<string>, n: nat,
                                      analyses: string -> Result<Analysis, string>, step: real)
    requires n <= |subjects| && NextProfiles(current, subjects[..n], analyses, step).Err?
    ensures NextProfiles(current, subjects, analyses, step) == NextProfiles(current, subjects[..n], analyses, step)
    decreases |subjects|
  {
    hide Updated;
    if n == |subjects| {
      assert subjects[..n] == subjects;
    } else {
      assert subjects[..|subjects| - 1][..n] == subjects[..n];
      ErrorStays(current, subjects[..|subjects| - 1], n, analyses, step);
    }
  }
}
