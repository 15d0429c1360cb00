/** Which status each observer gives a job, which row and which announcements follow, in the outside world's own terms. */
module LifecycleOutcomes {
  import opened Values
  import opened Lifecycle
  import opened LifecycleInvariants
  import opened LifecycleTheorems

  // ----- The status that a step gives a running job -----

  /** The close handler, back from its drain. */
  predicate AtClose(s: State, step: Step, exitZero: bool) {
    step.ResumeTask? && step.task < |s.tasks| && s.tasks[step.task].pc == DrainingAtClose(exitZero)
  }

  /** The number of the recovery that a recover handler decides on in this step: at once without a row to record it
      in, otherwise once it is recorded. */
  function DecidedCount(c: Config, s: State, step: Step): Option<nat> {
    if step.DetectorFires? && step.error.StreamIdle? && s.detectorLive && !c.hasTracker then Some(s.recoverCount + 1)
    else if step.ResumeTask? && step.ok && step.task < |s.tasks| && s.tasks[step.task].pc.Recording? then
      Some(s.tasks[step.task].pc.count)
    else None
  }

  /** A confirmed rate limit whose reset is known and can be waited for: its flag is written. */
  predicate LimitIsFlagged(c: Config, s: State, step: Step) {
    step == DetectorFires(RateLimit(true), true) && s.detectorLive && c.hasRecoverContext
  }

  predicate Completes(c: Config, s: State, step: Step) {
    (step == SelfStop(SignalCompleted) && c.hasHandle) || AtClose(s, step, true)
  }

  predicate Cancels(c: Config, step: Step) {
    step == Cancel && c.hasHandle
  }

  predicate Recovers(c: Config, s: State, step: Step) {
    && c.hasHandle
    && (|| step == SelfStop(ApiErrorRecover)
        || (DecidedCount(c, s, step).Some? && DecidedCount(c, s, step).value <= 3 && c.hasRecoverContext))
  }

  predicate Throttles(c: Config, s: State, step: Step) {
    c.hasHandle && (step == SelfStop(RateLimited) || LimitIsFlagged(c, s, step))
  }

  predicate Fails(c: Config, s: State, step: Step) {
    || step == ProcessError || AtClose(s, step, false)
    || (c.hasHandle && (step == SelfStop(SignalFailed) || step == SelfStop(CriticalFailure)))
    || (c.hasHandle && (step == SelfStop(AgentBlocked) || step == SelfStop(ApiErrorFailed)))
    || (c.hasHandle && step.DetectorFires? && step.error.RateLimit? && s.detectorLive && !LimitIsFlagged(c, s, step))
    || (c.hasHandle && DecidedCount(c, s, step).Some? && (!c.hasRecoverContext || (DecidedCount(c, s, step).value > 3 && step.ok)))
  }

  lemma ResumeOutcome(c: Config, s: State, t: nat, ok: bool)
    requires s.status == Running && t < |s.tasks|
    ensures var step, after := ResumeTask(t, ok), ResumeOf(c, s, t, ok).status;
      && (after == Completed <==> Completes(c, s, step)) && (after == Failed <==> Fails(c, s, step))
      && (after == Recovered <==> Recovers(c, s, step))
      && after != TimedOut && after != Canceled && after != Throttled
  {
    if s.tasks[t].pc.Recording? {
      RecordedOutcome(c, s, t, ok);
    } else if s.tasks[t].pc.DrainingAtClose? {
      hide DecideRecover;
    } else {
      StopOutcome(c, s, t, ok);
    }
  }

  lemma RecordedOutcome(c: Config, s: State, t: nat, ok: bool)
    requires s.status == Running && t < |s.tasks| && s.tasks[t].pc.Recording?
    ensures var step, after := ResumeTask(t, ok), ResumeOf(c, s, t, ok).status;
      && (after == Failed <==> Fails(c, s, step)) && (after == Recovered <==> Recovers(c, s, step))
      && (after == Running || after == Failed || after == Recovered) && !Completes(c, s, step)
  {
    hide EndNow;
  }

  lemma StopOutcome(c: Config, s: State, t: nat, ok: bool)
    requires s.status == Running && t < |s.tasks| && !s.tasks[t].pc.Recording? && !s.tasks[t].pc.DrainingAtClose?
    ensures var step := ResumeTask(t, ok);
      ResumeOf(c, s, t, ok).status == Running && !Completes(c, s, step) && !Fails(c, s, step) && !Recovers(c, s, step)
  {
    hide DecideRecover, EndNow;
  }

  lemma FireOutcome(c: Config, s: State, error: ApiError, ok: bool)
    requires s.status == Running
    ensures var step := DetectorFires(error, ok);
      var after := Next(c, s, step).status;
      && (after == Failed <==> Fails(c, s, step)) && (after == Recovered <==> Recovers(c, s, step))
      && (after == Throttled <==> Throttles(c, s, step))
      && after != TimedOut && after != Canceled && after != Completed
  {
  }

  lemma SignalOutcome(c: Config, s: State, signal: CompleteStatus)
    requires s.status == Running
    ensures var step := SelfStop(signal);
      var after := Next(c, s, step).status;
      && (after == Completed <==> Completes(c, s, step)) && (after == Failed <==> Fails(c, s, step))
      && (after == TimedOut <==> step == TimerFires) && (after == Canceled <==> Cancels(c, step))
      && (after == Recovered <==> Recovers(c, s, step)) && (after == Throttled <==> Throttles(c, s, step))
  {
    NoDecision(c, s, SelfStop(signal));
    hide DecidedCount, EndNow;
  }

  lemma OtherOutcome(c: Config, s: State, step: Step)
    requires s.status == Running && !step.ResumeTask? && !step.DetectorFires? && !step.SelfStop?
    ensures var after := Next(c, s, step).status;
      && (after == Completed <==> Completes(c, s, step)) && (after == Failed <==> Fails(c, s, step))
      && (after == TimedOut <==> step == TimerFires) && (after == Canceled <==> Cancels(c, step))
      && (after == Recovered <==> Recovers(c, s, step)) && (after == Throttled <==> Throttles(c, s, step))
  {
    NoDecision(c, s, step);
    hide DecidedCount, CallStop, LimitIsFlagged;
  }

  lemma NoDecision(c: Config, s: State, step: Step)
    requires !step.ResumeTask? && !step.DetectorFires?
    ensures DecidedCount(c, s, step).None?
  {
  }

  lemma StepOutcome(c: Config, s: State, step: Step)
    requires s.status == Running
    ensures var after := Next(c, s, step).status;
      && (after == Completed <==> Completes(c, s, step)) && (after == Failed <==> Fails(c, s, step))
      && (after == TimedOut <==> step == TimerFires) && (after == Canceled <==> Cancels(c, step))
      && (after == Recovered <==> Recovers(c, s, step)) && (after == Throttled <==> Throttles(c, s, step))
  {
    match step
    case ResumeTask(task, ok) => if task < |s.tasks| { ResumeOutcome(c, s, task, ok); }
    case DetectorFires(error, ok) => FireOutcome(c, s, error, ok);
    case SelfStop(signal) => SignalOutcome(c, s, signal);
    case _ => OtherOutcome(c, s, step);
  }

  /** After any run that leaves the job running, whatever comes next: each status is given by exactly the observers
      that stand for it. */
  lemma EveryEnding(c: Config, run: seq<Step>, step: Step)
    requires Exec(c, run).status == Running
    ensures var s, after := Exec(c, run), Exec(c, run + [step]).status;
      && (after == Completed <==> Completes(c, s, step)) && (after == Failed <==> Fails(c, s, step))
      && (after == TimedOut <==> step == TimerFires) && (after == Canceled <==> Cancels(c, step))
      && (after == Recovered <==> Recovers(c, s, step)) && (after == Throttled <==> Throttles(c, s, step))
  {
    hide Completes, Fails, Cancels, Recovers, Throttles, Exec, Next;
    Extend(c, run, step);
    StepOutcome(c, Exec(c, run), step);
  }

  /** A close handler that comes too late still gives the status of its exit code. */
  lemma LateCloseOutcome(c: Config, run: seq<Step>, t: nat, ok: bool)
    requires t < |Exec(c, run).tasks| && Exec(c, run).tasks[t].pc.DrainingAtClose?
    ensures Exec(c, run + [ResumeTask(t, ok)]).status == if Exec(c, run).tasks[t].pc == DrainingAtClose(true) then Completed else Failed
  {
    Extend(c, run, ResumeTask(t, ok));
  }

  // ----- The recover handler's bookkeeping -----

  predicate IdleFires(s: State, step: Step) {
    step.DetectorFires? && step.error.StreamIdle? && s.detectorLive
  }

  /** The detector's recovery is numbered one past the last, and recorded first when there is a row to record it in. */
  predicate Numbered(c: Config, s: State, step: Step, u: State) {
    && u.recoverCount == (if IdleFires(s, step) then s.recoverCount + 1 else s.recoverCount)
    && (IdleFires(s, step) && c.hasTracker ==> u.tasks == s.tasks + [Task(false, Recording(s.recoverCount + 1), None, None)])
  }

  /** A decided recovery up to the third is continued under its number; past the third the halt flag is written first, and
      never otherwise. */
  predicate Decided(c: Config, s: State, step: Step, u: State) {
    var count := DecidedCount(c, s, step);
    && (count.Some? && count.value <= 3 && c.hasRecoverContext ==>
          var t := if step.ResumeTask? then step.task else |s.tasks|; t < |u.tasks| && u.tasks[t].resume == count)
    && (|u.log| > |s.log| && u.log[|s.log|] == HaltFlagWritten <==> count.Some? && count.value > 3 && c.hasRecoverContext && step.ok)
  }

  lemma FireIsNumbered(c: Config, s: State, error: ApiError, ok: bool)
    requires s.status == Running
    ensures Numbered(c, s, DetectorFires(error, ok), Next(c, s, DetectorFires(error, ok)))
    ensures Decided(c, s, DetectorFires(error, ok), Next(c, s, DetectorFires(error, ok)))
  {
  }

  lemma RecordedIsNumbered(c: Config, s: State, t: nat, ok: bool)
    requires s.status == Running && t < |s.tasks| && s.tasks[t].pc.Recording?
    ensures Numbered(c, s, ResumeTask(t, ok), ResumeOf(c, s, t, ok))
    ensures Decided(c, s, ResumeTask(t, ok), ResumeOf(c, s, t, ok))
  {
  }

  lemma OtherwiseNumbered(c: Config, s: State, t: nat, ok: bool)
    requires s.status == Running && t < |s.tasks| && !s.tasks[t].pc.Recording?
    ensures Numbered(c, s, ResumeTask(t, ok), ResumeOf(c, s, t, ok))
    ensures Decided(c, s, ResumeTask(t, ok), ResumeOf(c, s, t, ok))
  {
    hide DecideRecover;
  }

  lemma ResumeIsNumbered(c: Config, s: State, t: nat, ok: bool)
    requires s.status == Running && t < |s.tasks|
    ensures Numbered(c, s, ResumeTask(t, ok), ResumeOf(c, s, t, ok))
    ensures Decided(c, s, ResumeTask(t, ok), ResumeOf(c, s, t, ok))
  {
    hide Numbered, Decided, ResumeOf;
    if s.tasks[t].pc.Recording? { RecordedIsNumbered(c, s, t, ok); } else { OtherwiseNumbered(c, s, t, ok); }
  }

  lemma OtherIsNumbered(c: Config, s: State, step: Step)
    requires s.status == Running && !step.DetectorFires? && !step.ResumeTask?
    ensures Numbered(c, s, step, Next(c, s, step)) && Decided(c, s, step, Next(c, s, step))
  {
  }

  lemma RecoveryIsNumbered(c: Config, run: seq<Step>, step: Step)
    requires Exec(c, run).status == Running
    ensures Numbered(c, Exec(c, run), step, Exec(c, run + [step])) && Decided(c, Exec(c, run), step, Exec(c, run + [step]))
  {
    var s := Exec(c, run);
    Extend(c, run, step);
    match step
    case ResumeTask(task, ok) => if task < |s.tasks| { ResumeIsNumbered(c, s, task, ok); }
    case DetectorFires(error, ok) => FireIsNumbered(c, s, error, ok);
    case _ => OtherIsNumbered(c, s, step);
  }

  // ----- The row -----

  /** In guarded runs, each row is handed over for exactly the status it stands for. */
  lemma RowsAreLiteral(c: Config, run: seq<Step>, row: DispatchStatus)
    requires ClosesGuarded(c, run) && Finalized(row) in Exec(c, run).log
    ensures var status := Exec(c, run).status;
      && (row == RowCompleted <==> status == Completed) && (row == RowCancelled <==> status == Canceled)
      && (row == RowRecovered <==> status == Recovered) && (row == RowThrottled <==> status == Throttled)
      && (row == RowFailed <==> status == Failed || status == TimedOut) && status != Running
  {
    OneRow(c, run);
    RunKeepsInv(c, run);
    assert EventOk(Exec(c, run), Finalized(row));
  }

  /** Once the teardown of a tracked job has settled, its row has been handed over unless the drain failed. */
  lemma SettledIsFinalized(c: Config, run: seq<Step>)
    requires Exec(c, run).cleanup.Settled? && c.hasTracker && DrainFailed !in Exec(c, run).log
    ensures exists row :: Finalized(row) in Exec(c, run).log
  {
    RunKeepsInv(c, run);
    var s := Exec(c, run);
    if s.cleanup.done.Some? { assert Finalized(s.cleanup.done.value) in s.log; }
  }

  // ----- The announcements -----

  /** The terminal status was reported by this handler. */
  predicate PutBy(log: seq<Event>, t: nat) {
    StopPut(t) in log || NotifyPut(t) in log
  }

  /** A handler that gave the job its status and has gone on past its reports has made them: the status PUT exactly
      when it is configured (a cancel needs no token), the callback always, and the teardown is under way. */
  predicate TaskAnnounced(c: Config, s: State, t: nat, task: Task) {
    && (task.wrote.Some? && (task.pc.StopReturned? || task.pc.Done?) ==> OnComplete(t) in s.log)
    && (task.wrote.Some? && !task.pc.TreeStopping? ==> !s.cleanup.NotStarted?)
    && (task.wrote.Some? && (task.pc.Putting? || task.pc.StopReturned? || task.pc.Done?) ==>
          (PutBy(s.log, t) <==> c.hasStatusUrl && (task.cancel || c.hasApiToken)))
    && (NotifyPut(t) in s.log ==> task.wrote.Some? && task.pc.Done?)
    && (task.wrote.Some? ==> !task.pc.Recording? && !task.pc.DrainingAtClose?) && (task.cancel ==> task.wrote.Some?)
  }

  ghost predicate Announced(c: Config, s: State) {
    && (forall t: nat | t < |s.tasks| :: TaskAnnounced(c, s, t, s.tasks[t]))
    && (forall t: nat | NotifyPut(t) in s.log :: t < |s.tasks|)
  }

  /** Only task t was touched, and only it reported anything. */
  ghost predicate Only(s: State, u: State, t: nat) {
    && s.log <= u.log && |s.tasks| <= |u.tasks| <= (if t == |s.tasks| then t + 1 else |s.tasks|)
    && (forall k: nat | k < |s.tasks| && k != t :: u.tasks[k] == s.tasks[k])
    && (forall i: nat | |s.log| <= i < |u.log| :: Reports(u.log[i]) ==> u.log[i].task == t)
    && (!s.cleanup.NotStarted? ==> !u.cleanup.NotStarted?)
  }

  predicate Reports(e: Event) {
    e.StopPut? || e.NotifyPut? || e.OnComplete?
  }

  lemma ReportsStay(s: State, u: State, t: nat, e: Event)
    requires Only(s, u, t) && Reports(e) && e.task != t
    ensures e in s.log <==> e in u.log
  {
    if e in s.log {
      var i :| 0 <= i < |s.log| && s.log[i] == e;
      assert u.log[i] == e;
    }
    if e in u.log {
      var i :| 0 <= i < |u.log| && u.log[i] == e;
      assert i < |s.log| ==> s.log[i] == e;
    }
  }

  lemma OthersStayAnnounced(c: Config, s: State, u: State, t: nat)
    requires Announced(c, s) && Only(s, u, t)
    requires if t < |u.tasks| then TaskAnnounced(c, u, t, u.tasks[t]) else NotifyPut(t) !in u.log
    ensures Announced(c, u)
  {
    forall k: nat | k < |u.tasks| ensures TaskAnnounced(c, u, k, u.tasks[k]) {
      if k != t {
        assert TaskAnnounced(c, s, k, s.tasks[k]);
        ReportsStay(s, u, t, OnComplete(k));
        ReportsStay(s, u, t, NotifyPut(k));
        ReportsStay(s, u, t, StopPut(k));
      }
    }
    forall k: nat | NotifyPut(k) in u.log ensures k < |u.tasks| {
      if k != t { ReportsStay(s, u, t, NotifyPut(k)); }
    }
  }

  /** Nothing has been reported by a handler that has not got that far. */
  predicate NothingReported(s: State, t: nat) {
    OnComplete(t) !in s.log && StopPut(t) !in s.log && NotifyPut(t) !in s.log
  }

  lemma EndNowAnnounces(c: Config, s: State, t: nat, status: Status)
    requires t < |s.tasks| && !s.tasks[t].cancel && s.tasks[t].pc.Done? && s.tasks[t].wrote.None? && NothingReported(s, t)
    ensures Only(s, EndNow(c, s, t, status), t) && TaskAnnounced(c, EndNow(c, s, t, status), t, EndNow(c, s, t, status).tasks[t])
  {
    var u := EndNow(c, s, t, status);
    assert u.log[|u.log| - 1] == OnComplete(t);
    assert c.hasStatusUrl && c.hasApiToken ==> u.log[|u.log| - 2] == NotifyPut(t);
  }

  lemma CallStopAnnounces(c: Config, s: State, t: nat, signal: CompleteStatus)
    requires t < |s.tasks| && !s.tasks[t].cancel && s.tasks[t].wrote.None? && NothingReported(s, t)
    ensures Only(s, CallStop(c, s, t, signal), t) && TaskAnnounced(c, CallStop(c, s, t, signal), t, CallStop(c, s, t, signal).tasks[t])
  {
  }

  lemma NewIsUnreported(c: Config, s: State)
    requires Inv(c, s) && Announced(c, s)
    ensures NothingReported(s, |s.tasks|)
  {
    hide TaskOk, TaskAnnounced;
    var t := |s.tasks|;
    assert OnComplete(t) in s.log ==> EventOk(s, OnComplete(t));
    assert StopPut(t) in s.log ==> EventOk(s, StopPut(t));
  }

  lemma SilentIsUnreported(c: Config, s: State, t: nat)
    requires Inv(c, s) && Announced(c, s) && t < |s.tasks| && s.tasks[t].wrote.None?
    ensures NothingReported(s, t)
  {
    hide TaskOk;
    assert TaskAnnounced(c, s, t, s.tasks[t]);
    assert OnComplete(t) in s.log ==> EventOk(s, OnComplete(t));
    assert StopPut(t) in s.log ==> EventOk(s, StopPut(t));
  }

  lemma DecideAnnounces(c: Config, s: State, t: nat, count: nat, flagOk: bool)
    requires t < |s.tasks| && !s.tasks[t].cancel && s.tasks[t].wrote.None? && NothingReported(s, t)
    ensures var u := DecideRecover(c, s, t, count, flagOk); Only(s, u, t) && t < |u.tasks| && TaskAnnounced(c, u, t, u.tasks[t])
  {
    hide CallStop;
    if count > MAX_RECOVERS && c.hasRecoverContext {
      CallStopAnnounces(c, Emit(s, HaltFlagWritten), t, ApiErrorFailed);
    } else if !c.hasRecoverContext {
      CallStopAnnounces(c, s, t, ApiErrorFailed);
    } else {
      CallStopAnnounces(c, s.(tasks := s.tasks[t := s.tasks[t].(resume := Some(count))]), t, ApiErrorRecover);
    }
  }

  lemma StopSegmentAnnounces(c: Config, s: State, t: nat, ok: bool)
    requires Inv(c, s) && t < |s.tasks| && TaskAnnounced(c, s, t, s.tasks[t])
    requires s.tasks[t].pc.TreeStopping? || s.tasks[t].pc.AwaitingCleanup? || s.tasks[t].pc.Putting?
    ensures var u := ResumeOf(c, s, t, ok); Only(s, u, t) && t < |u.tasks| && TaskAnnounced(c, u, t, u.tasks[t])
  {
    var u := ResumeOf(c, s, t, ok);
    assert TaskOk(c, s, t, s.tasks[t]);
    assert StopPut(t) in s.log ==> EventOk(s, StopPut(t));
    if u.log != s.log { assert u.log[|s.log|] in u.log; }
    assert forall e :: e in s.log ==> e in u.log;
  }

  lemma ReturnAnnounces(c: Config, s: State, t: nat, ok: bool)
    requires Inv(c, s) && t < |s.tasks| && TaskAnnounced(c, s, t, s.tasks[t]) && s.tasks[t].pc.StopReturned?
    ensures var u := ResumeOf(c, s, t, ok); Only(s, u, t) && t < |u.tasks| && TaskAnnounced(c, u, t, u.tasks[t])
  {
    var u := ResumeOf(c, s, t, ok);
    assert forall e :: e in s.log ==> e in u.log;
    assert forall e :: e in u.log && Reports(e) ==> e in s.log;
  }

  lemma ResumeAnnounces(c: Config, s: State, t: nat, ok: bool)
    requires Inv(c, s) && Announced(c, s) && t < |s.tasks|
    ensures var u := ResumeOf(c, s, t, ok); Only(s, u, t) && t < |u.tasks| && TaskAnnounced(c, u, t, u.tasks[t])
  {
    hide Announced, Inv, TaskAnnounced, DecideRecover, EndNow;
    assert TaskAnnounced(c, s, t, s.tasks[t]) by { AnnouncedAt(c, s, t); }
    match s.tasks[t].pc
    case Recording(count) => QuietAnnounces(c, s, t, ok);
    case DrainingAtClose(_) => QuietAnnounces(c, s, t, ok);
    case StopReturned => ReturnAnnounces(c, s, t, ok);
    case Done =>
    case _ => StopSegmentAnnounces(c, s, t, ok);
  }

  lemma AnnouncedAt(c: Config, s: State, t: nat)
    requires Announced(c, s) && t < |s.tasks|
    ensures TaskAnnounced(c, s, t, s.tasks[t])
  {
  }

  lemma QuietAnnounces(c: Config, s: State, t: nat, ok: bool)
    requires Inv(c, s) && Announced(c, s) && t < |s.tasks| && (s.tasks[t].pc.Recording? || s.tasks[t].pc.DrainingAtClose?)
    ensures var u := ResumeOf(c, s, t, ok); Only(s, u, t) && t < |u.tasks| && TaskAnnounced(c, u, t, u.tasks[t])
  {
    hide DecideRecover, EndNow;
    assert TaskOk(c, s, t, s.tasks[t]) && TaskAnnounced(c, s, t, s.tasks[t]);
    SilentIsUnreported(c, s, t);
    match s.tasks[t].pc
    case Recording(count) => DecideAnnounces(c, s, t, count, ok);
    case DrainingAtClose(exitZero) =>
      EndNowAnnounces(c, SetPc(s, t, Done), t, if exitZero then Completed else Failed);
  }

  /** A handler just invoked does its first segment. */
  lemma SpawnedOnly(s: State, pc: Pc, count: nat, u: State)
    requires Only(Spawn(s, pc).(recoverCount := count), u, |s.tasks|)
    ensures Only(s, u, |s.tasks|)
  {
    var s1 := Spawn(s, pc).(recoverCount := count);
    assert forall k: nat :: k < |s.tasks| ==> s1.tasks[k] == s.tasks[k];
  }

  lemma FireAnnounces(c: Config, s: State, error: ApiError, ok: bool)
    requires NothingReported(s, |s.tasks|)
    ensures var u, t := Next(c, s, DetectorFires(error, ok)), |s.tasks|;
      Only(s, u, t) && (t < |u.tasks| ==> TaskAnnounced(c, u, t, u.tasks[t])) && (t >= |u.tasks| ==> u == s)
  {
    hide DecideRecover, CallStop, Only, TaskAnnounced;
    var t := |s.tasks|;
    if !s.detectorLive {
      QuietSpawn(c, s, s, Done);
    } else if s.status != Running {
      QuietSpawn(c, s, Spawn(s, Done), Done);
    } else if error.StreamIdle? {
      RecoverAnnounces(c, s, ok);
    } else {
      ThrottleAnnounces(c, s, error.hasResumeAt, ok);
    }
  }

  /** A handler that finds nothing to do, or only leaves itself to go on later. */
  lemma QuietSpawn(c: Config, s: State, u: State, pc: Pc)
    requires u == s || (exists count: nat :: u == Spawn(s, pc).(recoverCount := count)) || u == Spawn(s, pc)
    requires NothingReported(s, |s.tasks|)
    ensures Only(s, u, |s.tasks|) && (|s.tasks| < |u.tasks| ==> TaskAnnounced(c, u, |s.tasks|, u.tasks[|s.tasks|]))
  {
  }

  lemma RecoverAnnounces(c: Config, s: State, ok: bool)
    requires s.status == Running && NothingReported(s, |s.tasks|)
    ensures var u, t := FireRecover(c, s, ok), |s.tasks|; Only(s, u, t) && t < |u.tasks| && TaskAnnounced(c, u, t, u.tasks[t])
  {
    hide DecideRecover;
    var count := s.recoverCount + 1;
    var s1 := Spawn(s, Recording(count)).(recoverCount := count);
    if c.hasTracker {
      QuietSpawn(c, s, s1, Recording(count));
    } else {
      DecideAnnounces(c, s1, |s.tasks|, count, ok);
      SpawnedOnly(s, Recording(count), count, DecideRecover(c, s1, |s.tasks|, count, ok));
    }
  }

  lemma ThrottleAnnounces(c: Config, s: State, hasResumeAt: bool, ok: bool)
    requires s.status == Running && NothingReported(s, |s.tasks|)
    ensures var u, t := FireThrottle(c, s, hasResumeAt, ok), |s.tasks|; Only(s, u, t) && t < |u.tasks| && TaskAnnounced(c, u, t, u.tasks[t])
  {
    hide CallStop;
    var s1, t := Spawn(s, Done), |s.tasks|;
    if !hasResumeAt || !c.hasRecoverContext || !ok {
      CallStopAnnounces(c, s1, t, ApiErrorFailed);
      SpawnedOnly(s, Done, s.recoverCount, CallStop(c, s1, t, ApiErrorFailed));
    } else {
      CallStopAnnounces(c, Emit(s1, ThrottleFlagWritten), t, RateLimited);
      FlaggedOnly(s1, CallStop(c, Emit(s1, ThrottleFlagWritten), t, RateLimited), t);
      SpawnedOnly(s, Done, s.recoverCount, CallStop(c, Emit(s1, ThrottleFlagWritten), t, RateLimited));
    }
  }

  lemma FlaggedOnly(s: State, u: State, t: nat)
    requires Only(Emit(s, ThrottleFlagWritten), u, t)
    ensures Only(s, u, t)
  {
  }

  lemma EndAnnounces(c: Config, s: State, step: Step)
    requires NothingReported(s, |s.tasks|) && (step.TimerFires? || step.ProcessClosed? || step.ProcessError? || step.Cancel?)
    ensures var u, t := Next(c, s, step), |s.tasks|; Only(s, u, t) && t < |u.tasks| && TaskAnnounced(c, u, t, u.tasks[t])
  {
    hide EndNow;
    var s1, t := Spawn(s, Done), |s.tasks|;
    if s.status == Running && (step.TimerFires? || step.ProcessError?) {
      var status := if step.TimerFires? then TimedOut else Failed;
      EndNowAnnounces(c, s1, t, status);
      SpawnedOnly(s, Done, s.recoverCount, EndNow(c, s1, t, status));
    }
  }

  lemma StepAnnounces(c: Config, s: State, step: Step)
    requires Inv(c, s) && Announced(c, s)
    ensures Announced(c, Next(c, s, step))
  {
    hide Inv, Announced, Only, TaskAnnounced, CallStop, FireRecover, FireThrottle, EndNow, ResumeOf, CleanupBody;
    var t, u := |s.tasks|, Next(c, s, step);
    NewIsUnreported(c, s);
    match step
    case SelfStop(signal) =>
      CallStopAnnounces(c, Spawn(s, Done), t, signal);
      SpawnedOnly(s, Done, s.recoverCount, u);
      OthersStayAnnounced(c, s, u, t);
    case DetectorFires(error, ok) =>
      FireAnnounces(c, s, error, ok);
      if u != s { OthersStayAnnounced(c, s, u, t); }
    case ResumeTask(task, ok) =>
      if task < |s.tasks| {
        ResumeAnnounces(c, s, task, ok);
        OthersStayAnnounced(c, s, u, task);
      }
    case ResumeCleanup(ok) =>
      BodyAnnounces(c, s, ok);
      OthersStayAnnounced(c, s, u, t);
    case _ =>
      EndAnnounces(c, s, step);
      OthersStayAnnounced(c, s, u, t);
  }

  lemma BodyAnnounces(c: Config, s: State, ok: bool)
    requires NothingReported(s, |s.tasks|)
    ensures var u := CleanupBody(c, s, ok); Only(s, u, |s.tasks|) && |u.tasks| == |s.tasks| && NotifyPut(|s.tasks|) !in u.log
  {
  }

  /** In every run, each handler that gave the job its status and has returned has called back, has reported the status
      exactly when a PUT is configured for it, and has the teardown under way. */
  lemma {:induction false} EndingsAreAnnounced(c: Config, run: seq<Step>)
    ensures Announced(c, Exec(c, run))
  {
    if run != [] {
      EndingsAreAnnounced(c, run[..|run| - 1]);
      RunKeepsInv(c, run[..|run| - 1]);
      StepAnnounces(c, Exec(c, run[..|run| - 1]), run[|run| - 1]);
    }
  }

  // ----- How far a stop goes -----

  /** The steps a stop still needs: its tree ends, the teardown drains and finalizes, and the stop goes on three times. */
  function Finish(t: nat, drained: bool, finalized: bool): seq<Step> {
    [ResumeTask(t, true), ResumeCleanup(drained), ResumeCleanup(finalized), ResumeTask(t, true), ResumeTask(t, true), ResumeTask(t, true)]
  }

  predicate SameTask(s: State, u: State, t: nat) {
    t < |s.tasks| && t < |u.tasks| && u.tasks[t] == s.tasks[t].(pc := u.tasks[t].pc)
  }

  lemma TeardownSettles(c: Config, s: State, ok: bool, again: bool)
    requires !s.cleanup.NotStarted?
    ensures var u := Next(c, Next(c, s, ResumeCleanup(ok)), ResumeCleanup(again)); u.cleanup.Settled? && u.tasks == s.tasks
  {
  }

  lemma StopStarts(c: Config, s: State, t: nat)
    requires t < |s.tasks| && s.tasks[t].pc.TreeStopping?
    ensures var u := Next(c, s, ResumeTask(t, true));
      SameTask(s, u, t) && u.tasks[t].pc.AwaitingCleanup? && !u.cleanup.NotStarted?
      && u.detectorLive == (s.detectorLive && !s.cleanup.NotStarted?)
  {
  }

  lemma StopGoesOn(c: Config, s: State, t: nat)
    requires t < |s.tasks| && s.tasks[t].pc.AwaitingCleanup? && s.cleanup.Settled?
    ensures var u := Next(c, s, ResumeTask(t, true));
      && SameTask(s, u, t) && s.log <= u.log && (u.tasks[t].pc.Putting? || (u.tasks[t].pc.StopReturned? && OnComplete(t) in u.log))
  {
    var u := Next(c, s, ResumeTask(t, true));
    if u.tasks[t].pc.StopReturned? { assert u.log[|u.log| - 1] == OnComplete(t); }
  }

  lemma PutGoesOn(c: Config, s: State, t: nat)
    requires t < |s.tasks| && s.tasks[t].pc.Putting?
    ensures var u := Next(c, s, ResumeTask(t, true));
      SameTask(s, u, t) && s.log <= u.log && u.tasks[t].pc.StopReturned? && OnComplete(t) in u.log
  {
    var u := Next(c, s, ResumeTask(t, true));
    assert u.log[|u.log| - 1] == OnComplete(t);
  }

  lemma ReturnGoesOn(c: Config, s: State, t: nat)
    requires t < |s.tasks| && s.tasks[t].pc.StopReturned?
    ensures var u := Next(c, s, ResumeTask(t, true));
      && SameTask(s, u, t) && s.log <= u.log && u.tasks[t].pc.Done?
      && (s.tasks[t].resume.Some? ==> ResumePosted(t, s.tasks[t].resume.value) in u.log)
  {
    var u := Next(c, s, ResumeTask(t, true));
    if s.tasks[t].resume.Some? { assert u.log[|u.log| - 1] == ResumePosted(t, s.tasks[t].resume.value); }
  }

  lemma DoneStays(c: Config, s: State, t: nat)
    requires t < |s.tasks| && s.tasks[t].pc.Done?
    ensures Next(c, s, ResumeTask(t, true)) == s
  {
  }

  lemma StopEnds(c: Config, s: State, t: nat)
    requires t < |s.tasks| && s.tasks[t].pc.AwaitingCleanup? && s.cleanup.Settled?
    ensures var u := Next(c, Next(c, Next(c, s, ResumeTask(t, true)), ResumeTask(t, true)), ResumeTask(t, true));
      && SameTask(s, u, t) && u.tasks[t].pc.Done? && OnComplete(t) in u.log
      && (s.tasks[t].resume.Some? ==> ResumePosted(t, s.tasks[t].resume.value) in u.log)
  {
    hide Next;
    var s1 := Next(c, s, ResumeTask(t, true));
    var s2 := Next(c, s1, ResumeTask(t, true));
    StopGoesOn(c, s, t);
    if s1.tasks[t].pc.Putting? {
      PutGoesOn(c, s1, t);
      ReturnGoesOn(c, s2, t);
    } else {
      ReturnGoesOn(c, s1, t);
      DoneStays(c, s2, t);
    }
  }

  /** After any run in which a stop awaits its process tree's end, those steps bring it to its end: the callback is made,
      and the planned resume of the chain, if there is one, is posted under its number. */
  lemma StopReachesItsEnd(c: Config, run: seq<Step>, t: nat, drained: bool, finalized: bool)
    requires t < |Exec(c, run).tasks| && Exec(c, run).tasks[t].pc.TreeStopping?
    ensures var s, u := Exec(c, run), Exec(c, run + Finish(t, drained, finalized));
      && SameTask(s, u, t) && u.tasks[t].pc.Done? && u.cleanup.Settled? && OnComplete(t) in u.log
      && (s.tasks[t].resume.Some? ==> ResumePosted(t, s.tasks[t].resume.value) in u.log)
  {
    hide Exec, Next, SameTask;
    var s, goOn := Exec(c, run), ResumeTask(t, true);
    var r1 := run + [goOn];
    var r2 := r1 + [ResumeCleanup(drained)];
    var r3 := r2 + [ResumeCleanup(finalized)];
    var r4 := r3 + [goOn];
    var r5 := r4 + [goOn];
    Extend(c, run, goOn);
    Extend(c, r1, ResumeCleanup(drained));
    Extend(c, r2, ResumeCleanup(finalized));
    Extend(c, r3, goOn);
    Extend(c, r4, goOn);
    Extend(c, r5, goOn);
    assert run + Finish(t, drained, finalized) == r5 + [goOn];
    StopStarts(c, s, t);
    TeardownSettles(c, Exec(c, r1), drained, finalized);
    SameTaskStays(s, Exec(c, r1), Exec(c, r3), t);
    StopEnds(c, Exec(c, r3), t);
    SameTaskStays(s, Exec(c, r3), Exec(c, r5 + [goOn]), t);
    TeardownStays(c, Exec(c, r3), t);
  }

  lemma SameTaskStays(s: State, u: State, w: State, t: nat)
    requires SameTask(s, u, t) && (w.tasks == u.tasks || SameTask(u, w, t))
    ensures SameTask(s, w, t) && w.tasks[t].resume == s.tasks[t].resume && (w.tasks == u.tasks ==> w.tasks[t].pc == u.tasks[t].pc)
  {
  }

  lemma TeardownStays(c: Config, s: State, t: nat)
    requires s.cleanup.Settled?
    ensures Next(c, Next(c, Next(c, s, ResumeTask(t, true)), ResumeTask(t, true)), ResumeTask(t, true)).cleanup == s.cleanup
  {
    OneStays(c, s, t);
    OneStays(c, Next(c, s, ResumeTask(t, true)), t);
    OneStays(c, Next(c, Next(c, s, ResumeTask(t, true)), ResumeTask(t, true)), t);
    hide Next;
  }

  lemma OneStays(c: Config, s: State, t: nat)
    requires s.cleanup.Settled?
    ensures Next(c, s, ResumeTask(t, true)).cleanup == s.cleanup
  {
  }
}
