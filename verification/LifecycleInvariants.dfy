/** What every step of a job's life keeps: the facts about handlers, cleanup and events, and their order. */
module LifecycleInvariants {
  import opened Values
  import opened Lifecycle

  // ----- What every run keeps -----

  predicate Wrote(s: State, t: nat) { t < |s.tasks| && s.tasks[t].wrote.Some? }

  /** Facts about single events, given the state reached. */
  predicate EventOk(s: State, e: Event) {
    match e
    case TerminalWrite(t, status) => s.status != Running && Wrote(s, t)
    case CleanupStarted => !s.cleanup.NotStarted?
    case DrainFailed => s.cleanup == Settled(None)
    case Finalized(row) => s.cleanup == FinalizeWait(row) || s.cleanup == Settled(Some(row))
    case StopPut(t) =>
      && s.cleanup.Settled? && Wrote(s, t)
      && (s.tasks[t].pc.Putting? || s.tasks[t].pc.StopReturned? || s.tasks[t].pc.Done?)
    case OnComplete(t) => Wrote(s, t) && (s.tasks[t].pc.StopReturned? || s.tasks[t].pc.Done?)
    case ResumePosted(t, count) => t < |s.tasks| && s.tasks[t].resume == Some(count) && s.tasks[t].pc.Done?
    case _ => true
  }

  predicate TaskOk(c: Config, s: State, t: nat, task: Task) {
    && (task.wrote.Some? ==> s.status != Running && task.wrote.value != Running && t in s.writers)
    && (task.pc.TreeStopping? || task.pc.AwaitingCleanup? || task.pc.Putting? ==> task.wrote.Some?)
    && (task.pc.AwaitingCleanup? ==> !s.cleanup.NotStarted?)
    && (task.pc.Putting? ==> s.cleanup.Settled?)
    && (task.pc.Recording? ==> c.initialRecoverCount < task.pc.count && task.resume.None? && task.wrote.None?)
    && (task.pc.DrainingAtClose? ==> task.resume.None? && task.wrote.None?)
    && (task.resume.Some? ==> c.hasRecoverContext && c.initialRecoverCount < task.resume.value <= MAX_RECOVERS)
  }

  predicate CleanupOk(c: Config, s: State) {
    && (!s.cleanup.NotStarted? ==> s.status != Running)
    && (s.cleanup.FinalizeWait? ==> Finalized(s.cleanup.row) in s.log)
    && (s.cleanup.Settled? && s.cleanup.done.Some? ==> Finalized(s.cleanup.done.value) in s.log)
    && (s.cleanup == Settled(None) && c.hasTracker ==> DrainFailed in s.log)
  }

  ghost predicate Inv(c: Config, s: State) {
    && c.initialRecoverCount <= s.recoverCount
    && CleanupOk(c, s)
    && (forall e | e in s.log :: EventOk(s, e))
    && (forall t: nat | t < |s.tasks| :: TaskOk(c, s, t, s.tasks[t]))
  }

  /** Nothing observable has come from task t after its first segment. */
  ghost predicate Silent(s: State, t: nat) {
    forall e | e in s.log :: e != OnComplete(t) && e != StopPut(t) && !(e.ResumePosted? && e.task == t)
  }

  lemma SpawnKeepsInv(c: Config, s: State, pc: Pc)
    requires Inv(c, s) && (pc.Done? || pc.DrainingAtClose? || (pc.Recording? && c.initialRecoverCount < pc.count))
    ensures var s' := Spawn(s, pc); Inv(c, s') && Silent(s', |s.tasks|)
  {
    forall e | e in s.log ensures EventOk(s, e) { }
  }

  lemma WriteKeepsInv(c: Config, s: State, t: nat, status: Status)
    requires Inv(c, s) && t < |s.tasks| && status != Running && s.tasks[t].pc.Done?
    ensures Inv(c, WriteTerminal(s, t, status))
  {
  }

  lemma CleanupKeepsInv(c: Config, s: State)
    requires Inv(c, s) && s.status != Running
    ensures Inv(c, StartCleanup(s))
  {
  }

  lemma CallStopKeepsInv(c: Config, s: State, t: nat, signal: CompleteStatus)
    requires Inv(c, s) && t < |s.tasks| && Silent(s, t)
    ensures Inv(c, CallStop(c, s, t, signal))
  {
  }

  lemma EndNowKeepsInv(c: Config, s: State, t: nat, status: Status)
    requires Inv(c, s) && t < |s.tasks| && status != Running && s.tasks[t].pc.Done?
    ensures Inv(c, EndNow(c, s, t, status))
  {
    WriteKeepsInv(c, s, t, status);
    CleanupKeepsInv(c, WriteTerminal(s, t, status));
  }

  lemma PlanKeepsInv(c: Config, s: State, t: nat, count: nat)
    requires Inv(c, s) && t < |s.tasks| && Silent(s, t) && s.tasks[t].pc.Recording?
    requires c.hasRecoverContext && c.initialRecoverCount < count <= MAX_RECOVERS
    ensures Inv(c, CallStop(c, s.(tasks := s.tasks[t := s.tasks[t].(resume := Some(count))]), t, ApiErrorRecover))
  {
  }

  lemma DecideKeepsInv(c: Config, s: State, t: nat, count: nat, flagOk: bool)
    requires Inv(c, s) && t < |s.tasks| && Silent(s, t) && s.tasks[t].pc == Recording(count)
    ensures Inv(c, DecideRecover(c, s, t, count, flagOk))
  {
    if count <= MAX_RECOVERS && c.hasRecoverContext {
      PlanKeepsInv(c, s, t, count);
    } else if count > MAX_RECOVERS && c.hasRecoverContext {
      if flagOk { CallStopKeepsInv(c, Emit(s, HaltFlagWritten), t, ApiErrorFailed); }
    } else {
      CallStopKeepsInv(c, s, t, ApiErrorFailed);
    }
  }

  lemma FireKeepsInv(c: Config, s: State, error: ApiError, ok: bool)
    requires Inv(c, s)
    ensures Inv(c, Next(c, s, DetectorFires(error, ok)))
  {
    hide Inv, FireRecover, FireThrottle;
    if error.StreamIdle? { RecoverKeepsInv(c, s, ok); } else { ThrottleKeepsInv(c, s, error.hasResumeAt, ok); }
  }

  lemma RecoverKeepsInv(c: Config, s: State, ok: bool)
    requires Inv(c, s)
    ensures Inv(c, FireRecover(c, s, ok))
  {
    hide DecideRecover;
    var count := s.recoverCount + 1;
    SpawnKeepsInv(c, s, Done);
    SpawnKeepsInv(c, s.(recoverCount := count), Recording(count));
    DecideKeepsInv(c, Spawn(s, Recording(count)).(recoverCount := count), |s.tasks|, count, ok);
  }

  lemma ThrottleKeepsInv(c: Config, s: State, hasResumeAt: bool, ok: bool)
    requires Inv(c, s)
    ensures Inv(c, FireThrottle(c, s, hasResumeAt, ok))
  {
    var s1 := Spawn(s, Done);
    SpawnKeepsInv(c, s, Done);
    CallStopKeepsInv(c, s1, |s.tasks|, ApiErrorFailed);
    CallStopKeepsInv(c, Emit(s1, ThrottleFlagWritten), |s.tasks|, RateLimited);
  }

  lemma EmitKeepsInv(c: Config, s: State, e: Event)
    requires Inv(c, s) && EventOk(s, e)
    ensures Inv(c, Emit(s, e))
  {
  }

  /** The segments of a stop after its cleanup move to a later await. */
  lemma AdvanceKeepsInv(c: Config, s: State, t: nat, pc: Pc)
    requires Inv(c, s) && t < |s.tasks| && Later(s.tasks[t].pc, pc)
    requires pc.Putting? ==> s.cleanup.Settled? && s.tasks[t].wrote.Some?
    ensures Inv(c, SetPc(s, t, pc))
  {
  }

  predicate Later(pc: Pc, next: Pc) {
    match pc
    case AwaitingCleanup => next.Putting? || next.StopReturned?
    case Putting => next.StopReturned?
    case StopReturned => next.Done?
    case _ => false
  }

  lemma StopSegmentKeepsInv(c: Config, s: State, t: nat, ok: bool)
    requires Inv(c, s) && t < |s.tasks|
    requires s.tasks[t].pc.AwaitingCleanup? || s.tasks[t].pc.Putting? || s.tasks[t].pc.StopReturned?
    ensures Inv(c, ResumeOf(c, s, t, ok))
  {
    var task := s.tasks[t];
    if task.pc.StopReturned? {
      AdvanceKeepsInv(c, s, t, Done);
      if task.resume.Some? { EmitKeepsInv(c, SetPc(s, t, Done), ResumePosted(t, task.resume.value)); }
    } else if task.pc.AwaitingCleanup? && s.cleanup.Settled? && c.hasStatusUrl && (task.cancel || c.hasApiToken) {
      AdvanceKeepsInv(c, s, t, Putting);
      EmitKeepsInv(c, SetPc(s, t, Putting), StopPut(t));
    } else {
      AdvanceKeepsInv(c, s, t, StopReturned);
      EmitKeepsInv(c, SetPc(s, t, StopReturned), OnComplete(t));
    }
  }

  lemma TreeStoppedKeepsInv(c: Config, s: State, t: nat, ok: bool)
    requires Inv(c, s) && t < |s.tasks| && s.tasks[t].pc.TreeStopping?
    ensures Inv(c, ResumeOf(c, s, t, ok))
  {
    CleanupKeepsInv(c, s);
  }

  lemma QuietTaskIsSilent(c: Config, s: State, t: nat)
    requires Inv(c, s) && t < |s.tasks| && (s.tasks[t].pc.Recording? || s.tasks[t].pc.DrainingAtClose?)
    ensures Silent(s, t)
    ensures Inv(c, SetPc(s, t, Done))
  {
    forall e | e in s.log ensures EventOk(s, e) { }
  }

  lemma ResumeKeepsInv(c: Config, s: State, t: nat, ok: bool)
    requires Inv(c, s) && t < |s.tasks|
    ensures Inv(c, ResumeOf(c, s, t, ok))
  {
    match s.tasks[t].pc
    case Recording(count) => QuietTaskIsSilent(c, s, t); DecideKeepsInv(c, s, t, count, ok);
    case DrainingAtClose(exitZero) =>
      QuietTaskIsSilent(c, s, t);
      EndNowKeepsInv(c, SetPc(s, t, Done), t, if exitZero then Completed else Failed);
    case TreeStopping => TreeStoppedKeepsInv(c, s, t, ok);
    case Done =>
    case _ => StopSegmentKeepsInv(c, s, t, ok);
  }

  lemma CancelKeepsInv(c: Config, s: State)
    requires Inv(c, s)
    ensures Inv(c, Next(c, s, Cancel))
  {
    SpawnKeepsInv(c, s, Done);
    forall e | e in s.log ensures EventOk(s, e) { }
  }

  lemma ProcessEndKeepsInv(c: Config, s: State, step: Step)
    requires Inv(c, s) && (step.ProcessClosed? || step.ProcessError? || step.TimerFires?)
    ensures Inv(c, Next(c, s, step))
  {
    var s1 := Spawn(s, Done);
    SpawnKeepsInv(c, s, Done);
    if s.status == Running {
      if step.ProcessClosed? { SpawnKeepsInv(c, s, DrainingAtClose(step.exitZero)); }
      else { EndNowKeepsInv(c, s1, |s.tasks|, if step.TimerFires? then TimedOut else Failed); }
    } else {
      CleanupKeepsInv(c, s1);
    }
  }

  lemma StepKeepsInv(c: Config, s: State, step: Step)
    requires Inv(c, s)
    ensures Inv(c, Next(c, s, step))
  {
    match step
    case SelfStop(signal) =>
      SpawnKeepsInv(c, s, Done);
      CallStopKeepsInv(c, Spawn(s, Done), |s.tasks|, signal);
    case Cancel => CancelKeepsInv(c, s);
    case DetectorFires(error, ok) => FireKeepsInv(c, s, error, ok);
    case ResumeTask(task, ok) => if task < |s.tasks| { ResumeKeepsInv(c, s, task, ok); }
    case ResumeCleanup(ok) =>
    case _ => ProcessEndKeepsInv(c, s, step);
  }

  lemma {:induction false} RunKeepsInv(c: Config, run: seq<Step>)
    ensures Inv(c, Exec(c, run))
  {
    if run != [] {
      RunKeepsInv(c, run[..|run| - 1]);
      StepKeepsInv(c, Exec(c, run[..|run| - 1]), run[|run| - 1]);
    }
  }

  /** Two events no run may both contain, in either order. */
  predicate Repeats(e: Event, f: Event) {
    || (e.CleanupStarted? && f.CleanupStarted?)
    || (e.Finalized? && f.Finalized?)
    || (e.OnComplete? && e == f)
    || (e.StopPut? && e == f)
    || (e.ResumePosted? && f.ResumePosted? && e.task == f.task)
  }

  /** Two events that never come in this order. */
  predicate OutOfOrder(e: Event, f: Event) {
    || (e.StopPut? && (f.Finalized? || f.CleanupStarted?))
    || (e.Finalized? && f.CleanupStarted?)
    || (e.OnComplete? && f.TerminalWrite? && e.task == f.task)
  }

  ghost predicate Orderly(log: seq<Event>) {
    forall i, j :: 0 <= i < j < |log| ==> !Repeats(log[i], log[j]) && !OutOfOrder(log[i], log[j])
  }

  ghost predicate Fits(log: seq<Event>, e: Event) {
    forall f | f in log :: !Repeats(f, e) && !OutOfOrder(f, e)
  }

  lemma EmitKeepsOrder(s: State, e: Event)
    requires Orderly(s.log) && Fits(s.log, e)
    ensures Orderly(Emit(s, e).log)
  {
    var log := Emit(s, e).log;
    forall i, j | 0 <= i < j < |log| ensures !Repeats(log[i], log[j]) && !OutOfOrder(log[i], log[j]) {
      assert log[i] == s.log[i] && s.log[i] in s.log;
    }
  }

  lemma StartCleanupKeepsOrder(s: State)
    requires Orderly(s.log)
    requires s.cleanup.NotStarted? ==> Fits(s.log, CleanupStarted)
    ensures Orderly(StartCleanup(s).log)
  {
    if s.cleanup.NotStarted? { EmitKeepsOrder(s, CleanupStarted); }
  }

  lemma CallStopKeepsOrder(c: Config, s: State, t: nat, signal: CompleteStatus)
    requires t < |s.tasks| && Orderly(s.log) && OnComplete(t) !in s.log
    ensures Orderly(CallStop(c, s, t, signal).log)
  {
    EmitKeepsOrder(s, TerminalWrite(t, MapComplete(signal)));
  }

  lemma EndNowKeepsOrder(c: Config, s: State, t: nat, status: Status)
    requires t < |s.tasks| && Orderly(s.log) && OnComplete(t) !in s.log
    requires s.cleanup.NotStarted? ==> Fits(s.log, CleanupStarted)
    ensures Orderly(EndNow(c, s, t, status).log)
  {
    EmitKeepsOrder(s, TerminalWrite(t, status));
    var s0 := WriteTerminal(s, t, status);
    StartCleanupKeepsOrder(s0);
    var s1 := StartCleanup(s0);
    EmitKeepsOrder(s1, NotifyPut(t));
    var s2 := if c.hasStatusUrl && c.hasApiToken then Emit(s1, NotifyPut(t)) else s1;
    EmitKeepsOrder(s2, OnComplete(t));
  }

  lemma DecideKeepsOrder(c: Config, s: State, t: nat, count: nat, flagOk: bool)
    requires t < |s.tasks| && Orderly(s.log) && OnComplete(t) !in s.log
    ensures Orderly(DecideRecover(c, s, t, count, flagOk).log)
  {
    EmitKeepsOrder(s, HaltFlagWritten);
    CallStopKeepsOrder(c, Emit(s, HaltFlagWritten), t, ApiErrorFailed);
    CallStopKeepsOrder(c, s, t, ApiErrorFailed);
    CallStopKeepsOrder(c, s.(tasks := s.tasks[t := s.tasks[t].(resume := Some(count))]), t, ApiErrorRecover);
  }

  lemma FireKeepsOrder(c: Config, s: State, error: ApiError, ok: bool)
    requires Inv(c, s) && Orderly(s.log)
    ensures Orderly(Next(c, s, DetectorFires(error, ok)).log)
  {
    forall f | f in s.log ensures EventOk(s, f) { }
    var t, count := |s.tasks|, s.recoverCount + 1;
    var s1 := Spawn(s, Done);
    var s2 := Spawn(s, Recording(count)).(recoverCount := count);
    if error.StreamIdle? {
      DecideKeepsOrder(c, s2, t, count, ok);
    } else {
      CallStopKeepsOrder(c, s1, t, ApiErrorFailed);
      EmitKeepsOrder(s1, ThrottleFlagWritten);
      CallStopKeepsOrder(c, Emit(s1, ThrottleFlagWritten), t, RateLimited);
    }
    hide DecideRecover, CallStop, Orderly, EventOk;
  }

  lemma StepKeepsOrder(c: Config, s: State, step: Step)
    requires Inv(c, s) && Orderly(s.log)
    ensures Orderly(Next(c, s, step).log)
  {
    forall f | f in s.log ensures EventOk(s, f) { }
    var t := |s.tasks|;
    var s1 := Spawn(s, Done);
    match step
    case SelfStop(signal) => CallStopKeepsOrder(c, s1, t, signal);
    case Cancel => EmitKeepsOrder(s.(tasks := s.tasks + [Task(true, TreeStopping, None, None)]), TerminalWrite(t, Canceled));
    case TimerFires => EndNowKeepsOrder(c, s1, t, TimedOut);
    case ProcessClosed(exitZero) => StartCleanupKeepsOrder(s1);
    case ProcessError => EndNowKeepsOrder(c, s1, t, Failed); StartCleanupKeepsOrder(s1);
    case DetectorFires(error, ok) => FireKeepsOrder(c, s, error, ok);
    case ResumeTask(task, ok) => if task < |s.tasks| { ResumeKeepsOrder(c, s, task, ok); }
    case ResumeCleanup(ok) =>
      EmitKeepsOrder(s, DrainFailed);
      if s.cleanup.DrainWait? { EmitKeepsOrder(s, Finalized(Project(s.status))); }
  }

  lemma ResumeKeepsOrder(c: Config, s: State, t: nat, ok: bool)
    requires Inv(c, s) && Orderly(s.log) && t < |s.tasks|
    ensures Orderly(ResumeOf(c, s, t, ok).log)
  {
    forall f | f in s.log ensures EventOk(s, f) { }
    var task := s.tasks[t];
    match s.tasks[t].pc
    case Recording(count) => DecideKeepsOrder(c, s, t, count, ok);
    case TreeStopping => StartCleanupKeepsOrder(s);
    case AwaitingCleanup =>
      if s.cleanup.Settled? { EmitKeepsOrder(s, StopPut(t)); EmitKeepsOrder(s, OnComplete(t)); }
    case Putting => EmitKeepsOrder(s, OnComplete(t));
    case StopReturned =>
      if s.tasks[t].resume.Some? { EmitKeepsOrder(s, ResumePosted(t, s.tasks[t].resume.value)); }
    case DrainingAtClose(exitZero) =>
      EndNowKeepsOrder(c, SetPc(s, t, Done), t, if exitZero then Completed else Failed);
    case Done =>
  }

  lemma {:induction false} RunKeepsOrder(c: Config, run: seq<Step>)
    ensures Orderly(Exec(c, run).log)
  {
    if run != [] {
      RunKeepsOrder(c, run[..|run| - 1]);
      RunKeepsInv(c, run[..|run| - 1]);
      StepKeepsOrder(c, Exec(c, run[..|run| - 1]), run[|run| - 1]);
    }
  }
}
