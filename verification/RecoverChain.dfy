/** Which statuses the API-error handlers may give a job, what a resumed job inherits, and how long a chain gets. */
module RecoverChain {
  import opened Values
  import opened Lifecycle
  import opened LifecycleInvariants
  import opened LifecycleTheorems

  // ----- Who wrote the job's status -----

  /** The last writer's status is the job's, and its write is in the log. */
  ghost predicate Provenance(c: Config, s: State) {
    && (s.writers != [] ==>
          var w := s.writers[|s.writers| - 1];
          w < |s.tasks| && s.tasks[w].wrote == Some(s.status) && TerminalWrite(w, s.status) in s.log)
    && (s.writers == [] ==> s.status == Running)
    && (forall t: nat | t < |s.tasks| :: TaskProvenance(s.tasks[t]))
    && (ThrottleFlagWritten in s.log ==> c.hasRecoverContext)
  }

  predicate TaskProvenance(task: Task) {
    task.wrote.Some? ==> !task.pc.Recording? && !task.pc.DrainingAtClose?
  }

  lemma SpawnProvenance(c: Config, s: State, task: Task)
    requires Provenance(c, s) && task.wrote.None?
    ensures Provenance(c, s.(tasks := s.tasks + [task]))
  {
  }

  lemma WriteProvenance(c: Config, s: State, t: nat, status: Status)
    requires Provenance(c, s) && t < |s.tasks|
    requires !s.tasks[t].pc.Recording? && !s.tasks[t].pc.DrainingAtClose?
    ensures Provenance(c, WriteTerminal(s, t, status))
  {
  }

  lemma SetPcProvenance(c: Config, s: State, t: nat, pc: Pc)
    requires Provenance(c, s) && t < |s.tasks| && !pc.Recording? && !pc.DrainingAtClose?
    ensures Provenance(c, SetPc(s, t, pc))
  {
  }

  lemma EmitProvenance(c: Config, s: State, e: Event)
    requires Provenance(c, s) && (e.ThrottleFlagWritten? ==> c.hasRecoverContext)
    ensures Provenance(c, Emit(s, e)) && Provenance(c, StartCleanup(s))
  {
  }

  lemma CallStopProvenance(c: Config, s: State, t: nat, signal: CompleteStatus)
    requires Provenance(c, s) && t < |s.tasks|
    ensures Provenance(c, CallStop(c, s, t, signal))
  {
    SetPcProvenance(c, s, t, StopReturned);
    if s.status == Running && c.hasHandle {
      SetPcProvenance(c, s, t, TreeStopping);
      WriteProvenance(c, SetPc(s, t, TreeStopping), t, MapComplete(signal));
      assert WriteTerminal(SetPc(s, t, TreeStopping), t, MapComplete(signal))
          == SetPc(WriteTerminal(s, t, MapComplete(signal)), t, TreeStopping);
    }
  }

  lemma EndNowProvenance(c: Config, s: State, t: nat, status: Status)
    requires Provenance(c, s) && t < |s.tasks| && s.tasks[t].pc.Done?
    ensures Provenance(c, EndNow(c, s, t, status))
  {
    WriteProvenance(c, s, t, status);
    var s0 := WriteTerminal(s, t, status);
    EmitProvenance(c, s0, CleanupStarted);
    EmitProvenance(c, StartCleanup(s0), NotifyPut(t));
  }

  lemma DecideProvenance(c: Config, s: State, t: nat, count: nat, flagOk: bool)
    requires Provenance(c, s) && t < |s.tasks|
    ensures Provenance(c, DecideRecover(c, s, t, count, flagOk))
  {
    if count <= MAX_RECOVERS && c.hasRecoverContext {
      CallStopProvenance(c, s.(tasks := s.tasks[t := s.tasks[t].(resume := Some(count))]), t, ApiErrorRecover);
    } else if count > MAX_RECOVERS && c.hasRecoverContext {
      SetPcProvenance(c, s, t, Done);
      CallStopProvenance(c, Emit(s, HaltFlagWritten), t, ApiErrorFailed);
    } else {
      CallStopProvenance(c, s, t, ApiErrorFailed);
    }
  }

  lemma StopSegmentProvenance(c: Config, s: State, t: nat, ok: bool)
    requires Provenance(c, s) && t < |s.tasks|
    requires !s.tasks[t].pc.Recording? && !s.tasks[t].pc.DrainingAtClose?
    ensures Provenance(c, ResumeOf(c, s, t, ok))
  {
    hide Provenance, SetPc;
    match s.tasks[t].pc
    case TreeStopping =>
      EmitProvenance(c, s, CleanupStarted);
      SetPcProvenance(c, StartCleanup(s), t, AwaitingCleanup);
    case AwaitingCleanup =>
      EmitProvenance(c, s, StopPut(t));
      SetPcProvenance(c, Emit(s, StopPut(t)), t, Putting);
      EmitProvenance(c, s, OnComplete(t));
      SetPcProvenance(c, Emit(s, OnComplete(t)), t, StopReturned);
    case Putting =>
      EmitProvenance(c, s, OnComplete(t));
      SetPcProvenance(c, Emit(s, OnComplete(t)), t, StopReturned);
    case StopReturned =>
      SetPcProvenance(c, s, t, Done);
      if s.tasks[t].resume.Some? {
        var e := ResumePosted(t, s.tasks[t].resume.value);
        EmitProvenance(c, s, e);
        SetPcProvenance(c, Emit(s, e), t, Done);
      }
    case _ =>
  }

  lemma ResumeProvenance(c: Config, s: State, t: nat, ok: bool)
    requires Provenance(c, s) && t < |s.tasks|
    ensures Provenance(c, ResumeOf(c, s, t, ok))
  {
    match s.tasks[t].pc
    case Recording(count) =>
      if ok { DecideProvenance(c, s, t, count, ok); } else { SetPcProvenance(c, s, t, Done); }
    case DrainingAtClose(exitZero) =>
      SetPcProvenance(c, s, t, Done);
      EndNowProvenance(c, SetPc(s, t, Done), t, if exitZero then Completed else Failed);
    case _ => StopSegmentProvenance(c, s, t, ok);
  }

  lemma FireProvenance(c: Config, s: State, error: ApiError, ok: bool)
    requires Provenance(c, s)
    ensures Provenance(c, Next(c, s, DetectorFires(error, ok)))
  {
    if error.RateLimit? {
      ThrottleProvenance(c, s, error.hasResumeAt, ok);
    } else if s.status != Running {
      SpawnProvenance(c, s, Task(false, Done, None, None));
    } else {
      RecoverProvenance(c, s, ok);
    }
  }

  lemma RecoverProvenance(c: Config, s: State, ok: bool)
    requires Provenance(c, s) && s.status == Running
    ensures Provenance(c, FireRecover(c, s, ok))
  {
    var count := s.recoverCount + 1;
    SpawnProvenance(c, s.(recoverCount := count), Task(false, Recording(count), None, None));
    DecideProvenance(c, Spawn(s, Recording(count)).(recoverCount := count), |s.tasks|, count, ok);
  }

  lemma ThrottleProvenance(c: Config, s: State, hasResumeAt: bool, ok: bool)
    requires Provenance(c, s)
    ensures Provenance(c, FireThrottle(c, s, hasResumeAt, ok))
  {
    var s1 := Spawn(s, Done);
    CallStopProvenance(c, s1, |s.tasks|, ApiErrorFailed);
    if c.hasRecoverContext { CallStopProvenance(c, Emit(s1, ThrottleFlagWritten), |s.tasks|, RateLimited); }
  }

  lemma ProcessProvenance(c: Config, s: State, step: Step)
    requires Provenance(c, s) && (step.TimerFires? || step.ProcessClosed? || step.ProcessError?)
    ensures Provenance(c, Next(c, s, step))
  {
    var t, s1 := |s.tasks|, Spawn(s, Done);
    SpawnProvenance(c, s, Task(false, Done, None, None));
    if step.ProcessClosed? || s.status != Running { EmitProvenance(c, s1, CleanupStarted); }
    else { EndNowProvenance(c, s1, t, if step.TimerFires? then TimedOut else Failed); }
  }

  lemma StepProvenance(c: Config, s: State, step: Step)
    requires Provenance(c, s)
    ensures Provenance(c, Next(c, s, step))
  {
    match step
    case SelfStop(signal) =>
      SpawnProvenance(c, s, Task(false, Done, None, None));
      CallStopProvenance(c, Spawn(s, Done), |s.tasks|, signal);
    case Cancel => CancelProvenance(c, s);
    case ResumeTask(task, ok) => if task < |s.tasks| { ResumeProvenance(c, s, task, ok); }
    case DetectorFires(error, ok) => FireProvenance(c, s, error, ok);
    case ResumeCleanup(ok) => BodyProvenance(c, s, ok);
    case _ => ProcessProvenance(c, s, step);
  }

  lemma CancelProvenance(c: Config, s: State)
    requires Provenance(c, s)
    ensures Provenance(c, Next(c, s, Cancel))
  {
    var task := Task(true, TreeStopping, None, None);
    SpawnProvenance(c, s, Task(false, Done, None, None));
    SpawnProvenance(c, s, task);
    WriteProvenance(c, s.(tasks := s.tasks + [task]), |s.tasks|, Canceled);
  }

  lemma BodyProvenance(c: Config, s: State, ok: bool)
    requires Provenance(c, s)
    ensures Provenance(c, CleanupBody(c, s, ok))
  {
  }

  lemma {:induction false} RunProvenance(c: Config, run: seq<Step>)
    ensures Provenance(c, Exec(c, run))
  {
    if run != [] {
      RunProvenance(c, run[..|run| - 1]);
      StepProvenance(c, Exec(c, run[..|run| - 1]), run[|run| - 1]);
    }
  }

  // ----- Where `recovered` and `throttled` come from -----

  /** A self-stop, sent over the stop route, that finds the job running and ends it with this signal. */
  predicate StopsWith(c: Config, s: State, step: Step, signal: CompleteStatus) {
    step == SelfStop(signal) && s.status == Running && c.hasHandle
  }

  /** No step of the run stops the job from outside with this signal. */
  predicate NeverStoppedWith(c: Config, run: seq<Step>, signal: CompleteStatus) {
    run == [] ||
    (NeverStoppedWith(c, run[..|run| - 1], signal) && !StopsWith(c, Exec(c, run[..|run| - 1]), run[|run| - 1], signal))
  }

  /** A handler that made the job `recovered` has planned the resume that continues the chain. */
  predicate Earned(task: Task) {
    task.wrote == Some(Recovered) ==> task.resume.Some?
  }

  ghost predicate AllEarned(s: State) {
    forall t: nat | t < |s.tasks| :: Earned(s.tasks[t])
  }

  /** What a step does to the handlers that write `recovered`: earlier ones stay as they are, a new one has
      planned its resume unless the stop came from outside. */
  ghost predicate EarnsFrom(s: State, s': State, outside: bool) {
    && |s.tasks| <= |s'.tasks|
    && (forall t: nat | t < |s.tasks| && s.tasks[t].wrote.Some? ::
          s'.tasks[t].wrote == s.tasks[t].wrote && s'.tasks[t].resume == s.tasks[t].resume)
    && (forall t: nat | t < |s'.tasks| && s'.tasks[t].wrote == Some(Recovered) ::
          (t < |s.tasks| && s.tasks[t].wrote == Some(Recovered)) || (s'.tasks[t].resume.Some? <==> !outside))
    && (outside ==> |s.tasks| < |s'.tasks| && s'.tasks[|s.tasks|].wrote == Some(Recovered) && s'.tasks[|s.tasks|].resume.None?)
  }

  lemma DecideEarns(c: Config, s: State, t: nat, count: nat, flagOk: bool)
    requires t < |s.tasks| && s.tasks[t].wrote.None?
    ensures EarnsFrom(s, DecideRecover(c, s, t, count, flagOk), false)
  {
  }

  lemma StopEarns(c: Config, s: State, t: nat, ok: bool)
    requires t < |s.tasks| && !s.tasks[t].pc.Recording? && !s.tasks[t].pc.DrainingAtClose?
    ensures EarnsFrom(s, ResumeOf(c, s, t, ok), false)
  {
    var s' := ResumeOf(c, s, t, ok);
    assert s'.tasks == s.tasks || s'.tasks == s.tasks[t := s.tasks[t].(pc := s'.tasks[t].pc)];
  }

  lemma ResumeEarns(c: Config, s: State, t: nat, ok: bool)
    requires t < |s.tasks| && TaskOk(c, s, t, s.tasks[t])
    ensures EarnsFrom(s, ResumeOf(c, s, t, ok), false)
  {
    match s.tasks[t].pc
    case Recording(count) => if ok { DecideEarns(c, s, t, count, ok); }
    case DrainingAtClose(exitZero) =>
    case _ => StopEarns(c, s, t, ok);
  }

  lemma RecoverEarns(c: Config, s: State, ok: bool)
    ensures EarnsFrom(s, FireRecover(c, s, ok), false)
  {
    hide DecideRecover;
    if s.status == Running && !c.hasTracker {
      var count := s.recoverCount + 1;
      DecideEarns(c, Spawn(s, Recording(count)).(recoverCount := count), |s.tasks|, count, ok);
    }
  }

  lemma ThrottleEarns(c: Config, s: State, hasResumeAt: bool, ok: bool)
    ensures EarnsFrom(s, FireThrottle(c, s, hasResumeAt, ok), false)
  {
  }

  lemma FireEarns(c: Config, s: State, error: ApiError, ok: bool)
    ensures EarnsFrom(s, Next(c, s, DetectorFires(error, ok)), false)
  {
    hide FireRecover, FireThrottle;
    RecoverEarns(c, s, ok);
    if !error.StreamIdle? { ThrottleEarns(c, s, error.hasResumeAt, ok); }
  }

  lemma StepEarns(c: Config, s: State, step: Step)
    requires Inv(c, s)
    ensures EarnsFrom(s, Next(c, s, step), StopsWith(c, s, step, ApiErrorRecover))
  {
    match step
    case ResumeTask(task, ok) => if task < |s.tasks| { ResumeEarns(c, s, task, ok); }
    case DetectorFires(error, ok) => FireEarns(c, s, error, ok);
    case _ =>
  }

  lemma EarnedStep(s: State, s': State, outside: bool)
    requires EarnsFrom(s, s', outside)
    ensures AllEarned(s') <==> AllEarned(s) && !outside
  {
    if AllEarned(s') {
      forall t: nat | t < |s.tasks| ensures Earned(s.tasks[t]) {
        assert Earned(s'.tasks[t]);
      }
    }
  }

  /** Every `recovered` was earned by a planned resume exactly in the runs that are never stopped from outside
      with the recover signal. */
  lemma {:induction false} RecoveredEarnedIff(c: Config, run: seq<Step>)
    ensures AllEarned(Exec(c, run)) <==> NeverStoppedWith(c, run, ApiErrorRecover)
  {
    if run != [] {
      var before := Exec(c, run[..|run| - 1]);
      RecoveredEarnedIff(c, run[..|run| - 1]);
      RunKeepsInv(c, run[..|run| - 1]);
      StepEarns(c, before, run[|run| - 1]);
      EarnedStep(before, Exec(c, run), StopsWith(c, before, run[|run| - 1], ApiErrorRecover));
    }
  }

  predicate ThrottledWrite(e: Event) {
    e.TerminalWrite? && e.status == Throttled
  }

  /** Every `throttled` is written right after a throttle flag. */
  ghost predicate FlagsFirst(log: seq<Event>) {
    forall i | 0 <= i < |log| && ThrottledWrite(log[i]) :: i > 0 && log[i - 1] == ThrottleFlagWritten
  }

  /** A flag is followed at once by the write it was made for, when there is a handle to stop. */
  predicate NoFlagLast(c: Config, s: State) {
    c.hasHandle && s.log != [] ==> s.log[|s.log| - 1] != ThrottleFlagWritten
  }

  /** The log grew, and not by throttle flags or `throttled`. */
  predicate GrewPlainly(s: State, s': State) {
    s.log <= s'.log && forall i | |s.log| <= i < |s'.log| :: !ThrottledWrite(s'.log[i]) && s'.log[i] != ThrottleFlagWritten
  }

  lemma PlainGrowth(c: Config, s: State, s': State)
    requires GrewPlainly(s, s')
    ensures FlagsFirst(s'.log) <==> FlagsFirst(s.log)
    ensures NoFlagLast(c, s) ==> NoFlagLast(c, s')
  {
    assert forall i | 0 <= i < |s.log| :: s'.log[i] == s.log[i];
  }

  lemma CallStopGrowth(c: Config, s: State, t: nat, signal: CompleteStatus)
    requires t < |s.tasks| && !signal.RateLimited?
    ensures GrewPlainly(s, CallStop(c, s, t, signal))
  {
  }

  lemma DecideGrowth(c: Config, s: State, t: nat, count: nat, flagOk: bool)
    requires t < |s.tasks|
    ensures GrewPlainly(s, DecideRecover(c, s, t, count, flagOk))
  {
  }

  lemma EndNowGrowth(c: Config, s: State, t: nat, status: Status)
    requires t < |s.tasks| && status != Throttled
    ensures GrewPlainly(s, EndNow(c, s, t, status))
  {
  }

  lemma ResumeGrowth(c: Config, s: State, t: nat, ok: bool)
    requires t < |s.tasks|
    ensures GrewPlainly(s, ResumeOf(c, s, t, ok))
  {
    match s.tasks[t].pc
    case Recording(count) => if ok { DecideGrowth(c, s, t, count, ok); }
    case DrainingAtClose(exitZero) => EndNowGrowth(c, SetPc(s, t, Done), t, if exitZero then Completed else Failed);
    case _ =>
  }

  /** The throttle handler writes its flag and, with a handle, `throttled` right after it. */
  lemma ThrottleGrowth(c: Config, s: State, hasResumeAt: bool, flagOk: bool)
    requires NoFlagLast(c, s)
    ensures var s' := FireThrottle(c, s, hasResumeAt, flagOk);
      (FlagsFirst(s'.log) <==> FlagsFirst(s.log)) && NoFlagLast(c, s')
  {
    var s' := FireThrottle(c, s, hasResumeAt, flagOk);
    var s1 := Spawn(s, Done);
    if s.status != Running || !hasResumeAt || !c.hasRecoverContext || !flagOk {
      CallStopGrowth(c, s1, |s.tasks|, ApiErrorFailed);
      PlainGrowth(c, s, s');
    } else {
      assert forall i | 0 <= i < |s.log| :: s'.log[i] == s.log[i];
      assert s'.log == s.log + [ThrottleFlagWritten] + (if c.hasHandle then [TerminalWrite(|s.tasks|, Throttled)] else []);
    }
  }

  lemma StepGrowth(c: Config, s: State, step: Step)
    requires NoFlagLast(c, s)
    ensures NoFlagLast(c, Next(c, s, step))
    ensures FlagsFirst(Next(c, s, step).log) <==> FlagsFirst(s.log) && !StopsWith(c, s, step, RateLimited)
  {
    var s' := Next(c, s, step);
    if StopsWith(c, s, step, RateLimited) {
      var n := |s.log|;
      assert s'.log == s.log + [TerminalWrite(|s.tasks|, Throttled)];
      assert ThrottledWrite(s'.log[n]) && (n == 0 || s'.log[n - 1] == s.log[n - 1]);
    } else if step.DetectorFires? && s.detectorLive && step.error.RateLimit? {
      ThrottleGrowth(c, s, step.error.hasResumeAt, step.ok);
    } else {
      PlainStepGrowth(c, s, step);
      PlainGrowth(c, s, s');
    }
  }

  lemma PlainStepGrowth(c: Config, s: State, step: Step)
    requires !StopsWith(c, s, step, RateLimited) && !(step.DetectorFires? && s.detectorLive && step.error.RateLimit?)
    ensures GrewPlainly(s, Next(c, s, step))
  {
    match step
    case ResumeTask(task, ok) => if task < |s.tasks| { ResumeGrowth(c, s, task, ok); }
    case DetectorFires(error, ok) =>
      if s.detectorLive && s.status == Running {
        var count := s.recoverCount + 1;
        DecideGrowth(c, Spawn(s, Recording(count)).(recoverCount := count), |s.tasks|, count, ok);
      }
    case TimerFires => EndNowGrowth(c, Spawn(s, Done), |s.tasks|, TimedOut);
    case ProcessError => EndNowGrowth(c, Spawn(s, Done), |s.tasks|, Failed);
    case _ =>
  }

  /** Every `throttled` follows a flag exactly in the runs that are never stopped from outside with the
      rate-limit signal. */
  lemma {:induction false} ThrottledFlaggedIff(c: Config, run: seq<Step>)
    ensures FlagsFirst(Exec(c, run).log) <==> NeverStoppedWith(c, run, RateLimited)
    ensures NoFlagLast(c, Exec(c, run))
  {
    if run != [] {
      ThrottledFlaggedIff(c, run[..|run| - 1]);
      StepGrowth(c, Exec(c, run[..|run| - 1]), run[|run| - 1]);
    }
  }

  lemma RecoveredOrigin(c: Config, s: State)
    requires Inv(c, s) && Provenance(c, s) && s.status == Recovered && AllEarned(s)
    ensures c.hasRecoverContext
    ensures exists t: nat :: t < |s.tasks| && s.tasks[t].wrote == Some(Recovered) && s.tasks[t].resume.Some?
                             && c.initialRecoverCount < s.tasks[t].resume.value <= MAX_RECOVERS
  {
    var w := s.writers[|s.writers| - 1];
    assert TaskOk(c, s, w, s.tasks[w]) && Earned(s.tasks[w]);
  }

  lemma ThrottledOrigin(c: Config, s: State)
    requires Provenance(c, s) && s.status == Throttled && FlagsFirst(s.log)
    ensures c.hasRecoverContext && ThrottleFlagWritten in s.log
  {
    var w := s.writers[|s.writers| - 1];
    var i :| 0 <= i < |s.log| && s.log[i] == TerminalWrite(w, Throttled);
    assert ThrottledWrite(s.log[i]);
    assert s.log[i - 1] == ThrottleFlagWritten;
  }

  /** So a recovered job had a recover context and a count within the cap, and a throttled one wrote its flag,
      unless it was stopped from outside with the very signal. */
  lemma StatusProvenance(c: Config, run: seq<Step>)
    ensures var s := Exec(c, run);
      s.status == Recovered && NeverStoppedWith(c, run, ApiErrorRecover) ==>
        && c.hasRecoverContext
        && exists t: nat :: t < |s.tasks| && s.tasks[t].wrote == Some(Recovered) && s.tasks[t].resume.Some?
                            && c.initialRecoverCount < s.tasks[t].resume.value <= MAX_RECOVERS
    ensures var s := Exec(c, run);
      s.status == Throttled && NeverStoppedWith(c, run, RateLimited) ==> c.hasRecoverContext && ThrottleFlagWritten in s.log
  {
    hide Next, Inv, Provenance, AllEarned, FlagsFirst, NoFlagLast, StopsWith;
    var s := Exec(c, run);
    RunProvenance(c, run);
    RunKeepsInv(c, run);
    RecoveredEarnedIff(c, run);
    ThrottledFlaggedIff(c, run);
    if s.status == Recovered && AllEarned(s) { RecoveredOrigin(c, s); }
    if s.status == Throttled && FlagsFirst(s.log) { ThrottledOrigin(c, s); }
  }

  /** Otherwise: after any run that leaves a job with a handle running, whatever its context and count, a stop
      from outside makes it `recovered` with no resume planned, or `throttled` with no flag written for it. */
  lemma OutsideSignalsNeedNothing(c: Config, run: seq<Step>)
    requires c.hasHandle && Exec(c, run).status == Running
    ensures var before := Exec(c, run);
      var s := Exec(c, run + [SelfStop(ApiErrorRecover)]);
      && s.status == Recovered && s.writers == before.writers + [|before.tasks|]
      && |before.tasks| < |s.tasks| && s.tasks[|before.tasks|].resume.None?
    ensures var before := Exec(c, run);
      var s := Exec(c, run + [SelfStop(RateLimited)]);
      s.status == Throttled && s.log == before.log + [TerminalWrite(|before.tasks|, Throttled)] && NoFlagLast(c, before)
  {
    Extend(c, run, SelfStop(ApiErrorRecover));
    Extend(c, run, SelfStop(RateLimited));
    ThrottledFlaggedIff(c, run);
  }

  // ----- Which resumes are backed by a recovered job -----

  /** The step in which a recover handler decides to continue the chain and calls job.stop. */
  predicate PlansResume(c: Config, s: State, step: Step) {
    && c.hasRecoverContext
    && (step.DetectorFires? ==> step.error.StreamIdle? && s.detectorLive && s.status == Running && !c.hasTracker && s.recoverCount + 1 <= MAX_RECOVERS)
    && (step.ResumeTask? ==>
          && step.task < |s.tasks| && step.ok && s.tasks[step.task].pc.Recording?
          && s.tasks[step.task].pc.count <= MAX_RECOVERS)
    && (step.DetectorFires? || step.ResumeTask?)
  }

  /** Nothing ended the job while a recover handler was recording its count. */
  predicate RecoversUncontended(c: Config, run: seq<Step>) {
    run == [] ||
    (var before := Exec(c, run[..|run| - 1]);
     && RecoversUncontended(c, run[..|run| - 1])
     && (PlansResume(c, before, run[|run| - 1]) ==> before.status == Running && c.hasHandle))
  }

  predicate Backed(task: Task) { task.resume.Some? ==> task.wrote == Some(Recovered) }

  /** What a step from s does to the tasks that continue the chain: old ones stay, a planning step adds one. */
  ghost predicate ResumesFrom(c: Config, s: State, s': State, plans: bool, planner: nat) {
    && |s.tasks| <= |s'.tasks|
    && (forall t: nat | t < |s.tasks| && s.tasks[t].resume.Some? ::
          s'.tasks[t].resume.Some? && s'.tasks[t].wrote == s.tasks[t].wrote)
    && (forall t: nat | t < |s'.tasks| && s'.tasks[t].resume.Some? ::
          (t < |s.tasks| && s.tasks[t].resume.Some?) || (plans && t == planner))
    && (plans ==>
          && planner < |s'.tasks| && s'.tasks[planner].resume.Some?
          && (s'.tasks[planner].wrote == Some(Recovered) <==> s.status == Running && c.hasHandle))
  }

  lemma DecideResumes(c: Config, s: State, t: nat, count: nat, flagOk: bool)
    requires t < |s.tasks| && s.tasks[t].resume.None? && s.tasks[t].wrote.None?
    ensures ResumesFrom(c, s, DecideRecover(c, s, t, count, flagOk), count <= MAX_RECOVERS && c.hasRecoverContext, t)
  {
  }

  lemma CloseResumes(c: Config, s: State, t: nat, ok: bool)
    requires t < |s.tasks| && s.tasks[t].pc.DrainingAtClose? && s.tasks[t].resume.None?
    ensures ResumesFrom(c, s, ResumeOf(c, s, t, ok), false, t)
  {
  }

  lemma StopResumes(c: Config, s: State, t: nat, ok: bool)
    requires t < |s.tasks| && !s.tasks[t].pc.Recording? && !s.tasks[t].pc.DrainingAtClose?
    ensures ResumesFrom(c, s, ResumeOf(c, s, t, ok), false, t)
  {
    var s' := ResumeOf(c, s, t, ok);
    assert s'.tasks == s.tasks || s'.tasks == s.tasks[t := s.tasks[t].(pc := s'.tasks[t].pc)];
  }

  lemma ResumeResumes(c: Config, s: State, t: nat, ok: bool)
    requires t < |s.tasks| && TaskOk(c, s, t, s.tasks[t])
    ensures ResumesFrom(c, s, ResumeOf(c, s, t, ok), PlansResume(c, s, ResumeTask(t, ok)), t)
  {
    match s.tasks[t].pc
    case Recording(count) => if ok { DecideResumes(c, s, t, count, ok); }
    case DrainingAtClose(_) => CloseResumes(c, s, t, ok);
    case _ => StopResumes(c, s, t, ok);
  }

  lemma FireResumes(c: Config, s: State, error: ApiError, ok: bool)
    ensures ResumesFrom(c, s, Next(c, s, DetectorFires(error, ok)), PlansResume(c, s, DetectorFires(error, ok)), |s.tasks|)
  {
    if error.StreamIdle? && s.status == Running && s.detectorLive {
      var count := s.recoverCount + 1;
      DecideResumes(c, Spawn(s, Recording(count)).(recoverCount := count), |s.tasks|, count, ok);
    } else if s.detectorLive {
      ThrottleResumes(c, s, error.RateLimit? && error.hasResumeAt, ok);
    }
  }

  lemma ThrottleResumes(c: Config, s: State, hasResumeAt: bool, ok: bool)
    ensures ResumesFrom(c, s, FireThrottle(c, s, hasResumeAt, ok), false, |s.tasks|)
  {
  }

  function Planner(s: State, step: Step): nat { if step.ResumeTask? then step.task else |s.tasks| }

  lemma OtherResumes(c: Config, s: State, step: Step)
    requires !step.ResumeTask? && !step.DetectorFires?
    ensures ResumesFrom(c, s, Next(c, s, step), false, |s.tasks|)
  {
    hide FireRecover, FireThrottle, ResumeOf, Project;
  }

  lemma StepResumes(c: Config, s: State, step: Step)
    requires Inv(c, s)
    ensures ResumesFrom(c, s, Next(c, s, step), PlansResume(c, s, step), Planner(s, step))
  {
    match step
    case ResumeTask(task, ok) => if task < |s.tasks| { ResumeResumes(c, s, task, ok); }
    case DetectorFires(error, ok) => FireResumes(c, s, error, ok);
    case _ => OtherResumes(c, s, step); hide Inv, Next, ResumesFrom;
  }

  ghost predicate AllBacked(s: State) { forall t: nat | t < |s.tasks| :: Backed(s.tasks[t]) }

  lemma BackedStep(c: Config, s: State, s': State, plans: bool, planner: nat)
    requires ResumesFrom(c, s, s', plans, planner)
    ensures AllBacked(s') <==> AllBacked(s) && (plans ==> s.status == Running && c.hasHandle)
  {
    forall t: nat | t < |s.tasks| ensures Backed(s.tasks[t]) || !AllBacked(s') {
      if s.tasks[t].resume.Some? { assert s'.tasks[t].resume.Some?; }
    }
    if AllBacked(s') && plans { assert Backed(s'.tasks[planner]); }
  }

  /** Every handler that will post a resume has itself made the job `recovered`, exactly in the uncontended runs. */
  lemma {:induction false} ResumesBackedIffUncontended(c: Config, run: seq<Step>)
    ensures AllBacked(Exec(c, run)) <==> RecoversUncontended(c, run)
  {
    if run != [] {
      var before := Exec(c, run[..|run| - 1]);
      ResumesBackedIffUncontended(c, run[..|run| - 1]);
      RunKeepsInv(c, run[..|run| - 1]);
      StepResumes(c, before, run[|run| - 1]);
      BackedStep(c, before, Exec(c, run), PlansResume(c, before, run[|run| - 1]), Planner(before, run[|run| - 1]));
    }
  }

  /** A user cancels while the count is being recorded: the chain is resumed all the same. */
  lemma CanceledJobIsResumed()
    ensures var c := Config(true, true, false, false, true, 0);
      var s := Exec(c, [DetectorFires(StreamIdle, true), Cancel, ResumeTask(0, true), ResumeTask(0, true)]);
      s.status == Canceled && ResumePosted(0, 1) in s.log
  {
    var c := Config(true, true, false, false, true, 0);
    var run := [DetectorFires(StreamIdle, true), Cancel, ResumeTask(0, true), ResumeTask(0, true)];
    Extend(c, [], run[0]);
    assert run[..1] == [] + [run[0]] && run[..2] == run[..1] + [run[1]] && run[..3] == run[..2] + [run[2]];
    assert run == run[..3] + [run[3]];
    var recover, cancel := Task(false, Recording(1), None, None), Task(true, TreeStopping, None, Some(Canceled));
    assert Exec(c, run[..1]) == State(Running, 1, true, NotStarted, [recover], [], []);
    Extend(c, run[..1], run[1]);
    assert Exec(c, run[..2]) == State(Canceled, 1, true, NotStarted, [recover, cancel], [1], [TerminalWrite(1, Canceled)]);
    Extend(c, run[..2], run[2]);
    var late := Task(false, StopReturned, Some(1), None);
    assert Exec(c, run[..3]) == State(Canceled, 1, true, NotStarted, [late, cancel], [1], [TerminalWrite(1, Canceled)]);
    Extend(c, run[..3], run[3]);
  }

  lemma ResumeWriter(c: Config, s: State, t: nat, n: nat)
    requires Inv(c, s) && Provenance(c, s) && AllBacked(s) && |s.writers| <= 1 && ResumePosted(t, n) in s.log
    ensures s.writers == [t] && s.status == Recovered && s.tasks[t].resume == Some(n)
  {
    assert EventOk(s, ResumePosted(t, n)) && TaskOk(c, s, t, s.tasks[t]) && Backed(s.tasks[t]);
  }

  /** With guarded closes and uncontended recovers a resume is posted at most once, and only for a recovered job. */
  lemma OneResume(c: Config, run: seq<Step>)
    requires ClosesGuarded(c, run) && RecoversUncontended(c, run)
    ensures var s := Exec(c, run);
      && (forall t: nat, n: nat | ResumePosted(t, n) in s.log :: s.status == Recovered)
      && (forall t: nat, n: nat, u: nat, m: nat | ResumePosted(t, n) in s.log && ResumePosted(u, m) in s.log :: t == u && n == m)
  {
    RunKeepsInv(c, run);
    RunProvenance(c, run);
    WrittenOnceIffClosesGuarded(c, run);
    ResumesBackedIffUncontended(c, run);
    OneResumeIn(c, Exec(c, run));
  }

  lemma OneResumeIn(c: Config, s: State)
    requires Inv(c, s) && Provenance(c, s) && AllBacked(s) && |s.writers| <= 1
    ensures forall t: nat, n: nat | ResumePosted(t, n) in s.log :: s.status == Recovered
    ensures forall t: nat, n: nat, u: nat, m: nat | ResumePosted(t, n) in s.log && ResumePosted(u, m) in s.log :: t == u && n == m
  {
    forall t: nat, n: nat | ResumePosted(t, n) in s.log
      ensures s.writers == [t] && s.status == Recovered && s.tasks[t].resume == Some(n)
    {
      ResumeWriter(c, s, t, n);
    }
  }

  // ----- The chain -----

  /** A run of one job of the chain. */
  datatype Link = Link(config: Config, run: seq<Step>)

  ghost predicate PostsResume(link: Link, count: nat) {
    exists t: nat :: ResumePosted(t, count) in Exec(link.config, link.run).log
  }

  /** Each job after the first is spawned by a resume posted in the run before it, which sets its count. */
  ghost predicate Chain(links: seq<Link>) {
    forall k: nat | 0 < k < |links| :: PostsResume(links[k - 1], links[k].config.initialRecoverCount)
  }

  lemma PostedCount(link: Link, count: nat)
    requires PostsResume(link, count)
    ensures link.config.initialRecoverCount < count <= MAX_RECOVERS
  {
    RunKeepsInv(link.config, link.run);
    var s := Exec(link.config, link.run);
    var t: nat :| ResumePosted(t, count) in s.log;
    assert EventOk(s, ResumePosted(t, count)) && TaskOk(link.config, s, t, s.tasks[t]);
  }

  /** A sequence that climbs under a cap is no longer than the cap allows. */
  lemma {:induction false} Climb(counts: seq<nat>)
    requires counts != [] && forall k: nat | 0 < k < |counts| :: counts[k - 1] < counts[k] <= MAX_RECOVERS
    ensures forall i: nat, j: nat | i < j < |counts| :: counts[i] < counts[j] <= MAX_RECOVERS
    ensures counts[0] + |counts| - 1 <= counts[|counts| - 1]
  {
    if |counts| > 1 {
      var init := counts[..|counts| - 1];
      assert forall k: nat | k < |init| :: init[k] == counts[k];
      Climb(init);
      forall i: nat, j: nat | i < j < |counts| ensures counts[i] < counts[j] <= MAX_RECOVERS {
        if j == |counts| - 1 && i < j - 1 { assert init[i] < init[j - 1]; }
        if j < |counts| - 1 { assert init[i] < init[j]; }
      }
    }
  }

  function Inherited(links: seq<Link>): (counts: seq<nat>)
    ensures |counts| == |links| && forall k: nat | k < |links| :: counts[k] == links[k].config.initialRecoverCount
  {
    seq(|links|, k requires 0 <= k < |links| => links[k].config.initialRecoverCount)
  }

  /** Along any chain the inherited count strictly increases within the cap, so at most three links recover. */
  lemma ChainIsBounded(links: seq<Link>)
    requires Chain(links) && links != []
    ensures var counts := Inherited(links);
      && (forall i: nat, j: nat | i < j < |counts| :: counts[i] < counts[j] <= MAX_RECOVERS)
      && |links| - 1 <= MAX_RECOVERS
  {
    var counts := Inherited(links);
    forall k: nat | 0 < k < |links| ensures counts[k - 1] < counts[k] <= MAX_RECOVERS {
      PostedCount(links[k - 1], links[k].config.initialRecoverCount);
    }
    Climb(counts);
  }
}
