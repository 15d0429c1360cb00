/** The end of one dispatched job, from a successful spawn on: every observer that may end it, the
    teardown they share, and the recover chain that continues it.

    The runtime interleaves handlers only where they await, so a step runs one handler from one await to
    the next. A handler that has started is a `Task`; its program counter says which await it is at. */
module Lifecycle {
  import opened Values

  // ----- Vocabulary -----

  datatype Status = Running | Completed | Failed | TimedOut | Canceled | Recovered | Throttled

  /** What `job.stop` may be asked for. Agents are offered the first four; the worker's stop route accepts all. */
  datatype CompleteStatus =
    | SignalCompleted | SignalFailed | CriticalFailure | AgentBlocked
    | ApiErrorRecover | ApiErrorFailed | RateLimited

  datatype DispatchStatus = RowCompleted | RowCancelled | RowRecovered | RowThrottled | RowFailed

  const MAX_RECOVERS: nat := 3

  function MapComplete(signal: CompleteStatus): Status {
    match signal
    case SignalCompleted => Completed
    case ApiErrorRecover => Recovered
    case RateLimited => Throttled
    case _ => Failed
  }

  /** The dispatch row's status for an in-memory status. */
  function Project(status: Status): DispatchStatus {
    match status
    case Completed => RowCompleted
    case Canceled => RowCancelled
    case Recovered => RowRecovered
    case Throttled => RowThrottled
    case _ => RowFailed
  }

  /** How the spawn was configured. */
  datatype Config = Config(
    hasHandle: bool, hasTracker: bool, hasStatusUrl: bool, hasApiToken: bool,
    hasRecoverContext: bool, initialRecoverCount: nat)

  /** Everything the outside world, or another part of the worker, can observe. */
  datatype Event =
    | TerminalWrite(task: nat, status: Status)
    | CleanupStarted
    | DrainFailed
    | Finalized(row: DispatchStatus)
    | StopPut(task: nat)
    | NotifyPut(task: nat)
    | OnComplete(task: nat)
    | HaltFlagWritten
    | ThrottleFlagWritten
    | ResumePosted(task: nat, count: nat)

  datatype Pc =
    | Recording(count: nat)     // awaiting the row's recover count
    | TreeStopping              // in job.stop / cancelJob, awaiting the process tree's end
    | AwaitingCleanup           // ... awaiting the shared cleanup promise
    | Putting                   // ... awaiting the terminal status PUT
    | StopReturned              // a recover handler whose await of job.stop is over
    | DrainingAtClose(ok: bool) // the close handler, between its check and its write
    | Done

  /** `resume` is set once a recover handler has chosen to continue the chain after job.stop;
      `wrote` is the terminal status the handler assigned to the job, if it assigned one. */
  datatype Task = Task(cancel: bool, pc: Pc, resume: Option<nat>, wrote: Option<Status>)

  /** The cached cleanup promise, with the dispatch status it handed to the row, if it handed one. */
  datatype CleanupPhase = NotStarted | DrainWait | FinalizeWait(row: DispatchStatus) | Settled(done: Option<DispatchStatus>)

  /** `writers` lists the handlers that assigned a terminal status, in order. */
  datatype State = State(
    status: Status, recoverCount: nat, detectorLive: bool, cleanup: CleanupPhase,
    tasks: seq<Task>, writers: seq<nat>, log: seq<Event>)

  datatype ApiError = StreamIdle | RateLimit(hasResumeAt: bool)

  datatype Step =
    | SelfStop(signal: CompleteStatus)
    | Cancel
    | TimerFires                              // inactivity or max-runtime
    | ProcessClosed(exitZero: bool)
    | ProcessError
    | DetectorFires(error: ApiError, ok: bool) // ok: a flag write made at once succeeds
    | ResumeTask(task: nat, ok: bool)          // ok: the awaited call, or a flag write after it, succeeds
    | ResumeCleanup(ok: bool)                  // ok: the drain succeeded

  function Init(c: Config): State {
    State(Running, c.initialRecoverCount, true, NotStarted, [], [], [])
  }

  // ----- Segments -----

  function Emit(s: State, e: Event): State { s.(log := s.log + [e]) }

  function WriteTerminal(s: State, t: nat, status: Status): State
    requires t < |s.tasks|
  {
    Emit(s, TerminalWrite(t, status)).(
      status := status, tasks := s.tasks[t := s.tasks[t].(wrote := Some(status))], writers := s.writers + [t])
  }

  /** Appends the task of a handler that has just been invoked. */
  function Spawn(s: State, pc: Pc): State { s.(tasks := s.tasks + [Task(false, pc, None, None)]) }

  function SetPc(s: State, t: nat, pc: Pc): State
    requires t < |s.tasks|
  {
    s.(tasks := s.tasks[t := s.tasks[t].(pc := pc)])
  }

  /** The cached `cleanup()`: the first call stops the detector and starts the body. */
  function StartCleanup(s: State): State {
    if s.cleanup.NotStarted?
    then Emit(s, CleanupStarted).(cleanup := DrainWait, detectorLive := false)
    else s
  }

  /** Synchronous terminal transitions: status, cleanup, PUT when configured, completion callback. */
  function EndNow(c: Config, s: State, t: nat, status: Status): State
    requires t < |s.tasks|
  {
    var s1 := StartCleanup(WriteTerminal(s, t, status));
    var s2 := if c.hasStatusUrl && c.hasApiToken then Emit(s1, NotifyPut(t)) else s1;
    Emit(s2, OnComplete(t))
  }

  /** `job.stop` up to its first await, called by task t. */
  function CallStop(c: Config, s: State, t: nat, signal: CompleteStatus): State
    requires t < |s.tasks|
  {
    if s.status != Running || !c.hasHandle then SetPc(s, t, StopReturned)
    else SetPc(WriteTerminal(s, t, MapComplete(signal)), t, TreeStopping)
  }

  /** The recover handler after its count is recorded: cap check, flag, stop. */
  function DecideRecover(c: Config, s: State, t: nat, count: nat, flagOk: bool): State
    requires t < |s.tasks|
  {
    if count > MAX_RECOVERS then
      if c.hasRecoverContext && !flagOk then SetPc(s, t, Done)
      else CallStop(c, if c.hasRecoverContext then Emit(s, HaltFlagWritten) else s, t, ApiErrorFailed)
    else if !c.hasRecoverContext then CallStop(c, s, t, ApiErrorFailed)
    else
      var planned := s.(tasks := s.tasks[t := s.tasks[t].(resume := Some(count))]);
      CallStop(c, planned, t, ApiErrorRecover)
  }

  function FireRecover(c: Config, s: State, ok: bool): State {
    var t := |s.tasks|;
    if s.status != Running then Spawn(s, Done)
    else
      var count := s.recoverCount + 1;
      var s1 := Spawn(s, Recording(count)).(recoverCount := count);
      if c.hasTracker then s1 else DecideRecover(c, s1, t, count, ok)
  }

  function FireThrottle(c: Config, s: State, hasResumeAt: bool, flagOk: bool): State {
    var t := |s.tasks|;
    var s1 := Spawn(s, Done);
    if s.status != Running then s1
    else if !hasResumeAt || !c.hasRecoverContext || !flagOk then CallStop(c, s1, t, ApiErrorFailed)
    else CallStop(c, Emit(s1, ThrottleFlagWritten), t, RateLimited)
  }

  function ResumeOf(c: Config, s: State, t: nat, ok: bool): State
    requires t < |s.tasks|
  {
    var task := s.tasks[t];
    match task.pc
    case Recording(count) => if ok then DecideRecover(c, s, t, count, ok) else SetPc(s, t, Done)
    case TreeStopping => SetPc(StartCleanup(s), t, AwaitingCleanup)
    case AwaitingCleanup =>
      if !s.cleanup.Settled? then s
      else if c.hasStatusUrl && (task.cancel || c.hasApiToken) then SetPc(Emit(s, StopPut(t)), t, Putting)
      else SetPc(Emit(s, OnComplete(t)), t, StopReturned)
    case Putting => SetPc(Emit(s, OnComplete(t)), t, StopReturned)
    case StopReturned =>
      if task.resume.Some? then SetPc(Emit(s, ResumePosted(t, task.resume.value)), t, Done)
      else SetPc(s, t, Done)
    case DrainingAtClose(exitZero) =>
      EndNow(c, SetPc(s, t, Done), t, if exitZero then Completed else Failed)
    case Done => s
  }

  function CleanupBody(c: Config, s: State, ok: bool): State {
    match s.cleanup
    case DrainWait =>
      if !ok then Emit(s, DrainFailed).(cleanup := Settled(None))
      else if c.hasTracker && s.status != Running
      then Emit(s, Finalized(Project(s.status))).(cleanup := FinalizeWait(Project(s.status)))
      else s.(cleanup := Settled(None))
    case FinalizeWait(row) => s.(cleanup := Settled(Some(row)))
    case _ => s
  }

  /** One step. A step that is not possible in s leaves s as it is. */
  function Next(c: Config, s: State, step: Step): State {
    var t := |s.tasks|;
    match step
    case SelfStop(signal) => CallStop(c, Spawn(s, Done), t, signal)
    case Cancel =>
      if s.status != Running || !c.hasHandle then Spawn(s, Done)
      else WriteTerminal(s.(tasks := s.tasks + [Task(true, TreeStopping, None, None)]), t, Canceled)
    case TimerFires =>
      var s1 := Spawn(s, Done);
      if s.status == Running then EndNow(c, s1, t, TimedOut) else s1
    case ProcessClosed(exitZero) =>
      if s.status == Running then Spawn(s, DrainingAtClose(exitZero))
      else StartCleanup(Spawn(s, Done))
    case ProcessError =>
      var s1 := Spawn(s, Done);
      if s.status == Running then EndNow(c, s1, t, Failed) else StartCleanup(s1)
    case DetectorFires(error, ok) =>
      if !s.detectorLive then s
      else if error.StreamIdle? then FireRecover(c, s, ok) else FireThrottle(c, s, error.hasResumeAt, ok)
    case ResumeTask(task, ok) => if task < |s.tasks| then ResumeOf(c, s, task, ok) else s
    case ResumeCleanup(ok) => CleanupBody(c, s, ok)
  }

  function Exec(c: Config, run: seq<Step>): State {
    if run == [] then Init(c) else Next(c, Exec(c, run[..|run| - 1]), run[|run| - 1])
  }
}
