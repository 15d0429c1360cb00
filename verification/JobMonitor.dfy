/** The job as the handlers update it in place. Each method runs one segment, field by field, and is
    proved to take exactly the step that Lifecycle.Next describes. */
module JobMonitor {
  import opened Values
  import opened Lifecycle

  class AgentJob {
    const config: Config
    var status: Status
    var recoverCount: nat
    var detectorLive: bool
    var cleanupPromise: CleanupPhase
    var tasks: seq<Task>
    var writers: seq<nat>
    var log: seq<Event>

    /** The job as a value. */
    function View(): State
      reads this
    {
      State(status, recoverCount, detectorLive, cleanupPromise, tasks, writers, log)
    }

    constructor (config: Config)
      ensures this.config == config && View() == Init(config)
    {
      this.config := config;
      status, recoverCount, detectorLive := Running, config.initialRecoverCount, true;
      cleanupPromise, tasks, writers, log := NotStarted, [], [], [];
    }

    method Observe(e: Event)
      modifies this`log
      ensures View() == Emit(old(View()), e)
    {
      log := log + [e];
    }

    method Begin(cancel: bool, pc: Pc) returns (t: nat)
      modifies this`tasks
      ensures t == old(|tasks|)
      ensures View() == old(View()).(tasks := old(tasks) + [Task(cancel, pc, None, None)])
    {
      t := |tasks|;
      tasks := tasks + [Task(cancel, pc, None, None)];
    }

    method Await(t: nat, pc: Pc)
      requires t < |tasks|
      modifies this`tasks
      ensures View() == SetPc(old(View()), t, pc)
    {
      tasks := tasks[t := tasks[t].(pc := pc)];
    }

    method SetStatus(t: nat, ended: Status)
      requires t < |tasks|
      modifies this`status, this`tasks, this`writers, this`log
      ensures View() == WriteTerminal(old(View()), t, ended)
    {
      status := ended;
      tasks := tasks[t := tasks[t].(wrote := Some(ended))];
      writers := writers + [t];
      Observe(TerminalWrite(t, ended));
    }

    /** The cached teardown: the detector stops first, then the body starts; later calls share the promise. */
    method Cleanup()
      modifies this`cleanupPromise, this`detectorLive, this`log
      ensures View() == StartCleanup(old(View()))
    {
      if !cleanupPromise.NotStarted? { return; }
      detectorLive := false;
      cleanupPromise := DrainWait;
      Observe(CleanupStarted);
    }

    method EndSynchronously(t: nat, ended: Status)
      requires t < |tasks|
      modifies this
      ensures View() == EndNow(config, old(View()), t, ended)
    {
      SetStatus(t, ended);
      Cleanup();
      if config.hasStatusUrl && config.hasApiToken { Observe(NotifyPut(t)); }
      Observe(OnComplete(t));
    }

    method JobStop(t: nat, signal: CompleteStatus)
      requires t < |tasks|
      modifies this
      ensures View() == CallStop(config, old(View()), t, signal)
    {
      if status != Running || !config.hasHandle {
        Await(t, StopReturned);
      } else {
        match signal {
          case SignalCompleted => SetStatus(t, Completed);
          case ApiErrorRecover => SetStatus(t, Recovered);
          case RateLimited => SetStatus(t, Throttled);
          case _ => SetStatus(t, Failed);
        }
        Await(t, TreeStopping);
      }
    }

    method CancelJob()
      modifies this
      ensures View() == Next(config, old(View()), Cancel)
    {
      if status != Running || !config.hasHandle {
        var _ := Begin(false, Done);
      } else {
        var t := Begin(true, TreeStopping);
        SetStatus(t, Canceled);
      }
    }

    method OnClose(exitZero: bool)
      modifies this
      ensures View() == Next(config, old(View()), ProcessClosed(exitZero))
    {
      if status == Running {
        var _ := Begin(false, DrainingAtClose(exitZero));
      } else {
        var _ := Begin(false, Done);
        Cleanup();
      }
    }

    method OnError()
      modifies this
      ensures View() == Next(config, old(View()), ProcessError)
    {
      var running := status == Running;
      var t := Begin(false, Done);
      if running { EndSynchronously(t, Failed); } else { Cleanup(); }
    }

    method OnTimer()
      modifies this
      ensures View() == Next(config, old(View()), TimerFires)
    {
      var running := status == Running;
      var t := Begin(false, Done);
      if running { EndSynchronously(t, TimedOut); }
    }

    /** The recover handler once the row has its count. */
    method AfterRecording(t: nat, count: nat, flagOk: bool)
      requires t < |tasks|
      modifies this
      ensures View() == DecideRecover(config, old(View()), t, count, flagOk)
    {
      if count > MAX_RECOVERS {
        if config.hasRecoverContext {
          if !flagOk { Await(t, Done); return; }
          Observe(HaltFlagWritten);
        }
        JobStop(t, ApiErrorFailed);
        return;
      }
      if !config.hasRecoverContext {
        JobStop(t, ApiErrorFailed);
        return;
      }
      tasks := tasks[t := tasks[t].(resume := Some(count))];
      JobStop(t, ApiErrorRecover);
    }

    method HandleApiErrorRecover(ok: bool)
      modifies this
      ensures View() == FireRecover(config, old(View()), ok)
    {
      if status != Running {
        var _ := Begin(false, Done);
        return;
      }
      recoverCount := recoverCount + 1;
      var t := Begin(false, Recording(recoverCount));
      if !config.hasTracker { AfterRecording(t, recoverCount, ok); }
    }

    method HandleRateLimitThrottle(hasResumeAt: bool, flagOk: bool)
      modifies this
      ensures View() == FireThrottle(config, old(View()), hasResumeAt, flagOk)
    {
      var running := status == Running;
      var t := Begin(false, Done);
      if !running { return; }
      if !hasResumeAt || !config.hasRecoverContext || !flagOk {
        JobStop(t, ApiErrorFailed);
      } else {
        Observe(ThrottleFlagWritten);
        JobStop(t, RateLimited);
      }
    }

    /** The un-cached teardown body, from one await to the next. */
    method RunCleanup(drained: bool)
      modifies this
      ensures View() == CleanupBody(config, old(View()), drained)
    {
      match cleanupPromise
      case DrainWait =>
        if !drained {
          cleanupPromise := Settled(None);
          Observe(DrainFailed);
        } else if config.hasTracker && status != Running {
          cleanupPromise := FinalizeWait(Project(status));
          Observe(Finalized(Project(status)));
        } else {
          cleanupPromise := Settled(None);
        }
      case FinalizeWait(row) => cleanupPromise := Settled(Some(row));
      case _ =>
    }

    /** A handler goes on after its await. */
    method Resume(t: nat, ok: bool)
      requires t < |tasks|
      modifies this
      ensures View() == ResumeOf(config, old(View()), t, ok)
    {
      var task := tasks[t];
      match task.pc
      case Recording(count) => if ok { AfterRecording(t, count, ok); } else { Await(t, Done); }
      case TreeStopping =>
        Cleanup();
        Await(t, AwaitingCleanup);
      case AwaitingCleanup =>
        if cleanupPromise.Settled? {
          if config.hasStatusUrl && (task.cancel || config.hasApiToken) {
            Observe(StopPut(t));
            Await(t, Putting);
          } else {
            Observe(OnComplete(t));
            Await(t, StopReturned);
          }
        }
      case Putting =>
        Observe(OnComplete(t));
        Await(t, StopReturned);
      case StopReturned =>
        if task.resume.Some? { Observe(ResumePosted(t, task.resume.value)); }
        Await(t, Done);
      case DrainingAtClose(exitZero) =>
        Await(t, Done);
        EndSynchronously(t, if exitZero then Completed else Failed);
      case Done =>
    }

    /** Whatever happens next. */
    method Perform(step: Step)
      modifies this
      ensures View() == Next(config, old(View()), step)
    {
      match step
      case SelfStop(signal) =>
        var t := Begin(false, Done);
        JobStop(t, signal);
      case Cancel => CancelJob();
      case TimerFires => OnTimer();
      case ProcessClosed(exitZero) => OnClose(exitZero);
      case ProcessError => OnError();
      case DetectorFires(error, ok) =>
        if detectorLive {
          match error
          case StreamIdle => HandleApiErrorRecover(ok);
          case RateLimit(hasResumeAt) => HandleRateLimitThrottle(hasResumeAt, ok);
        }
      case ResumeTask(task, ok) => if task < |tasks| { Resume(task, ok); }
      case ResumeCleanup(ok) => RunCleanup(ok);
    }
  }
}
