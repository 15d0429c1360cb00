/** How often a job ends, and what its ending agrees with, over every interleaving of its observers. */
module LifecycleTheorems {
  import opened Values
  import opened Lifecycle
  import opened LifecycleInvariants

  // ----- One ending -----

  /** The close handler's write, taken after the drain it started when the job was running. */
  predicate CloseWrites(s: State, step: Step) {
    step.ResumeTask? && step.task < |s.tasks| && s.tasks[step.task].pc.DrainingAtClose?
  }

  /** Every close write of the run comes while the job is still running. The handler does not check this again. */
  predicate ClosesGuarded(c: Config, run: seq<Step>) {
    run == [] ||
    (var before := Exec(c, run[..|run| - 1]);
     ClosesGuarded(c, run[..|run| - 1]) && (CloseWrites(before, run[|run| - 1]) ==> before.status == Running))
  }

  /** At most one terminal write, and that of a job still running unless it is a close write. */
  predicate WritesFrom(s: State, s': State, closing: bool) {
    || (s'.writers == s.writers && s'.status == s.status && !closing)
    || (|s'.writers| == |s.writers| + 1 && s'.status != Running && (closing || s.status == Running))
  }

  lemma ResumeWrites(c: Config, s: State, t: nat, ok: bool)
    requires t < |s.tasks|
    ensures WritesFrom(s, ResumeOf(c, s, t, ok), s.tasks[t].pc.DrainingAtClose?)
  {
  }

  lemma FireWrites(c: Config, s: State, error: ApiError, ok: bool)
    ensures WritesFrom(s, Next(c, s, DetectorFires(error, ok)), false)
  {
  }

  lemma StepWrites(c: Config, s: State, step: Step)
    ensures WritesFrom(s, Next(c, s, step), CloseWrites(s, step))
  {
    match step
    case ResumeTask(task, ok) => if task < |s.tasks| { ResumeWrites(c, s, task, ok); }
    case DetectorFires(error, ok) => FireWrites(c, s, error, ok);
    case _ =>
  }

  lemma {:induction false} WrittenOnceIffClosesGuarded(c: Config, run: seq<Step>)
    ensures var s := Exec(c, run);
      && (s.writers == [] <==> s.status == Running)
      && (|s.writers| <= 1 <==> ClosesGuarded(c, run))
  {
    if run != [] {
      WrittenOnceIffClosesGuarded(c, run[..|run| - 1]);
      StepWrites(c, Exec(c, run[..|run| - 1]), run[|run| - 1]);
    }
  }

  /** The row handed to the dispatch table is the projection of the job's status. */
  predicate RowMatches(s: State) {
    && (s.cleanup.FinalizeWait? ==> s.cleanup.row == Project(s.status))
    && (s.cleanup.Settled? && s.cleanup.done.Some? ==> s.cleanup.done.value == Project(s.status))
  }

  lemma StepRow(c: Config, s: State, step: Step)
    requires Inv(c, s) && RowMatches(s)
    requires CloseWrites(s, step) ==> s.status == Running
    ensures RowMatches(Next(c, s, step))
  {
    StepWrites(c, s, step);
    match step
    case ResumeTask(task, ok) => if task < |s.tasks| { ResumeRow(c, s, task, ok); }
    case DetectorFires(error, ok) => FireRow(c, s, error, ok);
    case _ =>
  }

  lemma FireRow(c: Config, s: State, error: ApiError, ok: bool)
    ensures Next(c, s, DetectorFires(error, ok)).cleanup == s.cleanup
  {
  }

  lemma ResumeRow(c: Config, s: State, t: nat, ok: bool)
    requires t < |s.tasks|
    ensures var s' := ResumeOf(c, s, t, ok); s'.cleanup == s.cleanup || (s.cleanup.NotStarted? && s'.cleanup.DrainWait?)
  {
  }

  lemma PutAfterFinalize(c: Config, s: State, j: nat)
    requires Inv(c, s) && Orderly(s.log)
    requires j < |s.log| && s.log[j].StopPut? && c.hasTracker && DrainFailed !in s.log
    ensures exists i :: 0 <= i < j && s.log[i].Finalized?
  {
    assert EventOk(s, s.log[j]);
    assert Finalized(s.cleanup.done.value) in s.log;
    var i :| 0 <= i < |s.log| && s.log[i] == Finalized(s.cleanup.done.value);
    assert j < i ==> OutOfOrder(s.log[j], s.log[i]);
  }

  lemma TwoCallbacksTwoWriters(c: Config, s: State, i: nat, j: nat)
    requires Inv(c, s) && Orderly(s.log)
    requires i < j < |s.log| && s.log[i].OnComplete? && s.log[j].OnComplete?
    ensures |s.writers| >= 2
  {
    assert !Repeats(s.log[i], s.log[j]);
    assert EventOk(s, s.log[i]) && EventOk(s, s.log[j]);
    var t, u := s.log[i].task, s.log[j].task;
    assert TaskOk(c, s, t, s.tasks[t]) && TaskOk(c, s, u, s.tasks[u]);
  }

  /** Every run: one cleanup body, one finalize, one callback and one PUT per handler, PUT after finalize. */
  lemma EveryRun(c: Config, run: seq<Step>)
    ensures var s := Exec(c, run);
      && Orderly(s.log)
      && (s.cleanup.NotStarted? || s.status != Running)
      && (forall j: nat | j < |s.log| && s.log[j].StopPut? && c.hasTracker && DrainFailed !in s.log ::
            exists i :: 0 <= i < j && s.log[i].Finalized?)
  {
    RunKeepsInv(c, run);
    RunKeepsOrder(c, run);
    var s := Exec(c, run);
    forall j: nat | j < |s.log| && s.log[j].StopPut? && c.hasTracker && DrainFailed !in s.log
      ensures exists i :: 0 <= i < j && s.log[i].Finalized?
    {
      PutAfterFinalize(c, s, j);
    }
  }

  lemma {:induction false} EndedStatusStays(c: Config, run: seq<Step>, k: nat)
    requires ClosesGuarded(c, run) && k <= |run| && Exec(c, run[..k]).status != Running
    ensures Exec(c, run).status == Exec(c, run[..k]).status
  {
    if k == |run| {
      assert run[..k] == run;
    } else {
      var init := run[..|run| - 1];
      assert init[..k] == run[..k];
      EndedStatusStays(c, init, k);
      StepWrites(c, Exec(c, init), run[|run| - 1]);
    }
  }

  lemma {:induction false} RunRow(c: Config, run: seq<Step>)
    requires ClosesGuarded(c, run)
    ensures RowMatches(Exec(c, run))
  {
    if run != [] {
      RunKeepsInv(c, run[..|run| - 1]);
      RunRow(c, run[..|run| - 1]);
      StepRow(c, Exec(c, run[..|run| - 1]), run[|run| - 1]);
    }
  }

  lemma OneStatus(c: Config, run: seq<Step>)
    requires ClosesGuarded(c, run)
    ensures forall k: nat :: k <= |run| ==> Exec(c, run[..k]).status in {Running, Exec(c, run).status}
  {
    forall k: nat | k <= |run| ensures Exec(c, run[..k]).status in {Running, Exec(c, run).status} {
      if Exec(c, run[..k]).status != Running { EndedStatusStays(c, run, k); }
    }
  }

  lemma OneCallback(c: Config, run: seq<Step>)
    requires ClosesGuarded(c, run)
    ensures var log := Exec(c, run).log;
      forall i: nat, j: nat :: i < j < |log| && log[i].OnComplete? ==> !log[j].OnComplete?
  {
    WrittenOnceIffClosesGuarded(c, run);
    RunKeepsInv(c, run);
    RunKeepsOrder(c, run);
    var s := Exec(c, run);
    forall i: nat, j: nat | i < j < |s.log| && s.log[i].OnComplete? ensures !s.log[j].OnComplete? {
      if s.log[j].OnComplete? { TwoCallbacksTwoWriters(c, s, i, j); }
    }
  }

  lemma OneRow(c: Config, run: seq<Step>)
    requires ClosesGuarded(c, run)
    ensures forall row | Finalized(row) in Exec(c, run).log :: row == Project(Exec(c, run).status)
  {
    var s := Exec(c, run);
    RunKeepsInv(c, run);
    RunRow(c, run);
    forall row | Finalized(row) in s.log ensures row == Project(s.status) {
      assert EventOk(s, Finalized(row));
    }
  }

  /** When every close write is guarded the job ends once: one status for good, one callback, and a row that agrees. */
  lemma OneEnding(c: Config, run: seq<Step>)
    requires ClosesGuarded(c, run)
    ensures var s := Exec(c, run);
      && (forall k: nat :: k <= |run| ==> Exec(c, run[..k]).status in {Running, s.status})
      && (forall i: nat, j: nat :: i < j < |s.log| && s.log[i].OnComplete? ==> !s.log[j].OnComplete?)
      && (forall row | Finalized(row) in s.log :: row == Project(s.status))
  {
    OneStatus(c, run);
    OneCallback(c, run);
    OneRow(c, run);
  }

  lemma Extend(c: Config, run: seq<Step>, step: Step)
    ensures Exec(c, run + [step]) == Next(c, Exec(c, run), step)
  {
    assert (run + [step])[..|run|] == run;
  }

  const BARE := Config(true, false, false, false, false, 0)

  /** The race, state by state: the close handler has checked, the cancel has written, the close handler has
      written too, the cancel awaits the shared cleanup. */
  function LateCloseState(k: nat): State {
    var close, cancel := Task(false, DrainingAtClose(true), None, None), Task(true, TreeStopping, None, Some(Canceled));
    var closed := close.(pc := Done, wrote := Some(Completed));
    var log := [TerminalWrite(1, Canceled), TerminalWrite(0, Completed), CleanupStarted, OnComplete(0)];
    if k == 0 then Init(BARE)
    else if k == 1 then State(Running, 0, true, NotStarted, [close], [], [])
    else if k == 2 then State(Canceled, 0, true, NotStarted, [close, cancel], [1], [TerminalWrite(1, Canceled)])
    else if k == 3 then State(Completed, 0, false, DrainWait, [closed, cancel], [1, 0], log)
    else State(Completed, 0, false, DrainWait, [closed, cancel.(pc := AwaitingCleanup)], [1, 0], log)
  }

  lemma CloseThenCancel()
    ensures Next(BARE, LateCloseState(0), ProcessClosed(true)) == LateCloseState(1)
    ensures Next(BARE, LateCloseState(1), Cancel) == LateCloseState(2)
  {
  }

  lemma CloseWritesOver()
    ensures Next(BARE, LateCloseState(2), ResumeTask(0, true)) == LateCloseState(3)
    ensures Next(BARE, LateCloseState(3), ResumeTask(1, true)) == LateCloseState(4)
  {
  }

  lemma CancelAnnouncesAsWell()
    ensures var s := Next(BARE, Next(BARE, LateCloseState(4), ResumeCleanup(true)), ResumeTask(1, true));
      s.status == Completed && OnComplete(0) in s.log && OnComplete(1) in s.log
  {
  }

  /** Canceled while the close handler drains: the job ends canceled, then completed, and completes twice. */
  lemma LateCloseWriteEndsTheJobTwice()
    ensures var run := [ProcessClosed(true), Cancel, ResumeTask(0, true), ResumeTask(1, true), ResumeCleanup(true), ResumeTask(1, true)];
      && Exec(BARE, run[..2]).status == Canceled
      && Exec(BARE, run).status == Completed
      && OnComplete(0) in Exec(BARE, run).log && OnComplete(1) in Exec(BARE, run).log
  {
    var c := BARE;
    var run := [ProcessClosed(true), Cancel, ResumeTask(0, true), ResumeTask(1, true), ResumeCleanup(true), ResumeTask(1, true)];
    assert Exec(c, []) == LateCloseState(0) && LateCloseState(2).status == Canceled;
    hide Exec, Next, LateCloseState;
    CloseThenCancel();
    CloseWritesOver();
    CancelAnnouncesAsWell();
    assert run[..1] == [] + [run[0]] && run[..2] == run[..1] + [run[1]] && run[..3] == run[..2] + [run[2]];
    assert run[..4] == run[..3] + [run[3]] && run[..5] == run[..4] + [run[4]] && run == run[..5] + [run[5]];
    Extend(c, [], run[0]);
    Extend(c, run[..1], run[1]);
    Extend(c, run[..2], run[2]);
    Extend(c, run[..3], run[3]);
    Extend(c, run[..4], run[4]);
    Extend(c, run[..5], run[5]);
  }
}
