/** Who may poll when: timer ticks, `start`, `drain` and `stop` interleaved at every await. A task's program
    counter names the await it is suspended at. */
module PollGuard {
  import opened Values

  datatype Caller = Tick | Start | Drain

  datatype Pc =
    | Discovering
    | WaitingForGuard
    | AtStat(tail: nat)
    | AtOpen(tail: nat, size: nat)
    | AtRead(tail: nat, size: nat)
    | AtClose
    | AtRest
    | Done

  /** `target` is the file's length at the call. `assured`: since the call the watcher kept running with a
      parent file, and the task's own reads succeeded in full. `reader` is the tail its poll reads. */
  datatype Task = Task(caller: Caller, pc: Pc, target: nat, assured: bool, reader: Option<nat>)

  /** `offsets[k]` is the offset of the k-th tail adopted for the parent file; `parent` is the current one. */
  datatype State = State(
    running: bool,
    polling: bool,
    parent: Option<nat>,
    offsets: seq<nat>,
    fileLength: nat,
    tasks: seq<Task>)

  datatype Outcome = Full | Short(bytes: nat) | Failed

  datatype Step =
    | Grow(bytes: nat)
    | Call(caller: Caller)
    | Stop
    | FileFound(task: nat, fromEof: bool)
    | FileNotFound(task: nat)
    | Resume(task: nat, outcome: Outcome)

  const INITIAL := State(false, false, None, [], 0, [])

  function SetPc(s: State, t: nat, pc: Pc): State
    requires t < |s.tasks|
  {
    s.(tasks := s.tasks[t := s.tasks[t].(pc := pc)])
  }

  /** The synchronous head of `poll`: return at the guard, or take it. */
  function BeginPoll(s: State, t: nat): State
    requires t < |s.tasks|
  {
    if s.polling || s.parent.None? || !s.running then SetPc(s, t, Done)
    else s.(polling := true,
            tasks := s.tasks[t := s.tasks[t].(pc := AtStat(s.parent.value), reader := s.parent)])
  }

  /** `poll` returns: its finally clause clears the flag. */
  function EndPoll(s: State, t: nat): State
    requires t < |s.tasks|
  {
    SetPc(s, t, Done).(polling := false)
  }

  /** `drain` waits while a poll runs; the check that ends the wait and the poll's head are one segment. */
  function TryDrain(s: State, t: nat): State
    requires t < |s.tasks|
  {
    if s.polling then SetPc(s, t, WaitingForGuard) else BeginPoll(s, t)
  }

  function CallBy(s: State, caller: Caller): State {
    var t := |s.tasks|;
    var called := s.(tasks := s.tasks + [Task(caller, Done, s.fileLength, s.running && s.parent.Some?, None)]);
    match caller
    case Tick => BeginPoll(called, t)
    case Start => if s.running then called else SetPc(called, t, Discovering).(running := true)
    case Drain => if !s.running || s.parent.None? then called else TryDrain(called, t)
  }

  /** After the parent file's read: the watcher may have been stopped meanwhile. */
  function AfterFile(s: State, t: nat): State
    requires t < |s.tasks|
  {
    if s.running then SetPc(s, t, AtRest) else EndPoll(s, t)
  }

  function Unassure(s: State, t: nat): State
    requires t < |s.tasks|
  {
    s.(tasks := s.tasks[t := s.tasks[t].(assured := false)])
  }

  function ResumeAt(s: State, t: nat, outcome: Outcome): State
    requires t < |s.tasks|
  {
    match s.tasks[t].pc
    case WaitingForGuard => TryDrain(s, t)
    case AtStat(k) =>
      if outcome.Failed? then AfterFile(Unassure(s, t), t)
      else if k < |s.offsets| && s.running && s.fileLength > s.offsets[k] then SetPc(s, t, AtOpen(k, s.fileLength))
      else AfterFile(s, t)
    case AtOpen(k, size) =>
      if outcome.Failed? then AfterFile(Unassure(s, t), t)
      else if s.running then SetPc(s, t, AtRead(k, size))
      else SetPc(s, t, AtClose)
    case AtRead(k, size) =>
      if outcome.Failed? then SetPc(Unassure(s, t), t, AtClose)
      else if !s.running || k >= |s.offsets| || size < s.offsets[k] then SetPc(s, t, AtClose)
      else if outcome.Short? && s.offsets[k] + outcome.bytes < size then
        SetPc(Unassure(s, t), t, AtClose).(offsets := s.offsets[k := s.offsets[k] + outcome.bytes])
      else SetPc(s, t, AtClose).(offsets := s.offsets[k := size])
    case AtClose => AfterFile(s, t)
    case AtRest => EndPoll(s, t)
    case Discovering => s
    case Done => s
  }

  function Next(s: State, step: Step): State {
    match step
    case Grow(n) => s.(fileLength := s.fileLength + n)
    case Call(caller) => CallBy(s, caller)
    case Stop => s.(running := false, tasks := seq(|s.tasks|, i requires 0 <= i < |s.tasks| => s.tasks[i].(assured := false)))
    case FileFound(t, fromEof) =>
      if t < |s.tasks| && s.tasks[t].pc.Discovering? then
        BeginPoll(s.(parent := Some(|s.offsets|), offsets := s.offsets + [if fromEof then s.fileLength else 0]), t)
      else s
    case FileNotFound(t) =>
      if t < |s.tasks| && s.tasks[t].pc.Discovering? then
        (if s.running && s.parent.Some? then BeginPoll(s, t) else SetPc(s, t, Done)) else s
    case Resume(t, outcome) => if t < |s.tasks| then ResumeAt(s, t, outcome) else s
  }

  function Exec(s: State, steps: seq<Step>): State
    decreases |steps|
  {
    if steps == [] then s else Exec(Next(s, steps[0]), steps[1..])
  }

  /** A poll body is under way in this task. */
  predicate Live(task: Task) {
    task.pc.AtStat? || task.pc.AtOpen? || task.pc.AtRead? || task.pc.AtClose? || task.pc.AtRest?
  }

  ghost predicate OneBody(s: State) {
    && (forall i, j :: 0 <= i < j < |s.tasks| ==> !(Live(s.tasks[i]) && Live(s.tasks[j])))
    && (s.polling <==> exists i :: 0 <= i < |s.tasks| && Live(s.tasks[i]))
  }

  ghost predicate OffsetsInFile(s: State) {
    && (forall k :: 0 <= k < |s.offsets| ==> s.offsets[k] <= s.fileLength)
    && (s.parent.Some? ==> s.parent.value < |s.offsets|)
  }

  predicate Reached(offsets: seq<nat>, task: Task) {
    task.reader.Some? && task.reader.value < |offsets| && offsets[task.reader.value] >= task.target
  }

  /** What a task knows at each await. */
  predicate TaskOk(s: State, task: Task) {
    && task.target <= s.fileLength
    && (task.reader.Some? ==> task.reader.value < |s.offsets|)
    && (task.assured ==> s.running && s.parent.Some?)
    && (match task.pc
        case AtStat(k) => task.reader == Some(k)
        case AtOpen(k, size) => task.reader == Some(k) && s.offsets[k] < size && task.target <= size <= s.fileLength
        case AtRead(k, size) => task.reader == Some(k) && s.offsets[k] < size && task.target <= size <= s.fileLength
        case AtClose => task.assured ==> Reached(s.offsets, task)
        case AtRest => task.assured ==> Reached(s.offsets, task)
        case Done => task.caller.Drain? && task.assured ==> Reached(s.offsets, task)
        case Discovering => task.caller.Start? && task.reader.None?
        case WaitingForGuard => task.caller.Drain? && task.reader.None?)
  }

  ghost predicate Inv(s: State) {
    && OneBody(s)
    && OffsetsInFile(s)
    && (forall i :: 0 <= i < |s.tasks| ==> TaskOk(s, s.tasks[i]))
  }

  // ----- Every step keeps the invariant -----

  lemma InitialIsOk()
    ensures Inv(INITIAL)
  {
  }

  /** A step of one task that neither takes nor gives up the guard. */
  lemma MoveKeepsOneBody(s: State, u: State, t: nat)
    requires OneBody(s) && t < |s.tasks| && |u.tasks| == |s.tasks| && u.polling == s.polling
    requires forall i :: 0 <= i < |s.tasks| && i != t ==> Live(u.tasks[i]) == Live(s.tasks[i])
    requires Live(u.tasks[t]) == Live(s.tasks[t])
    ensures OneBody(u)
  {
    if s.polling {
      var i :| 0 <= i < |s.tasks| && Live(s.tasks[i]);
      assert Live(u.tasks[i]);
    }
  }

  lemma BeginPollKeepsInv(s: State, t: nat)
    requires OneBody(s) && OffsetsInFile(s) && t < |s.tasks| && !Live(s.tasks[t])
    requires forall i :: 0 <= i < |s.tasks| && i != t ==> TaskOk(s, s.tasks[i])
    requires s.tasks[t].target <= s.fileLength && (s.tasks[t].assured ==> s.running && s.parent.Some?)
    requires s.tasks[t].caller.Drain? ==> !s.polling || !s.tasks[t].assured
    requires s.tasks[t].reader.None?
    ensures Inv(BeginPoll(s, t))
  {
    var u := BeginPoll(s, t);
    if s.polling || s.parent.None? || !s.running {
      MoveKeepsOneBody(s, u, t);
    } else {
      assert Live(u.tasks[t]);
    }
    forall i | 0 <= i < |u.tasks| ensures TaskOk(u, u.tasks[i]) {
      if i != t { assert TaskOk(s, s.tasks[i]); }
    }
  }

  lemma EndPollKeepsInv(s: State, t: nat)
    requires Inv(s) && t < |s.tasks| && Live(s.tasks[t])
    requires s.tasks[t].assured ==> Reached(s.offsets, s.tasks[t])
    ensures Inv(EndPoll(s, t))
  {
    var u := EndPoll(s, t);
    forall i | 0 <= i < |u.tasks| ensures TaskOk(u, u.tasks[i]) && !Live(u.tasks[i]) {
      if i != t { assert TaskOk(s, s.tasks[i]); }
    }
  }

  /** The live body moves to its next await, having advanced its own tail at most. */
  lemma BodyStepKeepsInv(s: State, u: State, t: nat)
    requires Inv(s) && t < |s.tasks| && Live(s.tasks[t])
    requires u.running == s.running && u.polling == s.polling && u.parent == s.parent && u.fileLength == s.fileLength
    requires |u.tasks| == |s.tasks| && forall i :: 0 <= i < |s.tasks| && i != t ==> u.tasks[i] == s.tasks[i]
    requires |u.offsets| == |s.offsets|
    requires forall k :: 0 <= k < |s.offsets| ==> s.offsets[k] <= u.offsets[k] <= s.fileLength
    requires Live(u.tasks[t]) && TaskOk(u, u.tasks[t])
    ensures Inv(u)
  {
    MoveKeepsOneBody(s, u, t);
    forall i | 0 <= i < |u.tasks| ensures TaskOk(u, u.tasks[i]) {
      if i != t {
        assert TaskOk(s, s.tasks[i]) && !Live(s.tasks[i]);
      }
    }
  }

  lemma AfterFileKeepsInv(s: State, t: nat)
    requires Inv(s) && t < |s.tasks| && Live(s.tasks[t])
    requires s.tasks[t].assured ==> Reached(s.offsets, s.tasks[t])
    ensures Inv(AfterFile(s, t))
  {
    if s.running {
      BodyStepKeepsInv(s, AfterFile(s, t), t);
    } else {
      EndPollKeepsInv(s, t);
    }
  }

  lemma UnassureKeepsInv(s: State, t: nat)
    requires Inv(s) && t < |s.tasks| && Live(s.tasks[t])
    ensures Inv(Unassure(s, t)) && Live(Unassure(s, t).tasks[t])
  {
    assert TaskOk(s, s.tasks[t]);
    BodyStepKeepsInv(s, Unassure(s, t), t);
  }

  lemma StatKeepsInv(s: State, t: nat, outcome: Outcome)
    requires Inv(s) && t < |s.tasks| && s.tasks[t].pc.AtStat?
    ensures Inv(ResumeAt(s, t, outcome))
  {
    assert TaskOk(s, s.tasks[t]);
    var k := s.tasks[t].pc.tail;
    if outcome.Failed? {
      UnassureKeepsInv(s, t);
      AfterFileKeepsInv(Unassure(s, t), t);
    } else if k < |s.offsets| && s.running && s.fileLength > s.offsets[k] {
      BodyStepKeepsInv(s, ResumeAt(s, t, outcome), t);
    } else {
      AfterFileKeepsInv(s, t);
    }
  }

  lemma OpenKeepsInv(s: State, t: nat, outcome: Outcome)
    requires Inv(s) && t < |s.tasks| && s.tasks[t].pc.AtOpen?
    ensures Inv(ResumeAt(s, t, outcome))
  {
    assert TaskOk(s, s.tasks[t]);
    if outcome.Failed? {
      UnassureKeepsInv(s, t);
      AfterFileKeepsInv(Unassure(s, t), t);
    } else {
      BodyStepKeepsInv(s, ResumeAt(s, t, outcome), t);
    }
  }

  lemma ReadKeepsInv(s: State, t: nat, outcome: Outcome)
    requires Inv(s) && t < |s.tasks| && s.tasks[t].pc.AtRead?
    ensures Inv(ResumeAt(s, t, outcome))
  {
    assert TaskOk(s, s.tasks[t]);
    BodyStepKeepsInv(s, ResumeAt(s, t, outcome), t);
  }

  lemma TryDrainKeepsInv(s: State, t: nat)
    requires OneBody(s) && OffsetsInFile(s) && t < |s.tasks| && !Live(s.tasks[t])
    requires forall i :: 0 <= i < |s.tasks| && i != t ==> TaskOk(s, s.tasks[i])
    requires s.tasks[t].target <= s.fileLength && (s.tasks[t].assured ==> s.running && s.parent.Some?)
    requires s.tasks[t].caller.Drain? && s.tasks[t].reader.None?
    ensures Inv(TryDrain(s, t))
  {
    if s.polling {
      var u := TryDrain(s, t);
      MoveKeepsOneBody(s, u, t);
      forall i | 0 <= i < |u.tasks| ensures TaskOk(u, u.tasks[i]) {
        if i != t { assert TaskOk(s, s.tasks[i]); }
      }
    } else {
      BeginPollKeepsInv(s, t);
    }
  }

  lemma ResumeKeepsInv(s: State, t: nat, outcome: Outcome)
    requires Inv(s) && t < |s.tasks|
    ensures Inv(ResumeAt(s, t, outcome))
  {
    assert TaskOk(s, s.tasks[t]);
    match s.tasks[t].pc
    case WaitingForGuard => TryDrainKeepsInv(s, t);
    case AtStat(_) => StatKeepsInv(s, t, outcome);
    case AtOpen(_, _) => OpenKeepsInv(s, t, outcome);
    case AtRead(_, _) => ReadKeepsInv(s, t, outcome);
    case AtClose => AfterFileKeepsInv(s, t);
    case AtRest => EndPollKeepsInv(s, t);
    case Discovering =>
    case Done =>
  }

  /** Adding a task that has no body leaves the others as they were. */
  lemma AddTaskKeeps(s: State, task: Task)
    requires Inv(s) && !Live(task)
    ensures var u := s.(tasks := s.tasks + [task]);
            OneBody(u) && OffsetsInFile(u) && forall i :: 0 <= i < |s.tasks| ==> TaskOk(u, u.tasks[i])
  {
    var u := s.(tasks := s.tasks + [task]);
    if s.polling {
      var i :| 0 <= i < |s.tasks| && Live(s.tasks[i]);
      assert Live(u.tasks[i]);
    }
    forall i | 0 <= i < |s.tasks| ensures TaskOk(u, u.tasks[i]) {
      assert TaskOk(s, s.tasks[i]);
    }
  }

  lemma CallKeepsInv(s: State, caller: Caller)
    requires Inv(s)
    ensures Inv(CallBy(s, caller))
  {
    var t := |s.tasks|;
    var task := Task(caller, Done, s.fileLength, s.running && s.parent.Some?, None);
    var called := s.(tasks := s.tasks + [task]);
    AddTaskKeeps(s, task);
    match caller
    case Tick => BeginPollKeepsInv(called, t);
    case Start =>
      if !s.running {
        var u := SetPc(called, t, Discovering).(running := true);
        MoveKeepsOneBody(called, u, t);
        forall i | 0 <= i < |u.tasks| ensures TaskOk(u, u.tasks[i]) {
          if i != t { assert TaskOk(called, called.tasks[i]); }
        }
      }
    case Drain =>
      if s.running && s.parent.Some? { TryDrainKeepsInv(called, t); }
  }

  lemma StopKeepsInv(s: State)
    requires Inv(s)
    ensures Inv(Next(s, Stop))
  {
    var u := Next(s, Stop);
    if s.polling {
      var i :| 0 <= i < |s.tasks| && Live(s.tasks[i]);
      assert Live(u.tasks[i]);
    }
    forall i | 0 <= i < |u.tasks| ensures TaskOk(u, u.tasks[i]) {
      assert TaskOk(s, s.tasks[i]);
    }
  }

  lemma GrowKeepsInv(s: State, n: nat)
    requires Inv(s)
    ensures Inv(Next(s, Grow(n)))
  {
    var u := Next(s, Grow(n));
    assert u.tasks == s.tasks;
    forall i | 0 <= i < |u.tasks| ensures TaskOk(u, u.tasks[i]) {
      assert TaskOk(s, s.tasks[i]);
    }
  }

  lemma FileFoundKeepsInv(s: State, t: nat, fromEof: bool)
    requires Inv(s)
    ensures Inv(Next(s, FileFound(t, fromEof)))
  {
    if t < |s.tasks| && s.tasks[t].pc.Discovering? {
      assert TaskOk(s, s.tasks[t]);
      var adopted := s.(parent := Some(|s.offsets|), offsets := s.offsets + [if fromEof then s.fileLength else 0]);
      assert adopted.tasks == s.tasks;
      forall i | 0 <= i < |s.tasks| ensures TaskOk(adopted, s.tasks[i]) {
        assert TaskOk(s, s.tasks[i]);
      }
      BeginPollKeepsInv(adopted, t);
    }
  }

  lemma FileNotFoundKeepsInv(s: State, t: nat)
    requires Inv(s)
    ensures Inv(Next(s, FileNotFound(t)))
  {
    if t < |s.tasks| && s.tasks[t].pc.Discovering? {
      assert TaskOk(s, s.tasks[t]);
      if s.running && s.parent.Some? {
        BeginPollKeepsInv(s, t);
      } else {
        var u := SetPc(s, t, Done);
        MoveKeepsOneBody(s, u, t);
        forall i | 0 <= i < |u.tasks| ensures TaskOk(u, u.tasks[i]) {
          if i != t { assert TaskOk(s, s.tasks[i]); }
        }
      }
    }
  }

  lemma StepKeepsInv(s: State, step: Step)
    requires Inv(s)
    ensures Inv(Next(s, step))
  {
    match step
    case Grow(n) => GrowKeepsInv(s, n);
    case Call(caller) => CallKeepsInv(s, caller);
    case Stop => StopKeepsInv(s);
    case FileFound(t, fromEof) => FileFoundKeepsInv(s, t, fromEof);
    case FileNotFound(t) => FileNotFoundKeepsInv(s, t);
    case Resume(t, outcome) => if t < |s.tasks| { ResumeKeepsInv(s, t, outcome); }
  }

  lemma {:induction false} RunKeepsInv(s: State, steps: seq<Step>)
    requires Inv(s)
    ensures Inv(Exec(s, steps))
    decreases |steps|
  {
    if steps != [] {
      StepKeepsInv(s, steps[0]);
      RunKeepsInv(Next(s, steps[0]), steps[1..]);
    }
  }

  // ----- What every run gives -----

  /** In every run, at every moment, at most one poll body is under way, and the flag says whether one is. */
  lemma AtMostOneBody(steps: seq<Step>)
    ensures var s := Exec(INITIAL, steps);
            && (forall i, j :: 0 <= i < j < |s.tasks| ==> !(Live(s.tasks[i]) && Live(s.tasks[j])))
            && (s.polling <==> exists i :: 0 <= i < |s.tasks| && Live(s.tasks[i]))
  {
    InitialIsOk();
    RunKeepsInv(INITIAL, steps);
  }

  /** Neither stops the watcher nor lets one of this task's own reads fail or come back short. */
  predicate Undisturbing(step: Step, t: nat) {
    match step
    case Stop => false
    case Resume(i, outcome) => i == t ==> outcome.Full?
    case _ => true
  }

  /** The task at t is still there, still assured, and the same call. */
  predicate StillAssured(s: State, u: State, t: nat)
    requires t < |s.tasks|
  {
    && |s.tasks| <= |u.tasks| && u.tasks[t].assured
    && u.tasks[t].target == s.tasks[t].target && u.tasks[t].caller == s.tasks[t].caller
  }

  lemma BeginPollKeepsAssurance(s: State, i: nat, t: nat)
    requires t < |s.tasks| && i < |s.tasks| && s.tasks[t].assured
    ensures StillAssured(s, BeginPoll(s, i), t)
  {
  }

  lemma ResumeKeepsAssurance(s: State, i: nat, outcome: Outcome, t: nat)
    requires t < |s.tasks| && i < |s.tasks| && s.tasks[t].assured && (i == t ==> outcome.Full?)
    ensures StillAssured(s, ResumeAt(s, i, outcome), t)
  {
  }

  lemma StepKeepsAssurance(s: State, step: Step, t: nat)
    requires t < |s.tasks| && s.tasks[t].assured && Undisturbing(step, t)
    ensures StillAssured(s, Next(s, step), t)
  {
    match step
    case Resume(i, outcome) => if i < |s.tasks| { ResumeKeepsAssurance(s, i, outcome, t); }
    case Call(caller) =>
      var called := s.(tasks := s.tasks + [Task(caller, Done, s.fileLength, s.running && s.parent.Some?, None)]);
      BeginPollKeepsAssurance(called, |s.tasks|, t);
    case FileFound(i, fromEof) =>
      if i < |s.tasks| {
        BeginPollKeepsAssurance(
          s.(parent := Some(|s.offsets|), offsets := s.offsets + [if fromEof then s.fileLength else 0]), i, t);
      }
    case FileNotFound(i) => if i < |s.tasks| { BeginPollKeepsAssurance(s, i, t); }
    case _ =>
  }

  lemma {:induction false} RunKeepsAssurance(s: State, steps: seq<Step>, t: nat)
    requires t < |s.tasks| && s.tasks[t].assured
    requires forall step :: step in steps ==> Undisturbing(step, t)
    ensures StillAssured(s, Exec(s, steps), t)
    decreases |steps|
  {
    if steps != [] {
      StepKeepsAssurance(s, steps[0], t);
      RunKeepsAssurance(Next(s, steps[0]), steps[1..], t);
    }
  }

  /** When a drain returns, every byte the file held at its call has been read: whatever ran before and
      beside it, if the watcher runs on and the drain's own reads succeed in full. */
  lemma DrainSeesEverything(before: seq<Step>, during: seq<Step>)
    requires Exec(INITIAL, before).running && Exec(INITIAL, before).parent.Some?
    requires forall step :: step in during ==> Undisturbing(step, |Exec(INITIAL, before).tasks|)
    ensures var atCall := Exec(INITIAL, before);
            var after := Exec(Next(atCall, Call(Drain)), during);
            && |atCall.tasks| < |after.tasks|
            && (after.tasks[|atCall.tasks|].pc.Done? ==>
                  var drain := after.tasks[|atCall.tasks|];
                  && drain.reader.Some? && drain.reader.value < |after.offsets|
                  && after.offsets[drain.reader.value] >= atCall.fileLength)
  {
    var atCall := Exec(INITIAL, before);
    var called := Next(atCall, Call(Drain));
    InitialIsOk();
    RunKeepsInv(INITIAL, before);
    StepKeepsInv(atCall, Call(Drain));
    RunKeepsInv(called, during);
    RunKeepsAssurance(called, during, |atCall.tasks|);
    var after := Exec(called, during);
    assert TaskOk(after, after.tasks[|atCall.tasks|]);
  }
}
