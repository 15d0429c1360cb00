/** That polls come to their end and give the guard back, and how far they read. */
module PollProgress {
  import opened Values
  import opened PollGuard

  /** The steps a poll body still needs when its reads succeed. */
  function Finish(t: nat): seq<Step> {
    [Resume(t, Full), Resume(t, Full), Resume(t, Full), Resume(t, Full), Resume(t, Full)]
  }

  function Rank(pc: Pc): nat {
    match pc
    case AtStat(_) => 5
    case AtOpen(_, _) => 4
    case AtRead(_, _) => 3
    case AtClose => 2
    case AtRest => 1
    case _ => 0
  }

  /** All but task t and the offsets is as it was. */
  ghost predicate Beside(s: State, u: State, t: nat) {
    && u.running == s.running && u.parent == s.parent && u.fileLength == s.fileLength && |u.tasks| == |s.tasks| && |u.offsets| == |s.offsets|
    && (forall i :: 0 <= i < |s.tasks| && i != t ==> u.tasks[i] == s.tasks[i])
    && (t < |s.tasks| ==> u.tasks[t] == s.tasks[t].(pc := u.tasks[t].pc))
  }

  /** A live body that is still about to read, or has read, everything that was there when it last looked. */
  predicate WillRead(s: State, t: nat, k: nat)
    requires t < |s.tasks|
  {
    && k < |s.offsets|
    && match s.tasks[t].pc
       case AtStat(j) => j == k
       case AtOpen(j, size) => j == k && size == s.fileLength
       case AtRead(j, size) => j == k && size == s.fileLength
       case AtClose => s.offsets[k] == s.fileLength
       case AtRest => s.offsets[k] == s.fileLength
       case Done => s.offsets[k] == s.fileLength
       case _ => false
  }

  lemma OneStep(s: State, t: nat)
    requires Inv(s) && t < |s.tasks| && (Live(s.tasks[t]) || (s.tasks[t].pc.Done? && !s.polling))
    ensures var u := Next(s, Resume(t, Full));
      && Beside(s, u, t)
      && (if Live(u.tasks[t]) then Rank(u.tasks[t].pc) < Rank(s.tasks[t].pc) else u.tasks[t].pc.Done? && !u.polling)
      && (s.running ==> forall k: nat :: WillRead(s, t, k) ==> WillRead(u, t, k))
  {
    hide OneBody;
    assert TaskOk(s, s.tasks[t]);
  }

  lemma BesideTwice(s: State, u: State, w: State, t: nat)
    requires Beside(s, u, t) && Beside(u, w, t)
    ensures Beside(s, w, t)
  {
  }

  lemma {:induction false} Steps(s: State, t: nat, n: nat)
    requires Inv(s) && t < |s.tasks| && (Live(s.tasks[t]) || (s.tasks[t].pc.Done? && !s.polling)) && Rank(s.tasks[t].pc) <= n
    ensures var u := Exec(s, seq(n, _ => Resume(t, Full)));
      && Inv(u) && Beside(s, u, t) && u.tasks[t].pc.Done? && !u.polling
      && (s.running ==> forall k: nat :: WillRead(s, t, k) ==> WillRead(u, t, k))
    decreases n
  {
    if n == 0 {
      assert seq(n, _ => Resume(t, Full)) == [];
    } else {
      var step := Resume(t, Full);
      var u := Next(s, step);
      OneStep(s, t);
      StepKeepsInv(s, step);
      assert seq(n, _ => step)[1..] == seq(n - 1, _ => step);
      Steps(u, t, n - 1);
      BesideTwice(s, u, Exec(u, seq(n - 1, _ => step)), t);
      hide Next, Inv, WillRead;
    }
  }

  /** A live body comes to its end, gives the guard back and leaves everything else alone; and if the watcher runs and the
      body has not looked at the file yet, it reads all of it. */
  lemma BodyEnds(s: State, t: nat)
    requires Inv(s) && t < |s.tasks| && Live(s.tasks[t])
    ensures var u := Exec(s, Finish(t));
      && Inv(u) && Beside(s, u, t) && u.tasks[t].pc.Done? && !u.polling
      && (s.running && s.tasks[t].pc.AtStat? ==> s.tasks[t].pc.tail < |u.offsets| && u.offsets[s.tasks[t].pc.tail] == s.fileLength)
  {
    assert Finish(t) == seq(5, _ => Resume(t, Full));
    Steps(s, t, 5);
    hide Exec;
    assert TaskOk(s, s.tasks[t]);
    if s.tasks[t].pc.AtStat? { assert WillRead(s, t, s.tasks[t].pc.tail); }
  }

  lemma Extend(s: State, step: Step, rest: seq<Step>)
    ensures Exec(s, [step] + rest) == Exec(Next(s, step), rest)
  {
    assert ([step] + rest)[1..] == rest;
  }

  lemma {:induction false} ExecConcat(s: State, a: seq<Step>, b: seq<Step>)
    ensures Exec(s, a + b) == Exec(Exec(s, a), b)
    decreases |a|
  {
    if a == [] {
      assert a + b == b;
    } else {
      ExecConcat(Next(s, a[0]), a[1..], b);
      assert (a + b)[1..] == a[1..] + b;
    }
  }

  // ----- Ticks and starts -----

  /** In any run: a tick, or a drain, of a running watcher with a file starts a body when the guard is free, and comes to its
      end with the whole file read and the guard free again. */
  lemma PollReadsTheFile(before: seq<Step>, caller: Caller)
    requires !caller.Start? && Exec(INITIAL, before).running && Exec(INITIAL, before).parent.Some? && !Exec(INITIAL, before).polling
    ensures var s := Exec(INITIAL, before);
      var t := |s.tasks|;
      var u := Exec(s, [Call(caller)] + Finish(t));
      && |u.tasks| == t + 1 && u.tasks[t].pc.Done? && !u.polling && s.parent.value < |u.offsets| && u.offsets[s.parent.value] == s.fileLength
  {
    InitialIsOk();
    RunKeepsInv(INITIAL, before);
    var s := Exec(INITIAL, before);
    var t := |s.tasks|;
    StepKeepsInv(s, Call(caller));
    var called := Next(s, Call(caller));
    assert called.tasks[t].pc == AtStat(s.parent.value) && called.running && called.fileLength == s.fileLength;
    hide Next, Inv, Exec;
    Extend(s, Call(caller), Finish(t));
    BodyEnds(called, t);
  }

  /** In any run: a drain that finds a body under way waits for it, and then comes to its end with the whole file read. */
  lemma WaitingDrainReadsTheFile(before: seq<Step>, b: nat)
    requires Exec(INITIAL, before).running && Exec(INITIAL, before).parent.Some?
    requires b < |Exec(INITIAL, before).tasks| && Live(Exec(INITIAL, before).tasks[b])
    ensures var s := Exec(INITIAL, before);
      var t := |s.tasks|;
      var u := Exec(Exec(Exec(s, [Call(Drain)]), Finish(b)), [Resume(t, Full)] + Finish(t));
      && |u.tasks| == t + 1 && u.tasks[t].pc.Done? && !u.polling && s.parent.value < |u.offsets| && u.offsets[s.parent.value] == s.fileLength
  {
    InitialIsOk();
    RunKeepsInv(INITIAL, before);
    var s := Exec(INITIAL, before);
    var t := |s.tasks|;
    StepKeepsInv(s, Call(Drain));
    var waiting := Next(s, Call(Drain));
    assert waiting.tasks[t].pc.WaitingForGuard? && waiting.tasks[b] == s.tasks[b];
    assert [Call(Drain)] == [Call(Drain)] + [];
    Extend(s, Call(Drain), []);
    assert Exec(waiting, []) == waiting;
    BodyEnds(waiting, b);
    var free := Exec(waiting, Finish(b));
    StepKeepsInv(free, Resume(t, Full));
    var reading := Next(free, Resume(t, Full));
    assert reading.tasks[t].pc == AtStat(s.parent.value) && reading.running && reading.fileLength == s.fileLength;
    hide Next, Inv, Exec;
    Extend(free, Resume(t, Full), Finish(t));
    BodyEnds(reading, t);
  }

  /** A tick that finds a body under way, no file or the watcher stopped does nothing. */
  lemma IdleTick(s: State)
    requires s.polling || s.parent.None? || !s.running
    ensures var u := Next(s, Call(Tick));
      u.tasks == s.tasks + [Task(Tick, Done, s.fileLength, s.running && s.parent.Some?, None)] && u == s.(tasks := u.tasks)
  {
  }

  /** A start sets the watcher running and looks for its file, once; a file that is found becomes the parent, read from its
      beginning, or from its end when reattached, and is polled at once when the guard is free. */
  lemma StartFindsTheFile(s: State, fromEof: bool)
    requires !s.running
    ensures var called, t := Next(s, Call(Start)), |s.tasks|;
      var u := Next(called, FileFound(t, fromEof));
      && called.running && |called.tasks| == t + 1 && called.tasks[t].pc.Discovering?
      && u.parent == Some(|s.offsets|) && u.offsets == s.offsets + [if fromEof then s.fileLength else 0]
      && |u.tasks| == t + 1 && (if s.polling then u.tasks[t].pc.Done? else u.polling && u.tasks[t].pc == AtStat(|s.offsets|))
  {
  }

  /** Stopping the watcher stops nothing that a body has begun, and whoever comes later does nothing. */
  lemma StopIsQuiet(s: State)
    ensures var u := Next(s, Stop);
      && !u.running && u.polling == s.polling && u.parent == s.parent && u.offsets == s.offsets && u.fileLength == s.fileLength
      && |u.tasks| == |s.tasks| && forall i :: 0 <= i < |s.tasks| ==> u.tasks[i] == s.tasks[i].(assured := false)
  {
  }

  /** What a read of a running watcher makes of the offset: all of the file as it was when the body looked, or the bytes
      it was given, or nothing when it fails; in each case the body goes on to its end, and only a read that was whole
      keeps its caller assured. */
  lemma ReadAdvances(s: State, t: nat, bytes: nat)
    requires Inv(s) && s.running && t < |s.tasks| && s.tasks[t].pc.AtRead?
    ensures var k, size := s.tasks[t].pc.tail, s.tasks[t].pc.size;
      var whole, short, failed := Next(s, Resume(t, Full)), Next(s, Resume(t, Short(bytes))), Next(s, Resume(t, Failed));
      && whole.offsets == s.offsets[k := size] && whole.tasks[t] == s.tasks[t].(pc := AtClose)
      && short.offsets == s.offsets[k := if s.offsets[k] + bytes < size then s.offsets[k] + bytes else size]
      && short.tasks[t].pc.AtClose? && short.tasks[t].assured == (s.tasks[t].assured && s.offsets[k] + bytes >= size)
      && failed.offsets == s.offsets && failed.tasks[t].pc.AtClose? && !failed.tasks[t].assured
  {
    assert TaskOk(s, s.tasks[t]);
  }

  /** A body whose `stat` or `open` fails reads nothing and still comes to its rest; once the watcher has stopped, a body reads
      no more and gives the guard back as soon as its file is closed. */
  lemma FailedOrStopped(s: State, t: nat, outcome: Outcome)
    requires Inv(s) && t < |s.tasks|
    ensures s.running && (s.tasks[t].pc.AtStat? || s.tasks[t].pc.AtOpen?) ==>
      var u := Next(s, Resume(t, Failed)); u.offsets == s.offsets && u.tasks[t].pc.AtRest? && !u.tasks[t].assured && u.polling == s.polling
    ensures !s.running && Live(s.tasks[t]) ==> Next(s, Resume(t, outcome)).offsets == s.offsets
    ensures !s.running && s.tasks[t].pc.AtOpen? && !outcome.Failed? ==> Next(s, Resume(t, outcome)) == s.(tasks := s.tasks[t := s.tasks[t].(pc := AtClose)])
    ensures !s.running && s.tasks[t].pc.AtClose? ==> Next(s, Resume(t, outcome)).tasks[t].pc.Done? && !Next(s, Resume(t, outcome)).polling
  {
  }

  /** A body that has closed its file in a running watcher rests once more before it gives the guard back. */
  lemma RestThenEnd(s: State, t: nat, outcome: Outcome)
    requires s.running && t < |s.tasks| && s.tasks[t].pc.AtClose?
    ensures var u := Next(s, Resume(t, outcome));
      u.tasks[t].pc.AtRest? && u.polling == s.polling && !Next(u, Resume(t, outcome)).polling && Next(u, Resume(t, outcome)).tasks[t].pc.Done?
  {
  }

  /** A start whose search finds nothing polls the file that another start has found, if there is one, and ends otherwise. */
  lemma NothingFound(s: State, t: nat)
    requires t < |s.tasks| && s.tasks[t].pc.Discovering?
    ensures var u := Next(s, FileNotFound(t));
      && u.parent == s.parent && u.offsets == s.offsets
      && (s.running && s.parent.Some? && !s.polling ==> u.polling && u.tasks[t].pc == AtStat(s.parent.value))
      && (!s.running || s.parent.None? || s.polling ==> u.tasks[t].pc.Done? && u.polling == s.polling)
  {
  }

  /** A file grows by what is written to it. */
  lemma FileGrows(s: State, bytes: nat)
    ensures Next(s, Grow(bytes)) == s.(fileLength := s.fileLength + bytes)
  {
  }
}
