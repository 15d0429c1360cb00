/** Every history of one dispatch's queue: entries consumed, drains that may overlap, crashes at any moment and in
    the middle of a write, replays on boot. */
module ForwarderHistory {
  import opened DurableQueue
  import opened EventForwarder
  import opened QueueDisk

  // ----- The code: texts and batches -----

  /** A drain is about to read the file, is sending what it read, or is about to rewrite or remove the file. */
  datatype TextDrain = Reading | Sending(pending: seq<Batch>, next: nat) | Writing(rest: seq<Batch>) | Ended

  /** `text` is the queue file's text, empty when there is no file. */
  datatype TextState = TextState(text: string, memory: Batch, drains: seq<TextDrain>)

  /** `Flush` writes what is in memory to disk and starts a drain; with nothing in memory it is also the replay on
      boot. `Snapshot`, `Post` and `Finish` move one drain on. The crash steps end the process: between two steps,
      while a batch is being appended, or while a drain is rewriting the file, with `written` characters on disk. */
  datatype Step =
    | Consume(events: Batch)
    | Flush
    | Snapshot(drain: nat)
    | Post(drain: nat, outcome: Outcome)
    | Finish(drain: nat)
    | Crash
    | CrashInAppend(written: nat)
    | CrashInRewrite(drain: nat, written: nat)

  const TEXT_START := TextState("", [], [])

  function TextPost(v: TextState, d: nat, outcome: Outcome): TextState
    requires d < |v.drains| && v.drains[d].Sending?
  {
    var pending, next := v.drains[d].pending, v.drains[d].next;
    if next >= |pending| then v
    else if outcome.RetryLater? then v.(drains := v.drains[d := Writing(pending[next..])])
    else if next + 1 == |pending| then v.(drains := v.drains[d := Writing([])])
    else v.(drains := v.drains[d := Sending(pending, next + 1)])
  }

  function TextNext(codec: Codec, v: TextState, step: Step): TextState {
    match step
    case Consume(events) => v.(memory := v.memory + events)
    case Flush =>
      var text := if v.memory == [] then v.text else v.text + (codec.encode(v.memory) + "\n");
      TextState(text, [], v.drains + [Reading])
    case Snapshot(d) =>
      if d < |v.drains| && v.drains[d].Reading? then
        var pending := Peek(codec, v.text);
        v.(drains := v.drains[d := if pending == [] then Ended else Sending(pending, 0)])
      else v
    case Post(d, outcome) => if d < |v.drains| && v.drains[d].Sending? then TextPost(v, d, outcome) else v
    case Finish(d) =>
      if d < |v.drains| && v.drains[d].Writing? then
        v.(text := Text(codec, v.drains[d].rest), drains := v.drains[d := Ended])
      else v
    case Crash => TextState(v.text, [], [])
    case CrashInAppend(written) =>
      if v.memory == [] then v else TextState(v.text + Prefix(codec.encode(v.memory), written), [], [])
    case CrashInRewrite(d, written) =>
      if d < |v.drains| && v.drains[d].Writing? && v.drains[d].rest != [] then
        TextState(Prefix(Text(codec, v.drains[d].rest), written), [], [])
      else v
  }

  function TextExec(codec: Codec, v: TextState, steps: seq<Step>): TextState
    decreases |steps|
  {
    if steps == [] then v else TextExec(codec, TextNext(codec, v, steps[0]), steps[1..])
  }

  // ----- The same runs with batches numbered -----

  /** `since` is how many batches there were when the drain read the file. */
  datatype Drain =
    | Snapshotting
    | Posting(pending: seq<nat>, next: nat, since: nat)
    | Finishing(rest: seq<nat>, since: nat)
    | Done

  /** The second line records history: every batch an append was begun for, numbered in that order, the numbers of
      those whose whole line was written, the numbers answered, and everything consumed. */
  datatype State = State(
    disk: Disk, memory: Batch, drains: seq<Drain>,
    batches: seq<Batch>, durable: seq<nat>, resolved: seq<nat>, consumed: Batch)

  const START := State(EMPTY_DISK, [], [], [], [], [], [])

  function SetDrain(s: State, d: nat, to: Drain): State
    requires d < |s.drains|
  {
    s.(drains := s.drains[d := to])
  }

  function AppendMemory(s: State): State {
    if s.memory == [] then s
    else s.(disk := Appended(s.disk, |s.batches|), memory := [],
            batches := s.batches + [s.memory], durable := s.durable + [|s.batches|])
  }

  function TakeSnapshot(s: State, d: nat): State
    requires d < |s.drains|
  {
    SetDrain(s, d, if Ids(s.disk) == [] then Done else Posting(Ids(s.disk), 0, |s.batches|))
  }

  function AfterPost(s: State, d: nat, outcome: Outcome): State
    requires d < |s.drains| && s.drains[d].Posting?
  {
    var p := s.drains[d];
    if p.next >= |p.pending| then s
    else if outcome.RetryLater? then SetDrain(s, d, Finishing(p.pending[p.next..], p.since))
    else
      var answered := s.(resolved := s.resolved + [p.pending[p.next]]);
      if p.next + 1 == |p.pending| then SetDrain(answered, d, Finishing([], p.since))
      else SetDrain(answered, d, p.(next := p.next + 1))
  }

  function CutAppend(codec: Codec, s: State, written: nat): State {
    var id := |s.batches|;
    s.(disk := CutAppended(codec, s.memory, s.disk, id, written), memory := [], drains := [],
       batches := s.batches + [s.memory],
       durable := if written < |codec.encode(s.memory)| then s.durable else s.durable + [id])
  }

  function Next(codec: Codec, s: State, step: Step): State {
    match step
    case Consume(events) => s.(memory := s.memory + events, consumed := s.consumed + events)
    case Flush => var u := AppendMemory(s); u.(drains := u.drains + [Snapshotting])
    case Snapshot(d) => if d < |s.drains| && s.drains[d].Snapshotting? then TakeSnapshot(s, d) else s
    case Post(d, outcome) => if d < |s.drains| && s.drains[d].Posting? then AfterPost(s, d, outcome) else s
    case Finish(d) =>
      if d < |s.drains| && s.drains[d].Finishing? then SetDrain(s, d, Done).(disk := Rewritten(s.drains[d].rest)) else s
    case Crash => s.(memory := [], drains := [])
    case CrashInAppend(written) => if s.memory == [] then s else CutAppend(codec, s, written)
    case CrashInRewrite(d, written) =>
      if d < |s.drains| && s.drains[d].Finishing? && s.drains[d].rest != [] && InRange(s.drains[d].rest, |s.batches|) then
        s.(disk := CutRewritten(codec, s.batches, s.drains[d].rest, written), memory := [], drains := [])
      else s
  }

  function Exec(codec: Codec, s: State, steps: seq<Step>): State
    decreases |steps|
  {
    if steps == [] then s else Exec(codec, Next(codec, s, steps[0]), steps[1..])
  }

  // ----- The numbered runs are the code's runs -----

  predicate DrainInRange(d: Drain, n: nat) {
    match d
    case Posting(pending, _, _) => InRange(pending, n)
    case Finishing(rest, _) => InRange(rest, n)
    case _ => true
  }

  predicate StateOk(codec: Codec, s: State) {
    DiskOk(codec, s.batches, s.disk) && forall d :: 0 <= d < |s.drains| ==> DrainInRange(s.drains[d], |s.batches|)
  }

  function DrainView(batches: seq<Batch>, d: Drain): TextDrain
    requires DrainInRange(d, |batches|)
  {
    match d
    case Snapshotting => Reading
    case Posting(pending, next, _) => Sending(Contents(batches, pending), next)
    case Finishing(rest, _) => Writing(Contents(batches, rest))
    case Done => Ended
  }

  function View(codec: Codec, s: State): TextState
    requires StateOk(codec, s)
  {
    TextState(DiskText(codec, s.batches, s.disk), s.memory,
              seq(|s.drains|, d requires 0 <= d < |s.drains| => DrainView(s.batches, s.drains[d])))
  }

  lemma ContentsStay(batches: seq<Batch>, b: Batch, ids: seq<nat>)
    requires InRange(ids, |batches|)
    ensures InRange(ids, |batches + [b]|) && Contents(batches + [b], ids) == Contents(batches, ids)
  {
  }

  lemma DrainViewStays(batches: seq<Batch>, b: Batch, d: Drain)
    requires DrainInRange(d, |batches|)
    ensures DrainInRange(d, |batches + [b]|) && DrainView(batches + [b], d) == DrainView(batches, d)
  {
    match d
    case Posting(pending, _, _) => ContentsStay(batches, b, pending);
    case Finishing(rest, _) => ContentsStay(batches, b, rest);
    case _ =>
  }

  lemma AppendMemoryRefines(codec: Codec, s: State)
    requires StateOk(codec, s) && s.memory != []
    ensures StateOk(codec, AppendMemory(s))
    ensures View(codec, AppendMemory(s)) == View(codec, s).(text := View(codec, s).text + (codec.encode(s.memory) + "\n"), memory := [])
  {
    hide DiskOk, DiskText, DrainInRange, DrainView, Appended;
    var batches := s.batches + [s.memory];
    DiskTextStays(codec, s.batches, s.memory, s.disk);
    AppendedText(codec, batches, s.disk, |s.batches|);
    forall d | 0 <= d < |s.drains|
      ensures DrainInRange(s.drains[d], |batches|) && DrainView(batches, s.drains[d]) == DrainView(s.batches, s.drains[d])
    {
      DrainViewStays(s.batches, s.memory, s.drains[d]);
    }
  }

  lemma FlushRefines(codec: Codec, s: State)
    requires StateOk(codec, s)
    ensures StateOk(codec, Next(codec, s, Flush)) && View(codec, Next(codec, s, Flush)) == TextNext(codec, View(codec, s), Flush)
  {
    hide DiskOk, DiskText;
    if s.memory != [] { AppendMemoryRefines(codec, s); }
  }

  lemma SnapshotRefines(codec: Codec, s: State, d: nat)
    requires Faithful(codec) && OnlyWholeLinesDecode(codec) && StateOk(codec, s)
    ensures StateOk(codec, Next(codec, s, Snapshot(d))) && View(codec, Next(codec, s, Snapshot(d))) == TextNext(codec, View(codec, s), Snapshot(d))
  {
    hide DiskOk, DiskText, Peek, Ids, Faithful, OnlyWholeLinesDecode;
    PeekOfDisk(codec, s.batches, s.disk);
  }

  lemma PostRefines(codec: Codec, s: State, d: nat, outcome: Outcome)
    requires StateOk(codec, s)
    ensures StateOk(codec, Next(codec, s, Post(d, outcome)))
    ensures View(codec, Next(codec, s, Post(d, outcome))) == TextNext(codec, View(codec, s), Post(d, outcome))
  {
    hide DiskOk, DiskText;
    if d < |s.drains| && s.drains[d].Posting? && s.drains[d].next < |s.drains[d].pending| {
      var p := s.drains[d];
      assert InRange(p.pending, |s.batches|) && InRange(p.pending[p.next..], |s.batches|);
      assert Contents(s.batches, p.pending[p.next..]) == Contents(s.batches, p.pending)[p.next..];
      assert Contents(s.batches, []) == [];
    }
  }

  lemma RewriteRefines(codec: Codec, s: State, step: Step)
    requires StateOk(codec, s) && (step.Finish? || step.CrashInRewrite?)
    ensures StateOk(codec, Next(codec, s, step)) && View(codec, Next(codec, s, step)) == TextNext(codec, View(codec, s), step)
  {
    hide DiskOk, DiskText, Text, Prefix, CutRewritten, Rewritten;
    var d := step.drain;
    if d < |s.drains| && s.drains[d].Finishing? {
      assert DrainInRange(s.drains[d], |s.batches|);
      RewrittenText(codec, s.batches, s.drains[d].rest);
      if step.CrashInRewrite? { CutRewrittenText(codec, s.batches, s.drains[d].rest, step.written); }
    }
  }

  lemma CutAppendRefines(codec: Codec, s: State, written: nat)
    requires StateOk(codec, s) && s.memory != []
    ensures StateOk(codec, CutAppend(codec, s, written))
    ensures View(codec, CutAppend(codec, s, written)) == TextState(View(codec, s).text + Prefix(codec.encode(s.memory), written), [], [])
  {
    hide DiskOk, DiskText, Prefix, CutAppended;
    DiskTextStays(codec, s.batches, s.memory, s.disk);
    CutAppendedText(codec, s.batches + [s.memory], s.disk, |s.batches|, written);
  }

  /** Forgetting the numbers, each step is the code's step on the file's text and the drains' batches. */
  lemma StepRefines(codec: Codec, s: State, step: Step)
    requires Faithful(codec) && OnlyWholeLinesDecode(codec) && StateOk(codec, s)
    ensures StateOk(codec, Next(codec, s, step)) && View(codec, Next(codec, s, step)) == TextNext(codec, View(codec, s), step)
  {
    hide DiskOk, DiskText, Faithful, OnlyWholeLinesDecode;
    match step
    case Consume(_) =>
    case Flush => FlushRefines(codec, s);
    case Snapshot(d) => SnapshotRefines(codec, s, d);
    case Post(d, outcome) => PostRefines(codec, s, d, outcome);
    case Finish(_) => RewriteRefines(codec, s, step);
    case Crash =>
    case CrashInAppend(written) => if s.memory != [] { CutAppendRefines(codec, s, written); }
    case CrashInRewrite(_, _) => RewriteRefines(codec, s, step);
  }

  lemma {:induction false} ExecRefines(codec: Codec, s: State, steps: seq<Step>)
    requires Faithful(codec) && OnlyWholeLinesDecode(codec) && StateOk(codec, s)
    ensures StateOk(codec, Exec(codec, s, steps)) && View(codec, Exec(codec, s, steps)) == TextExec(codec, View(codec, s), steps)
    decreases |steps|
  {
    if steps != [] {
      hide StateOk, View, Next, TextNext;
      StepRefines(codec, s, steps[0]);
      ExecRefines(codec, Next(codec, s, steps[0]), steps[1..]);
    }
  }

  /** In every run, the file's text and the drains are those of the code, and what the file gives is exactly the
      batches that the numbered disk calls readable. */
  lemma RunRefines(codec: Codec, steps: seq<Step>)
    requires Faithful(codec) && OnlyWholeLinesDecode(codec)
    ensures var s := Exec(codec, START, steps);
      && StateOk(codec, s) && View(codec, s) == TextExec(codec, TEXT_START, steps)
      && InRange(Ids(s.disk), |s.batches|)
      && Peek(codec, TextExec(codec, TEXT_START, steps).text) == Contents(s.batches, Ids(s.disk))
  {
    assert StateOk(codec, START) && View(codec, START) == TEXT_START by { StartRefines(codec); }
    ExecRefines(codec, START, steps);
    var s := Exec(codec, START, steps);
    hide Exec, TextExec, Peek, DiskOk, DiskText, Ids, Faithful, OnlyWholeLinesDecode;
    PeekOfDisk(codec, s.batches, s.disk);
  }

  lemma StartRefines(codec: Codec)
    ensures StateOk(codec, START) && View(codec, START) == TEXT_START
  {
  }
}
