/** Runs in which batches are lost: each kind of step that is not harmless, at moments that are reached. */
module ForwarderLosses {
  import opened DurableQueue
  import opened EventForwarder
  import opened QueueDisk
  import opened ForwarderHistory
  import opened ForwarderDelivery
  import opened ForwarderOrder

  lemma Extend(codec: Codec, s: State, step: Step, rest: seq<Step>)
    ensures Exec(codec, s, [step] + rest) == Exec(codec, Next(codec, s, step), rest)
  {
    assert ([step] + rest)[1..] == rest;
  }

  lemma NoSteps(codec: Codec, s: State)
    ensures Exec(codec, s, []) == s
  {
  }

  /** From any reachable moment, an append to an unfinished line loses the new batch, and the batch of that line if
      it lacked only its line break: neither can be read again. */
  lemma AppendToUnfinishedLineLoses(codec: Codec, s: State)
    requires Numbered(s) && s.memory != [] && s.disk.tail != []
    ensures var u, id := Next(codec, s, Flush), |s.batches|;
      && id in u.durable && id !in u.resolved && id !in Ids(u.disk)
      && forall k :: 0 <= k < |LineIds(s.disk.tail)| ==> LineIds(s.disk.tail)[k] in s.durable && LineIds(s.disk.tail)[k] !in Ids(u.disk)
  {
    hide Numbered, LineIds, LinesIds, Ids, Appended;
    TailStandsApart(s);
    AppendedIds(s.disk, |s.batches|);
    var u := Next(codec, s, Flush);
    assert Ids(u.disk) == LinesIds(s.disk.lines) + [] == LinesIds(s.disk.lines);
    assert u.durable[|s.durable|] == |s.batches|;
  }

  /** The state after a first batch was consumed. */
  function FirstConsumed(first: Batch): State {
    START.(memory := first, consumed := first)
  }

  /** The state after a first batch was cut while it was being appended. */
  function CutOnce(codec: Codec, first: Batch, written: nat): State {
    var whole := written >= |codec.encode(first)|;
    State(Disk([], [PieceOf(codec, first, 0, written)]), [], [], [first], if whole then [0] else [], [], first)
  }

  lemma FirstIsCut(codec: Codec, first: Batch, written: nat)
    requires first != [] && written > 0
    ensures Next(codec, START, Consume(first)) == FirstConsumed(first)
    ensures Next(codec, FirstConsumed(first), CrashInAppend(written)) == CutOnce(codec, first, written)
  {
    assert [] + first == first;
  }

  lemma CutOnceIsReached(codec: Codec, first: Batch, written: nat)
    requires first != [] && written > 0
    ensures Exec(codec, START, [Consume(first), CrashInAppend(written)]) == CutOnce(codec, first, written)
  {
    hide Next, Exec, CutOnce;
    FirstIsCut(codec, first, written);
    var s1 := FirstConsumed(first);
    NoSteps(codec, CutOnce(codec, first, written));
    Extend(codec, s1, CrashInAppend(written), []);
    Extend(codec, START, Consume(first), [CrashInAppend(written)] + []);
    assert [Consume(first)] + ([CrashInAppend(written)] + []) == [Consume(first), CrashInAppend(written)];
  }

  /** The state after a second batch was appended to it. */
  function Glued(codec: Codec, first: Batch, second: Batch, written: nat): State {
    var cut := CutOnce(codec, first, written);
    State(Appended(cut.disk, 1), [], [Snapshotting], [first, second], cut.durable + [1], [], first + second)
  }

  lemma GluedIsReached(codec: Codec, first: Batch, second: Batch, written: nat)
    requires first != [] && second != [] && written > 0
    ensures Exec(codec, START, [Consume(first), CrashInAppend(written)] + [Consume(second), Flush]) == Glued(codec, first, second, written)
  {
    var s2 := CutOnce(codec, first, written);
    var s3 := s2.(memory := second, consumed := first + second);
    assert Next(codec, s2, Consume(second)) == s3 by { assert [] + second == second; }
    assert Next(codec, s3, Flush) == Glued(codec, first, second, written);
    CutOnceIsReached(codec, first, written);
    hide Next, Exec, CutOnce, Glued;
    NoSteps(codec, Glued(codec, first, second, written));
    Extend(codec, s3, Flush, []);
    Extend(codec, s2, Consume(second), [Flush] + []);
    assert [Consume(second)] + ([Flush] + []) == [Consume(second), Flush];
    ExecConcat(codec, START, [Consume(first), CrashInAppend(written)], [Consume(second), Flush]);
  }

  lemma GluedGives(codec: Codec, first: Batch, second: Batch, written: nat)
    ensures var s := Glued(codec, first, second, written);
      Ids(s.disk) == [] && 1 in s.durable
  {
    var cut := CutOnce(codec, first, written);
    AppendedIds(cut.disk, 1);
    assert LinesIds([]) == [];
    assert (cut.durable + [1])[|cut.durable|] == 1;
  }

  /** A first batch cut anywhere, even with nothing but its line break missing, and a second one appended: the file
      gives neither, and neither was sent, although the first could be read before if it was complete. */
  lemma BatchAfterCutLineIsLost(codec: Codec, first: Batch, second: Batch, written: nat)
    requires Faithful(codec) && OnlyWholeLinesDecode(codec) && first != [] && second != [] && written > 0
    ensures var cut := [Consume(first), CrashInAppend(written)];
      && Peek(codec, TextExec(codec, TEXT_START, cut).text) == (if written < |codec.encode(first)| then [] else [first])
      && Peek(codec, TextExec(codec, TEXT_START, cut + [Consume(second), Flush]).text) == []
      && Exec(codec, START, cut + [Consume(second), Flush]).resolved == []
      && 1 in Exec(codec, START, cut + [Consume(second), Flush]).durable
  {
    hide Next, Exec, Peek, TextExec, Faithful, OnlyWholeLinesDecode, Ids, CutOnce, Contents, StateOk, View;
    var cut := [Consume(first), CrashInAppend(written)];
    CutOnceIsReached(codec, first, written);
    CutOnceGives(codec, first, written);
    RunRefines(codec, cut);
    GluedIsReached(codec, first, second, written);
    GluedGives(codec, first, second, written);
    RunRefines(codec, cut + [Consume(second), Flush]);
    NoContents(Glued(codec, first, second, written).batches);
  }

  lemma CutOnceGives(codec: Codec, first: Batch, written: nat)
    ensures var s := CutOnce(codec, first, written);
      InRange(Ids(s.disk), 1) && Contents(s.batches, Ids(s.disk)) == if written < |codec.encode(first)| then [] else [first]
  {
    assert LinesIds([]) == [];
  }

  lemma {:induction false} ExecConcat(codec: Codec, s: State, a: seq<Step>, b: seq<Step>)
    ensures Exec(codec, s, a + b) == Exec(codec, Exec(codec, s, a), b)
    decreases |a|
  {
    if a == [] {
      assert a + b == b;
    } else {
      ExecConcat(codec, Next(codec, s, a[0]), a[1..], b);
      assert (a + b)[1..] == a[1..] + b;
    }
  }

  /** A torn line survives its replay: with nothing to be read, the drain ends without touching the file. */
  lemma UnreadableFileSurvivesReplay(codec: Codec, s: State)
    requires s.memory == [] && Ids(s.disk) == []
    ensures var u := Exec(codec, s, [Flush, Snapshot(|s.drains|)]);
      u == s.(drains := s.drains + [Done])
  {
    hide Ids;
    var s1 := s.(drains := s.drains + [Snapshotting]);
    assert Next(codec, s, Flush) == s1;
    assert s1.drains[|s.drains| := Done] == s.drains + [Done];
    assert Next(codec, s1, Snapshot(|s.drains|)) == s.(drains := s.drains + [Done]);
    hide Next, Exec;
    NoSteps(codec, s.(drains := s.drains + [Done]));
    Extend(codec, s1, Snapshot(|s.drains|), []);
    Extend(codec, s, Flush, [Snapshot(|s.drains|)] + []);
    assert [Flush] + ([Snapshot(|s.drains|)] + []) == [Flush, Snapshot(|s.drains|)];
  }

  /** From any moment at which a drain is about to rewrite the file, an unresolved batch that it has not read, written
      since by an overlapping flush, is gone after the rewrite. */
  lemma RewriteLosesLateBatch(codec: Codec, s: State, d: nat, id: nat)
    requires Numbered(s) && d < |s.drains| && s.drains[d].Finishing?
    requires id in s.durable && id !in s.resolved && id >= s.drains[d].since
    ensures var u := Next(codec, s, Finish(d)); id in u.durable && id !in u.resolved && id !in Ids(u.disk)
  {
    hide Ids, Rewritten;
    assert DrainOk(s, s.drains[d]);
    RewrittenIds(s.drains[d].rest);
  }

  /** The state in which one drain has posted the first batch while a second flush has written another. */
  function Overlapped(first: Batch, second: Batch, outcome: Outcome): State {
    State(Disk([[Full(0)], [Full(1)]], []), [], [Finishing(if outcome.RetryLater? then [0] else [], 1), Snapshotting],
          [first, second], [0, 1], if outcome.RetryLater? then [] else [0], first + second)
  }

  lemma NewLine(lines: seq<seq<Piece>>, id: nat)
    ensures Appended(Disk(lines, []), id) == Disk(lines + [[Full(id)]], [])
  {
    assert [] + [Full(id)] == [Full(id)];
  }

  /** The state in which the first batch is about to be posted. */
  function FirstTaken(first: Batch): State {
    State(Disk([[Full(0)]], []), [], [Posting([0], 0, 1)], [first], [0], [], first)
  }

  /** The state in which the first batch has been written and is about to be read. */
  function FirstWritten(first: Batch): State {
    State(Disk([[Full(0)]], []), [], [Snapshotting], [first], [0], [], first)
  }

  lemma FirstConsume(codec: Codec, first: Batch)
    requires first != []
    ensures Next(codec, START, Consume(first)) == FirstConsumed(first)
  {
    assert [] + first == first;
  }

  lemma FirstFlush(codec: Codec, first: Batch)
    requires first != []
    ensures Next(codec, FirstConsumed(first), Flush) == FirstWritten(first)
  {
    NewLine([], 0);
    assert [] + [[Full(0)]] == [[Full(0)]];
    hide Appended;
  }

  lemma FirstSnapshot(codec: Codec, first: Batch)
    ensures Next(codec, FirstWritten(first), Snapshot(0)) == FirstTaken(first)
  {
    OneLine(0);
    hide Appended, Ids;
  }

  lemma FirstSteps(codec: Codec, first: Batch)
    requires first != []
    ensures Next(codec, START, Consume(first)) == FirstConsumed(first)
    ensures Next(codec, Next(codec, FirstConsumed(first), Flush), Snapshot(0)) == FirstTaken(first)
  {
    FirstConsume(codec, first);
    FirstFlush(codec, first);
    FirstSnapshot(codec, first);
    hide Next;
  }

  lemma FirstIsTaken(codec: Codec, first: Batch)
    requires first != []
    ensures Exec(codec, START, [Consume(first), Flush, Snapshot(0)]) == FirstTaken(first)
  {
    hide Next, Exec, FirstTaken;
    FirstSteps(codec, first);
    var s1 := FirstConsumed(first);
    var s2 := Next(codec, s1, Flush);
    NoSteps(codec, FirstTaken(first));
    Extend(codec, s2, Snapshot(0), []);
    Extend(codec, s1, Flush, [Snapshot(0)] + []);
    Extend(codec, START, Consume(first), [Flush] + ([Snapshot(0)] + []));
    assert [Consume(first)] + ([Flush] + ([Snapshot(0)] + [])) == [Consume(first), Flush, Snapshot(0)];
  }

  lemma SecondIsFlushed(codec: Codec, first: Batch, second: Batch, outcome: Outcome)
    requires second != []
    ensures Exec(codec, FirstTaken(first), [Consume(second), Flush, Post(0, outcome)]) == Overlapped(first, second, outcome)
  {
    var s3, s6 := FirstTaken(first), Overlapped(first, second, outcome);
    var s4 := s3.(memory := second, consumed := first + second);
    assert Next(codec, s3, Consume(second)) == s4 by { assert [] + second == second; }
    var s5 := State(Disk([[Full(0)], [Full(1)]], []), [], [Posting([0], 0, 1), Snapshotting], [first, second], [0, 1], [], first + second);
    NewLine([[Full(0)]], 1);
    assert [[Full(0)]] + [[Full(1)]] == [[Full(0)], [Full(1)]];
    assert Next(codec, s4, Flush) == s5;
    assert [0][0..] == [0];
    assert Next(codec, s5, Post(0, outcome)) == s6;
    hide Next, Exec, FirstTaken, Overlapped;
    NoSteps(codec, s6);
    Extend(codec, s5, Post(0, outcome), []);
    Extend(codec, s4, Flush, [Post(0, outcome)] + []);
    Extend(codec, s3, Consume(second), [Flush] + ([Post(0, outcome)] + []));
    assert [Consume(second)] + ([Flush] + ([Post(0, outcome)] + [])) == [Consume(second), Flush, Post(0, outcome)];
  }

  lemma OverlapIsReached(codec: Codec, first: Batch, second: Batch, outcome: Outcome)
    requires first != [] && second != []
    ensures Exec(codec, START, [Consume(first), Flush, Snapshot(0), Consume(second), Flush, Post(0, outcome)])
         == Overlapped(first, second, outcome)
  {
    hide Next, Exec, FirstTaken, Overlapped;
    var start, end := [Consume(first), Flush, Snapshot(0)], [Consume(second), Flush, Post(0, outcome)];
    FirstIsTaken(codec, first);
    SecondIsFlushed(codec, first, second, outcome);
    ExecConcat(codec, START, start, end);
    assert start + end == [Consume(first), Flush, Snapshot(0), Consume(second), Flush, Post(0, outcome)];
  }

  lemma OneLine(id: nat)
    ensures Ids(Disk([[Full(id)]], [])) == [id]
  {
    var lines := [[Full(id)]];
    assert lines[..0] == [] && LinesIds(lines[..0]) == [];
    assert LinesIds(lines) == [] + LineIds([Full(id)]);
  }

  lemma OverlapEnds(codec: Codec, first: Batch, second: Batch, outcome: Outcome)
    ensures var u := Next(codec, Overlapped(first, second, outcome), Finish(0));
      && Ids(u.disk) == (if outcome.RetryLater? then [0] else [])
      && u.batches == [first, second] && 1 !in u.resolved
  {
    RewrittenIds(Overlapped(first, second, outcome).drains[0].rest);
  }

  lemma ContentsOfTwo(first: Batch, second: Batch)
    ensures Contents([first, second], [0, 1]) == [first, second]
    ensures Contents([first, second], [0]) == [first]
  {
  }

  /** Two overlapping drains: whatever the first drain's post gave, its rewrite leaves a file without the second
      batch, which nobody has sent, although it was there the moment before. */
  lemma OverlappingDrainLosesLateBatch(codec: Codec, first: Batch, second: Batch, outcome: Outcome)
    requires Faithful(codec) && OnlyWholeLinesDecode(codec) && first != [] && second != []
    ensures var run := [Consume(first), Flush, Snapshot(0), Consume(second), Flush, Post(0, outcome)];
      && Peek(codec, TextExec(codec, TEXT_START, run).text) == [first, second]
      && Peek(codec, TextExec(codec, TEXT_START, run + [Finish(0)]).text) == (if outcome.RetryLater? then [first] else [])
      && 1 !in Exec(codec, START, run + [Finish(0)]).resolved
  {
    hide Next, Exec, Peek, TextExec, Faithful, OnlyWholeLinesDecode, Ids, Contents, StateOk, View;
    var run := [Consume(first), Flush, Snapshot(0), Consume(second), Flush, Post(0, outcome)];
    var s6 := Overlapped(first, second, outcome);
    OverlapIsReached(codec, first, second, outcome);
    OverlapEnds(codec, first, second, outcome);
    TwoLines();
    ContentsOfTwo(first, second);
    NoContents([first, second]);
    NoSteps(codec, Next(codec, s6, Finish(0)));
    Extend(codec, s6, Finish(0), []);
    assert [Finish(0)] + [] == [Finish(0)];
    ExecConcat(codec, START, run, [Finish(0)]);
    RunRefines(codec, run);
    RunRefines(codec, run + [Finish(0)]);
  }

  // ----- First deliveries out of order -----

  /** After the first batch was sent, a second drain has read the file and the first one has removed it, and a third
      batch is written and read. */
  function Stale(first: Batch, second: Batch, third: Batch): State {
    State(Disk([[Full(2)]], []), [], [Done, Posting([0, 1], 0, 2), Posting([2], 0, 3)],
          [first, second, third], [0, 1, 2], [0], first + second + third)
  }

  lemma StaleIsReached(codec: Codec, first: Batch, second: Batch, third: Batch)
    requires third != []
    ensures Exec(codec, Overlapped(first, second, Delivered), [Snapshot(1), Finish(0), Consume(third), Flush, Snapshot(2)])
         == Stale(first, second, third)
  {
    hide Next, Exec, Stale, Overlapped;
    var s6, u := Overlapped(first, second, Delivered), Stale(first, second, third);
    var s7 := Next(codec, s6, Snapshot(1));
    var s8 := Next(codec, s7, Finish(0));
    var s9 := Next(codec, s8, Consume(third));
    var s10 := Next(codec, s9, Flush);
    RemovedUnderTheSecond(codec, first, second);
    ThirdIsRead(codec, first, second, third);
    NoSteps(codec, u);
    Extend(codec, s10, Snapshot(2), []);
    var r9 := [Flush] + ([Snapshot(2)] + []);
    Extend(codec, s9, Flush, [Snapshot(2)] + []);
    Extend(codec, s8, Consume(third), r9);
    Extend(codec, s7, Finish(0), [Consume(third)] + r9);
    Extend(codec, s6, Snapshot(1), [Finish(0)] + ([Consume(third)] + r9));
    assert [Snapshot(1)] + ([Finish(0)] + ([Consume(third)] + r9)) == [Snapshot(1), Finish(0), Consume(third), Flush, Snapshot(2)];
  }

  function Removed(first: Batch, second: Batch): State {
    State(EMPTY_DISK, [], [Done, Posting([0, 1], 0, 2)], [first, second], [0, 1], [0], first + second)
  }

  lemma RemovedUnderTheSecond(codec: Codec, first: Batch, second: Batch)
    ensures Next(codec, Next(codec, Overlapped(first, second, Delivered), Snapshot(1)), Finish(0)) == Removed(first, second)
  {
    TwoLines();
    hide Ids;
    assert Rewritten([]) == EMPTY_DISK;
  }

  lemma ThirdIsRead(codec: Codec, first: Batch, second: Batch, third: Batch)
    requires third != []
    ensures Next(codec, Next(codec, Next(codec, Removed(first, second), Consume(third)), Flush), Snapshot(2)) == Stale(first, second, third)
  {
    assert [] + third == third && [] + [[Full(2)]] == [[Full(2)]];
    NewLine([], 2);
    OneLine(2);
    hide Ids, Appended;
    var s9 := Next(codec, Removed(first, second), Consume(third));
    assert Next(codec, s9, Flush) == State(Disk([[Full(2)]], []), [], [Done, Posting([0, 1], 0, 2), Snapshotting],
                                           [first, second, third], [0, 1, 2], [0], first + second + third);
  }

  lemma StalePosts(codec: Codec, first: Batch, second: Batch, third: Batch)
    ensures Exec(codec, Stale(first, second, third), [Post(2, Delivered), Post(1, Delivered), Post(1, Delivered)]).resolved == [0, 2, 0, 1]
  {
    var s := Stale(first, second, third);
    var s1 := Next(codec, s, Post(2, Delivered));
    assert s1.resolved == [0, 2] && s1.drains == [Done, Posting([0, 1], 0, 2), Finishing([], 3)];
    var s2 := Next(codec, s1, Post(1, Delivered));
    assert s2.resolved == [0, 2, 0] && s2.drains[1] == Posting([0, 1], 1, 2);
    var s3 := Next(codec, s2, Post(1, Delivered));
    assert s3.resolved == [0, 2, 0, 1];
    hide Next, Exec;
    NoSteps(codec, s3);
    Extend(codec, s2, Post(1, Delivered), []);
    Extend(codec, s1, Post(1, Delivered), [Post(1, Delivered)] + []);
    Extend(codec, s, Post(2, Delivered), [Post(1, Delivered)] + ([Post(1, Delivered)] + []));
    assert [Post(2, Delivered)] + ([Post(1, Delivered)] + ([Post(1, Delivered)] + [])) == [Post(2, Delivered), Post(1, Delivered), Post(1, Delivered)];
  }

  lemma OutOfOrder(resolved: seq<nat>, j: nat, k: nat)
    requires j < k < |resolved| && resolved[k] !in resolved[..k] && resolved[k] < resolved[j]
    ensures !FirstsIncrease(resolved)
  {
  }

  /** Three batches, three overlapping drains, no crash and no answer but success: the third batch is resolved before
      the second, and the first twice. */
  lemma OverlapBreaksOrder(codec: Codec, first: Batch, second: Batch, third: Batch)
    requires first != [] && second != [] && third != []
    ensures var run := [Consume(first), Flush, Snapshot(0), Consume(second), Flush, Post(0, Delivered)]
                     + [Snapshot(1), Finish(0), Consume(third), Flush, Snapshot(2)]
                     + [Post(2, Delivered), Post(1, Delivered), Post(1, Delivered)];
      Exec(codec, START, run).resolved == [0, 2, 0, 1] && !FirstsIncrease(Exec(codec, START, run).resolved)
  {
    hide Next, Exec, Stale, Overlapped, FirstsIncrease;
    var start := [Consume(first), Flush, Snapshot(0), Consume(second), Flush, Post(0, Delivered)];
    var middle := [Snapshot(1), Finish(0), Consume(third), Flush, Snapshot(2)];
    OverlapIsReached(codec, first, second, Delivered);
    StaleIsReached(codec, first, second, third);
    StalePosts(codec, first, second, third);
    ExecConcat(codec, START, start, middle);
    ExecConcat(codec, START, start + middle, [Post(2, Delivered), Post(1, Delivered), Post(1, Delivered)]);
    OutOfOrder([0, 2, 0, 1], 1, 3);
  }

  // ----- Rewrites that are cut -----

  lemma OneSurvives(codec: Codec, first: Batch, written: nat)
    ensures Survivors(codec, [first], [0], written) == if written < |codec.encode(first)| then 0 else 1
  {
    assert [0][..0] == [] && Contents([first], []) == [];
    assert EndOf(codec, [first], [0], 0) == |codec.encode(first)|;
  }

  lemma CutRewriteEnds(codec: Codec, first: Batch, written: nat)
    requires Faithful(codec)
    ensures var s := Next(codec, FirstTaken(first), Post(0, RetryLater));
      var u := Next(codec, s, CrashInRewrite(0, written));
      && Ids(u.disk) == (if written < |codec.encode(first)| then [] else [0])
      && u.batches == [first] && u.resolved == [] && u.durable == [0]
  {
    hide Ids, CutRewritten, Survivors, Faithful;
    assert [0][0..] == [0] && [0][..0] == [] && [0][..1] == [0];
    OneSurvives(codec, first, written);
    CutRewrittenIds(codec, [first], [0], written);
  }

  /** A first batch that has to wait, and a crash while it is being rewritten: it is lost unless its line was complete. */
  lemma CutRewriteLosesBatch(codec: Codec, first: Batch, written: nat)
    requires Faithful(codec) && OnlyWholeLinesDecode(codec) && first != []
    ensures var run := [Consume(first), Flush, Snapshot(0)] + [Post(0, RetryLater), CrashInRewrite(0, written)];
      && Peek(codec, TextExec(codec, TEXT_START, run).text) == (if written < |codec.encode(first)| then [] else [first])
      && Exec(codec, START, run).resolved == [] && Exec(codec, START, run).durable == [0]
  {
    hide Next, Exec, Peek, TextExec, Faithful, OnlyWholeLinesDecode, Ids, Contents, StateOk, View, FirstTaken;
    var start, end := [Consume(first), Flush, Snapshot(0)], [Post(0, RetryLater), CrashInRewrite(0, written)];
    var s4 := Next(codec, FirstTaken(first), Post(0, RetryLater));
    FirstIsTaken(codec, first);
    NoSteps(codec, Next(codec, s4, CrashInRewrite(0, written)));
    Extend(codec, s4, CrashInRewrite(0, written), []);
    Extend(codec, FirstTaken(first), Post(0, RetryLater), [CrashInRewrite(0, written)] + []);
    assert [Post(0, RetryLater)] + ([CrashInRewrite(0, written)] + []) == end;
    ExecConcat(codec, START, start, end);
    CutRewriteEnds(codec, first, written);
    RunRefines(codec, start + end);
    ContentsOfOne(first);
  }

  lemma ContentsOfOne(first: Batch)
    ensures Contents([first], [0]) == [first] && Contents([first], []) == []
  {
  }

  lemma TwoLines()
    ensures Ids(Disk([[Full(0)], [Full(1)]], [])) == [0, 1]
  {
    assert [[Full(0)], [Full(1)]][..1] == [[Full(0)]] && [[Full(0)]][..0] == [];
  }
}
