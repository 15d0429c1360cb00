/** In which order batches are resolved, and what one drain at a time keeps besides. */
module ForwarderOrder {
  import opened DurableQueue
  import opened EventForwarder
  import opened QueueDisk
  import opened ForwarderHistory
  import opened ForwarderDelivery

  // ----- First deliveries -----

  /** A batch is resolved only after every batch written before it. */
  ghost predicate InOrder(s: State) {
    forall k, id :: 0 <= k < |s.resolved| && id in s.durable && id < s.resolved[k] ==> id in s.resolved[..k]
  }

  /** Each batch that is resolved for the first time was written after all that have been resolved before it. */
  ghost predicate FirstsIncrease(resolved: seq<nat>) {
    forall j, k :: 0 <= j < k < |resolved| && resolved[k] !in resolved[..k] ==> resolved[j] < resolved[k]
  }

  lemma StepGrows(codec: Codec, s: State, step: Step)
    ensures Grew(s, Next(codec, s, step)) && (!step.Post? ==> Next(codec, s, step).resolved == s.resolved)
  {
    hide CutRewritten, CutAppended, Appended, Rewritten;
    match step
    case Post(d, outcome) =>
    case _ =>
  }

  lemma OrderStays(s: State, u: State)
    requires Numbered(s) && InOrder(s) && Grew(s, u) && u.resolved == s.resolved
    ensures InOrder(u)
  {
    hide DrainOk;
    forall k, id | 0 <= k < |u.resolved| && id in u.durable && id < u.resolved[k] ensures id in u.resolved[..k] {
      var i :| 0 <= i < |u.durable| && u.durable[i] == id;
      assert s.resolved[k] in s.durable;
      assert i < |s.durable| && s.durable[i] == id;
    }
  }

  lemma PostKeepsOrder(s: State, d: nat, outcome: Outcome)
    requires Numbered(s) && InOrder(s) && d < |s.drains| && s.drains[d].Posting? && Covers(s, s.drains[d])
    ensures InOrder(AfterPost(s, d, outcome))
  {
    var u, p := AfterPost(s, d, outcome), s.drains[d];
    assert DrainOk(s, p);
    if u.resolved != s.resolved {
      assert u.resolved == s.resolved + [p.pending[p.next]];
      forall k, id | 0 <= k < |u.resolved| && id in u.durable && id < u.resolved[k] ensures id in u.resolved[..k] {
        if k < |s.resolved| {
          assert u.resolved[..k] == s.resolved[..k];
        } else {
          assert u.resolved[..k] == s.resolved;
          assert id in s.resolved || id in InHand(p);
        }
      }
    }
  }

  lemma {:induction false} RunKeepsOrder(codec: Codec, s: State, steps: seq<Step>)
    requires Faithful(codec) && Numbered(s) && Kept(s) && AllCover(s) && InOrder(s) && HarmlessRun(codec, s, steps)
    ensures InOrder(Exec(codec, s, steps)) && Kept(Exec(codec, s, steps)) && Numbered(Exec(codec, s, steps))
    decreases |steps|
  {
    hide Numbered, Kept, Harmless, InOrder, Faithful;
    if steps != [] {
      var step, u := steps[0], Next(codec, s, steps[0]);
      StepKeepsIff(codec, s, step);
      StepGrows(codec, s, step);
      if step.Post? && step.drain < |s.drains| && s.drains[step.drain].Posting? {
        PostKeepsOrder(s, step.drain, step.outcome);
      } else {
        OrderStays(s, u);
      }
      RunKeepsOrder(codec, u, steps[1..]);
    }
  }

  lemma InOrderIncreases(s: State)
    requires Numbered(s) && InOrder(s)
    ensures FirstsIncrease(s.resolved)
  {
    hide DrainOk, Ids;
    var r := s.resolved;
    forall j, k | 0 <= j < k < |r| && r[k] !in r[..k] ensures r[j] < r[k] {
      assert r[k] in s.durable;
      assert r[..k][j] == r[j] && r[..j] == r[..k][..j];
      assert r[k] !in r[..j];
    }
  }

  /** In every run that keeps every batch, drains overlapping or not, first deliveries follow the order of writing, and
      none is left out. */
  lemma FirstDeliveriesInOrder(codec: Codec, steps: seq<Step>)
    requires Faithful(codec) && HarmlessRun(codec, START, steps)
    ensures InOrder(Exec(codec, START, steps)) && FirstsIncrease(Exec(codec, START, steps).resolved)
  {
    hide FirstsIncrease, InOrder, Numbered;
    StartIsOk();
    StartIsInOrder();
    RunKeepsOrder(codec, START, steps);
    InOrderIncreases(Exec(codec, START, steps));
  }

  lemma StartIsInOrder()
    ensures InOrder(START)
  {
  }

  // ----- One drain at a time -----

  predicate NoneActive(s: State) {
    forall d :: 0 <= d < |s.drains| ==> s.drains[d].Done?
  }

  /** One drain at a time: none is begun while another is under way. */
  predicate Serial(s: State, step: Step) {
    step.Flush? ==> NoneActive(s)
  }

  predicate SerialRun(codec: Codec, s: State, steps: seq<Step>)
    decreases |steps|
  {
    steps != [] ==> Serial(s, steps[0]) && SerialRun(codec, Next(codec, s, steps[0]), steps[1..])
  }

  predicate OneActive(s: State) {
    forall d, e :: 0 <= d < e < |s.drains| ==> s.drains[d].Done? || s.drains[e].Done?
  }

  lemma OthersAreDone(s: State, d: nat)
    requires OneActive(s) && d < |s.drains| && !s.drains[d].Done?
    ensures forall e :: 0 <= e < |s.drains| && e != d ==> s.drains[e].Done?
  {
  }

  // ----- First deliveries, one drain at a time, whatever is lost -----

  /** The unresolved ones of these were written after all that have been resolved. */
  predicate Above(resolved: seq<nat>, ids: seq<nat>) {
    forall j, k :: 0 <= j < |resolved| && 0 <= k < |ids| && ids[k] !in resolved ==> resolved[j] < ids[k]
  }

  predicate PostedSoFar(s: State, d: Drain) {
    match d
    case Posting(pending, next, _) =>
      pending == Ids(s.disk) && next < |pending| && forall k :: 0 <= k < next ==> pending[k] in s.resolved
    case Finishing(rest, _) => Above(s.resolved, rest)
    case _ => true
  }

  ghost predicate FirstsAhead(s: State) {
    && FirstsIncrease(s.resolved) && Above(s.resolved, Ids(s.disk)) && OneActive(s)
    && forall d :: 0 <= d < |s.drains| ==> PostedSoFar(s, s.drains[d])
  }

  lemma PrefixAbove(resolved: seq<nat>, ids: seq<nat>, k: nat)
    requires Above(resolved, ids) && k <= |ids|
    ensures Above(resolved, ids[..k]) && Above(resolved, ids[k..])
  {
  }

  lemma NewIsAbove(s: State, ids: seq<nat>)
    requires Numbered(s) && Above(s.resolved, ids)
    ensures Above(s.resolved, ids + [|s.batches|])
  {
    hide Ids, DrainOk;
    assert forall j :: 0 <= j < |s.resolved| ==> s.resolved[j] in s.durable;
  }

  lemma FlushKeepsFirsts(codec: Codec, s: State)
    requires Numbered(s) && FirstsAhead(s) && NoneActive(s)
    ensures FirstsAhead(Next(codec, s, Flush))
  {
    hide Appended, LineIds, Numbered, FirstsIncrease, Above;
    var before := LinesIds(s.disk.lines);
    AppendedIds(s.disk, |s.batches|);
    assert before == Ids(s.disk)[..|before|];
    PrefixAbove(s.resolved, Ids(s.disk), |before|);
    NewIsAbove(s, before);
    assert before + [] == before;
  }

  lemma CutAppendKeepsFirsts(codec: Codec, s: State, written: nat)
    requires Numbered(s) && FirstsAhead(s)
    ensures FirstsAhead(CutAppend(codec, s, written))
  {
    hide CutAppended, LineIds, Numbered, FirstsIncrease, Above;
    var before := LinesIds(s.disk.lines);
    CutAppendedIds(codec, s.memory, s.disk, |s.batches|, written);
    assert before == Ids(s.disk)[..|before|];
    PrefixAbove(s.resolved, Ids(s.disk), |before|);
    NewIsAbove(s, before);
    assert before + [] == before;
  }

  lemma SnapshotKeepsFirsts(s: State, d: nat)
    requires FirstsAhead(s) && d < |s.drains| && s.drains[d].Snapshotting?
    ensures FirstsAhead(TakeSnapshot(s, d))
  {
    hide Ids, FirstsIncrease, Above;
    OthersAreDone(s, d);
  }

  /** Answering the next of what is on disk, everything before it answered. */
  lemma AnswerKeepsFirsts(resolved: seq<nat>, ids: seq<nat>, next: nat)
    requires FirstsIncrease(resolved) && Above(resolved, ids) && Increasing(ids) && next < |ids|
    requires forall k :: 0 <= k < next ==> ids[k] in resolved
    ensures FirstsIncrease(resolved + [ids[next]]) && Above(resolved + [ids[next]], ids)
    ensures forall k :: 0 <= k <= next ==> ids[k] in resolved + [ids[next]]
  {
    var after := resolved + [ids[next]];
    assert after[|resolved|] == ids[next];
    forall k | 0 <= k <= next ensures ids[k] in after {
      if k < next { var j :| 0 <= j < |resolved| && resolved[j] == ids[k]; assert after[j] == ids[k]; }
    }
    forall j, k | 0 <= j < k < |after| && after[k] !in after[..k] ensures after[j] < after[k] {
      if k < |resolved| { assert after[..k] == resolved[..k]; } else { assert after[..k] == resolved; }
    }
    forall j, k | 0 <= j < |after| && 0 <= k < |ids| && ids[k] !in after ensures after[j] < ids[k] {
      assert forall i :: 0 <= i < |resolved| ==> after[i] == resolved[i];
      assert ids[k] !in resolved && k > next;
    }
  }

  lemma PostKeepsFirsts(s: State, d: nat, outcome: Outcome)
    requires Numbered(s) && FirstsAhead(s) && d < |s.drains| && s.drains[d].Posting?
    ensures FirstsAhead(AfterPost(s, d, outcome))
  {
    hide Ids, FirstsIncrease, Above, Increasing;
    var p := s.drains[d];
    OthersAreDone(s, d);
    assert PostedSoFar(s, p);
    PrefixAbove(s.resolved, p.pending, p.next);
    AnswerKeepsFirsts(s.resolved, p.pending, p.next);
    NothingIsAbove(s.resolved + [p.pending[p.next]]);
  }

  lemma NothingIsAbove(resolved: seq<nat>)
    ensures Above(resolved, [])
  {
  }

  lemma RewriteKeepsFirsts(codec: Codec, s: State, step: Step)
    requires Faithful(codec) && FirstsAhead(s) && (step.Finish? || step.CrashInRewrite?)
    ensures FirstsAhead(Next(codec, s, step))
  {
    hide Ids, FirstsIncrease, Above, Rewritten, CutRewritten, Faithful;
    var d := step.drain;
    if d < |s.drains| && s.drains[d].Finishing? {
      var rest := s.drains[d].rest;
      OthersAreDone(s, d);
      assert PostedSoFar(s, s.drains[d]);
      RewrittenIds(rest);
      if step.CrashInRewrite? && InRange(rest, |s.batches|) {
        CutRewrittenIds(codec, s.batches, rest, step.written);
        PrefixAbove(s.resolved, rest, Survivors(codec, s.batches, rest, step.written));
      }
    }
  }

  lemma StepKeepsFirsts(codec: Codec, s: State, step: Step)
    requires Faithful(codec) && Numbered(s) && FirstsAhead(s) && Serial(s, step)
    ensures FirstsAhead(Next(codec, s, step))
  {
    hide Ids, Faithful, Numbered, FirstsIncrease, Above, CutAppend, AfterPost, TakeSnapshot;
    match step
    case Consume(_) =>
    case Flush => FlushKeepsFirsts(codec, s);
    case Snapshot(d) => if d < |s.drains| && s.drains[d].Snapshotting? { SnapshotKeepsFirsts(s, d); }
    case Post(d, outcome) => if d < |s.drains| && s.drains[d].Posting? { PostKeepsFirsts(s, d, outcome); }
    case Finish(_) => RewriteKeepsFirsts(codec, s, step);
    case Crash =>
    case CrashInAppend(written) => if s.memory != [] { CutAppendKeepsFirsts(codec, s, written); }
    case CrashInRewrite(_, _) => RewriteKeepsFirsts(codec, s, step);
  }

  lemma {:induction false} RunKeepsFirsts(codec: Codec, s: State, steps: seq<Step>)
    requires Faithful(codec) && Numbered(s) && FirstsAhead(s) && SerialRun(codec, s, steps)
    ensures FirstsAhead(Exec(codec, s, steps))
    decreases |steps|
  {
    hide Numbered, FirstsAhead, Serial, Faithful, Next;
    if steps != [] {
      StepKeepsFirsts(codec, s, steps[0]);
      StepKeepsIff(codec, s, steps[0]);
      RunKeepsFirsts(codec, Next(codec, s, steps[0]), steps[1..]);
    }
  }

  lemma StartIsAhead()
    ensures FirstsAhead(START)
  {
  }

  /** One drain at a time, in every history of consume, crashes, also in the middle of a write, and replays: first
      deliveries follow the order of writing, whatever else was lost. */
  lemma SerialFirstDeliveriesInOrder(codec: Codec, steps: seq<Step>)
    requires Faithful(codec) && SerialRun(codec, START, steps)
    ensures FirstsIncrease(Exec(codec, START, steps).resolved)
  {
    hide FirstsIncrease, Numbered, Above;
    StartIsOk();
    StartIsAhead();
    RunKeepsFirsts(codec, START, steps);
  }

  // ----- What one drain at a time leaves on disk -----

  /** Nothing is appended to an unfinished line, but for a torn piece to one that holds no batch, or the only readable
      one, resolved; and a rewrite is not cut before its last line break, unless all its batches are resolved and
      none survives. */
  predicate Clean(codec: Codec, s: State, step: Step) {
    match step
    case Flush => s.memory == [] || s.disk.tail == []
    case CrashInAppend(written) =>
      || s.memory == [] || written == 0 || s.disk.tail == []
      || (written < |codec.encode(s.memory)|
          && (LineIds(s.disk.tail) == [] || (LinesIds(s.disk.lines) == [] && LineIds(s.disk.tail)[0] in s.resolved)))
    case CrashInRewrite(d, written) =>
      d < |s.drains| && s.drains[d].Finishing? && s.drains[d].rest != [] ==> CleanCut(codec, s, s.drains[d].rest, written)
    case _ => true
  }

  predicate CleanCut(codec: Codec, s: State, rest: seq<nat>, written: nat)
    requires rest != []
  {
    && InRange(rest, |s.batches|)
    && (|| written + 1 >= |Text(codec, Contents(s.batches, rest))|
        || (written < EndOf(codec, s.batches, rest, 0) && forall k :: 0 <= k < |rest| ==> rest[k] in s.resolved))
  }

  predicate CleanRun(codec: Codec, s: State, steps: seq<Step>)
    decreases |steps|
  {
    steps != [] ==> Clean(codec, s, steps[0]) && CleanRun(codec, Next(codec, s, steps[0]), steps[1..])
  }

  predicate IsSuffix(ids: seq<nat>, all: seq<nat>) {
    |ids| <= |all| && ids == all[|all| - |ids|..]
  }

  /** The drain works on what is on disk, and on everything that has been written. */
  predicate Current(s: State, d: Drain) {
    match d
    case Posting(pending, next, since) => pending == Ids(s.disk) && since == |s.batches| && next < |pending|
    case Finishing(rest, since) => IsSuffix(rest, Ids(s.disk)) && since == |s.batches|
    case _ => true
  }

  predicate Suffix(s: State) {
    && IsSuffix(Ids(s.disk), s.durable)
    && (forall d :: 0 <= d < |s.drains| ==> Current(s, s.drains[d]))
    && OneActive(s)
  }

  lemma SuffixSnoc(ids: seq<nat>, all: seq<nat>, n: nat)
    requires IsSuffix(ids, all)
    ensures IsSuffix(ids + [n], all + [n])
  {
  }

  lemma SuffixOfSuffix(a: seq<nat>, b: seq<nat>, all: seq<nat>)
    requires IsSuffix(a, b) && IsSuffix(b, all)
    ensures IsSuffix(a, all)
  {
  }

  lemma RestIsSuffix(ids: seq<nat>, k: nat)
    requires k <= |ids|
    ensures IsSuffix(ids[k..], ids)
  {
  }

  lemma FlushKeepsSuffix(codec: Codec, s: State)
    requires Suffix(s) && NoneActive(s) && Clean(codec, s, Flush)
    ensures Suffix(Next(codec, s, Flush))
  {
    hide Ids, IsSuffix, Appended;
    AppendedIds(s.disk, |s.batches|);
    if s.memory != [] {
      assert Ids(s.disk) == LinesIds(s.disk.lines) by { NoTail(s.disk); }
      SuffixSnoc(Ids(s.disk), s.durable, |s.batches|);
    }
  }

  lemma NoTail(disk: Disk)
    requires disk.tail == []
    ensures Ids(disk) == LinesIds(disk.lines)
  {
  }

  lemma CutAppendKeepsSuffix(codec: Codec, s: State, written: nat)
    requires Faithful(codec) && Suffix(s) && s.memory != [] && (s.disk.tail == [] || written == 0)
    ensures Suffix(CutAppend(codec, s, written))
  {
    assert FaithfulOn(codec, s.memory);
    hide Ids, IsSuffix, CutAppended, Faithful;
    CutAppendedIds(codec, s.memory, s.disk, |s.batches|, written);
    if s.disk.tail == [] { NoTail(s.disk); }
    SuffixSnoc(Ids(s.disk), s.durable, |s.batches|);
  }

  lemma ShorterSuffix(ids: seq<nat>, k: nat, all: seq<nat>)
    requires Increasing(all) && IsSuffix(ids, all) && k <= |ids|
    ensures IsSuffix(ids[..k], all) <==> k == 0 || k == |ids|
  {
    if 0 < k < |ids| {
      assert ids[..k][k - 1] == all[|all| - |ids| + k - 1];
      assert all[|all| - k..][k - 1] == all[|all| - 1];
    } else if k == |ids| {
      assert ids[..k] == ids;
    }
  }

  /** A torn piece put onto an unfinished line that holds no unresolved batch. */
  lemma TornOntoTailKeepsIff(codec: Codec, s: State, written: nat)
    requires Numbered(s) && Suffix(s) && s.memory != [] && s.disk.tail != [] && 0 < written < |codec.encode(s.memory)|
    ensures Suffix(CutAppend(codec, s, written)) <==> LineIds(s.disk.tail) == [] || LinesIds(s.disk.lines) == []
  {
    hide LineIds, LinesIds, Current, DrainOk, CutAppended;
    var u, before, tailIds := CutAppend(codec, s, written), LinesIds(s.disk.lines), LineIds(s.disk.tail);
    CutAppendedIds(codec, s.memory, s.disk, |s.batches|, written);
    assert Ids(u.disk) == before && Ids(s.disk) == before + tailIds;
    assert before == Ids(s.disk)[..|before|];
    ShorterSuffix(Ids(s.disk), |before|, s.durable);
  }

  lemma DrainKeepsSuffix(s: State, u: State, d: nat)
    requires Suffix(s) && d < |s.drains| && !s.drains[d].Done?
    requires u.disk == s.disk && u.batches == s.batches && u.durable == s.durable
    requires |u.drains| == |s.drains| && u.drains == s.drains[d := u.drains[d]] && Current(u, u.drains[d])
    ensures Suffix(u)
  {
    hide Ids, IsSuffix;
    forall e | 0 <= e < |u.drains| ensures Current(u, u.drains[e]) {
      assert Current(s, s.drains[e]);
    }
  }

  lemma PostKeepsSuffix(s: State, d: nat, outcome: Outcome)
    requires Suffix(s) && d < |s.drains| && s.drains[d].Posting?
    ensures Suffix(AfterPost(s, d, outcome))
  {
    hide Ids, IsSuffix;
    var u, p := AfterPost(s, d, outcome), s.drains[d];
    assert Current(s, p);
    RestIsSuffix(p.pending, p.next);
    RestIsSuffix(p.pending, |p.pending|);
    assert p.pending[|p.pending|..] == [];
    DrainKeepsSuffix(s, u, d);
  }

  lemma SnapshotKeepsSuffix(s: State, d: nat)
    requires Suffix(s) && d < |s.drains| && s.drains[d].Snapshotting?
    ensures Suffix(TakeSnapshot(s, d))
  {
    hide Ids, IsSuffix;
    DrainKeepsSuffix(s, TakeSnapshot(s, d), d);
  }

  lemma FinishKeepsSuffix(codec: Codec, s: State, d: nat)
    requires Suffix(s) && d < |s.drains| && s.drains[d].Finishing?
    ensures Suffix(Next(codec, s, Finish(d)))
  {
    hide Ids, IsSuffix, Rewritten;
    assert Current(s, s.drains[d]);
    RewrittenIds(s.drains[d].rest);
    SuffixOfSuffix(s.drains[d].rest, Ids(s.disk), s.durable);
    assert forall e :: 0 <= e < |s.drains| && e != d ==> s.drains[e].Done?;
  }

  lemma CutRewriteKeepsSuffixIff(codec: Codec, s: State, d: nat, written: nat)
    requires Faithful(codec) && Numbered(s) && Suffix(s) && d < |s.drains| && s.drains[d].Finishing? && s.drains[d].rest != []
    requires InRange(s.drains[d].rest, |s.batches|)
    ensures var rest := s.drains[d].rest;
      (Suffix(Next(codec, s, CrashInRewrite(d, written))) && RewriteHarmless(codec, s, rest, written)) <==> CleanCut(codec, s, rest, written)
  {
    hide Ids, CutRewritten, Text, EndOf, Faithful, DrainOk;
    var rest := s.drains[d].rest;
    var k := Survivors(codec, s.batches, rest, written);
    assert Current(s, s.drains[d]);
    CutRewrittenIds(codec, s.batches, rest, written);
    SuffixOfSuffix(rest, Ids(s.disk), s.durable);
    ShorterSuffix(rest, k, s.durable);
    SurvivorCounts(codec, s.batches, rest, written);
    forall j | 0 <= j < |rest| ensures j < k <==> written >= EndOf(codec, s.batches, rest, j) {
      SurvivorsAre(codec, s.batches, rest, written, j);
    }
    assert Suffix(Next(codec, s, CrashInRewrite(d, written))) <==> k == 0 || k == |rest|;
  }

  lemma SurvivorCounts(codec: Codec, batches: seq<Batch>, ids: seq<nat>, written: nat)
    requires InRange(ids, |batches|) && ids != []
    ensures Survivors(codec, batches, ids, written) == |ids| <==> written + 1 >= |Text(codec, Contents(batches, ids))|
    ensures Survivors(codec, batches, ids, written) == 0 <==> written < EndOf(codec, batches, ids, 0)
  {
    var n := |ids| - 1;
    SurvivorsAre(codec, batches, ids, written, n);
    SurvivorsAre(codec, batches, ids, written, 0);
    TextOfSnoc(codec, batches, ids, n);
    assert ids[..n + 1] == ids;
  }

  lemma CrashInRewriteKeepsIff(codec: Codec, s: State, d: nat, written: nat)
    requires Faithful(codec) && Numbered(s) && Suffix(s) && d < |s.drains| && s.drains[d].Finishing? && s.drains[d].rest != []
    ensures var step := CrashInRewrite(d, written);
      Suffix(Next(codec, s, step)) && Harmless(codec, s, step) <==> Clean(codec, s, step)
  {
    hide Ids, Faithful, Suffix, IsSuffix, RewriteHarmless, CleanCut, Next;
    assert DrainOk(s, s.drains[d]);
    CutRewriteKeepsSuffixIff(codec, s, d, written);
    NoneIsLate(s, d);
  }

  lemma NoneIsLate(s: State, d: nat)
    requires Numbered(s) && Suffix(s) && d < |s.drains| && s.drains[d].Finishing?
    ensures LateAreResolved(s, s.drains[d].since)
  {
    hide Ids, IsSuffix, DrainOk;
    assert Current(s, s.drains[d]);
  }

  lemma CrashInAppendKeepsIff(codec: Codec, s: State, written: nat)
    requires Faithful(codec) && Numbered(s) && Suffix(s)
    ensures var step := CrashInAppend(written);
      Suffix(Next(codec, s, step)) && Harmless(codec, s, step) <==> Clean(codec, s, step)
  {
    hide Ids, Faithful, IsSuffix, Numbered, Suffix, CutAppend, LineIds, LinesIds;
    if s.memory != [] {
      if s.disk.tail == [] || written == 0 {
        CutAppendKeepsSuffix(codec, s, written);
      } else if written < |codec.encode(s.memory)| {
        TornOntoTailKeepsIff(codec, s, written);
        AtMostOneId(s.disk.tail);
      }
    }
  }

  lemma AtMostOneId(line: seq<Piece>)
    ensures |LineIds(line)| <= 1
  {
  }

  /** One drain at a time: a step leaves the readable batches a suffix of the written ones, and every batch kept,
      exactly when it is clean. */
  lemma StepKeepsSuffixIff(codec: Codec, s: State, step: Step)
    requires Faithful(codec) && Numbered(s) && Suffix(s) && Serial(s, step)
    ensures Suffix(Next(codec, s, step)) && Harmless(codec, s, step) <==> Clean(codec, s, step)
  {
    hide Ids, IsSuffix, Faithful, DrainOk, CutAppend, AfterPost, TakeSnapshot, RewriteHarmless, CleanCut;
    match step
    case Consume(events) =>
    case Flush => if Clean(codec, s, step) { FlushKeepsSuffix(codec, s); }
    case Snapshot(d) => if d < |s.drains| && s.drains[d].Snapshotting? { SnapshotKeepsSuffix(s, d); }
    case Post(d, outcome) => if d < |s.drains| && s.drains[d].Posting? { PostKeepsSuffix(s, d, outcome); }
    case Finish(d) =>
      if d < |s.drains| && s.drains[d].Finishing? {
        FinishKeepsSuffix(codec, s, d);
        NoneIsLate(s, d);
      }
    case Crash =>
    case CrashInAppend(written) => CrashInAppendKeepsIff(codec, s, written);
    case CrashInRewrite(d, written) =>
      if d < |s.drains| && s.drains[d].Finishing? && s.drains[d].rest != [] { CrashInRewriteKeepsIff(codec, s, d, written); }
  }

  /** What can be read is a contiguous suffix of what was written, and everything before it has been resolved. */
  ghost predicate Contiguous(s: State) {
    && IsSuffix(Ids(s.disk), s.durable)
    && forall i :: 0 <= i < |s.durable| - |Ids(s.disk)| ==> s.durable[i] in s.resolved
  }

  ghost predicate AlwaysContiguous(codec: Codec, s: State, steps: seq<Step>)
    decreases |steps|
  {
    Contiguous(s) && (steps != [] ==> AlwaysContiguous(codec, Next(codec, s, steps[0]), steps[1..]))
  }

  lemma ContiguousIff(s: State)
    requires Numbered(s)
    ensures Contiguous(s) <==> Kept(s) && IsSuffix(Ids(s.disk), s.durable)
  {
    hide Ids, DrainOk;
    var left := |s.durable| - |Ids(s.disk)|;
    if Contiguous(s) {
      forall id | id in s.durable ensures id in s.resolved || id in Ids(s.disk) {
        var i :| 0 <= i < |s.durable| && s.durable[i] == id;
        if i >= left { assert Ids(s.disk)[i - left] == id; }
      }
    } else if Kept(s) && IsSuffix(Ids(s.disk), s.durable) {
      forall i | 0 <= i < left ensures s.durable[i] in s.resolved {
        assert s.durable[i] in s.durable && s.durable[i] !in Ids(s.disk);
      }
    }
  }

  /** After a step of a serial run, the suffix alone already gives what the drains know. */
  lemma SuffixAgain(codec: Codec, s: State, step: Step)
    requires Faithful(codec) && Numbered(s) && Suffix(s) && Serial(s, step) && Harmless(codec, s, step)
    ensures Suffix(Next(codec, s, step)) <==> IsSuffix(Ids(Next(codec, s, step).disk), Next(codec, s, step).durable)
  {
    hide Ids, IsSuffix, Faithful, DrainOk, AfterPost, TakeSnapshot, RewriteHarmless, CutRewritten, CutAppended;
    match step
    case CrashInAppend(_) =>
      if s.memory == [] { assert Next(codec, s, step) == s; } else { assert Next(codec, s, step).drains == []; }
    case CrashInRewrite(_, _) =>
      var u := Next(codec, s, step);
      assert u == s || u.drains == [];
    case _ =>
      assert Clean(codec, s, step);
      StepKeepsSuffixIff(codec, s, step);
  }

  lemma StartIsASuffix()
    ensures Suffix(START) && InOrder(START)
  {
  }

  lemma {:induction false} AlwaysContiguousFrom(codec: Codec, s: State, steps: seq<Step>)
    requires Faithful(codec) && Numbered(s) && Kept(s) && AllCover(s) && Suffix(s) && SerialRun(codec, s, steps)
    ensures AlwaysContiguous(codec, s, steps) <==> CleanRun(codec, s, steps)
    decreases |steps|
  {
    ContiguousIff(s);
    hide Numbered, Kept, AllCover, Harmless, Clean, Contiguous, Next, Serial, IsSuffix, Ids;
    if steps != [] {
      var step, u := steps[0], Next(codec, s, steps[0]);
      StepKeepsIff(codec, s, step);
      StepKeepsSuffixIff(codec, s, step);
      ContiguousIff(u);
      if Clean(codec, s, step) {
        AlwaysContiguousFrom(codec, u, steps[1..]);
      } else {
        if Harmless(codec, s, step) { SuffixAgain(codec, s, step); }
        assert !AlwaysContiguous(codec, u, steps[1..]);
      }
    }
  }

  /** One drain at a time, in every history: at every moment what can be read is a contiguous suffix of what was written,
      with everything before it resolved, exactly when each step is clean. */
  lemma AlwaysContiguousIff(codec: Codec, steps: seq<Step>)
    requires Faithful(codec) && SerialRun(codec, START, steps)
    ensures AlwaysContiguous(codec, START, steps) <==> CleanRun(codec, START, steps)
  {
    hide Numbered, Kept, AllCover, Suffix, Clean, Contiguous, Next, Serial, Faithful;
    StartIsOk();
    StartIsASuffix();
    AlwaysContiguousFrom(codec, START, steps);
  }

  // ----- Without crashes -----

  function Flatten(batches: seq<Batch>): Batch
    decreases |batches|
  {
    if batches == [] then [] else Flatten(batches[..|batches| - 1]) + batches[|batches| - 1]
  }

  function Upto(n: nat): seq<nat> {
    seq(n, i requires 0 <= i < n => i)
  }

  /** How many batches have been answered: those that left the disk, and those the drain under way is done with. */
  predicate AnsweredOnce(s: State) {
    && (forall d :: 0 <= d < |s.drains| ==>
          match s.drains[d]
          case Posting(pending, next, _) => |pending| <= |s.durable| && next <= |pending| && s.resolved == s.durable[..|s.durable| - |pending| + next]
          case Finishing(rest, _) => |rest| <= |s.durable| && s.resolved == s.durable[..|s.durable| - |rest|]
          case _ => true)
    && ((forall d :: 0 <= d < |s.drains| ==> s.drains[d].Done? || s.drains[d].Snapshotting?) ==>
          |Ids(s.disk)| <= |s.durable| && s.resolved == s.durable[..|s.durable| - |Ids(s.disk)|])
  }

  predicate Conserved(s: State) {
    s.disk.tail == [] && s.durable == Upto(|s.batches|) && Flatten(s.batches) + s.memory == s.consumed
  }

  lemma FlattenSnoc(batches: seq<Batch>, batch: Batch)
    ensures Flatten(batches + [batch]) == Flatten(batches) + batch
  {
    assert (batches + [batch])[..|batches|] == batches;
  }

  lemma {:induction false} FlattenSplit(a: seq<Batch>, b: seq<Batch>)
    ensures Flatten(a + b) == Flatten(a) + Flatten(b)
    decreases |b|
  {
    if b == [] {
      assert a + b == a;
    } else {
      var m := |b| - 1;
      assert Flatten(b) == Flatten(b[..m]) + b[m];
      hide Flatten;
      FlattenSplit(a, b[..m]);
      assert a + b == (a + b[..m]) + [b[m]];
      FlattenSnoc(a + b[..m], b[m]);
      assert (Flatten(a) + Flatten(b[..m])) + b[m] == Flatten(a) + (Flatten(b[..m]) + b[m]);
    }
  }

  predicate CrashFree(steps: seq<Step>) {
    forall i :: 0 <= i < |steps| ==> !steps[i].Crash? && !steps[i].CrashInAppend? && !steps[i].CrashInRewrite?
  }

  lemma StepConserves(codec: Codec, s: State, step: Step)
    requires Conserved(s) && !step.Crash? && !step.CrashInAppend? && !step.CrashInRewrite?
    ensures Conserved(Next(codec, s, step))
  {
    hide Flatten, Ids;
    match step
    case Consume(events) => assert Flatten(s.batches) + (s.memory + events) == Flatten(s.batches) + s.memory + events;
    case Flush =>
      if s.memory != [] {
        FlattenSnoc(s.batches, s.memory);
        assert Upto(|s.batches|) + [|s.batches|] == Upto(|s.batches| + 1);
        assert Flatten(s.batches) + s.memory + [] == Flatten(s.batches) + s.memory;
      }
    case _ =>
  }

  lemma FlushAnswersNothing(codec: Codec, s: State)
    requires AnsweredOnce(s) && Conserved(s) && NoneActive(s)
    ensures AnsweredOnce(Next(codec, s, Flush))
  {
    hide Ids, Appended;
    var u := Next(codec, s, Flush);
    AppendedIds(s.disk, |s.batches|);
    NoTail(s.disk);
    assert |u.durable| - |Ids(u.disk)| == |s.durable| - |Ids(s.disk)|;
    assert u.durable[..|u.durable| - |Ids(u.disk)|] == s.durable[..|s.durable| - |Ids(s.disk)|];
  }

  lemma SnapshotAnswersNothing(s: State, d: nat)
    requires AnsweredOnce(s) && Suffix(s) && d < |s.drains| && s.drains[d].Snapshotting?
    ensures AnsweredOnce(TakeSnapshot(s, d))
  {
    hide Ids;
    OthersAreDone(s, d);
  }

  lemma PostAnswersOne(s: State, d: nat, outcome: Outcome)
    requires AnsweredOnce(s) && Suffix(s) && d < |s.drains| && s.drains[d].Posting?
    ensures AnsweredOnce(AfterPost(s, d, outcome))
  {
    hide Ids;
    var u, p := AfterPost(s, d, outcome), s.drains[d];
    OthersAreDone(s, d);
    assert Current(s, p);
    var left := |s.durable| - |p.pending|;
    assert s.durable[left + p.next] == p.pending[p.next];
    assert s.durable[..left + p.next + 1] == s.durable[..left + p.next] + [s.durable[left + p.next]];
    assert u.drains[d] != p;
  }

  lemma FinishAnswersNothing(codec: Codec, s: State, d: nat)
    requires AnsweredOnce(s) && Suffix(s) && d < |s.drains| && s.drains[d].Finishing?
    ensures AnsweredOnce(Next(codec, s, Finish(d)))
  {
    hide Ids, Rewritten;
    RewrittenIds(s.drains[d].rest);
    OthersAreDone(s, d);
  }

  lemma StepAnswersOnce(codec: Codec, s: State, step: Step)
    requires AnsweredOnce(s) && Conserved(s) && Suffix(s) && Serial(s, step)
    requires !step.Crash? && !step.CrashInAppend? && !step.CrashInRewrite?
    ensures AnsweredOnce(Next(codec, s, step))
  {
    hide Ids, Suffix, Conserved, AfterPost, TakeSnapshot;
    match step
    case Consume(_) =>
    case Flush => FlushAnswersNothing(codec, s);
    case Snapshot(d) => if d < |s.drains| && s.drains[d].Snapshotting? { SnapshotAnswersNothing(s, d); }
    case Post(d, outcome) => if d < |s.drains| && s.drains[d].Posting? { PostAnswersOne(s, d, outcome); }
    case Finish(d) => if d < |s.drains| && s.drains[d].Finishing? { FinishAnswersNothing(codec, s, d); }
  }

  lemma {:induction false} RunConserves(codec: Codec, s: State, steps: seq<Step>)
    requires Faithful(codec) && Numbered(s) && Suffix(s) && Conserved(s) && AnsweredOnce(s)
    requires CrashFree(steps) && SerialRun(codec, s, steps)
    ensures var u := Exec(codec, s, steps);
      Suffix(u) && Conserved(u) && AnsweredOnce(u) && CleanRun(codec, s, steps)
    decreases |steps|
  {
    if steps != [] {
      var u := Next(codec, s, steps[0]);
      assert Clean(codec, s, steps[0]);
      assert CrashFree(steps[1..]);
      hide Numbered, Suffix, Clean, Serial, NoneActive, Harmless, Faithful, Conserved, AnsweredOnce, Next;
      StepKeepsSuffixIff(codec, s, steps[0]);
      StepKeepsIff(codec, s, steps[0]);
      StepConserves(codec, s, steps[0]);
      StepAnswersOnce(codec, s, steps[0]);
      RunConserves(codec, u, steps[1..]);
    }
  }

  lemma ConservedAtRest(s: State)
    requires Suffix(s) && Conserved(s) && AnsweredOnce(s) && NoneActive(s)
    ensures InRange(Ids(s.disk), |s.batches|) && |s.resolved| <= |s.batches| && s.resolved == Upto(|s.resolved|)
    ensures Contents(s.batches, Ids(s.disk)) == s.batches[|s.resolved|..]
    ensures Flatten(s.batches[..|s.resolved|]) + Flatten(Contents(s.batches, Ids(s.disk))) + s.memory == s.consumed
  {
    hide Ids;
    var left := |s.resolved|;
    assert s.batches == s.batches[..left] + s.batches[left..];
    FlattenSplit(s.batches[..left], s.batches[left..]);
    assert Contents(s.batches, Ids(s.disk)) == s.batches[left..];
  }

  lemma StartConserves()
    ensures Conserved(START) && AnsweredOnce(START)
  {
  }

  /** Without crashes, one drain at a time, whenever none is under way: the batches resolved, each once and in order,
      what can be read from the file, and what is in memory are, in this order, exactly what was consumed. */
  lemma ConsumedIsConserved(codec: Codec, steps: seq<Step>)
    requires Faithful(codec) && OnlyWholeLinesDecode(codec) && CrashFree(steps) && SerialRun(codec, START, steps)
    requires NoneActive(Exec(codec, START, steps))
    ensures var s := Exec(codec, START, steps);
      && |s.resolved| <= |s.batches| && s.resolved == Upto(|s.resolved|)
      && Flatten(s.batches[..|s.resolved|]) + Flatten(Peek(codec, TextExec(codec, TEXT_START, steps).text)) + s.memory == s.consumed
  {
    StartIsOk();
    StartIsASuffix();
    StartConserves();
    RunConserves(codec, START, steps);
    ConservedAtRest(Exec(codec, START, steps));
    hide Exec, TextExec, Peek, Ids, Suffix, Conserved, AnsweredOnce, NoneActive, SerialRun;
    RunRefines(codec, steps);
  }
}
