/** What every history of the queue keeps, exactly when it keeps it, and in which order batches are resolved. */
module ForwarderDelivery {
  import opened DurableQueue
  import opened EventForwarder
  import opened QueueDisk
  import opened ForwarderHistory

  // ----- The property and the steps that break it -----

  /** Every batch whose line was written is resolved, or can be read from the file. */
  ghost predicate Kept(s: State) {
    forall id :: id in s.durable ==> id in s.resolved || id in Ids(s.disk)
  }

  /** Every batch that was written since the drain read the file has been resolved, by another drain. */
  predicate LateAreResolved(s: State, since: nat) {
    forall k :: 0 <= k < |s.durable| && s.durable[k] >= since ==> s.durable[k] in s.resolved
  }

  predicate RewriteHarmless(codec: Codec, s: State, rest: seq<nat>, written: nat) {
    && InRange(rest, |s.batches|)
    && forall k :: 0 <= k < |rest| ==> rest[k] in s.resolved || written >= EndOf(codec, s.batches, rest, k)
  }

  /** Nothing is appended to an unfinished line, but for a torn piece to one that holds no unresolved batch; no file
      is rewritten while it holds unresolved batches that the drain has not read; and no rewrite is cut before the
      end of the last unresolved batch. */
  predicate Harmless(codec: Codec, s: State, step: Step) {
    match step
    case Flush => s.memory == [] || s.disk.tail == []
    case CrashInAppend(written) =>
      || s.memory == [] || written == 0 || s.disk.tail == []
      || (written < |codec.encode(s.memory)| && forall k :: 0 <= k < |LineIds(s.disk.tail)| ==> LineIds(s.disk.tail)[k] in s.resolved)
    case Finish(d) => d < |s.drains| && s.drains[d].Finishing? ==> LateAreResolved(s, s.drains[d].since)
    case CrashInRewrite(d, written) =>
      d < |s.drains| && s.drains[d].Finishing? && s.drains[d].rest != [] ==>
        LateAreResolved(s, s.drains[d].since) && RewriteHarmless(codec, s, s.drains[d].rest, written)
    case _ => true
  }

  predicate HarmlessRun(codec: Codec, s: State, steps: seq<Step>)
    decreases |steps|
  {
    steps != [] ==> Harmless(codec, s, steps[0]) && HarmlessRun(codec, Next(codec, s, steps[0]), steps[1..])
  }

  ghost predicate AlwaysKept(codec: Codec, s: State, steps: seq<Step>)
    decreases |steps|
  {
    Kept(s) && (steps != [] ==> AlwaysKept(codec, Next(codec, s, steps[0]), steps[1..]))
  }

  // ----- The invariant -----

  predicate Increasing(ids: seq<nat>) {
    forall i, j :: 0 <= i < j < |ids| ==> ids[i] < ids[j]
  }

  predicate Among(ids: seq<nat>, all: seq<nat>) {
    forall k :: 0 <= k < |ids| ==> ids[k] in all
  }

  /** A selection of written batches, in order, from the first `n`. */
  predicate Selection(s: State, ids: seq<nat>, n: nat) {
    Increasing(ids) && Among(ids, s.durable) && InRange(ids, n) && n <= |s.batches|
  }

  predicate DrainOk(s: State, d: Drain) {
    match d
    case Posting(pending, next, since) => next < |pending| && Selection(s, pending, since)
    case Finishing(rest, since) => Selection(s, rest, since)
    case _ => true
  }

  ghost predicate Numbered(s: State) {
    && Selection(s, s.durable, |s.batches|) && Among(s.resolved, s.durable) && Selection(s, Ids(s.disk), |s.batches|)
    && forall d :: 0 <= d < |s.drains| ==> DrainOk(s, s.drains[d])
  }

  /** What a drain still has in hand. */
  function InHand(d: Drain): seq<nat> {
    match d
    case Posting(pending, next, _) => if next <= |pending| then pending[next..] else []
    case Finishing(rest, _) => rest
    case _ => []
  }

  /** A drain has in hand every unresolved batch written before it read the file. */
  ghost predicate Covers(s: State, d: Drain) {
    d.Posting? || d.Finishing? ==>
      forall id :: id in s.durable && id < d.since ==> id in s.resolved || id in InHand(d)
  }

  ghost predicate AllCover(s: State) {
    forall d :: 0 <= d < |s.drains| ==> Covers(s, s.drains[d])
  }

  /** What a step does to the history: it only grows. */
  predicate Grew(s: State, u: State) {
    && s.batches <= u.batches && s.durable <= u.durable && s.resolved <= u.resolved
    && forall k :: |s.durable| <= k < |u.durable| ==> u.durable[k] >= |s.batches|
  }

  lemma AmongStays(ids: seq<nat>, all: seq<nat>, more: seq<nat>)
    requires Among(ids, all) && all <= more
    ensures Among(ids, more)
  {
    assert forall k :: 0 <= k < |all| ==> all[k] == more[k];
  }

  lemma DrainStays(s: State, u: State, d: Drain)
    requires DrainOk(s, d) && Grew(s, u)
    ensures DrainOk(u, d)
    ensures Covers(s, d) ==> Covers(u, d)
  {
    if d.Posting? { AmongStays(d.pending, s.durable, u.durable); }
    if d.Finishing? { AmongStays(d.rest, s.durable, u.durable); }
    if Covers(s, d) && (d.Posting? || d.Finishing?) {
      forall id | id in u.durable && id < d.since ensures id in u.resolved || id in InHand(d) {
        var k :| 0 <= k < |u.durable| && u.durable[k] == id;
        assert k < |s.durable| && s.durable[k] == id;
        if i :| 0 <= i < |s.resolved| && s.resolved[i] == id { assert u.resolved[i] == id; }
      }
    }
  }

  lemma DrainsStay(s: State, u: State)
    requires Numbered(s) && Grew(s, u) && u.drains == s.drains
    ensures forall d :: 0 <= d < |u.drains| ==> DrainOk(u, u.drains[d])
    ensures AllCover(s) ==> AllCover(u)
  {
    hide DrainOk, Covers, Grew;
    forall d | 0 <= d < |u.drains| ensures DrainOk(u, u.drains[d]) && (AllCover(s) ==> Covers(u, u.drains[d])) {
      DrainStays(s, u, s.drains[d]);
    }
  }

  // ----- Appends -----

  lemma IncreasingSnoc(ids: seq<nat>, n: nat)
    requires Increasing(ids) && InRange(ids, n)
    ensures Increasing(ids + [n]) && InRange(ids + [n], n + 1)
  {
  }

  lemma AppendedIds(disk: Disk, id: nat)
    ensures Ids(Appended(disk, id)) == LinesIds(disk.lines) + if disk.tail == [] then [id] else []
  {
    var line := disk.tail + [Full(id)];
    assert (disk.lines + [line])[..|disk.lines|] == disk.lines;
    assert disk.tail == [] ==> line == [Full(id)];
  }

  lemma CutAppendedIds(codec: Codec, batch: Batch, disk: Disk, id: nat, written: nat)
    ensures var ids := Ids(CutAppended(codec, batch, disk, id, written));
      ids == if written == 0 then Ids(disk)
             else LinesIds(disk.lines) + if disk.tail == [] && written >= |codec.encode(batch)| then [id] else []
  {
  }

  /** The disk after an append that may have been cut: what could be read but the unfinished line, and the batch if it
      stands alone and whole. */
  lemma GrownIsNumbered(s: State, ids: seq<nat>, keepsTail: bool, readable: bool, durable: bool)
    requires Numbered(s) && (readable ==> durable)
    requires ids == (if keepsTail then Ids(s.disk) else LinesIds(s.disk.lines)) + if readable then [|s.batches|] else []
    ensures var all := if durable then s.durable + [|s.batches|] else s.durable;
      && Increasing(all) && InRange(all, |s.batches| + 1)
      && Increasing(ids) && InRange(ids, |s.batches| + 1) && Among(ids, all) && Among(s.resolved, all)
  {
    hide DrainOk, LineIds, LinesIds;
    var n, before := |s.batches|, if keepsTail then Ids(s.disk) else LinesIds(s.disk.lines);
    assert before == Ids(s.disk)[..|before|];
    assert Increasing(before) && InRange(before, n) && Among(before, s.durable);
    IncreasingSnoc(before, n);
    IncreasingSnoc(s.durable, n);
    AmongStays(before, s.durable, s.durable + [n]);
    AmongStays(s.resolved, s.durable, s.durable + [n]);
  }

  lemma AppendKeepsNumbered(s: State)
    requires Numbered(s) && s.memory != []
    ensures Numbered(AppendMemory(s)) && (AllCover(s) ==> AllCover(AppendMemory(s)))
  {
    var u := AppendMemory(s);
    AppendedIds(s.disk, |s.batches|);
    GrownIsNumbered(s, Ids(u.disk), false, s.disk.tail == [], true);
    DrainsStay(s, u);
    hide DrainOk, AllCover, Ids;
  }

  /** An append leaves everything to be read exactly when it starts a line. */
  lemma AppendKeepsIff(s: State)
    requires Numbered(s) && Kept(s) && s.memory != []
    ensures Kept(AppendMemory(s)) <==> s.disk.tail == []
  {
    hide DrainOk;
    var u, n := AppendMemory(s), |s.batches|;
    AppendedIds(s.disk, n);
    assert u.durable[|s.durable|] == n;
    if s.disk.tail == [] {
      assert Ids(u.disk) == Ids(s.disk) + [n];
      forall id | id in u.durable ensures id in u.resolved || id in Ids(u.disk) {
        if id == n { assert Ids(u.disk)[|Ids(s.disk)|] == n; } else { assert id in s.durable; }
      }
    } else {
      assert Ids(s.disk)[..|Ids(u.disk)|] == Ids(u.disk);
      assert n !in u.resolved && n !in Ids(u.disk);
    }
  }

  lemma CutAppendKeepsNumbered(codec: Codec, s: State, written: nat)
    requires Faithful(codec) && Numbered(s) && s.memory != []
    ensures Numbered(CutAppend(codec, s, written)) && AllCover(CutAppend(codec, s, written))
  {
    var u, whole := CutAppend(codec, s, written), written >= |codec.encode(s.memory)|;
    assert FaithfulOn(codec, s.memory);
    CutAppendedIds(codec, s.memory, s.disk, |s.batches|, written);
    GrownIsNumbered(s, Ids(u.disk), written == 0, whole && s.disk.tail == [], whole);
    hide DrainOk, Ids, Faithful;
  }

  lemma CutAppendKeepsIff(codec: Codec, s: State, written: nat)
    requires Faithful(codec) && Numbered(s) && Kept(s) && s.memory != []
    ensures Kept(CutAppend(codec, s, written)) <==> Harmless(codec, s, CrashInAppend(written))
  {
    var u, n, tailIds := CutAppend(codec, s, written), |s.batches|, LineIds(s.disk.tail);
    assert FaithfulOn(codec, s.memory);
    hide DrainOk, Faithful;
    CutAppendedIds(codec, s.memory, s.disk, n, written);
    if written > 0 {
      if s.disk.tail == [] {
        assert tailIds == [] && Ids(s.disk) == LinesIds(s.disk.lines);
        SnocKept(s, u);
      } else {
        CutOntoTailKeepsIff(codec, s, written);
      }
    }
  }

  lemma SnocKept(s: State, u: State)
    requires Kept(s) && u.resolved == s.resolved
    requires (u.durable == s.durable && Ids(u.disk) == Ids(s.disk))
             || (u.durable == s.durable + [|s.batches|] && Ids(u.disk) == Ids(s.disk) + [|s.batches|])
    ensures Kept(u)
  {
    hide Ids;
    forall id | id in u.durable ensures id in u.resolved || id in Ids(u.disk) {
      if id !in s.durable { assert Ids(u.disk)[|Ids(s.disk)|] == id; }
    }
  }

  /** The batch of the unfinished line is on no other line, and the next number is new. */
  lemma TailStandsApart(s: State)
    requires Numbered(s)
    ensures var tailIds, before := LineIds(s.disk.tail), LinesIds(s.disk.lines);
      && (forall k :: 0 <= k < |tailIds| ==> tailIds[k] in s.durable && tailIds[k] !in before)
      && |s.batches| !in s.resolved && |s.batches| !in before
  {
    hide DrainOk, LineIds, LinesIds;
    var tailIds, before := LineIds(s.disk.tail), LinesIds(s.disk.lines);
    assert Ids(s.disk)[..|before|] == before;
    forall k | 0 <= k < |tailIds| ensures tailIds[k] in s.durable && tailIds[k] !in before {
      assert Ids(s.disk)[|before| + k] == tailIds[k];
    }
  }

  lemma CutOntoTailKeepsIff(codec: Codec, s: State, written: nat)
    requires Numbered(s) && Kept(s) && s.memory != [] && s.disk.tail != [] && written > 0
    ensures Kept(CutAppend(codec, s, written)) <==> Harmless(codec, s, CrashInAppend(written))
  {
    TailStandsApart(s);
    hide Numbered, LineIds, LinesIds, CutAppended;
    var u, n, tailIds, before := CutAppend(codec, s, written), |s.batches|, LineIds(s.disk.tail), LinesIds(s.disk.lines);
    CutAppendedIds(codec, s.memory, s.disk, n, written);
    if written >= |codec.encode(s.memory)| {
      assert u.durable[|s.durable|] == n;
    } else {
      if Harmless(codec, s, CrashInAppend(written)) {
        forall id | id in u.durable ensures id in u.resolved || id in before {
          assert id in s.resolved || id in before || id in tailIds;
        }
      } else {
        var k :| 0 <= k < |tailIds| && tailIds[k] !in s.resolved;
        assert tailIds[k] in u.durable;
      }
    }
  }

  // ----- Drains -----

  lemma SetDrainStays(s: State, u: State, d: nat, to: Drain)
    requires Numbered(s) && Grew(s, u) && d < |s.drains| && u.drains == s.drains[d := to] && DrainOk(u, to)
    ensures forall e :: 0 <= e < |u.drains| ==> DrainOk(u, u.drains[e])
    ensures AllCover(s) && Covers(u, to) ==> AllCover(u)
  {
    hide DrainOk, Covers, Grew;
    forall e | 0 <= e < |u.drains| ensures DrainOk(u, u.drains[e]) && (AllCover(s) && Covers(u, to) ==> Covers(u, u.drains[e])) {
      if e != d { DrainStays(s, u, s.drains[e]); }
    }
  }

  lemma SnapshotKeeps(s: State, d: nat)
    requires Numbered(s) && d < |s.drains|
    ensures Numbered(TakeSnapshot(s, d)) && (Kept(s) && AllCover(s) ==> Kept(TakeSnapshot(s, d)) && AllCover(TakeSnapshot(s, d)))
  {
    hide Ids;
    SetDrainStays(s, TakeSnapshot(s, d), d, if Ids(s.disk) == [] then Done else Posting(Ids(s.disk), 0, |s.batches|));
    assert Ids(s.disk)[0..] == Ids(s.disk);
  }

  lemma DropSelection(s: State, ids: seq<nat>, n: nat, k: nat)
    requires Selection(s, ids, n) && k <= |ids|
    ensures Selection(s, ids[k..], n)
  {
  }

  lemma PostDrainOk(s: State, d: nat, outcome: Outcome)
    requires d < |s.drains| && s.drains[d].Posting? && DrainOk(s, s.drains[d]) && Among(s.resolved, s.durable)
    ensures var u := AfterPost(s, d, outcome);
      && DrainOk(u, u.drains[d]) && Among(u.resolved, u.durable) && Grew(s, u) && u.drains == s.drains[d := u.drains[d]]
      && u.disk == s.disk && u.durable == s.durable && u.batches == s.batches
  {
    var p := s.drains[d];
    DropSelection(s, p.pending, p.since, p.next);
  }

  lemma PostKeeps(s: State, d: nat, outcome: Outcome)
    requires Numbered(s) && d < |s.drains| && s.drains[d].Posting?
    ensures var u := AfterPost(s, d, outcome);
      Numbered(u) && (Kept(s) && AllCover(s) ==> Kept(u) && AllCover(u))
  {
    hide Ids, DrainOk, Covers;
    var u, p := AfterPost(s, d, outcome), s.drains[d];
    assert DrainOk(s, p) && (AllCover(s) ==> Covers(s, p));
    PostDrainOk(s, d, outcome);
    if Covers(s, p) { PostCovers(s, d, outcome); }
    SetDrainStays(s, u, d, u.drains[d]);
    if Kept(s) { KeptGrows(s, u); }
  }

  lemma KeptGrows(s: State, u: State)
    requires Kept(s) && u.durable == s.durable && s.resolved <= u.resolved && u.disk == s.disk
    ensures Kept(u)
  {
    forall id | id in u.durable ensures id in u.resolved || id in Ids(u.disk) {
      if k :| 0 <= k < |s.resolved| && s.resolved[k] == id { assert u.resolved[k] == id; }
    }
  }

  lemma PostCovers(s: State, d: nat, outcome: Outcome)
    requires d < |s.drains| && s.drains[d].Posting? && DrainOk(s, s.drains[d]) && Covers(s, s.drains[d])
    ensures Covers(AfterPost(s, d, outcome), AfterPost(s, d, outcome).drains[d])
  {
    var u, p := AfterPost(s, d, outcome), s.drains[d];
    if !outcome.RetryLater? {
      forall id | id in u.durable && id < p.since ensures id in u.resolved || id in InHand(u.drains[d]) {
        assert u.resolved[|s.resolved|] == p.pending[p.next];
        if i :| 0 <= i < |s.resolved| && s.resolved[i] == id { assert u.resolved[i] == id; }
        else if id != p.pending[p.next] {
          var k :| 0 <= k < |InHand(p)| && InHand(p)[k] == id;
          assert p.pending[p.next + 1..][k - 1] == id;
        }
      }
    }
  }

  lemma FinishKeepsNumbered(s: State, d: nat)
    requires Numbered(s) && d < |s.drains| && s.drains[d].Finishing?
    ensures var u := SetDrain(s, d, Done).(disk := Rewritten(s.drains[d].rest));
      Ids(u.disk) == s.drains[d].rest && Numbered(u) && (AllCover(s) ==> AllCover(u))
  {
    hide Ids, Rewritten;
    var u := SetDrain(s, d, Done).(disk := Rewritten(s.drains[d].rest));
    assert DrainOk(s, s.drains[d]);
    RewrittenIds(s.drains[d].rest);
    SetDrainStays(s, u, d, Done);
  }

  /** A rewrite that leaves a prefix of what a drain has in hand keeps every batch exactly when the batches that the
      drain has not read, and those beyond the prefix, are resolved. */
  lemma RewriteKeepsIff(s: State, u: State, d: Drain, k: nat)
    requires Numbered(s) && Kept(s) && d.Finishing? && DrainOk(s, d) && Covers(s, d) && k <= |d.rest|
    requires u.durable == s.durable && u.resolved == s.resolved && Ids(u.disk) == d.rest[..k]
    ensures Kept(u) <==> LateAreResolved(s, d.since) && forall j :: k <= j < |d.rest| ==> d.rest[j] in s.resolved
  {
    hide Ids;
    if LateAreResolved(s, d.since) && forall j :: k <= j < |d.rest| ==> d.rest[j] in s.resolved {
      forall id | id in u.durable ensures id in u.resolved || id in Ids(u.disk) {
        if id < d.since && id !in s.resolved {
          var j :| 0 <= j < |d.rest| && d.rest[j] == id;
          assert d.rest[..k][j] == id;
        }
      }
    } else if !LateAreResolved(s, d.since) {
      var i :| 0 <= i < |s.durable| && s.durable[i] >= d.since && s.durable[i] !in s.resolved;
      assert s.durable[i] in u.durable && s.durable[i] !in d.rest[..k];
    } else {
      var j :| k <= j < |d.rest| && d.rest[j] !in s.resolved;
      assert d.rest[j] in u.durable && d.rest[j] !in d.rest[..k];
    }
  }

  lemma CutRewriteKeeps(codec: Codec, s: State, d: nat, written: nat)
    requires Faithful(codec) && Numbered(s) && d < |s.drains| && s.drains[d].Finishing? && s.drains[d].rest != []
    ensures var u := Next(codec, s, CrashInRewrite(d, written));
      && Numbered(u) && AllCover(u)
      && (Kept(s) && AllCover(s) ==> (Kept(u) <==> Harmless(codec, s, CrashInRewrite(d, written))))
  {
    hide Ids, Faithful, CutRewritten, EndOf;
    var rest, u := s.drains[d].rest, Next(codec, s, CrashInRewrite(d, written));
    assert DrainOk(s, s.drains[d]);
    var k := Survivors(codec, s.batches, rest, written);
    CutRewrittenIds(codec, s.batches, rest, written);
    assert Selection(u, rest[..k], |s.batches|);
    forall j | 0 <= j < |rest| ensures j < k <==> written >= EndOf(codec, s.batches, rest, j) {
      SurvivorsAre(codec, s.batches, rest, written, j);
    }
    if Kept(s) && AllCover(s) {
      assert Covers(s, s.drains[d]);
      RewriteKeepsIff(s, u, s.drains[d], k);
    }
  }

  lemma FinishKeepsIff(codec: Codec, s: State, d: nat)
    requires Numbered(s) && Kept(s) && AllCover(s) && d < |s.drains| && s.drains[d].Finishing?
    ensures Kept(Next(codec, s, Finish(d))) <==> Harmless(codec, s, Finish(d))
  {
    hide Ids, Rewritten;
    var drain := s.drains[d];
    FinishKeepsNumbered(s, d);
    assert DrainOk(s, drain) && Covers(s, drain);
    assert drain.rest[..|drain.rest|] == drain.rest;
    RewriteKeepsIff(s, Next(codec, s, Finish(d)), drain, |drain.rest|);
  }

  // ----- Runs -----

  lemma FlushKeeps(codec: Codec, s: State)
    requires Numbered(s)
    ensures var u := Next(codec, s, Flush);
      && Numbered(u)
      && (Kept(s) && AllCover(s) ==> AllCover(u) && (Kept(u) <==> Harmless(codec, s, Flush)))
  {
    hide Ids, DrainOk, Covers;
    var v := AppendMemory(s);
    if s.memory != [] {
      AppendKeepsNumbered(s);
      if Kept(s) { AppendKeepsIff(s); }
    }
    assert DrainOk(v, Snapshotting) && Covers(v, Snapshotting) by { FreshDrainOk(v); }
    SameHistory(v, Next(codec, s, Flush));
  }

  lemma FreshDrainOk(s: State)
    ensures DrainOk(s, Snapshotting) && Covers(s, Snapshotting)
  {
  }

  /** One more drain, about to read. */
  lemma SameHistory(s: State, u: State)
    requires Numbered(s) && u == s.(drains := s.drains + [Snapshotting])
    ensures Numbered(u) && (AllCover(s) ==> AllCover(u)) && (Kept(s) <==> Kept(u))
  {
    forall e | 0 <= e < |u.drains| ensures DrainOk(u, u.drains[e]) && (AllCover(s) ==> Covers(u, u.drains[e])) {
      if e < |s.drains| { DrainStays(s, u, s.drains[e]); }
    }
  }

  /** From a moment at which every batch is kept, a step keeps every batch exactly when it is harmless. */
  lemma StepKeepsIff(codec: Codec, s: State, step: Step)
    requires Faithful(codec) && Numbered(s)
    ensures Numbered(Next(codec, s, step))
    ensures Kept(s) && AllCover(s) ==> AllCover(Next(codec, s, step)) && (Kept(Next(codec, s, step)) <==> Harmless(codec, s, step))
  {
    hide Ids, Faithful, CutAppend, AfterPost, TakeSnapshot;
    match step
    case Consume(events) => DrainsStay(s, Next(codec, s, step));
    case Flush => FlushKeeps(codec, s);
    case Snapshot(d) => if d < |s.drains| && s.drains[d].Snapshotting? { SnapshotKeeps(s, d); }
    case Post(d, outcome) => if d < |s.drains| && s.drains[d].Posting? { PostKeeps(s, d, outcome); }
    case Finish(d) =>
      if d < |s.drains| && s.drains[d].Finishing? {
        FinishKeepsNumbered(s, d);
        if Kept(s) && AllCover(s) { FinishKeepsIff(codec, s, d); }
      }
    case Crash =>
    case CrashInAppend(written) =>
      if s.memory != [] {
        CutAppendKeepsNumbered(codec, s, written);
        if Kept(s) { CutAppendKeepsIff(codec, s, written); }
      }
    case CrashInRewrite(d, written) =>
      if d < |s.drains| && s.drains[d].Finishing? && s.drains[d].rest != [] { CutRewriteKeeps(codec, s, d, written); }
  }

  lemma StartIsOk()
    ensures Numbered(START) && AllCover(START) && Kept(START)
  {
  }

  lemma {:induction false} AlwaysKeptFrom(codec: Codec, s: State, steps: seq<Step>)
    requires Faithful(codec) && Numbered(s) && Kept(s) && AllCover(s)
    ensures AlwaysKept(codec, s, steps) <==> HarmlessRun(codec, s, steps)
    decreases |steps|
  {
    hide Numbered, Kept, AllCover, Harmless, Next;
    if steps != [] {
      var u := Next(codec, s, steps[0]);
      StepKeepsIff(codec, s, steps[0]);
      if Kept(u) { AlwaysKeptFrom(codec, u, steps[1..]); } else { assert !AlwaysKept(codec, u, steps[1..]); }
    }
  }

  /** In every run, every batch whose line was written stays resolved or readable, at every moment, exactly when each
      step is harmless. */
  lemma AlwaysKeptIff(codec: Codec, steps: seq<Step>)
    requires Faithful(codec)
    ensures AlwaysKept(codec, START, steps) <==> HarmlessRun(codec, START, steps)
  {
    StartIsOk();
    AlwaysKeptFrom(codec, START, steps);
  }
}
