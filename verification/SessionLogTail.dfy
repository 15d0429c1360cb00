/** The incremental tailer: one tail per file, updated in place, each proved to stay equal to one pass
    over what it has read of its file. */
module SessionLogTail {
  import opened Values
  import opened TextLines
  import opened SessionLog

  datatype Lineage = Lineage(subagentId: string, parentSessionId: Option<string>, agentType: Option<string>)

  /** An entry as consumers see it; sub-agent entries carry the lineage known when they were read. */
  datatype Emission = Emission(lineage: Option<Lineage>, entry: Entry)

  /** What a poll finds in one file: its text, the size `stat` reported, how many characters `read`
      returned, what the meta sidecar names, and whether the watcher was stopped during the awaits. */
  datatype Found = Found(text: string, size: nat, bytesRead: nat, agentType: Option<string>, stopped: bool)

  predicate Owns(owner: Option<string>, e: Emission) {
    (if e.lineage.Some? then Some(e.lineage.value.subagentId) else None) == owner
  }

  /** The entries of one file, in order of emission. */
  function EntriesOf(log: seq<Emission>, owner: Option<string>): seq<Entry> {
    if log == [] then [] else
      var n := |log| - 1;
      EntriesOf(log[..n], owner) + (if Owns(owner, log[n]) then [log[n].entry] else [])
  }

  lemma EntriesOfAppend(log: seq<Emission>, e: Emission, owner: Option<string>)
    ensures EntriesOf(log + [e], owner) == EntriesOf(log, owner) + (if Owns(owner, e) then [e.entry] else [])
  {
    assert (log + [e])[..|log|] == log;
  }

  /** The log grew by entries of one lineage only. */
  predicate GrewBy(before: seq<Emission>, after: seq<Emission>, lineage: Option<Lineage>) {
    && |before| <= |after| && after[..|before|] == before
    && (forall i :: |before| <= i < |after| ==> after[i].lineage == lineage)
  }

  lemma GrewByTwice(a: seq<Emission>, b: seq<Emission>, c: seq<Emission>, lineage: Option<Lineage>)
    requires GrewBy(a, b, lineage) && GrewBy(b, c, lineage)
    ensures GrewBy(a, c, lineage)
  {
    assert c[..|a|] == c[..|b|][..|a|];
    forall i | |a| <= i < |c| ensures c[i].lineage == lineage {
      if i < |b| { assert b[i] == c[..|b|][i]; }
    }
  }

  lemma {:induction false} OthersUnheard(before: seq<Emission>, after: seq<Emission>, lineage: Option<Lineage>, owner: Option<string>)
    requires GrewBy(before, after, lineage)
    requires owner != (if lineage.Some? then Some(lineage.value.subagentId) else None)
    ensures EntriesOf(after, owner) == EntriesOf(before, owner)
    decreases |after|
  {
    if |before| == |after| {
      assert after == before;
    } else {
      var n := |after| - 1;
      assert after[..n][..|before|] == before;
      OthersUnheard(before, after[..n], lineage, owner);
    }
  }

  lemma OthersAllUnheard(before: seq<Emission>, after: seq<Emission>, lineage: Option<Lineage>)
    requires GrewBy(before, after, lineage)
    ensures forall owner :: owner != (if lineage.Some? then Some(lineage.value.subagentId) else None) ==>
                              EntriesOf(after, owner) == EntriesOf(before, owner)
  {
    forall owner | owner != (if lineage.Some? then Some(lineage.value.subagentId) else None)
      ensures EntriesOf(after, owner) == EntriesOf(before, owner)
    {
      OthersUnheard(before, after, lineage, owner);
    }
  }

  lemma SliceExtends(file: string, seen: string, n: nat)
    requires seen <= file && |seen| + n <= |file|
    ensures seen + file[|seen|..|seen| + n] <= file
  {
  }

  lemma SliceOfRest(file: string, base: nat, k: nat, n: nat)
    requires base + k + n <= |file|
    ensures file[base..][k..k + n] == file[base + k..base + k + n]
  {
  }

  class TailState {
    const subagentId: Option<string>
    /** Where reading began: 0, or the file's size when the watcher was reattached. */
    const base: nat
    var byteOffset: nat
    var lineBuffer: string
    var lastTimestamp: Millis
    var lineage: Option<Lineage>
    /** Lines taken so far; it selects the wall-clock readings and has no counterpart in the source. */
    var lines: nat
    ghost var seen: string

    constructor (lineage: Option<Lineage>, base: nat)
      ensures this.lineage == lineage && this.base == base && LineageNamesThis() && Fresh()
    {
      subagentId := if lineage.Some? then Some(lineage.value.subagentId) else None;
      this.lineage, this.base := lineage, base;
      byteOffset, lineBuffer, lastTimestamp, lines, seen := base, "", At(0), 0, "";
    }

    ghost predicate Fresh()
      reads this
    {
      byteOffset == base && lineBuffer == "" && lastTimestamp == At(0) && lines == 0 && seen == ""
    }

    predicate IsMain() {
      subagentId.None?
    }

    predicate LineageNamesThis()
      reads this
    {
      lineage.Some? == subagentId.Some? && (lineage.Some? ==> lineage.value.subagentId == subagentId.value)
    }

    /** The file only grew since this tail last read it. */
    ghost predicate Extends(text: string)
      reads this
    {
      base <= |text| && seen <= text[base..]
    }
  }

  /** How far a poll that finds this moves an offset. */
  function Gain(found: Found, offset: nat): nat {
    if !found.stopped && found.size > offset then found.bytesRead else 0
  }

  class SessionLogWatcher {
    const env: Env
    const parentTail: TailState
    var subagentTails: seq<TailState>
    var parentSessionId: Option<string>
    var running: bool
    var initSynthesized: bool
    var entries: seq<Emission>

    constructor (env: Env, parentTail: TailState)
      requires parentTail.lineage == None && parentTail.LineageNamesThis() && parentTail.Fresh()
      ensures this.env == env && this.parentTail == parentTail && subagentTails == [] && entries == [] && running
      ensures Valid()
    {
      this.env, this.parentTail := env, parentTail;
      subagentTails, parentSessionId, running, initSynthesized, entries := [], None, true, false, [];
    }

    /** The stream a tail holds, as a value. */
    function StreamOf(tail: TailState): Stream
      reads this, tail
    {
      Stream(tail.lineBuffer,
             Pass(tail.lines, tail.lastTimestamp, tail.IsMain() && initSynthesized,
                  if tail.IsMain() then parentSessionId else None,
                  EntriesOf(entries, tail.subagentId)))
    }

    /** The tail is where one pass over everything it has read would be. */
    ghost predicate Follows(tail: TailState)
      reads this, tail
    {
      && tail.LineageNamesThis()
      && tail.byteOffset == tail.base + |tail.seen|
      && StreamOf(tail) == OnePass(env, tail.IsMain(), tail.seen)
    }

    ghost predicate Valid()
      reads this, parentTail, subagentTails
    {
      && parentTail.IsMain() && Follows(parentTail)
      && (forall i :: 0 <= i < |subagentTails| ==> !subagentTails[i].IsMain() && Follows(subagentTails[i]))
      && (forall i, j :: 0 <= i < j < |subagentTails| ==> subagentTails[i].subagentId != subagentTails[j].subagentId)
      && (forall id :: !Tailed(id) ==> EntriesOf(entries, Some(id)) == [])
    }

    predicate Tailed(id: string)
      reads this
    {
      exists i :: 0 <= i < |subagentTails| && subagentTails[i].subagentId == Some(id)
    }

    method EmitEntry(entry: Entry, tail: TailState)
      requires tail.LineageNamesThis()
      modifies this`entries
      ensures GrewBy(old(entries), entries, tail.lineage)
      ensures EntriesOf(entries, tail.subagentId) == EntriesOf(old(entries), tail.subagentId) + [entry]
    {
      EntriesOfAppend(entries, Emission(tail.lineage, entry), tail.subagentId);
      entries := entries + [Emission(tail.lineage, entry)];
    }

    /** The first line of the parent stream that names its session announces it, once. */
    method SynthesizeInit(raw: Raw, tail: TailState)
      requires tail.LineageNamesThis()
      modifies this`entries, this`initSynthesized, this`parentSessionId
      ensures StreamOf(tail).pass == Synthesize(tail.IsMain(), old(StreamOf(tail).pass), raw, env.clock(2 * tail.lines))
      ensures GrewBy(old(entries), entries, tail.lineage)
      ensures !tail.IsMain() ==> initSynthesized == old(initSynthesized) && parentSessionId == old(parentSessionId)
    {
      if tail.IsMain() && !initSynthesized && raw.kind.Assistant? {
        if Truthy(raw.sessionId) || Truthy(Model(raw)) {
          parentSessionId := if raw.sessionId.Some? then raw.sessionId else parentSessionId;
          EmitEntry(SynthesizedInit(raw, env.clock(2 * tail.lines)), tail);
          initSynthesized := true;
        }
      }
    }

    method AppendEntry(entry: Entry, tail: TailState)
      requires tail.LineageNamesThis()
      modifies this`entries, this`initSynthesized, this`parentSessionId, tail`lastTimestamp
      ensures StreamOf(tail).pass == Append(tail.IsMain(), old(StreamOf(tail).pass), entry)
      ensures GrewBy(old(entries), entries, tail.lineage)
      ensures !tail.IsMain() ==> initSynthesized == old(initSynthesized) && parentSessionId == old(parentSessionId)
    {
      if tail.IsMain() && entry.body.SessionInit? {
        initSynthesized := true;
        if Truthy(entry.body.session) {
          parentSessionId := entry.body.session;
        }
      }
      tail.lastTimestamp := entry.timestamp;
      EmitEntry(entry, tail);
    }

    method HandleRawEntry(raw: Raw, tail: TailState)
      requires tail.LineageNamesThis()
      modifies this`entries, this`initSynthesized, this`parentSessionId, tail`lastTimestamp
      ensures StreamOf(tail).pass == HandleRaw(env, tail.IsMain(), old(StreamOf(tail).pass), raw)
      ensures GrewBy(old(entries), entries, tail.lineage)
      ensures !tail.IsMain() ==> initSynthesized == old(initSynthesized) && parentSessionId == old(parentSessionId)
    {
      SynthesizeInit(raw, tail);
      ghost var begun := entries;
      var result := Convert(raw, tail.lastTimestamp, env.clock(2 * tail.lines + 1));
      if result.None? { return; }
      AppendEntry(result.value, tail);
      GrewByTwice(old(entries), begun, entries, tail.lineage);
    }

    method TakeLine(text: string, tail: TailState)
      requires tail.LineageNamesThis()
      modifies this`entries, this`initSynthesized, this`parentSessionId, tail`lastTimestamp, tail`lines
      ensures StreamOf(tail).pass == ReadLine(env, tail.IsMain(), old(StreamOf(tail).pass), text)
      ensures GrewBy(old(entries), entries, tail.lineage)
      ensures !tail.IsMain() ==> initSynthesized == old(initSynthesized) && parentSessionId == old(parentSessionId)
    {
      var line := Trim(text);
      if line != "" {
        var raw := env.parse(line);
        if raw.Some? {
          HandleRawEntry(raw.value, tail);
        }
      }
      tail.lines := tail.lines + 1;
    }

    method ProcessText(text: string, tail: TailState)
      requires tail.LineageNamesThis()
      modifies this`entries, this`initSynthesized, this`parentSessionId
      modifies tail`lineBuffer, tail`lastTimestamp, tail`lines
      ensures StreamOf(tail) == Feed(env, tail.IsMain(), old(StreamOf(tail)), text)
      ensures GrewBy(old(entries), entries, tail.lineage)
      ensures !tail.IsMain() ==> initSynthesized == old(initSynthesized) && parentSessionId == old(parentSessionId)
    {
      ghost var main := tail.IsMain();
      tail.lineBuffer := tail.lineBuffer + text;
      ghost var start, now := StreamOf(tail), StreamOf(tail);
      while '\n' in tail.lineBuffer
        invariant now == StreamOf(tail)
        invariant Drain(env, main, now) == Drain(env, main, start)
        invariant GrewBy(old(entries), entries, tail.lineage)
        invariant !main ==> initSynthesized == old(initSynthesized) && parentSessionId == old(parentSessionId)
        decreases |tail.lineBuffer|
      {
        ghost var soFar := entries;
        DrainOneLine(env, main, now);
        var newlineIdx := LineEnd(tail.lineBuffer);
        var line := tail.lineBuffer[..newlineIdx];
        tail.lineBuffer := tail.lineBuffer[newlineIdx + 1..];
        TakeLine(line, tail);
        GrewByTwice(old(entries), soFar, entries, tail.lineage);
        now := Stream(tail.lineBuffer, ReadLine(env, main, now.pass, line));
      }
      DrainNothing(env, main, now);
    }

    /** Keep what is known; fill in the agent type and the parent session once each is known. */
    method RefreshLineage(tail: TailState, agentType: Option<string>)
      requires tail.LineageNamesThis()
      modifies tail`lineage
      ensures tail.LineageNamesThis()
      ensures tail.subagentId.Some? ==>
                tail.lineage == Some(Lineage(
                  tail.subagentId.value,
                  if old(tail.lineage).value.parentSessionId.Some? then old(tail.lineage).value.parentSessionId else parentSessionId,
                  if old(tail.lineage).value.agentType.Some? then old(tail.lineage).value.agentType else agentType))
    {
      if tail.lineage.None? { return; }
      var known := tail.lineage.value;
      if known.agentType.None? {
        known := known.(agentType := agentType);
      }
      if known.parentSessionId.None? && parentSessionId.Some? {
        known := known.(parentSessionId := parentSessionId);
      }
      tail.lineage := Some(known);
    }

    /** Take in `text`, the next characters of the file. */
    method ReadOn(tail: TailState, text: string)
      requires Follows(tail)
      modifies this`entries, this`initSynthesized, this`parentSessionId
      modifies tail`byteOffset, tail`seen, tail`lineBuffer, tail`lastTimestamp, tail`lines
      ensures Follows(tail) && tail.seen == old(tail.seen) + text
      ensures GrewBy(old(entries), entries, tail.lineage)
      ensures !tail.IsMain() ==> initSynthesized == old(initSynthesized) && parentSessionId == old(parentSessionId)
    {
      ghost var seen := tail.seen;
      tail.byteOffset := tail.byteOffset + |text|;
      tail.seen := seen + text;
      ProcessText(text, tail);
      FeedTwice(env, tail.IsMain(), FRESH, seen, text);
    }

    /** Read what was appended to one file. Whatever was read, the tail still follows its file. */
    method PollFile(tail: TailState, found: Found)
      requires Follows(tail) && tail.Extends(found.text)
      requires found.size <= |found.text|
      requires found.size > tail.byteOffset ==> found.bytesRead <= found.size - tail.byteOffset
      modifies this`entries, this`initSynthesized, this`parentSessionId, this`running, tail
      ensures Follows(tail) && tail.Extends(found.text) && old(tail.seen) <= tail.seen
      ensures tail.byteOffset == old(tail.byteOffset) + Gain(found, old(tail.byteOffset))
      ensures running == (old(running) && !found.stopped)
      ensures GrewBy(old(entries), entries, tail.lineage)
      ensures !tail.IsMain() ==> initSynthesized == old(initSynthesized) && parentSessionId == old(parentSessionId)
    {
      hide OnePass;
      if tail.lineage.Some? {
        RefreshLineage(tail, found.agentType);
      }
      if found.stopped {
        running := false;
        return;
      }
      if found.size <= tail.byteOffset { return; }
      if found.bytesRead == 0 { return; }
      var text := found.text[tail.byteOffset..tail.byteOffset + found.bytesRead];
      SliceExtends(found.text[tail.base..], tail.seen, found.bytesRead);
      SliceOfRest(found.text, tail.base, |tail.seen|, found.bytesRead);
      ReadOn(tail, text);
    }

    predicate Readable(tail: TailState, found: Found)
      reads tail
    {
      && found.size <= |found.text|
      && (found.size > tail.byteOffset ==> found.bytesRead <= found.size - tail.byteOffset)
    }

    method PollParent(found: Found)
      requires Valid() && parentTail.Extends(found.text) && Readable(parentTail, found)
      modifies this`entries, this`initSynthesized, this`parentSessionId, this`running, parentTail
      ensures Valid() && parentTail.Extends(found.text) && old(parentTail.seen) <= parentTail.seen
      ensures parentTail.byteOffset == old(parentTail.byteOffset) + Gain(found, old(parentTail.byteOffset))
      ensures running == (old(running) && !found.stopped)
    {
      hide OnePass;
      PollFile(parentTail, found);
      OthersAllUnheard(old(entries), entries, parentTail.lineage);
    }

    method PollSubagent(i: nat, found: Found)
      requires i < |subagentTails| && Valid() && subagentTails[i].Extends(found.text) && Readable(subagentTails[i], found)
      modifies this`entries, this`initSynthesized, this`parentSessionId, this`running, subagentTails[i]
      ensures Valid() && subagentTails[i].Extends(found.text) && old(subagentTails[i].seen) <= subagentTails[i].seen
      ensures subagentTails[i].byteOffset == old(subagentTails[i].byteOffset) + Gain(found, old(subagentTails[i].byteOffset))
      ensures running == (old(running) && !found.stopped)
    {
      hide OnePass;
      var tail := subagentTails[i];
      PollFile(tail, found);
      OthersAllUnheard(old(entries), entries, tail.lineage);
      forall j | 0 <= j < |subagentTails| && j != i ensures Follows(subagentTails[j]) {
        var other := subagentTails[j];
        assert other.subagentId != tail.subagentId;
        assert StreamOf(other) == old(StreamOf(other));
      }
      assert StreamOf(parentTail) == old(StreamOf(parentTail));
      forall id | !Tailed(id) ensures EntriesOf(entries, Some(id)) == [] {
        assert tail.subagentId != Some(id);
        assert !old(Tailed(id));
      }
    }

    /** Start tailing one sub-agent file, from its beginning, unless it is tailed already. */
    method AdoptSubagent(id: string, agentType: Option<string>)
      requires Valid()
      modifies this`subagentTails
      ensures Valid()
      ensures Tailed(id) && forall other :: old(Tailed(other)) ==> Tailed(other)
      ensures old(Tailed(id)) ==> subagentTails == old(subagentTails)
      ensures !old(Tailed(id)) ==>
                && |subagentTails| == |old(subagentTails)| + 1
                && subagentTails[..|old(subagentTails)|] == old(subagentTails)
                && fresh(subagentTails[|old(subagentTails)|])
                && subagentTails[|old(subagentTails)|].subagentId == Some(id)
                && subagentTails[|old(subagentTails)|].Fresh() && subagentTails[|old(subagentTails)|].base == 0
    {
      hide OnePass;
      if Tailed(id) { return; }
      var tail := new TailState(Some(Lineage(id, parentSessionId, agentType)), 0);
      assert StreamOf(tail) == FRESH;
      OnePassOfNothing(env, false);
      subagentTails := subagentTails + [tail];
      assert forall other :: Tailed(other) <==> old(Tailed(other)) || other == id by {
        forall other | old(Tailed(other)) ensures Tailed(other) {
          var i :| 0 <= i < |old(subagentTails)| && old(subagentTails)[i].subagentId == Some(other);
          assert subagentTails[i] == old(subagentTails)[i];
        }
        assert subagentTails[|old(subagentTails)|].subagentId == Some(id);
      }
    }

    method DiscoverNewSubagentFiles(ids: seq<string>, agentType: string -> Option<string>)
      requires Valid()
      modifies this`subagentTails
      ensures Valid() && old(subagentTails) <= subagentTails
      ensures forall j :: 0 <= j < |ids| ==> Tailed(ids[j])
      ensures forall i :: |old(subagentTails)| <= i < |subagentTails| ==>
                            fresh(subagentTails[i]) && subagentTails[i].Fresh() && subagentTails[i].base == 0
    {
      hide Follows;
      for k := 0 to |ids|
        invariant Valid() && old(subagentTails) <= subagentTails
        invariant forall j :: 0 <= j < k ==> Tailed(ids[j])
        invariant forall i :: |old(subagentTails)| <= i < |subagentTails| ==>
                                fresh(subagentTails[i]) && subagentTails[i].Fresh() && subagentTails[i].base == 0
      {
        ghost var before := subagentTails;
        AdoptSubagent(ids[k], agentType(ids[k]));
        assert before <= subagentTails;
      }
    }

    /** Every tail from the i-th on can read what `found` says of its file. */
    ghost predicate ReadableFrom(i: nat, found: Option<string> -> Found)
      reads this, subagentTails
    {
      forall j :: i <= j < |subagentTails| ==>
        subagentTails[j].Extends(found(subagentTails[j].subagentId).text) &&
        Readable(subagentTails[j], found(subagentTails[j].subagentId))
    }

    /** No two tails are one object. */
    lemma TailsAreDistinct()
      requires Valid()
      ensures forall i, j :: 0 <= i < j < |subagentTails| ==> subagentTails[i] != subagentTails[j]
      ensures parentTail !in subagentTails
    {
    }

    ghost function Offsets(): (offsets: seq<nat>)
      reads this, subagentTails
      ensures |offsets| == |subagentTails| && forall j :: 0 <= j < |offsets| ==> offsets[j] == subagentTails[j].byteOffset
    {
      seq(|subagentTails|, j requires 0 <= j < |subagentTails| reads this, subagentTails => subagentTails[j].byteOffset)
    }

    ghost function Texts(): (texts: seq<string>)
      reads this, subagentTails
      ensures |texts| == |subagentTails| && forall j :: 0 <= j < |texts| ==> texts[j] == subagentTails[j].seen
    {
      seq(|subagentTails|, j requires 0 <= j < |subagentTails| reads this, subagentTails => subagentTails[j].seen)
    }

    /** The first i tails have taken what `found` offers, the others nothing; none has lost anything. */
    ghost predicate Progress(i: nat, found: Option<string> -> Found, offsets: seq<nat>, texts: seq<string>)
      reads this, subagentTails
    {
      && |offsets| == |subagentTails| && |texts| == |subagentTails|
      && (forall j :: 0 <= j < |subagentTails| ==> texts[j] <= subagentTails[j].seen)
      && (forall j :: 0 <= j < |subagentTails| ==>
            subagentTails[j].byteOffset == offsets[j] + (if j < i then Gain(found(subagentTails[j].subagentId), offsets[j]) else 0))
    }

    method PollNext(i: nat, found: Option<string> -> Found, ghost offsets: seq<nat>, ghost texts: seq<string>)
      requires i < |subagentTails| && Valid() && ReadableFrom(i, found) && Progress(i, found, offsets, texts)
      modifies this`entries, this`initSynthesized, this`parentSessionId, this`running, subagentTails[i]
      ensures Valid() && ReadableFrom(i + 1, found) && Progress(i + 1, found, offsets, texts)
      ensures running == (old(running) && !found(subagentTails[i].subagentId).stopped)
    {
      hide Follows, Gain;
      TailsAreDistinct();
      hide Valid;
      PollSubagent(i, found(subagentTails[i].subagentId));
    }

    /** The sub-agent files in order, until the watcher is stopped. */
    method PollSubagents(found: Option<string> -> Found)
      requires Valid() && ReadableFrom(0, found)
      modifies this`entries, this`initSynthesized, this`parentSessionId, this`running, subagentTails
      ensures Valid()
      ensures forall i :: 0 <= i < |subagentTails| ==> old(subagentTails[i].seen) <= subagentTails[i].seen
      ensures running ==> forall i :: 0 <= i < |subagentTails| ==>
                subagentTails[i].byteOffset == old(subagentTails[i].byteOffset) + Gain(found(subagentTails[i].subagentId), old(subagentTails[i].byteOffset))
    {
      hide Valid, Gain, ReadableFrom;
      ghost var offsets, texts := Offsets(), Texts();
      for i := 0 to |subagentTails|
        invariant Valid() && ReadableFrom(i, found) && Progress(i, found, offsets, texts)
      {
        if !running { return; }
        PollNext(i, found, offsets, texts);
      }
    }

    /** One poll: the parent file, the files that appeared, then every sub-agent file. */
    method Poll(found: Option<string> -> Found, ids: seq<string>)
      requires Valid() && parentTail.Extends(found(None).text) && Readable(parentTail, found(None))
      requires ReadableFrom(0, found)
      requires forall id :: found(Some(id)).size <= |found(Some(id)).text| && found(Some(id)).bytesRead <= found(Some(id)).size
      modifies this`entries, this`initSynthesized, this`parentSessionId, this`running, this`subagentTails
      modifies parentTail, subagentTails
      ensures Valid() && old(subagentTails) <= subagentTails
      ensures old(parentTail.seen) <= parentTail.seen
      ensures forall i :: 0 <= i < |old(subagentTails)| ==> old(subagentTails[i].seen) <= subagentTails[i].seen
      ensures !old(running) ==> entries == old(entries)
      ensures old(running) ==>
                parentTail.byteOffset == old(parentTail.byteOffset) + Gain(found(None), old(parentTail.byteOffset))
      ensures running ==>
                && (forall j :: 0 <= j < |ids| ==> Tailed(ids[j]))
                && (forall i :: 0 <= i < |old(subagentTails)| ==>
                      subagentTails[i].byteOffset == old(subagentTails[i].byteOffset) + Gain(found(subagentTails[i].subagentId), old(subagentTails[i].byteOffset)))
                && (forall i :: |old(subagentTails)| <= i < |subagentTails| ==>
                      subagentTails[i].byteOffset == Gain(found(subagentTails[i].subagentId), 0))
    {
      hide Follows, Gain;
      if !running { return; }
      PollParent(found(None));
      if !running { return; }
      DiscoverNewSubagentFiles(ids, id => found(Some(id)).agentType);
      assert forall i :: 0 <= i < |old(subagentTails)| ==> subagentTails[i] == old(subagentTails)[i];
      assert parentTail !in subagentTails;
      PollSubagents(found);
    }
  }
}
