/** What a session file's lines say, line by line, and that one pass over the file emits exactly that. */
module SessionEntries {
  import opened Values
  import opened TextLines
  import opened SessionLog

  // ----- What a line says -----

  function RawAt(env: Env, lines: seq<string>, i: nat): Option<Raw>
    requires i < |lines|
  {
    if Trim(lines[i]) == "" then None else env.parse(Trim(lines[i]))
  }

  /** Lines that make an entry: assistant turns with a message whose content is a list or missing, user lines that hold a
      tool result, inits and results. */
  predicate Says(raw: Raw) {
    match raw.kind
    case Assistant => raw.message.Some? && (raw.message.value.content.Missing? || raw.message.value.content.Blocks?)
    case User => raw.message.Some? && raw.message.value.content.Blocks? && exists b :: b in raw.message.value.content.blocks && b.toolResult
    case System => raw.subtype == Some("init")
    case Result => true
    case Other => false
  }

  /** What the entry of such a line holds: an assistant turn's message id, unless it is empty, and its content; a user
      line's content; an init's session and model; a result's subtype, or `success`. */
  predicate Holds(raw: Raw, body: Body) {
    match raw.kind
    case Assistant =>
      && body.AssistantTurn? && raw.message.Some?
      && body.messageId == (if raw.message.value.id == Some("") then None else raw.message.value.id)
      && (raw.message.value.content.Blocks? ==> body.content == raw.message.value.content.blocks)
      && (raw.message.value.content.Missing? ==> body.content == [])
    case User => body.ToolResults? && raw.message.Some? && raw.message.value.content == Blocks(body.content)
    case System => body == SessionInit(raw.initSession, raw.initModel, false)
    case Result => body == RunResult(if raw.subtype.Some? && raw.subtype.value != "" then raw.subtype.value else "success")
    case Other => false
  }

  /** The entry of line i: what the line holds, at the line's own time, or at the clock's where it has none. */
  predicate EntryOf(env: Env, i: nat, raw: Raw, e: Entry) {
    Says(raw) && Holds(raw, e.body) && e.timestamp == (if raw.timestamp.Some? then raw.timestamp.value else At(env.clock(2 * i + 1)))
  }

  predicate IsInit(raw: Raw) {
    raw.kind.System? && raw.subtype == Some("init")
  }

  /** An assistant line that names its session or its model. */
  predicate NamesSession(raw: Raw) {
    && raw.kind.Assistant?
    && (|| (raw.sessionId.Some? && raw.sessionId.value != "")
        || (raw.message.Some? && raw.message.value.model.Some? && raw.message.value.model.value != ""))
  }

  predicate Opens(env: Env, lines: seq<string>, i: nat)
    requires i < |lines|
  {
    RawAt(env, lines, i).Some? && (IsInit(RawAt(env, lines, i).value) || NamesSession(RawAt(env, lines, i).value))
  }

  /** Line i names the session before any line has announced it. */
  predicate Introduces(env: Env, lines: seq<string>, i: nat)
    requires i < |lines|
  {
    && RawAt(env, lines, i).Some? && NamesSession(RawAt(env, lines, i).value)
    && forall j :: 0 <= j < i ==> !Opens(env, lines, j)
  }

  predicate IntroductionOf(env: Env, i: nat, raw: Raw, e: Entry) {
    && e.body == SessionInit(raw.sessionId, if raw.message.Some? then raw.message.value.model else None, true)
    && e.delta == At(0) && e.timestamp == (if raw.timestamp.Some? then raw.timestamp.value else At(env.clock(2 * i)))
  }

  predicate Speaks(env: Env, lines: seq<string>, i: nat)
    requires i < |lines|
  {
    RawAt(env, lines, i).Some? && Says(RawAt(env, lines, i).value)
  }

  // ----- What the entries are -----

  /** The k-th entry comes from line at[k]; each line that speaks has one entry, preceded in the parent stream by the
      announcement if the line introduces the session; nothing else is there. */
  ghost predicate LineByLine(env: Env, main: bool, lines: seq<string>, entries: seq<Entry>, at: seq<nat>) {
    && |at| == |entries|
    && (forall k :: 0 <= k < |at| ==> at[k] < |lines| && FromLine(env, main, lines, at[k], entries[k]))
    && (forall j, k :: 0 <= j < k < |at| ==>
          at[j] < at[k] || (at[j] == at[k] && IsSynthesized(entries[j]) && !IsSynthesized(entries[k])))
    && (forall i :: 0 <= i < |lines| && Speaks(env, lines, i) ==> HasEntry(entries, at, i, false))
    && (forall i :: 0 <= i < |lines| && main && Introduces(env, lines, i) ==> HasEntry(entries, at, i, true))
  }

  predicate FromLine(env: Env, main: bool, lines: seq<string>, i: nat, e: Entry)
    requires i < |lines|
  {
    && RawAt(env, lines, i).Some?
    && if IsSynthesized(e) then main && Introduces(env, lines, i) && IntroductionOf(env, i, RawAt(env, lines, i).value, e)
       else EntryOf(env, i, RawAt(env, lines, i).value, e)
  }

  ghost predicate HasEntry(entries: seq<Entry>, at: seq<nat>, i: nat, synthesized: bool) {
    exists k :: 0 <= k < |at| && k < |entries| && at[k] == i && IsSynthesized(entries[k]) == synthesized
  }

  /** The time of the last entry that a line made; zero before the first. */
  function LastStamp(entries: seq<Entry>): Millis
    decreases |entries|
  {
    if entries == [] then At(0)
    else if IsSynthesized(entries[|entries| - 1]) then LastStamp(entries[..|entries| - 1])
    else entries[|entries| - 1].timestamp
  }

  /** The time since a stamp: nothing since an unreadable or zero one, and unreadable where the later one is. */
  predicate Since(last: Millis, e: Entry) {
    e.delta == if last.NotANumber? || last.ms <= 0 then At(0)
               else if e.timestamp.NotANumber? then NotANumber else At(e.timestamp.ms - last.ms)
  }

  ghost predicate Timed(entries: seq<Entry>) {
    forall k :: 0 <= k < |entries| && !IsSynthesized(entries[k]) ==> Since(LastStamp(entries[..k]), entries[k])
  }

  /** The session the parent stream is in: the one named last, by an init that names one or by the announcement. */
  function SessionNamed(entries: seq<Entry>): Option<string>
    decreases |entries|
  {
    if entries == [] then None else
      var before, body := SessionNamed(entries[..|entries| - 1]), entries[|entries| - 1].body;
      if body.SessionInit? && body.session.Some? && (body.synthesized || body.session.value != "") then body.session else before
  }

  /** Where a pass is after these lines. */
  ghost predicate PassIs(env: Env, main: bool, lines: seq<string>, pass: Pass) {
    && pass.lines == |lines|
    && (pass.initSeen <==> main && exists i :: 0 <= i < |lines| && Opens(env, lines, i))
    && pass.lastTimestamp == LastStamp(pass.entries) && Timed(pass.entries)
    && pass.sessionId == (if main then SessionNamed(pass.entries) else None)
  }

  // ----- One more line -----

  lemma RawsStay(env: Env, lines: seq<string>, line: string)
    ensures forall i :: 0 <= i < |lines| ==> RawAt(env, lines + [line], i) == RawAt(env, lines, i)
    ensures forall i :: 0 <= i < |lines| ==> (Opens(env, lines + [line], i) <==> Opens(env, lines, i))
    ensures forall i :: 0 <= i < |lines| ==> (Introduces(env, lines + [line], i) <==> Introduces(env, lines, i))
    ensures forall i :: 0 <= i < |lines| ==> (Speaks(env, lines + [line], i) <==> Speaks(env, lines, i))
  {
    var more := lines + [line];
    assert forall i :: 0 <= i < |lines| ==> more[i] == lines[i];
    assert forall i :: 0 <= i < |lines| ==> RawAt(env, more, i) == RawAt(env, lines, i);
    hide RawAt, IsInit, NamesSession, Says;
    assert forall i :: 0 <= i < |lines| ==> (Opens(env, more, i) <==> Opens(env, lines, i));
  }

  lemma SnocStamps(entries: seq<Entry>, e: Entry)
    requires Timed(entries) && (!IsSynthesized(e) ==> Since(LastStamp(entries), e))
    ensures Timed(entries + [e])
    ensures LastStamp(entries + [e]) == if IsSynthesized(e) then LastStamp(entries) else e.timestamp
    ensures SessionNamed(entries + [e]) ==
      if e.body.SessionInit? && e.body.session.Some? && (e.body.synthesized || e.body.session.value != "") then e.body.session
      else SessionNamed(entries)
  {
    var more := entries + [e];
    assert more[..|entries|] == entries;
    forall k | 0 <= k < |more| && !IsSynthesized(more[k]) ensures Since(LastStamp(more[..k]), more[k]) {
      if k < |entries| { assert more[..k] == entries[..k]; }
    }
  }

  /** The entries that one more line adds: an announcement, an entry of its own, both in this order, or none. */
  ghost predicate Added(env: Env, main: bool, lines: seq<string>, added: seq<Entry>)
    requires lines != []
  {
    var n := |lines| - 1;
    && |added| <= 2 && (|added| == 2 ==> IsSynthesized(added[0]) && !IsSynthesized(added[1]))
    && (forall k :: 0 <= k < |added| ==> FromLine(env, main, lines, n, added[k]))
    && (Speaks(env, lines, n) <==> exists k :: 0 <= k < |added| && !IsSynthesized(added[k]))
    && (main && Introduces(env, lines, n) <==> exists k :: 0 <= k < |added| && IsSynthesized(added[k]))
  }

  function Repeat(n: nat, times: nat): (at: seq<nat>)
    ensures |at| == times && forall k :: 0 <= k < times ==> at[k] == n
  {
    if times == 0 then [] else Repeat(n, times - 1) + [n]
  }

  lemma HasEntryStays(entries: seq<Entry>, at: seq<nat>, more: seq<Entry>, moreAt: seq<nat>, i: nat, synthesized: bool)
    requires HasEntry(entries, at, i, synthesized) && entries <= more && at <= moreAt
    ensures HasEntry(more, moreAt, i, synthesized)
  {
    var k :| 0 <= k < |at| && k < |entries| && at[k] == i && IsSynthesized(entries[k]) == synthesized;
    assert moreAt[k] == i && more[k] == entries[k];
  }

  lemma FromLineStays(env: Env, main: bool, lines: seq<string>, line: string, i: nat, e: Entry)
    requires i < |lines| && FromLine(env, main, lines, i, e)
    ensures FromLine(env, main, lines + [line], i, e)
  {
    RawsStay(env, lines, line);
    hide Introduces, RawAt, EntryOf, IntroductionOf, IsSynthesized;
  }

  lemma AddedHasEntry(entries: seq<Entry>, at: seq<nat>, added: seq<Entry>, n: nat, synthesized: bool)
    requires |at| == |entries| && exists k :: 0 <= k < |added| && IsSynthesized(added[k]) == synthesized
    ensures HasEntry(entries + added, at + Repeat(n, |added|), n, synthesized)
  {
    var k :| 0 <= k < |added| && IsSynthesized(added[k]) == synthesized;
    assert (entries + added)[|entries| + k] == added[k] && (at + Repeat(n, |added|))[|at| + k] == n;
  }

  lemma AddKeepsOrder(env: Env, main: bool, lines: seq<string>, line: string, entries: seq<Entry>, at: seq<nat>, added: seq<Entry>)
    requires LineByLine(env, main, lines, entries, at) && Added(env, main, lines + [line], added)
    ensures var all, allAt := entries + added, at + Repeat(|lines|, |added|);
      && (forall k :: 0 <= k < |allAt| ==> allAt[k] < |lines| + 1 && FromLine(env, main, lines + [line], allAt[k], all[k]))
      && (forall j, k :: 0 <= j < k < |allAt| ==>
            allAt[j] < allAt[k] || (allAt[j] == allAt[k] && IsSynthesized(all[j]) && !IsSynthesized(all[k])))
  {
    hide IsSynthesized, FromLine, HasEntry, Speaks, Introduces;
    var n, more := |lines|, lines + [line];
    var all, allAt := entries + added, at + Repeat(n, |added|);
    forall k | 0 <= k < |allAt| ensures allAt[k] < n + 1 && FromLine(env, main, more, allAt[k], all[k]) {
      if k < |at| { FromLineStays(env, main, lines, line, at[k], entries[k]); }
    }
  }

  lemma SpeakersHaveEntries(env: Env, main: bool, lines: seq<string>, line: string, entries: seq<Entry>, at: seq<nat>, added: seq<Entry>, i: nat)
    requires LineByLine(env, main, lines, entries, at) && Added(env, main, lines + [line], added)
    requires i <= |lines| && Speaks(env, lines + [line], i)
    ensures HasEntry(entries + added, at + Repeat(|lines|, |added|), i, false)
  {
    RawsStay(env, lines, line);
    hide IsSynthesized, FromLine, HasEntry, Speaks, Introduces, Opens, RawAt;
    if i < |lines| { HasEntryStays(entries, at, entries + added, at + Repeat(|lines|, |added|), i, false); }
    else { AddedHasEntry(entries, at, added, |lines|, false); }
  }

  lemma IntroducersHaveEntries(env: Env, main: bool, lines: seq<string>, line: string, entries: seq<Entry>, at: seq<nat>, added: seq<Entry>, i: nat)
    requires LineByLine(env, main, lines, entries, at) && Added(env, main, lines + [line], added)
    requires i <= |lines| && main && Introduces(env, lines + [line], i)
    ensures HasEntry(entries + added, at + Repeat(|lines|, |added|), i, true)
  {
    RawsStay(env, lines, line);
    hide IsSynthesized, FromLine, HasEntry, Speaks, Introduces, Opens, RawAt;
    if i < |lines| { HasEntryStays(entries, at, entries + added, at + Repeat(|lines|, |added|), i, true); }
    else { AddedHasEntry(entries, at, added, |lines|, true); }
  }

  lemma AddLine(env: Env, main: bool, lines: seq<string>, line: string, entries: seq<Entry>, at: seq<nat>, added: seq<Entry>)
    requires LineByLine(env, main, lines, entries, at) && Added(env, main, lines + [line], added)
    ensures LineByLine(env, main, lines + [line], entries + added, at + Repeat(|lines|, |added|))
  {
    hide IsSynthesized, FromLine, HasEntry, Speaks, Introduces, Added, Repeat;
    AddKeepsOrder(env, main, lines, line, entries, at, added);
    forall i | 0 <= i < |lines + [line]| && Speaks(env, lines + [line], i)
      ensures HasEntry(entries + added, at + Repeat(|lines|, |added|), i, false)
    {
      SpeakersHaveEntries(env, main, lines, line, entries, at, added, i);
    }
    forall i | 0 <= i < |lines + [line]| && main && Introduces(env, lines + [line], i)
      ensures HasEntry(entries + added, at + Repeat(|lines|, |added|), i, true)
    {
      IntroducersHaveEntries(env, main, lines, line, entries, at, added, i);
    }
  }

  // ----- What reading a line adds -----

  lemma OpenedBefore(env: Env, lines: seq<string>, line: string)
    ensures Introduces(env, lines + [line], |lines|) <==>
      && RawAt(env, lines + [line], |lines|).Some? && NamesSession(RawAt(env, lines + [line], |lines|).value)
      && !(exists i :: 0 <= i < |lines| && Opens(env, lines, i))
    ensures (exists i :: 0 <= i < |lines| + 1 && Opens(env, lines + [line], i)) <==>
      (exists i :: 0 <= i < |lines| && Opens(env, lines, i)) || Opens(env, lines + [line], |lines|)
  {
    RawsStay(env, lines, line);
    hide RawAt, NamesSession, Opens;
    if i :| 0 <= i < |lines| && Opens(env, lines, i) { assert Opens(env, lines + [line], i); }
  }

  /** What a conversion makes of a line is what the line says. */
  lemma ConvertedIs(env: Env, i: nat, raw: Raw, last: Millis)
    ensures Convert(raw, last, env.clock(2 * i + 1)).Some? <==> Says(raw)
    ensures Says(raw) ==>
      var e := Convert(raw, last, env.clock(2 * i + 1)).value;
      EntryOf(env, i, raw, e) && Since(last, e) && !IsSynthesized(e) && (e.body.SessionInit? <==> IsInit(raw))
  {
  }

  lemma SynthesizedIs(env: Env, main: bool, lines: seq<string>, line: string, pass: Pass, raw: Raw)
    requires PassIs(env, main, lines, pass) && RawAt(env, lines + [line], |lines|) == Some(raw)
    ensures var begun := Synthesize(main, pass, raw, env.clock(2 * pass.lines));
      var introduced := main && Introduces(env, lines + [line], |lines|);
      && (!introduced ==> begun == pass)
      && (introduced ==>
            exists e :: IntroductionOf(env, |lines|, raw, e) && IsSynthesized(e)
                        && begun == pass.(initSeen := true, sessionId := if raw.sessionId.Some? then raw.sessionId else pass.sessionId,
                                          entries := pass.entries + [e]))
  {
    OpenedBefore(env, lines, line);
    hide RawAt, Opens, LastStamp, Timed, SessionNamed;
    var e := SynthesizedInit(raw, env.clock(2 * pass.lines));
    assert IntroductionOf(env, |lines|, raw, e) && IsSynthesized(e);
  }

  predicate OpensIs(env: Env, lines: seq<string>, i: nat, raw: Raw)
    requires i < |lines|
  {
    Opens(env, lines, i) <==> IsInit(raw) || NamesSession(raw)
  }

  lemma OpensAt(env: Env, lines: seq<string>, i: nat, raw: Raw)
    requires i < |lines| && RawAt(env, lines, i) == Some(raw)
    ensures OpensIs(env, lines, i, raw)
  {
  }

  lemma NothingAdded(env: Env, main: bool, lines: seq<string>, line: string, pass: Pass)
    requires PassIs(env, main, lines, pass) && RawAt(env, lines + [line], |lines|).None?
    ensures Added(env, main, lines + [line], []) && PassIs(env, main, lines + [line], pass.(lines := pass.lines + 1))
  {
    OpenedBefore(env, lines, line);
    hide RawAt, LastStamp, Timed, SessionNamed;
  }

  /** Where the pass is once the announcement, if the line makes one, is out. */
  ghost predicate Announced(env: Env, main: bool, lines: seq<string>, line: string, pass: Pass, begun: Pass, intro: seq<Entry>)
    requires RawAt(env, lines + [line], |lines|).Some?
  {
    && begun.entries == pass.entries + intro && begun.lines == |lines| && |intro| <= 1
    && (|intro| == 1 <==> main && Introduces(env, lines + [line], |lines|))
    && (|intro| == 1 ==> IsSynthesized(intro[0]) && IntroductionOf(env, |lines|, RawAt(env, lines + [line], |lines|).value, intro[0]))
    && begun.lastTimestamp == LastStamp(begun.entries) && Timed(begun.entries)
    && begun.sessionId == (if main then SessionNamed(begun.entries) else None)
    && (begun.initSeen <==> main && ((exists i :: 0 <= i < |lines| && Opens(env, lines, i)) || NamesSession(RawAt(env, lines + [line], |lines|).value)))
  }

  lemma Announce(env: Env, main: bool, lines: seq<string>, line: string, pass: Pass, raw: Raw) returns (intro: seq<Entry>)
    requires PassIs(env, main, lines, pass) && RawAt(env, lines + [line], |lines|) == Some(raw)
    ensures Announced(env, main, lines, line, pass, Synthesize(main, pass, raw, env.clock(2 * pass.lines)), intro)
  {
    var begun := Synthesize(main, pass, raw, env.clock(2 * pass.lines));
    SynthesizedIs(env, main, lines, line, pass, raw);
    OpenedBefore(env, lines, line);
    hide Synthesize, RawAt, Opens, LastStamp, Timed, SessionNamed, Introduces, NamesSession;
    if main && Introduces(env, lines + [line], |lines|) {
      var e :| IntroductionOf(env, |lines|, raw, e) && IsSynthesized(e)
               && begun == pass.(initSeen := true, sessionId := if raw.sessionId.Some? then raw.sessionId else pass.sessionId,
                                 entries := pass.entries + [e]);
      SnocStamps(pass.entries, e);
      intro := [e];
    } else {
      intro := [];
      assert pass.entries + intro == pass.entries;
    }
  }

  lemma SpokenIsAdded(env: Env, main: bool, lines: seq<string>, intro: seq<Entry>, raw: Raw, e: Entry)
    requires lines != [] && RawAt(env, lines, |lines| - 1) == Some(raw) && |intro| <= 1
    requires |intro| == 1 <==> main && Introduces(env, lines, |lines| - 1)
    requires |intro| == 1 ==> IsSynthesized(intro[0]) && IntroductionOf(env, |lines| - 1, raw, intro[0])
    requires Says(raw) && EntryOf(env, |lines| - 1, raw, e) && !IsSynthesized(e)
    ensures Added(env, main, lines, intro + [e])
  {
    hide RawAt, Introduces, EntryOf, Says, IntroductionOf, IsSynthesized;
    var added := intro + [e];
    assert added[|intro|] == e;
    assert intro != [] ==> added[0] == intro[0];
  }

  lemma SpokenPass(env: Env, main: bool, lines: seq<string>, line: string, pass: Pass, begun: Pass, intro: seq<Entry>, raw: Raw, e: Entry)
    requires RawAt(env, lines + [line], |lines|) == Some(raw) && Announced(env, main, lines, line, pass, begun, intro)
    requires Since(begun.lastTimestamp, e) && !IsSynthesized(e) && (e.body.SessionInit? <==> IsInit(raw))
    ensures PassIs(env, main, lines + [line], Append(main, begun, e).(lines := |lines| + 1))
  {
    OpenedBefore(env, lines, line);
    OpensAt(env, lines + [line], |lines|, raw);
    SnocStamps(begun.entries, e);
    hide RawAt, Opens, LastStamp, Timed, SessionNamed, Introduces, NamesSession, Since, IntroductionOf, IsInit;
  }

  lemma Spoken(env: Env, main: bool, lines: seq<string>, line: string, pass: Pass, begun: Pass, intro: seq<Entry>, raw: Raw, e: Entry)
    requires RawAt(env, lines + [line], |lines|) == Some(raw) && Announced(env, main, lines, line, pass, begun, intro)
    requires Says(raw) && EntryOf(env, |lines|, raw, e) && Since(begun.lastTimestamp, e) && !IsSynthesized(e)
    requires e.body.SessionInit? <==> IsInit(raw)
    ensures var after := Append(main, begun, e).(lines := |lines| + 1);
      && after.entries == pass.entries + (intro + [e])
      && Added(env, main, lines + [line], intro + [e]) && PassIs(env, main, lines + [line], after)
  {
    SpokenPass(env, main, lines, line, pass, begun, intro, raw, e);
    hide RawAt, PassIs, Opens, LastStamp, Timed, SessionNamed, Introduces, NamesSession, EntryOf, Since, Says, IntroductionOf, IsInit, IsSynthesized, Added;
    SpokenIsAdded(env, main, lines + [line], intro, raw, e);
    assert (pass.entries + intro) + [e] == pass.entries + (intro + [e]);
  }

  lemma Silent(env: Env, main: bool, lines: seq<string>, line: string, pass: Pass, begun: Pass, intro: seq<Entry>, raw: Raw)
    requires RawAt(env, lines + [line], |lines|) == Some(raw) && Announced(env, main, lines, line, pass, begun, intro)
    requires !Says(raw)
    ensures Added(env, main, lines + [line], intro) && PassIs(env, main, lines + [line], begun.(lines := |lines| + 1))
  {
    OpenedBefore(env, lines, line);
    OpensAt(env, lines + [line], |lines|, raw);
    hide RawAt, Opens, LastStamp, Timed, SessionNamed, Introduces, NamesSession, EntryOf, IntroductionOf;
  }

  /** A line is taken in: perhaps the announcement first, then perhaps its own entry. */
  lemma TakenIn(env: Env, main: bool, lines: seq<string>, line: string, pass: Pass, raw: Raw) returns (added: seq<Entry>)
    requires PassIs(env, main, lines, pass) && RawAt(env, lines + [line], |lines|) == Some(raw)
    ensures var after := HandleRaw(env, main, pass, raw).(lines := pass.lines + 1);
      after.entries == pass.entries + added && Added(env, main, lines + [line], added) && PassIs(env, main, lines + [line], after)
  {
    hide Synthesize, Convert, RawAt, Added, Says, EntryOf, Since, Append, Announced;
    var begun := Synthesize(main, pass, raw, env.clock(2 * pass.lines));
    var intro := Announce(env, main, lines, line, pass, raw);
    AnnouncedEntries(env, main, lines, line, pass, begun, intro);
    ConvertedIs(env, |lines|, raw, begun.lastTimestamp);
    if Says(raw) {
      var e := Convert(raw, begun.lastTimestamp, env.clock(2 * |lines| + 1)).value;
      Spoken(env, main, lines, line, pass, begun, intro, raw, e);
      added := intro + [e];
    } else {
      Silent(env, main, lines, line, pass, begun, intro, raw);
      added := intro;
    }
  }

  lemma AnnouncedEntries(env: Env, main: bool, lines: seq<string>, line: string, pass: Pass, begun: Pass, intro: seq<Entry>)
    requires RawAt(env, lines + [line], |lines|).Some? && Announced(env, main, lines, line, pass, begun, intro)
    ensures begun.entries == pass.entries + intro && begun.lines == |lines|
  {
  }

  lemma LineTaken(env: Env, main: bool, lines: seq<string>, line: string, pass: Pass) returns (added: seq<Entry>)
    requires PassIs(env, main, lines, pass)
    ensures var after := ReadLine(env, main, pass, line);
      after.entries == pass.entries + added && Added(env, main, lines + [line], added) && PassIs(env, main, lines + [line], after)
  {
    var more, n := lines + [line], |lines|;
    assert more[n] == line;
    hide Added, PassIs, HandleRaw;
    if RawAt(env, more, n).None? {
      NothingAdded(env, main, lines, line, pass);
      added := [];
    } else {
      assert pass.lines == n by { CountsLines(env, main, lines, pass); }
      added := TakenIn(env, main, lines, line, pass, RawAt(env, more, n).value);
    }
  }

  lemma CountsLines(env: Env, main: bool, lines: seq<string>, pass: Pass)
    requires PassIs(env, main, lines, pass)
    ensures pass.lines == |lines|
  {
  }

  lemma {:induction false} LinesTaken(env: Env, main: bool, lines: seq<string>) returns (at: seq<nat>)
    ensures var pass := ReadLines(env, main, FRESH.pass, lines);
      LineByLine(env, main, lines, pass.entries, at) && PassIs(env, main, lines, pass)
    decreases |lines|
  {
    if lines == [] {
      at := [];
    } else {
      var n := |lines| - 1;
      var before := ReadLines(env, main, FRESH.pass, lines[..n]);
      assert lines == lines[..n] + [lines[n]];
      ReadLinesOfAppend(env, main, FRESH.pass, lines[..n], [lines[n]]);
      OneRead(env, main, before, lines[n]);
      hide ReadLine, ReadLines, PassIs, LineByLine, Added;
      var earlier := LinesTaken(env, main, lines[..n]);
      var added := LineTaken(env, main, lines[..n], lines[n], before);
      AddLine(env, main, lines[..n], lines[n], before.entries, earlier, added);
      at := earlier + Repeat(n, |added|);
    }
  }

  lemma OneRead(env: Env, main: bool, pass: Pass, line: string)
    ensures ReadLines(env, main, pass, [line]) == ReadLine(env, main, pass, line)
  {
    assert [line][1..] == [];
  }

  // ----- The theorem -----

  /** One pass over any text: its entries are, line by line and in order, what the lines say, with the announcement before
      the entry of the line that introduces the session; each has its line's time, or the clock's, and the time since
      the one before; and the parent stream is in the session named last. */
  lemma EntriesAreWhatLinesSay(env: Env, main: bool, text: string)
    ensures var entries := OnePass(env, main, text).pass.entries;
      && (exists at :: LineByLine(env, main, Lines(text), entries, at)) && Timed(entries)
      && OnePass(env, main, text).pass.sessionId == (if main then SessionNamed(entries) else None)
  {
    hide ReadLine, LineByLine;
    assert "" + text == text;
    var at := LinesTaken(env, main, Lines(text));
  }
}
