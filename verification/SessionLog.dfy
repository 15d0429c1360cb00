/** What one pass over a session file means: its complete lines, the entries each line emits, and the
    stream a tail builds from them. `SessionLogTail` reads the same file in pieces. */
module SessionLog {
  import opened Values
  import opened TextLines

  /** A time stamp in milliseconds; an unreadable date is NaN in JavaScript. */
  datatype Millis = At(ms: int) | NotANumber

  datatype Block = Block(toolResult: bool, body: string)

  datatype Content = Missing | Text(text: string) | Blocks(blocks: seq<Block>) | Scalar

  datatype Message = Message(id: Option<string>, model: Option<string>, content: Content)

  datatype Kind = Assistant | User | System | Result | Other

  /** A parsed line: `sessionId` is the file's own session, `initSession` and `initModel` are what a
      system/init line carries. */
  datatype Raw = Raw(
    kind: Kind,
    timestamp: Option<Millis>,
    sessionId: Option<string>,
    message: Option<Message>,
    subtype: Option<string>,
    initSession: Option<string>,
    initModel: Option<string>)

  datatype Body =
    | AssistantTurn(messageId: Option<string>, content: seq<Block>)
    | ToolResults(content: seq<Block>)
    | SessionInit(session: Option<string>, model: Option<string>, synthesized: bool)
    | RunResult(subtype: string)

  datatype Entry = Entry(timestamp: Millis, delta: Millis, body: Body)

  /** JSON.parse, and the wall clock: `clock(2n)` and `clock(2n+1)` are the two readings that line n of
      a file may take. */
  datatype Env = Env(parse: string -> Option<Raw>, clock: nat -> int)

  /** What has been made of a file so far. `initSeen` and `sessionId` belong to the parent stream. */
  datatype Pass = Pass(lines: nat, lastTimestamp: Millis, initSeen: bool, sessionId: Option<string>, entries: seq<Entry>)

  /** A pass together with the characters of the line that is not finished yet. */
  datatype Stream = Stream(buffer: string, pass: Pass)

  const FRESH := Stream("", Pass(0, At(0), false, None, []))

  // ----- What a line emits -----

  function Stamp(raw: Raw, now: int): Millis {
    if raw.timestamp.Some? then raw.timestamp.value else At(now)
  }

  function Delta(last: Millis, timestamp: Millis): Millis {
    if last.At? && last.ms > 0 then
      if timestamp.At? then At(timestamp.ms - last.ms) else NotANumber
    else At(0)
  }

  /** A message id counts only when it is a non-empty string. */
  function MessageId(message: Message): Option<string> {
    if Truthy(message.id) then message.id else None
  }

  /** The body of the emitted entry; None where the conversion returns null or throws. */
  function ConvertBody(raw: Raw): Option<Body> {
    match raw.kind
    case Assistant =>
      if raw.message.None? then None else
      (match raw.message.value.content
       case Missing => Some(AssistantTurn(MessageId(raw.message.value), []))
       case Blocks(blocks) => Some(AssistantTurn(MessageId(raw.message.value), blocks))
       case Text(_) => None
       case Scalar => None)
    case User =>
      if raw.message.Some? && raw.message.value.content.Blocks?
         && (exists b :: b in raw.message.value.content.blocks && b.toolResult)
      then Some(ToolResults(raw.message.value.content.blocks)) else None
    case System =>
      if raw.subtype == Some("init") then Some(SessionInit(raw.initSession, raw.initModel, false)) else None
    case Result => Some(RunResult(if Truthy(raw.subtype) then raw.subtype.value else "success"))
    case Other => None
  }

  function Convert(raw: Raw, last: Millis, now: int): Option<Entry> {
    if ConvertBody(raw).None? then None else
    Some(Entry(Stamp(raw, now), Delta(last, Stamp(raw, now)), ConvertBody(raw).value))
  }

  function Model(raw: Raw): Option<string> {
    if raw.message.Some? then raw.message.value.model else None
  }

  /** Does this line announce a session that no init line has announced? */
  predicate Announces(raw: Raw) {
    raw.kind.Assistant? && (Truthy(raw.sessionId) || Truthy(Model(raw)))
  }

  function SynthesizedInit(raw: Raw, now: int): Entry {
    Entry(Stamp(raw, now), At(0), SessionInit(raw.sessionId, Model(raw), true))
  }

  function Synthesize(main: bool, pass: Pass, raw: Raw, now: int): Pass {
    if !main || pass.initSeen || !Announces(raw) then pass else
    pass.(initSeen := true,
          sessionId := if raw.sessionId.Some? then raw.sessionId else pass.sessionId,
          entries := pass.entries + [SynthesizedInit(raw, now)])
  }

  function Append(main: bool, pass: Pass, entry: Entry): Pass {
    var noted :=
      if main && entry.body.SessionInit? then
        pass.(initSeen := true,
              sessionId := if Truthy(entry.body.session) then entry.body.session else pass.sessionId)
      else pass;
    noted.(lastTimestamp := entry.timestamp, entries := pass.entries + [entry])
  }

  function HandleRaw(env: Env, main: bool, pass: Pass, raw: Raw): Pass {
    var begun := Synthesize(main, pass, raw, env.clock(2 * pass.lines));
    var converted := Convert(raw, begun.lastTimestamp, env.clock(2 * pass.lines + 1));
    if converted.None? then begun else Append(main, begun, converted.value)
  }

  function ReadLine(env: Env, main: bool, pass: Pass, line: string): Pass {
    var trimmed := Trim(line);
    var raw := if trimmed == "" then None else env.parse(trimmed);
    (if raw.None? then pass else HandleRaw(env, main, pass, raw.value)).(lines := pass.lines + 1)
  }

  function ReadLines(env: Env, main: bool, pass: Pass, lines: seq<string>): Pass
    decreases |lines|
  {
    if lines == [] then pass else ReadLines(env, main, ReadLine(env, main, pass, lines[0]), lines[1..])
  }

  /** Read every finished line of the buffer. */
  function Drain(env: Env, main: bool, stream: Stream): Stream {
    Stream(Unterminated(stream.buffer), ReadLines(env, main, stream.pass, Lines(stream.buffer)))
  }

  /** Reading more text: the buffered start of a line is completed first. */
  function Feed(env: Env, main: bool, stream: Stream, text: string): Stream {
    Drain(env, main, stream.(buffer := stream.buffer + text))
  }

  /** Everything one uninterrupted pass over a text makes of it. */
  function OnePass(env: Env, main: bool, text: string): Stream {
    Feed(env, main, FRESH, text)
  }

  // ----- Laws -----

  lemma ReadFirst(env: Env, main: bool, pass: Pass, line: string, rest: seq<string>)
    ensures ReadLines(env, main, pass, [line] + rest) == ReadLines(env, main, ReadLine(env, main, pass, line), rest)
  {
    hide ReadLine;
    assert ([line] + rest)[1..] == rest;
  }

  /** Reading one line and then the others is reading them all. */
  lemma DrainOneLine(env: Env, main: bool, stream: Stream)
    requires '\n' in stream.buffer
    ensures var k := LineEnd(stream.buffer);
            Drain(env, main, stream) ==
            Drain(env, main, Stream(stream.buffer[k + 1..], ReadLine(env, main, stream.pass, stream.buffer[..k])))
  {
    FirstLine(stream.buffer);
    hide ReadLine, Lines, Unterminated, LineEnd;
    ReadFirst(env, main, stream.pass, stream.buffer[..LineEnd(stream.buffer)], Lines(AfterLine(stream.buffer)));
  }

  lemma DrainNothing(env: Env, main: bool, stream: Stream)
    requires '\n' !in stream.buffer
    ensures Drain(env, main, stream) == stream
  {
  }

  lemma {:induction false} ReadLinesOfAppend(env: Env, main: bool, pass: Pass, xs: seq<string>, ys: seq<string>)
    ensures ReadLines(env, main, pass, xs + ys) == ReadLines(env, main, ReadLines(env, main, pass, xs), ys)
    decreases |xs|
  {
    if xs == [] {
      assert xs + ys == ys;
    } else {
      assert (xs + ys)[1..] == xs[1..] + ys;
      ReadLinesOfAppend(env, main, ReadLine(env, main, pass, xs[0]), xs[1..], ys);
    }
  }

  lemma DrainTwice(env: Env, main: bool, stream: Stream, b: string)
    ensures Feed(env, main, Drain(env, main, stream), b) == Drain(env, main, stream.(buffer := stream.buffer + b))
  {
    hide ReadLine;
    var t := stream.buffer;
    var finished, others := Lines(t), Lines(Unterminated(t) + b);
    LinesOfAppend(t, b);
    ReadLinesOfAppend(env, main, stream.pass, finished, others);
  }

  /** Reading a text in two pieces, cut at any character, is reading it in one. */
  lemma FeedTwice(env: Env, main: bool, stream: Stream, a: string, b: string)
    ensures Feed(env, main, Feed(env, main, stream, a), b) == Feed(env, main, stream, a + b)
  {
    assert stream.buffer + (a + b) == (stream.buffer + a) + b;
    DrainTwice(env, main, stream.(buffer := stream.buffer + a), b);
  }

  function FeedAll(env: Env, main: bool, stream: Stream, chunks: seq<string>): Stream
    decreases |chunks|
  {
    if chunks == [] then stream else FeedAll(env, main, Feed(env, main, stream, chunks[0]), chunks[1..])
  }

  function Concat(chunks: seq<string>): string {
    if chunks == [] then "" else chunks[0] + Concat(chunks[1..])
  }

  /** A stream whose buffer holds no finished line, as every reachable one does. */
  predicate Settled(stream: Stream) {
    '\n' !in stream.buffer
  }

  lemma FeedNothing(env: Env, main: bool, stream: Stream)
    requires Settled(stream)
    ensures Feed(env, main, stream, "") == stream
  {
    assert stream.buffer + "" == stream.buffer;
  }

  lemma OnePassOfNothing(env: Env, main: bool)
    ensures OnePass(env, main, "") == FRESH
  {
    FeedNothing(env, main, FRESH);
  }

  /** Every chunking of a file yields what one pass over it yields. */
  lemma {:induction false} EveryChunkingIsOnePass(env: Env, main: bool, stream: Stream, chunks: seq<string>)
    requires Settled(stream)
    ensures FeedAll(env, main, stream, chunks) == Feed(env, main, stream, Concat(chunks))
    decreases |chunks|
  {
    if chunks == [] {
      FeedNothing(env, main, stream);
    } else {
      LinesAreUnbroken(stream.buffer + chunks[0]);
      EveryChunkingIsOnePass(env, main, Feed(env, main, stream, chunks[0]), chunks[1..]);
      FeedTwice(env, main, stream, chunks[0], Concat(chunks[1..]));
    }
  }

  // ----- Session announcements -----

  predicate IsSynthesized(e: Entry) {
    e.body.SessionInit? && e.body.synthesized
  }

  /** At most one synthesized announcement, and none after an init of either kind. */
  ghost predicate AnnouncedOnce(pass: Pass) {
    && (forall i, j :: 0 <= i < j < |pass.entries| && pass.entries[i].body.SessionInit? ==> !IsSynthesized(pass.entries[j]))
    && (!pass.initSeen ==> forall i :: 0 <= i < |pass.entries| ==> !pass.entries[i].body.SessionInit?)
  }

  lemma ReadLineKeepsAnnouncedOnce(env: Env, pass: Pass, line: string)
    requires AnnouncedOnce(pass)
    ensures AnnouncedOnce(ReadLine(env, true, pass, line))
  {
    var trimmed := Trim(line);
    if trimmed == "" || env.parse(trimmed).None? { return; }
    var raw := env.parse(trimmed).value;
    var begun := Synthesize(true, pass, raw, env.clock(2 * pass.lines));
    assert AnnouncedOnce(begun);
    var converted := Convert(raw, begun.lastTimestamp, env.clock(2 * pass.lines + 1));
    if converted.Some? {
      assert !IsSynthesized(converted.value);
      assert AnnouncedOnce(Append(true, begun, converted.value));
    }
  }

  lemma {:induction false} ReadLinesKeepsAnnouncedOnce(env: Env, pass: Pass, lines: seq<string>)
    requires AnnouncedOnce(pass)
    ensures AnnouncedOnce(ReadLines(env, true, pass, lines))
    decreases |lines|
  {
    if lines != [] {
      ReadLineKeepsAnnouncedOnce(env, pass, lines[0]);
      ReadLinesKeepsAnnouncedOnce(env, ReadLine(env, true, pass, lines[0]), lines[1..]);
    }
  }

  /** In every parent stream at most one announcement is synthesized, and only where no init came before. */
  lemma ParentAnnouncesOnce(env: Env, text: string)
    ensures var es := OnePass(env, true, text).pass.entries;
            forall i, j :: 0 <= i < j < |es| && es[i].body.SessionInit? ==> !IsSynthesized(es[j])
  {
    ReadLinesKeepsAnnouncedOnce(env, FRESH.pass, Lines("" + text));
  }

  /** A sub-agent stream never synthesizes an announcement. */
  lemma {:induction false} SubagentsNeverAnnounce(env: Env, pass: Pass, lines: seq<string>)
    requires forall e :: e in pass.entries ==> !IsSynthesized(e)
    ensures forall e :: e in ReadLines(env, false, pass, lines).entries ==> !IsSynthesized(e)
    decreases |lines|
  {
    if lines != [] {
      var next := ReadLine(env, false, pass, lines[0]);
      assert forall e :: e in next.entries ==> !IsSynthesized(e);
      SubagentsNeverAnnounce(env, next, lines[1..]);
    }
  }

  // ----- Elapsed times -----

  /** The first converted entry's time stamp. */
  function FirstStamp(entries: seq<Entry>): Option<Millis>
    decreases |entries|
  {
    if entries == [] then None else
      var n := |entries| - 1;
      var before := FirstStamp(entries[..n]);
      if before.Some? then before else if IsSynthesized(entries[n]) then None else Some(entries[n].timestamp)
  }

  /** The deltas of the converted entries added up. */
  function Elapsed(entries: seq<Entry>): int
    decreases |entries|
  {
    if entries == [] then 0 else
      var n := |entries| - 1;
      Elapsed(entries[..n]) + (if !IsSynthesized(entries[n]) && entries[n].delta.At? then entries[n].delta.ms else 0)
  }

  predicate Dated(entries: seq<Entry>) {
    forall i :: 0 <= i < |entries| && !IsSynthesized(entries[i]) ==> entries[i].timestamp.At? && entries[i].timestamp.ms > 0
  }

  /** While every time stamp is a date, the deltas add up to the time from the first entry to the last. */
  ghost predicate Telescopes(pass: Pass) {
    Dated(pass.entries) ==>
      match FirstStamp(pass.entries)
      case None => pass.lastTimestamp == At(0) && Elapsed(pass.entries) == 0
      case Some(first) =>
        first.At? && pass.lastTimestamp.At? && pass.lastTimestamp.ms > 0 && Elapsed(pass.entries) == pass.lastTimestamp.ms - first.ms
  }

  lemma SnocTelescopes(entries: seq<Entry>, e: Entry)
    ensures FirstStamp(entries + [e]) ==
            if FirstStamp(entries).Some? then FirstStamp(entries) else if IsSynthesized(e) then None else Some(e.timestamp)
    ensures Elapsed(entries + [e]) == Elapsed(entries) + (if !IsSynthesized(e) && e.delta.At? then e.delta.ms else 0)
    ensures Dated(entries + [e]) ==> Dated(entries) && (IsSynthesized(e) || (e.timestamp.At? && e.timestamp.ms > 0))
  {
    assert (entries + [e])[..|entries|] == entries;
    if Dated(entries + [e]) {
      assert forall i :: 0 <= i < |entries| ==> (entries + [e])[i] == entries[i];
      assert (entries + [e])[|entries|] == e;
    }
  }

  lemma SynthesizeTelescopes(main: bool, pass: Pass, raw: Raw, now: int)
    requires Telescopes(pass)
    ensures Telescopes(Synthesize(main, pass, raw, now))
  {
    hide FirstStamp, Elapsed, Dated;
    SnocTelescopes(pass.entries, SynthesizedInit(raw, now));
  }

  lemma AppendTelescopes(main: bool, pass: Pass, entry: Entry)
    requires Telescopes(pass) && !IsSynthesized(entry) && entry.delta == Delta(pass.lastTimestamp, entry.timestamp)
    ensures Telescopes(Append(main, pass, entry))
  {
    hide FirstStamp, Elapsed, Dated;
    SnocTelescopes(pass.entries, entry);
  }

  lemma ReadLineTelescopes(env: Env, main: bool, pass: Pass, line: string)
    requires Telescopes(pass)
    ensures Telescopes(ReadLine(env, main, pass, line))
  {
    hide FirstStamp, Elapsed, Dated, Synthesize, Append, Trim;
    var trimmed := Trim(line);
    if trimmed == "" || env.parse(trimmed).None? {
      assert pass.(lines := pass.lines + 1).entries == pass.entries;
    } else {
      var raw := env.parse(trimmed).value;
      var begun := Synthesize(main, pass, raw, env.clock(2 * pass.lines));
      SynthesizeTelescopes(main, pass, raw, env.clock(2 * pass.lines));
      var converted := Convert(raw, begun.lastTimestamp, env.clock(2 * pass.lines + 1));
      if converted.Some? {
        assert !IsSynthesized(converted.value);
        AppendTelescopes(main, begun, converted.value);
      }
    }
  }

  lemma {:induction false} ReadLinesTelescopes(env: Env, main: bool, pass: Pass, lines: seq<string>)
    requires Telescopes(pass)
    ensures Telescopes(ReadLines(env, main, pass, lines))
    decreases |lines|
  {
    hide Telescopes, ReadLine;
    if lines != [] {
      ReadLineTelescopes(env, main, pass, lines[0]);
      ReadLinesTelescopes(env, main, ReadLine(env, main, pass, lines[0]), lines[1..]);
    }
  }

  /** In every stream whose time stamps are dates the deltas of the entries add up to the time between the
      first and the last; synthesized announcements take no time. */
  lemma DeltasAddUp(env: Env, main: bool, text: string)
    requires Dated(OnePass(env, main, text).pass.entries) && FirstStamp(OnePass(env, main, text).pass.entries).Some?
    ensures var pass := OnePass(env, main, text).pass;
            && FirstStamp(pass.entries).value.At? && pass.lastTimestamp.At?
            && Elapsed(pass.entries) == pass.lastTimestamp.ms - FirstStamp(pass.entries).value.ms
  {
    assert Telescopes(FRESH.pass);
    ReadLinesTelescopes(env, main, FRESH.pass, Lines("" + text));
  }
}
