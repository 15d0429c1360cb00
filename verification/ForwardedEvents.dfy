/** From watcher entries to forwarded events, with each response's usage forwarded once. */
module ForwardedEvents {
  import opened Values

  /** `usage` as an entry carries it; `Value` stands for one of the counters the record holds. */
  datatype Usage = Undefined | Null | Value(tokens: int)

  datatype Block = TextBlock(text: string) | ToolUse(name: string, toolUseId: string) | ToolResult(toolUseId: string) | OtherBlock

  datatype Lineage = Lineage(subagentId: string, parentSessionId: Option<string>, agentType: Option<string>)

  datatype Entry =
    | AssistantEntry(messageId: Option<string>, content: seq<Block>, usage: Usage, lineage: Option<Lineage>)
    | UserEntry(content: seq<Block>, lineage: Option<Lineage>)
    | InitEntry(sessionId: Option<string>, lineage: Option<Lineage>)
    | OtherEntry

  datatype EventKind = SessionInit(sessionId: Option<string>) | AgentEvent | ToolCall(toolUseId: string) | ToolOutcome(toolUseId: string) | Thinking

  datatype Event = Event(kind: EventKind, message: string, usage: Option<int>, lineage: Option<Lineage>)

  // ----- Events of one entry -----

  function BlockEvents(content: seq<Block>): seq<Event>
    decreases |content|
  {
    if content == [] then [] else
      var n := |content| - 1;
      BlockEvents(content[..n]) +
      (match content[n]
       case TextBlock(text) => if text == "" then [] else [Event(AgentEvent, text, None, None)]
       case ToolUse(name, id) => if name == "" then [] else [Event(ToolCall(id), name, None, None)]
       case _ => [])
  }

  function ResultEvents(content: seq<Block>): seq<Event>
    decreases |content|
  {
    if content == [] then [] else
      var n := |content| - 1;
      ResultEvents(content[..n]) + (if content[n].ToolResult? then [Event(ToolOutcome(content[n].toolUseId), "", None, None)] else [])
  }

  /** The first event of the kind asked for; the length when there is none. */
  function FirstText(events: seq<Event>): (i: nat)
    ensures i <= |events| && (i < |events| ==> events[i].kind.AgentEvent?)
    ensures forall j :: 0 <= j < i ==> !events[j].kind.AgentEvent?
  {
    if events == [] || events[0].kind.AgentEvent? then 0 else 1 + FirstText(events[1..])
  }

  function FirstTool(events: seq<Event>): (i: nat)
    ensures i <= |events| && (i < |events| ==> events[i].kind.ToolCall?)
    ensures forall j :: 0 <= j < i ==> !events[j].kind.ToolCall?
  {
    if events == [] || events[0].kind.ToolCall? then 0 else 1 + FirstTool(events[1..])
  }

  /** Where an assistant entry's usage belongs: the first text, else the first tool call, else a new event. */
  function Carrier(events: seq<Event>): (i: nat)
    ensures i <= |events|
  {
    if FirstText(events) < |events| then FirstText(events) else FirstTool(events)
  }

  function AttachUsage(events: seq<Event>, tokens: int): seq<Event> {
    var i := Carrier(events);
    if i < |events| then events[i := events[i].(usage := Some(tokens))]
    else events + [Event(Thinking, "", Some(tokens), None)]
  }

  function Decorate(events: seq<Event>, lineage: Option<Lineage>): (decorated: seq<Event>)
    ensures |decorated| == |events|
    ensures forall i :: 0 <= i < |events| ==> decorated[i] == events[i].(lineage := if lineage.Some? then lineage else events[i].lineage)
  {
    if events == [] then [] else
    [if lineage.Some? then events[0].(lineage := lineage) else events[0]] + Decorate(events[1..], lineage)
  }

  function MapEntry(entry: Entry): seq<Event> {
    match entry
    case AssistantEntry(_, content, usage, lineage) =>
      Decorate(if usage.Value? then AttachUsage(BlockEvents(content), usage.tokens) else BlockEvents(content), lineage)
    case UserEntry(content, lineage) => Decorate(ResultEvents(content), lineage)
    case InitEntry(id, lineage) => Decorate([Event(SessionInit(id), "", None, None)], lineage)
    case OtherEntry => []
  }

  /** The loop over content blocks, and the usage written into the event list in place. */
  method ComputeAssistantEvents(content: seq<Block>, usage: Usage) returns (events: seq<Event>)
    ensures events == if usage.Value? then AttachUsage(BlockEvents(content), usage.tokens) else BlockEvents(content)
  {
    events := [];
    for k := 0 to |content|
      invariant events == BlockEvents(content[..k])
    {
      assert content[..k + 1][..k] == content[..k];
      match content[k] {
        case TextBlock(text) =>
          if text != "" { events := events + [Event(AgentEvent, text, None, None)]; }
        case ToolUse(name, id) =>
          if name != "" { events := events + [Event(ToolCall(id), name, None, None)]; }
        case _ =>
      }
    }
    assert content[..|content|] == content;
    if usage.Value? {
      var target := FirstText(events);
      if target == |events| {
        target := FirstTool(events);
      }
      if target < |events| {
        events := events[target := events[target].(usage := Some(usage.tokens))];
      } else {
        events := events + [Event(Thinking, "", Some(usage.tokens), None)];
      }
    }
  }

  // ----- Deduplication over a stream -----

  predicate HasUsage(entry: Entry) {
    entry.AssistantEntry? && !entry.usage.Undefined?
  }

  /** The entry is recognised by its message id when it has one. */
  predicate Identified(entry: Entry) {
    HasUsage(entry) && Truthy(entry.messageId)
  }

  function Dedup(seen: set<string>, entry: Entry): Entry {
    if Identified(entry) && entry.messageId.value in seen then entry.(usage := Undefined) else entry
  }

  function SeenAfter(seen: set<string>, entry: Entry): set<string> {
    if Identified(entry) then seen + {entry.messageId.value} else seen
  }

  /** The ids already forwarded when the i-th entry is consumed. */
  function SeenBefore(entries: seq<Entry>, i: nat): set<string>
    requires i <= |entries|
  {
    if i == 0 then {} else SeenAfter(SeenBefore(entries, i - 1), entries[i - 1])
  }

  /** Some entry among the first n carries a usage under this message id. */
  ghost predicate Named(entries: seq<Entry>, n: nat, id: string)
    requires n <= |entries|
  {
    exists j :: 0 <= j < n && Identified(entries[j]) && entries[j].messageId.value == id
  }

  lemma {:induction false} SeenIsNamed(entries: seq<Entry>, n: nat, id: string)
    requires n <= |entries|
    ensures id in SeenBefore(entries, n) <==> Named(entries, n, id)
  {
    if n > 0 { SeenIsNamed(entries, n - 1, id); }
  }

  function EventsAt(entries: seq<Entry>, i: nat): seq<Event>
    requires i < |entries|
  {
    MapEntry(Dedup(SeenBefore(entries, i), entries[i]))
  }

  /** Everything forwarded for the first n entries. */
  function Forwarded(entries: seq<Entry>, n: nat): seq<Event>
    requires n <= |entries|
  {
    if n == 0 then [] else Forwarded(entries, n - 1) + EventsAt(entries, n - 1)
  }

  // ----- One carrier per response -----

  function CarrierCount(events: seq<Event>): nat
    decreases |events|
  {
    if events == [] then 0 else
      CarrierCount(events[..|events| - 1]) + (if events[|events| - 1].usage.Some? then 1 else 0)
  }

  function TotalUsage(events: seq<Event>): int
    decreases |events|
  {
    if events == [] then 0 else
      TotalUsage(events[..|events| - 1]) + (if events[|events| - 1].usage.Some? then events[|events| - 1].usage.value else 0)
  }

  lemma {:induction false} TotalOfConcat(a: seq<Event>, b: seq<Event>)
    ensures TotalUsage(a + b) == TotalUsage(a) + TotalUsage(b)
    decreases |b|
  {
    if b == [] {
      assert a + b == a;
    } else {
      assert (a + b)[..|a + b| - 1] == a + b[..|b| - 1];
      TotalOfConcat(a, b[..|b| - 1]);
    }
  }

  predicate NoUsage(events: seq<Event>) {
    forall i :: 0 <= i < |events| ==> events[i].usage.None?
  }

  lemma {:induction false} NoUsageNoCarrier(events: seq<Event>)
    requires NoUsage(events)
    ensures CarrierCount(events) == 0 && TotalUsage(events) == 0
    decreases |events|
  {
    if events != [] { NoUsageNoCarrier(events[..|events| - 1]); }
  }

  lemma {:induction false} OneUsageOneCarrier(events: seq<Event>, k: nat, tokens: int)
    requires k < |events| && events[k].usage == Some(tokens)
    requires forall i :: 0 <= i < |events| && i != k ==> events[i].usage.None?
    ensures CarrierCount(events) == 1 && TotalUsage(events) == tokens
    decreases |events|
  {
    if k == |events| - 1 {
      NoUsageNoCarrier(events[..k]);
    } else {
      OneUsageOneCarrier(events[..|events| - 1], k, tokens);
    }
  }

  lemma {:induction false} BlockEventsCarryNothing(content: seq<Block>)
    ensures NoUsage(BlockEvents(content))
    ensures forall i :: 0 <= i < |BlockEvents(content)| ==> !BlockEvents(content)[i].kind.Thinking?
    ensures forall i :: 0 <= i < |BlockEvents(content)| ==> BlockEvents(content)[i].kind.AgentEvent? || BlockEvents(content)[i].kind.ToolCall?
    decreases |content|
  {
    if content != [] { BlockEventsCarryNothing(content[..|content| - 1]); }
  }

  lemma {:induction false} ResultEventsCarryNothing(content: seq<Block>)
    ensures NoUsage(ResultEvents(content))
    ensures forall i :: 0 <= i < |ResultEvents(content)| ==> !ResultEvents(content)[i].kind.Thinking?
    decreases |content|
  {
    if content != [] { ResultEventsCarryNothing(content[..|content| - 1]); }
  }

  /** An entry's usage is in exactly one of its events: the first text, else the first tool call, else an
      added thinking event. An entry without a usage value adds none. */
  lemma OneCarrierPerEntry(entry: Entry)
    ensures entry.AssistantEntry? && entry.usage.Value? ==>
              && CarrierCount(MapEntry(entry)) == 1
              && TotalUsage(MapEntry(entry)) == entry.usage.tokens
              && MapEntry(entry)[Carrier(BlockEvents(entry.content))].usage == Some(entry.usage.tokens)
    ensures !(entry.AssistantEntry? && entry.usage.Value?) ==>
              CarrierCount(MapEntry(entry)) == 0 && TotalUsage(MapEntry(entry)) == 0
  {
    match entry
    case AssistantEntry(_, content, usage, lineage) =>
      BlockEventsCarryNothing(content);
      if usage.Value? {
        OneUsageOneCarrier(MapEntry(entry), Carrier(BlockEvents(content)), usage.tokens);
      } else {
        NoUsageNoCarrier(MapEntry(entry));
      }
    case UserEntry(content, _) =>
      ResultEventsCarryNothing(content);
      NoUsageNoCarrier(MapEntry(entry));
    case InitEntry(_, _) => NoUsageNoCarrier(MapEntry(entry));
    case OtherEntry =>
  }

  // ----- What is forwarded for an entry, block by block -----

  predicate IsResult(b: Block) {
    b.ToolResult?
  }

  predicate ResultFrom(b: Block, e: Event, lineage: Option<Lineage>) {
    b.ToolResult? && e == Event(ToolOutcome(b.toolUseId), "", None, lineage)
  }

  /** A text that is not empty, or a tool use that has a name. */
  predicate IsSpoken(b: Block) {
    (b.TextBlock? && b.text != "") || (b.ToolUse? && b.name != "")
  }

  predicate SpokenFrom(b: Block, e: Event, lineage: Option<Lineage>) {
    && e.lineage == lineage
    && match b
       case TextBlock(text) => e.kind == AgentEvent && e.message == text
       case ToolUse(name, id) => e.kind == ToolCall(id) && e.message == name
       case _ => false
  }

  /** The k-th event reports the tool result at position at[k], and each tool result is reported. */
  ghost predicate OneResultEach(at: seq<nat>, content: seq<Block>, events: seq<Event>, lineage: Option<Lineage>) {
    OneForEach(at, content, events, IsResult, (b, e) => ResultFrom(b, e, lineage))
  }

  /** The k-th event says what the block at position at[k] says, and each spoken block is said. */
  ghost predicate OneSpokenEach(at: seq<nat>, content: seq<Block>, events: seq<Event>, lineage: Option<Lineage>) {
    OneForEach(at, content, events, IsSpoken, (b, e) => SpokenFrom(b, e, lineage))
  }

  lemma {:induction false} ResultsFollowBlocks(content: seq<Block>) returns (at: seq<nat>)
    ensures OneResultEach(at, content, ResultEvents(content), None)
    decreases |content|
  {
    if content == [] {
      at := [];
    } else {
      var n := |content| - 1;
      var b := content[n];
      var made := (b, e) => ResultFrom(b, e, None);
      at := ResultsFollowBlocks(content[..n]);
      var e := Event(ToolOutcome(if b.ToolResult? then b.toolUseId else ""), "", None, None);
      OneMoreEach(at, content[..n], ResultEvents(content[..n]), b, e, IsResult, made);
      assert content == content[..n] + [b];
      if IsResult(b) { at := at + [n]; } else { assert ResultEvents(content[..n]) + [] == ResultEvents(content[..n]); }
    }
  }

  lemma {:induction false} SpokenFollowsBlocks(content: seq<Block>) returns (at: seq<nat>)
    ensures OneSpokenEach(at, content, BlockEvents(content), None)
    decreases |content|
  {
    if content == [] {
      at := [];
    } else {
      var n := |content| - 1;
      var b, before := content[n], BlockEvents(content[..n]);
      var made := (b, e) => SpokenFrom(b, e, None);
      at := SpokenFollowsBlocks(content[..n]);
      var events := BlockEvents(content);
      var e := if |events| > 0 then events[|events| - 1] else Event(Thinking, "", None, None);
      OneMoreEach(at, content[..n], before, b, e, IsSpoken, made);
      assert content == content[..n] + [b];
      if IsSpoken(b) { at := at + [n]; } else { assert before + [] == before; }
    }
  }

  /** A user entry gives exactly one event for each tool result, with its id, in order, under the entry's lineage. */
  lemma UserEvents(content: seq<Block>, lineage: Option<Lineage>)
    ensures exists at :: OneResultEach(at, content, MapEntry(UserEntry(content, lineage)), lineage)
  {
    var at := ResultsFollowBlocks(content);
    RemadeEach(at, content, ResultEvents(content), MapEntry(UserEntry(content, lineage)), IsResult,
           (b, e) => ResultFrom(b, e, None), (b, e) => ResultFrom(b, e, lineage));
    assert OneResultEach(at, content, MapEntry(UserEntry(content, lineage)), lineage);
  }

  /** An init entry gives one event with its session; entries of other types give none. */
  lemma InitEvents(sessionId: Option<string>, lineage: Option<Lineage>)
    ensures MapEntry(InitEntry(sessionId, lineage)) == [Event(SessionInit(sessionId), "", None, lineage)]
    ensures MapEntry(OtherEntry) == []
  {
  }

  /** The event in which an assistant entry's usage belongs: the first text or, without one, the first tool call. */
  ghost predicate Carries(events: seq<Event>, k: nat)
    requires k < |events|
  {
    || (events[k].kind == AgentEvent && forall j :: 0 <= j < k ==> events[j].kind != AgentEvent)
    || (events[k].kind.ToolCall? && (forall j :: 0 <= j < k ==> !events[j].kind.ToolCall?)
        && forall j :: 0 <= j < |events| ==> events[j].kind != AgentEvent)
  }

  /** The usage, if there is one, is in the event in which it belongs and in no other. */
  ghost predicate UsageInPlace(events: seq<Event>, usage: Usage) {
    forall k :: 0 <= k < |events| ==>
      events[k].usage == (if usage.Value? && Carries(events, k) then Some(usage.tokens) else None)
  }

  /** The events of an assistant entry: one for each spoken block, or, when there is none but a usage, one to carry it. */
  ghost predicate SpokenEvents(events: seq<Event>, content: seq<Block>, usage: Usage, lineage: Option<Lineage>) {
    if usage.Value? && forall j :: 0 <= j < |content| ==> !IsSpoken(content[j]) then
      events == [Event(Thinking, "", Some(usage.tokens), lineage)]
    else
      && (exists at :: OneSpokenEach(at, content, events, lineage))
      && UsageInPlace(events, usage)
  }

  lemma NoneSpoken(at: seq<nat>, content: seq<Block>, events: seq<Event>, made: (Block, Event) -> bool)
    requires OneForEach(at, content, events, IsSpoken, made)
    ensures events == [] <==> forall j :: 0 <= j < |content| ==> !IsSpoken(content[j])
  {
    if events != [] { assert IsSpoken(content[at[0]]); }
  }

  lemma AttachedInPlace(events: seq<Event>, tokens: int)
    requires NoUsage(events) && events != [] && forall i :: 0 <= i < |events| ==> events[i].kind.AgentEvent? || events[i].kind.ToolCall?
    ensures |AttachUsage(events, tokens)| == |events|
    ensures forall k :: 0 <= k < |events| ==>
              AttachUsage(events, tokens)[k] == events[k].(usage := if Carries(events, k) then Some(tokens) else None)
  {
    assert events[0].kind.AgentEvent? || events[0].kind.ToolCall?;
    assert Carries(events, Carrier(events));
  }

  lemma SameCarriers(events: seq<Event>, others: seq<Event>)
    requires |events| == |others| && forall k :: 0 <= k < |events| ==> others[k].kind == events[k].kind
    ensures forall k :: 0 <= k < |events| ==> (Carries(events, k) <==> Carries(others, k))
  {
  }

  lemma DecoratedSpoken(at: seq<nat>, content: seq<Block>, blocks: seq<Event>, usage: Usage, lineage: Option<Lineage>)
    requires OneSpokenEach(at, content, blocks, None) && NoUsage(blocks)
    requires forall i :: 0 <= i < |blocks| ==> blocks[i].kind.AgentEvent? || blocks[i].kind.ToolCall?
    requires usage.Value? ==> blocks != []
    ensures var events := Decorate(if usage.Value? then AttachUsage(blocks, usage.tokens) else blocks, lineage);
      OneSpokenEach(at, content, events, lineage) && UsageInPlace(events, usage)
  {
    hide AttachUsage, OneForEach, Carries, Carrier;
    if usage.Value? { AttachedInPlace(blocks, usage.tokens); }
    var events := Decorate(if usage.Value? then AttachUsage(blocks, usage.tokens) else blocks, lineage);
    assert forall k :: 0 <= k < |events| ==> events[k].kind == blocks[k].kind && events[k].message == blocks[k].message;
    RemadeEach(at, content, blocks, events, IsSpoken, (b, e) => SpokenFrom(b, e, None), (b, e) => SpokenFrom(b, e, lineage));
    SameCarriers(blocks, events);
  }

  /** An assistant entry gives exactly one event for each text that is not empty and each tool use with a name, with the
      text or the name and id, in order, and its usage in the first text, else in the first tool call, else in an
      event of its own. */
  lemma AssistantEvents(messageId: Option<string>, content: seq<Block>, usage: Usage, lineage: Option<Lineage>)
    ensures SpokenEvents(MapEntry(AssistantEntry(messageId, content, usage, lineage)), content, usage, lineage)
  {
    var at := SpokenFollowsBlocks(content);
    BlockEventsCarryNothing(content);
    hide BlockEvents, OneForEach, UsageInPlace, NoUsage, Carrier;
    NoneSpoken(at, content, BlockEvents(content), (b, e) => SpokenFrom(b, e, None));
    if usage.Value? && BlockEvents(content) == [] {
      LoneUsage(usage.tokens);
    } else {
      DecoratedSpoken(at, content, BlockEvents(content), usage, lineage);
    }
  }

  lemma LoneUsage(tokens: int)
    ensures AttachUsage([], tokens) == [Event(Thinking, "", Some(tokens), None)]
  {
  }

  /** The entry is the first with its message id to carry a usage, or has no message id. */
  ghost predicate FirstOfItsMessage(entries: seq<Entry>, i: nat)
    requires i < |entries|
  {
    HasUsage(entries[i]) && (Identified(entries[i]) ==> !Named(entries, i, entries[i].messageId.value))
  }

  lemma ForwardedUsageAt(entries: seq<Entry>, i: nat)
    requires i < |entries|
    ensures TotalUsage(EventsAt(entries, i)) ==
            if FirstOfItsMessage(entries, i) && entries[i].usage.Value? then entries[i].usage.tokens else 0
  {
    OneCarrierPerEntry(Dedup(SeenBefore(entries, i), entries[i]));
    if Identified(entries[i]) { SeenIsNamed(entries, i, entries[i].messageId.value); }
  }

  /** Exactly the entries that are first of their message have their usage forwarded, in one event each. */
  lemma ForwardedOncePerMessage(entries: seq<Entry>, i: nat)
    requires i < |entries|
    ensures CarrierCount(EventsAt(entries, i)) == if FirstOfItsMessage(entries, i) && entries[i].usage.Value? then 1 else 0
  {
    OneCarrierPerEntry(Dedup(SeenBefore(entries, i), entries[i]));
    if Identified(entries[i]) { SeenIsNamed(entries, i, entries[i].messageId.value); }
  }

  // ----- All other events -----

  /** The events with every usage taken out, and with those that exist only to carry one. */
  function Plain(events: seq<Event>): seq<Event>
    decreases |events|
  {
    if events == [] then [] else
      var n := |events| - 1;
      Plain(events[..n]) + (if events[n].kind.Thinking? then [] else [events[n].(usage := None)])
  }

  lemma {:induction false} PlainOfMarked(marked: seq<Event>, bare: seq<Event>)
    requires |marked| == |bare|
    requires forall i :: 0 <= i < |bare| ==> !bare[i].kind.Thinking? && marked[i].(usage := None) == bare[i]
    ensures Plain(marked) == bare
    decreases |bare|
  {
    if bare != [] {
      var n := |bare| - 1;
      assert forall i :: 0 <= i < n ==> marked[..n][i] == marked[i] && bare[..n][i] == bare[i];
      PlainOfMarked(marked[..n], bare[..n]);
      assert bare == bare[..n] + [bare[n]];
    }
  }

  lemma PlainOfAttached(content: seq<Block>, tokens: int, lineage: Option<Lineage>)
    ensures Plain(Decorate(AttachUsage(BlockEvents(content), tokens), lineage)) == Decorate(BlockEvents(content), lineage)
  {
    var events := BlockEvents(content);
    var bare := Decorate(events, lineage);
    var marked := Decorate(AttachUsage(events, tokens), lineage);
    BlockEventsCarryNothing(content);
    if Carrier(events) < |events| {
      PlainOfMarked(marked, bare);
    } else {
      assert |marked| == |bare| + 1 && marked[|bare|].kind.Thinking?;
      PlainOfMarked(marked[..|bare|], bare);
    }
  }

  /** Forwarding or withholding a usage changes no other event, nor their order. */
  lemma OtherEventsAreUntouched(entries: seq<Entry>, i: nat)
    requires i < |entries| && entries[i].AssistantEntry?
    ensures Plain(EventsAt(entries, i)) == MapEntry(entries[i].(usage := Undefined))
  {
    var entry := Dedup(SeenBefore(entries, i), entries[i]);
    var bare := Decorate(BlockEvents(entry.content), entry.lineage);
    if entry.usage.Value? {
      PlainOfAttached(entry.content, entry.usage.tokens, entry.lineage);
    } else {
      BlockEventsCarryNothing(entry.content);
      PlainOfMarked(bare, bare);
    }
  }

  // ----- The total -----

  /** Message ids in the order in which a usage first names them. */
  function MessageIds(entries: seq<Entry>): seq<string>
    decreases |entries|
  {
    if entries == [] then [] else
      var n := |entries| - 1;
      var before := MessageIds(entries[..n]);
      if Identified(entries[n]) && entries[n].messageId.value !in before then before + [entries[n].messageId.value] else before
  }

  lemma {:induction false} MessageIdsAreNamed(entries: seq<Entry>, id: string)
    ensures id in MessageIds(entries) <==> Named(entries, |entries|, id)
    decreases |entries|
  {
    if entries != [] {
      var n := |entries| - 1;
      MessageIdsAreNamed(entries[..n], id);
      assert Named(entries[..n], n, id) <==> Named(entries, n, id) by {
        assert forall j :: 0 <= j < n ==> entries[..n][j] == entries[j];
      }
    }
  }

  lemma {:induction false} MessageIdsAreDistinct(entries: seq<Entry>)
    ensures forall a, b :: 0 <= a < b < |MessageIds(entries)| ==> MessageIds(entries)[a] != MessageIds(entries)[b]
    decreases |entries|
  {
    if entries != [] { MessageIdsAreDistinct(entries[..|entries| - 1]); }
  }

  /** The usage of the first entry that names this message; zero when that usage is null. */
  function MessageUsage(entries: seq<Entry>, id: string): int
    decreases |entries|
  {
    if entries == [] then 0
    else if Identified(entries[0]) && entries[0].messageId.value == id then
      if entries[0].usage.Value? then entries[0].usage.tokens else 0
    else MessageUsage(entries[1..], id)
  }

  function UsageOfMessages(entries: seq<Entry>, ids: seq<string>): int
    decreases |ids|
  {
    if ids == [] then 0 else UsageOfMessages(entries, ids[..|ids| - 1]) + MessageUsage(entries, ids[|ids| - 1])
  }

  /** The usage of entries that carry one without a message id. */
  function UnidentifiedUsage(entries: seq<Entry>): int
    decreases |entries|
  {
    if entries == [] then 0 else
      var last := entries[|entries| - 1];
      UnidentifiedUsage(entries[..|entries| - 1]) + (if HasUsage(last) && !Identified(last) && last.usage.Value? then last.usage.tokens else 0)
  }

  lemma {:induction false} MessageUsageOfPrefix(entries: seq<Entry>, n: nat, id: string)
    requires n <= |entries| && Named(entries, n, id)
    ensures MessageUsage(entries, id) == MessageUsage(entries[..n], id)
    decreases |entries|
  {
    var j :| 0 <= j < n && Identified(entries[j]) && entries[j].messageId.value == id;
    assert entries[..n][0] == entries[0];
    if !(Identified(entries[0]) && entries[0].messageId.value == id) {
      assert entries[1..][..n - 1] == entries[..n][1..];
      assert entries[1..][j - 1] == entries[j];
      MessageUsageOfPrefix(entries[1..], n - 1, id);
    }
  }

  lemma {:induction false} UsageOfMessagesOfPrefix(entries: seq<Entry>, n: nat, ids: seq<string>)
    requires n <= |entries| && forall k :: 0 <= k < |ids| ==> Named(entries, n, ids[k])
    ensures UsageOfMessages(entries, ids) == UsageOfMessages(entries[..n], ids)
    decreases |ids|
  {
    if ids != [] {
      var last := |ids| - 1;
      assert forall k :: 0 <= k < last ==> ids[..last][k] == ids[k];
      UsageOfMessagesOfPrefix(entries, n, ids[..last]);
      MessageUsageOfPrefix(entries, n, ids[last]);
    }
  }

  /** The usage of a message that only the last entry names. */
  lemma {:induction false} MessageUsageOfNew(entries: seq<Entry>)
    requires entries != [] && Identified(entries[|entries| - 1])
    requires !Named(entries, |entries| - 1, entries[|entries| - 1].messageId.value)
    ensures var last := entries[|entries| - 1];
            MessageUsage(entries, last.messageId.value) == if last.usage.Value? then last.usage.tokens else 0
    decreases |entries|
  {
    var n := |entries| - 1;
    if n > 0 {
      var id := entries[n].messageId.value;
      assert !(Identified(entries[0]) && entries[0].messageId.value == id);
      assert !Named(entries[1..], n - 1, id) by {
        forall j | 0 <= j < n - 1 ensures !(Identified(entries[1..][j]) && entries[1..][j].messageId.value == id) {
          assert entries[1..][j] == entries[j + 1];
        }
      }
      MessageUsageOfNew(entries[1..]);
    }
  }

  lemma {:induction false} SeenOfPrefix(entries: seq<Entry>, prefix: seq<Entry>, i: nat)
    requires i <= |prefix| && prefix <= entries
    ensures SeenBefore(entries, i) == SeenBefore(prefix, i)
  {
    if i > 0 {
      SeenOfPrefix(entries, prefix, i - 1);
      assert prefix[i - 1] == entries[i - 1];
    }
  }

  lemma EventsOfPrefix(entries: seq<Entry>, prefix: seq<Entry>, i: nat)
    requires i < |prefix| && prefix <= entries
    ensures EventsAt(entries, i) == EventsAt(prefix, i)
  {
    SeenOfPrefix(entries, prefix, i);
    assert prefix[i] == entries[i];
  }

  lemma {:induction false} ForwardedOfPrefix(entries: seq<Entry>, prefix: seq<Entry>, i: nat)
    requires i <= |prefix| && prefix <= entries
    ensures Forwarded(entries, i) == Forwarded(prefix, i)
  {
    hide EventsAt;
    if i > 0 {
      ForwardedOfPrefix(entries, prefix, i - 1);
      EventsOfPrefix(entries, prefix, i - 1);
    }
  }

  lemma EarlierIdsAreNamed(entries: seq<Entry>, n: nat)
    requires n <= |entries|
    ensures forall k :: 0 <= k < |MessageIds(entries[..n])| ==> Named(entries, n, MessageIds(entries[..n])[k])
  {
    forall k | 0 <= k < |MessageIds(entries[..n])| ensures Named(entries, n, MessageIds(entries[..n])[k]) {
      var id := MessageIds(entries[..n])[k];
      MessageIdsAreNamed(entries[..n], id);
      var j :| 0 <= j < n && Identified(entries[..n][j]) && entries[..n][j].messageId.value == id;
      assert entries[..n][j] == entries[j];
    }
  }

  lemma NewIsUnnamed(entries: seq<Entry>, n: nat, id: string)
    requires n <= |entries|
    ensures id in MessageIds(entries[..n]) <==> Named(entries, n, id)
  {
    MessageIdsAreNamed(entries[..n], id);
    assert Named(entries[..n], n, id) <==> Named(entries, n, id) by {
      assert forall j :: 0 <= j < n ==> entries[..n][j] == entries[j];
    }
  }

  /** What one more entry adds to the usage of the distinct messages. */
  lemma MessagesGainTheFirst(entries: seq<Entry>)
    requires entries != []
    ensures var n := |entries| - 1;
            UsageOfMessages(entries, MessageIds(entries)) ==
            UsageOfMessages(entries[..n], MessageIds(entries[..n])) +
            (if Identified(entries[n]) && !Named(entries, n, entries[n].messageId.value) && entries[n].usage.Value?
             then entries[n].usage.tokens else 0)
  {
    var n := |entries| - 1;
    var before := MessageIds(entries[..n]);
    EarlierIdsAreNamed(entries, n);
    UsageOfMessagesOfPrefix(entries, n, before);
    if Identified(entries[n]) {
      var id := entries[n].messageId.value;
      NewIsUnnamed(entries, n, id);
      if id !in before {
        MessageUsageOfNew(entries);
        assert MessageIds(entries) == before + [id];
        assert (before + [id])[..|before|] == before;
      }
    }
  }

  lemma TotalGainsTheLast(entries: seq<Entry>)
    requires entries != []
    ensures var n := |entries| - 1;
            ForwardedUsage(entries) == ForwardedUsage(entries[..n]) +
            (if FirstOfItsMessage(entries, n) && entries[n].usage.Value? then entries[n].usage.tokens else 0)
  {
    hide EventsAt, TotalUsage, FirstOfItsMessage;
    var n := |entries| - 1;
    ForwardedOfPrefix(entries, entries[..n], n);
    TotalOfConcat(Forwarded(entries, n), EventsAt(entries, n));
    ForwardedUsageAt(entries, n);
  }

  /** What the receiver should be able to add up: one usage for each distinct message, plus every entry
      without an id. */
  function ExpectedUsage(entries: seq<Entry>): int {
    UsageOfMessages(entries, MessageIds(entries)) + UnidentifiedUsage(entries)
  }

  lemma ExpectedGainsTheFirst(entries: seq<Entry>)
    requires entries != []
    ensures var n := |entries| - 1;
            ExpectedUsage(entries) == ExpectedUsage(entries[..n]) +
              (if FirstOfItsMessage(entries, n) && entries[n].usage.Value? then entries[n].usage.tokens else 0)
  {
    MessagesGainTheFirst(entries);
  }

  function ForwardedUsage(entries: seq<Entry>): int {
    TotalUsage(Forwarded(entries, |entries|))
  }

  /** Forwarded usage adds up to exactly the expected usage. */
  lemma {:induction false} TotalIsOnePerMessage(entries: seq<Entry>)
    ensures ForwardedUsage(entries) == ExpectedUsage(entries)
    decreases |entries|
  {
    if entries != [] {
      var prefix := entries[..|entries| - 1];
      TotalIsOnePerMessage(prefix);
      TotalGainsTheLast(entries);
      ExpectedGainsTheFirst(entries);
    }
  }

  /** Every identified usage of a message agrees, as every line of one response carries the same usage. */
  ghost predicate SameUsagePerMessage(entries: seq<Entry>) {
    forall i, j :: 0 <= i < |entries| && 0 <= j < |entries| ==>
      Identified(entries[i]) && Identified(entries[j]) && entries[i].messageId == entries[j].messageId ==>
      entries[i].usage == entries[j].usage
  }

  /** Where lines of one response agree, the usage counted for a message is the usage on any of its lines. */
  lemma {:induction false} MessageUsageIsAnyLines(entries: seq<Entry>, i: nat)
    requires i < |entries| && Identified(entries[i]) && SameUsagePerMessage(entries)
    ensures MessageUsage(entries, entries[i].messageId.value) == if entries[i].usage.Value? then entries[i].usage.tokens else 0
    decreases |entries|
  {
    if Identified(entries[0]) && entries[0].messageId == entries[i].messageId {
      assert entries[0].usage == entries[i].usage;
    } else {
      assert entries[1..][i - 1] == entries[i];
      MessageUsageIsAnyLines(entries[1..], i - 1);
    }
  }

  /** A message whose usage is null on its first line and real on a later one is never forwarded. */
  lemma NullFirstHidesTheUsage(id: string, tokens: int)
    requires id != "" && tokens != 0
    ensures var entries := [AssistantEntry(Some(id), [], Null, None), AssistantEntry(Some(id), [], Value(tokens), None)];
            TotalUsage(Forwarded(entries, 2)) == 0
  {
    var entries := [AssistantEntry(Some(id), [], Null, None), AssistantEntry(Some(id), [], Value(tokens), None)];
    ForwardedUsageAt(entries, 0);
    ForwardedUsageAt(entries, 1);
    assert Identified(entries[0]) && Identified(entries[1]) && entries[0].messageId == entries[1].messageId;
    TotalOfConcat(Forwarded(entries, 1), EventsAt(entries, 1));
    TotalOfConcat(Forwarded(entries, 0), EventsAt(entries, 0));
    assert Forwarded(entries, 1) == Forwarded(entries, 0) + EventsAt(entries, 0);
  }

  /** A message's usage reaches the receiver exactly when its first usage is not null. */
  lemma ForwardedIffFirstUsageIsReal(entries: seq<Entry>, id: string)
    requires Named(entries, |entries|, id)
    ensures exists first :: 0 <= first < |entries| && Identified(entries[first]) && entries[first].messageId == Some(id)
              && FirstOfItsMessage(entries, first)
              && (forall i :: 0 <= i < |entries| && Identified(entries[i]) && entries[i].messageId == Some(id) ==>
                    CarrierCount(EventsAt(entries, i)) == if i == first && entries[first].usage.Value? then 1 else 0)
  {
    var named :| 0 <= named < |entries| && Identified(entries[named]) && entries[named].messageId.value == id;
    var first := FirstNaming(entries, id, named);
    forall i | 0 <= i < |entries| && Identified(entries[i]) && entries[i].messageId == Some(id)
      ensures CarrierCount(EventsAt(entries, i)) == if i == first && entries[first].usage.Value? then 1 else 0
    {
      ForwardedOncePerMessage(entries, i);
      assert i != first ==> !FirstOfItsMessage(entries, i);
    }
  }

  ghost function FirstNaming(entries: seq<Entry>, id: string, named: nat): (first: nat)
    requires named < |entries| && Identified(entries[named]) && entries[named].messageId == Some(id)
    ensures first <= named && Identified(entries[first]) && entries[first].messageId == Some(id)
    ensures FirstOfItsMessage(entries, first)
    decreases named
  {
    if exists j :: 0 <= j < named && Identified(entries[j]) && entries[j].messageId == Some(id) then
      var j :| 0 <= j < named && Identified(entries[j]) && entries[j].messageId == Some(id);
      FirstNaming(entries, id, j)
    else named
  }
}
