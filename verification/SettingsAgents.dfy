/** Agent records: the fail-soft reader of one record, the capped reader of the whole map, and writing both
    back. */
module SettingsAgents {
  import opened Values
  import opened SettingsJson

  datatype Capability = IssueWorker | SlackBot | Api

  datatype TerminalStatus = FailedDispatch | RecoveredDispatch | ThrottledDispatch

  datatype Evaluator = Pending | Running | Completed | FailedEvaluation

  datatype EffortName = Min | VeryLow | Low | Medium | High | VeryHigh | Max

  datatype AgentSchedule = AgentSchedule(
    tz: string, alwaysOn: bool,
    mon: seq<string>, tue: seq<string>, wed: seq<string>, thu: seq<string>, fri: seq<string>, sat: seq<string>, sun: seq<string>)

  datatype BrokenState = BrokenState(
    reason: string, suggestedSteps: seq<string>, setAt: string, evaluator: Evaluator, evaluatorDispatchId: Option<string>)

  datatype StrikeEntry = StrikeEntry(dispatchId: string, issueId: string, status: TerminalStatus, timestamp: string, rawError: string)

  datatype AgentStrikes = AgentStrikes(count: int, history: seq<StrikeEntry>)

  datatype AgentRecord = AgentRecord(
    bio: string, avatarPath: Option<string>, capabilities: seq<Capability>, schedule: AgentSchedule, enabled: bool,
    broken: Option<BrokenState>, strikes: AgentStrikes, effortLevel: Option<EffortName>, createdAt: string, updatedAt: string)

  const STRIKES_MAX := 3
  const STRIKES_HISTORY_CAP := 3
  const AGENTS_MAX := 5

  const DEFAULT_STRIKES := AgentStrikes(0, [])

  /** What the host knows: which names are time zones, and how property names are spelled. */
  datatype Host = Host(isTimeZone: string -> bool, spelling: Key -> string)

  // ----- Words -----

  function CapabilityText(c: Capability): string {
    match c case IssueWorker => "issue-worker" case SlackBot => "slack" case Api => "api"
  }

  function CapabilityOf(s: string): Option<Capability> {
    if s == "issue-worker" then Some(IssueWorker) else if s == "slack" then Some(SlackBot) else if s == "api" then Some(Api) else None
  }

  function StatusText(t: TerminalStatus): string {
    match t case FailedDispatch => "failed" case RecoveredDispatch => "recovered" case ThrottledDispatch => "throttled"
  }

  function StatusOf(s: string): Option<TerminalStatus> {
    if s == "failed" then Some(FailedDispatch) else if s == "recovered" then Some(RecoveredDispatch)
    else if s == "throttled" then Some(ThrottledDispatch) else None
  }

  function EvaluatorText(e: Evaluator): string {
    match e case Pending => "pending" case Running => "running" case Completed => "completed" case FailedEvaluation => "failed"
  }

  function EvaluatorOf(s: string): Option<Evaluator> {
    if s == "pending" then Some(Pending) else if s == "running" then Some(Running)
    else if s == "completed" then Some(Completed) else if s == "failed" then Some(FailedEvaluation) else None
  }

  function EffortText(e: EffortName): string {
    match e
    case Min => "min" case VeryLow => "very_low" case Low => "low" case Medium => "medium"
    case High => "high" case VeryHigh => "very_high" case Max => "max"
  }

  function EffortOf(s: string): Option<EffortName> {
    if s == "min" then Some(Min) else if s == "very_low" then Some(VeryLow) else if s == "low" then Some(Low)
    else if s == "medium" then Some(Medium) else if s == "high" then Some(High) else if s == "very_high" then Some(VeryHigh)
    else if s == "max" then Some(Max) else None
  }

  lemma CapabilityWords(c: Capability)
    ensures CapabilityOf(CapabilityText(c)) == Some(c)
  {
  }

  lemma StatusWords(t: TerminalStatus)
    ensures StatusOf(StatusText(t)) == Some(t)
  {
  }

  lemma EvaluatorWords(e: Evaluator)
    ensures EvaluatorOf(EvaluatorText(e)) == Some(e)
  {
  }

  lemma EffortWords(e: EffortName)
    ensures EffortOf(EffortText(e)) == Some(e)
  {
  }

  predicate IsDigit(c: char) { '0' <= c <= '9' }

  /** `HH:MM` on a 24-hour clock, starting at i. */
  predicate IsClock(s: string, i: nat)
    requires i + 5 <= |s|
  {
    && ((('0' <= s[i] <= '1') && IsDigit(s[i + 1])) || (s[i] == '2' && '0' <= s[i + 1] <= '3'))
    && s[i + 2] == ':' && '0' <= s[i + 3] <= '5' && IsDigit(s[i + 4])
  }

  predicate IsWindow(s: string) {
    |s| == 11 && IsClock(s, 0) && s[5] == '-' && IsClock(s, 6)
  }

  predicate IsLower(c: char) { 'a' <= c <= 'z' }

  predicate IsAgentName(s: string) {
    1 <= |s| <= 32 && IsLower(s[0]) && forall i :: 1 <= i < |s| ==> IsLower(s[i]) || IsDigit(s[i]) || s[i] == '_' || s[i] == '-'
  }

  // ----- Reading -----

  function Windows(items: seq<Json>): seq<string> {
    if items == [] then [] else
      (if items[0].Str? && IsWindow(items[0].text) then [items[0].text] else []) + Windows(items[1..])
  }

  function NormalizeScheduleDay(raw: Option<Json>): seq<string> {
    if raw.Some? && raw.value.Arr? then Windows(raw.value.items) else []
  }

  function NormalizeSchedule(host: Host, raw: Option<Json>): Option<AgentSchedule> {
    var tz := AsText(Get(raw, Tz));
    if tz.None? || !host.isTimeZone(tz.value) then None
    else Some(AgentSchedule(
      tz.value, Get(raw, AlwaysOn) == Some(Bool(true)),
      NormalizeScheduleDay(Get(raw, Mon)), NormalizeScheduleDay(Get(raw, Tue)), NormalizeScheduleDay(Get(raw, Wed)),
      NormalizeScheduleDay(Get(raw, Thu)), NormalizeScheduleDay(Get(raw, Fri)), NormalizeScheduleDay(Get(raw, Sat)),
      NormalizeScheduleDay(Get(raw, Sun))))
  }

  function KnownCapabilities(items: seq<Json>): seq<Capability> {
    if items == [] then [] else
      (if items[0].Str? && CapabilityOf(items[0].text).Some? then [CapabilityOf(items[0].text).value] else []) + KnownCapabilities(items[1..])
  }

  function NormalizeCapabilities(raw: Option<Json>): seq<Capability> {
    if raw.Some? && raw.value.Arr? then KnownCapabilities(raw.value.items) else []
  }

  function StringItems(items: seq<Json>): seq<string> {
    if items == [] then [] else (if items[0].Str? then [items[0].text] else []) + StringItems(items[1..])
  }

  function NormalizeBroken(raw: Option<Json>): Option<BrokenState> {
    var reason, setAt, steps := AsText(Get(raw, Reason)), AsText(Get(raw, SetAt)), Get(raw, SuggestedSteps);
    if reason.None? || setAt.None? || steps.None? || !steps.value.Arr? then None else
      var status := AsString(Get(raw, EvaluatorStatus));
      var evaluator := if status.Some? && EvaluatorOf(status.value).Some? then EvaluatorOf(status.value).value else Completed;
      Some(BrokenState(reason.value, StringItems(steps.value.items), setAt.value, evaluator, AsText(Get(raw, EvaluatorDispatchId))))
  }

  function ValidateStrikeEntry(raw: Json): Option<StrikeEntry> {
    var r := Some(raw);
    var dispatchId, issueId, timestamp := AsText(Get(r, DispatchId)), AsText(Get(r, IssueId)), AsText(Get(r, Timestamp));
    var status, rawError := AsString(Get(r, TerminalStatus)), AsString(Get(r, RawError));
    if dispatchId.None? || issueId.None? || timestamp.None? || rawError.None? then None
    else if status.None? || StatusOf(status.value).None? then None
    else Some(StrikeEntry(dispatchId.value, issueId.value, StatusOf(status.value).value, timestamp.value, rawError.value))
  }

  /** None as soon as one entry is malformed. */
  function ValidateHistory(items: seq<Json>): Option<seq<StrikeEntry>> {
    if items == [] then Some([]) else
      var first, rest := ValidateStrikeEntry(items[0]), ValidateHistory(items[1..]);
      if first.None? || rest.None? then None else Some([first.value] + rest.value)
  }

  /** None where the source throws. */
  function ValidateStrikes(raw: Option<Json>): Option<AgentStrikes> {
    if raw.None? || raw.value.Null? then Some(DEFAULT_STRIKES) else
      var count, history := Get(raw, Count), Get(raw, History);
      if count.None? || !count.value.Num? || count.value.number != count.value.number.Floor as real
         || count.value.number.Floor < 0 || count.value.number.Floor > STRIKES_MAX then None
      else if history.None? || !history.value.Arr? || |history.value.items| > STRIKES_HISTORY_CAP then None
      else
        var entries := ValidateHistory(history.value.items);
        if entries.None? then None else Some(AgentStrikes(count.value.number.Floor, entries.value))
  }

  function NormalizeStrikes(raw: Option<Json>): AgentStrikes {
    var strikes := ValidateStrikes(raw);
    if strikes.Some? then strikes.value else DEFAULT_STRIKES
  }

  function AsEffort(raw: Option<Json>): Option<EffortName> {
    var s := AsString(raw);
    if s.Some? then EffortOf(s.value) else None
  }

  function NormalizeOneAgent(host: Host, raw: Json): Option<AgentRecord> {
    var r := Some(raw);
    var bio, createdAt, updatedAt := AsString(Get(r, Bio)), AsString(Get(r, CreatedAt)), AsString(Get(r, ChangedAt));
    var enabled := Get(r, Enabled);
    if Get(r, Type) != Some(Str("agent")) || bio.None? || createdAt.None? || updatedAt.None? then None
    else if enabled.None? || !enabled.value.Bool? then None
    else
      var capabilities := NormalizeCapabilities(Get(r, Capabilities));
      var schedule := NormalizeSchedule(host, Get(r, Schedule));
      if capabilities == [] || schedule.None? then None
      else Some(AgentRecord(
        bio.value, AsText(Get(r, AvatarPath)), capabilities, schedule.value, enabled.value.value,
        NormalizeBroken(Get(r, Broken)), NormalizeStrikes(Get(r, Strikes)), AsEffort(Get(r, EffortLevel)),
        createdAt.value, updatedAt.value))
  }

  // ----- Writing -----

  function Strings(texts: seq<string>): Json {
    Arr(seq(|texts|, i requires 0 <= i < |texts| => Str(texts[i])))
  }

  function OrNull(s: Option<string>): Json {
    if s.Some? then Str(s.value) else Null
  }

  function PrintSchedule(s: AgentSchedule): Json {
    Record(map[Tz := Str(s.tz), AlwaysOn := Bool(s.alwaysOn),
               Mon := Strings(s.mon), Tue := Strings(s.tue), Wed := Strings(s.wed), Thu := Strings(s.thu),
               Fri := Strings(s.fri), Sat := Strings(s.sat), Sun := Strings(s.sun)])
  }

  function PrintCapabilities(cs: seq<Capability>): Json {
    Arr(seq(|cs|, i requires 0 <= i < |cs| => Str(CapabilityText(cs[i]))))
  }

  function PrintBroken(b: Option<BrokenState>): Json {
    if b.None? then Null else
      Record(map[Reason := Str(b.value.reason), SuggestedSteps := Strings(b.value.suggestedSteps), SetAt := Str(b.value.setAt),
                 EvaluatorStatus := Str(EvaluatorText(b.value.evaluator)), EvaluatorDispatchId := OrNull(b.value.evaluatorDispatchId)])
  }

  function PrintStrikeEntry(e: StrikeEntry): Json {
    Record(map[DispatchId := Str(e.dispatchId), IssueId := Str(e.issueId), TerminalStatus := Str(StatusText(e.status)),
               Timestamp := Str(e.timestamp), RawError := Str(e.rawError)])
  }

  function PrintHistory(entries: seq<StrikeEntry>): seq<Json> {
    seq(|entries|, i requires 0 <= i < |entries| => PrintStrikeEntry(entries[i]))
  }

  function PrintStrikes(s: AgentStrikes): Json {
    Record(map[Count := Num(s.count as real), History := Arr(PrintHistory(s.history))])
  }

  /** Absent optional fields are not written. */
  function PrintAgent(a: AgentRecord): Json {
    Record(map[Type := Str("agent"), Bio := Str(a.bio), Capabilities := PrintCapabilities(a.capabilities),
               Schedule := PrintSchedule(a.schedule), Enabled := Bool(a.enabled), Broken := PrintBroken(a.broken),
               Strikes := PrintStrikes(a.strikes), CreatedAt := Str(a.createdAt), ChangedAt := Str(a.updatedAt)]
           + (if a.avatarPath.Some? then map[AvatarPath := Str(a.avatarPath.value)] else map[])
           + (if a.effortLevel.Some? then map[EffortLevel := Str(EffortText(a.effortLevel.value))] else map[]))
  }

  // ----- Reading back what was written -----

  predicate CanonicalDay(day: seq<string>) {
    forall i :: 0 <= i < |day| ==> IsWindow(day[i])
  }

  predicate CanonicalSchedule(host: Host, s: AgentSchedule) {
    && s.tz != "" && host.isTimeZone(s.tz)
    && CanonicalDay(s.mon) && CanonicalDay(s.tue) && CanonicalDay(s.wed) && CanonicalDay(s.thu)
    && CanonicalDay(s.fri) && CanonicalDay(s.sat) && CanonicalDay(s.sun)
  }

  predicate CanonicalBroken(b: BrokenState) {
    b.reason != "" && b.setAt != "" && b.evaluatorDispatchId != Some("")
  }

  predicate CanonicalStrikes(s: AgentStrikes) {
    && 0 <= s.count <= STRIKES_MAX && |s.history| <= STRIKES_HISTORY_CAP
    && forall i :: 0 <= i < |s.history| ==> CanonicalEntry(s.history[i])
  }

  /** What every record that was read satisfies. */
  predicate CanonicalAgent(host: Host, a: AgentRecord) {
    && a.avatarPath != Some("") && a.capabilities != [] && CanonicalSchedule(host, a.schedule)
    && (a.broken.Some? ==> CanonicalBroken(a.broken.value)) && CanonicalStrikes(a.strikes)
  }

  lemma {:induction false} WindowsAreCanonical(items: seq<Json>)
    ensures CanonicalDay(Windows(items))
  {
    if items != [] { WindowsAreCanonical(items[1..]); }
  }

  lemma {:induction false} WindowsReadBack(day: seq<string>)
    requires CanonicalDay(day)
    ensures Windows(Strings(day).items) == day
  {
    if day != [] {
      assert Strings(day).items[1..] == Strings(day[1..]).items;
      WindowsReadBack(day[1..]);
    }
  }

  lemma {:induction false} StringsReadBack(texts: seq<string>)
    ensures StringItems(Strings(texts).items) == texts
  {
    if texts != [] {
      assert Strings(texts).items[1..] == Strings(texts[1..]).items;
      StringsReadBack(texts[1..]);
    }
  }

  lemma {:induction false} CapabilitiesReadBack(cs: seq<Capability>)
    ensures KnownCapabilities(PrintCapabilities(cs).items) == cs
  {
    if cs != [] {
      CapabilityWords(cs[0]);
      assert PrintCapabilities(cs).items[1..] == PrintCapabilities(cs[1..]).items;
      CapabilitiesReadBack(cs[1..]);
    }
  }

  predicate CanonicalEntry(e: StrikeEntry) {
    e.dispatchId != "" && e.issueId != "" && e.timestamp != ""
  }

  lemma StrikeEntryReadsBack(e: StrikeEntry)
    requires CanonicalEntry(e)
    ensures ValidateStrikeEntry(PrintStrikeEntry(e)) == Some(e)
  {
    StatusWords(e.status);
    hide StatusOf, StatusText;
  }

  lemma {:induction false} HistoryReadsBack(entries: seq<StrikeEntry>)
    requires forall i :: 0 <= i < |entries| ==> CanonicalEntry(entries[i])
    ensures ValidateHistory(PrintHistory(entries)) == Some(entries)
  {
    hide ValidateStrikeEntry, PrintStrikeEntry, CanonicalEntry;
    if entries == [] {
      assert PrintHistory(entries) == [];
    } else {
      StrikeEntryReadsBack(entries[0]);
      assert PrintHistory(entries)[1..] == PrintHistory(entries[1..]);
      HistoryReadsBack(entries[1..]);
      assert [entries[0]] + entries[1..] == entries;
    }
  }

  lemma {:induction false} HistoryIsCanonical(items: seq<Json>)
    requires ValidateHistory(items).Some?
    ensures var es := ValidateHistory(items).value;
            |es| == |items| && forall i :: 0 <= i < |es| ==> CanonicalEntry(es[i])
  {
    if items != [] { HistoryIsCanonical(items[1..]); }
  }

  lemma StrikesAreCanonical(raw: Option<Json>)
    ensures CanonicalStrikes(NormalizeStrikes(raw))
  {
    var history := Get(raw, History);
    if history.Some? && history.value.Arr? && ValidateHistory(history.value.items).Some? { HistoryIsCanonical(history.value.items); }
  }

  lemma StrikesReadBack(s: AgentStrikes)
    requires CanonicalStrikes(s)
    ensures NormalizeStrikes(Some(PrintStrikes(s))) == s
  {
    HistoryReadsBack(s.history);
    assert (s.count as real).Floor == s.count;
  }

  lemma ScheduleIsCanonical(host: Host, raw: Option<Json>)
    ensures NormalizeSchedule(host, raw).Some? ==> CanonicalSchedule(host, NormalizeSchedule(host, raw).value)
  {
    hide Windows, CanonicalDay;
    forall items: seq<Json> ensures CanonicalDay(Windows(items)) { WindowsAreCanonical(items); }
    EmptyDay();
  }

  lemma EmptyDay()
    ensures CanonicalDay([])
  {
  }

  lemma DayReadsBack(day: seq<string>)
    requires CanonicalDay(day)
    ensures NormalizeScheduleDay(Some(Strings(day))) == day
  {
    WindowsReadBack(day);
  }

  lemma ScheduleReadsBack(host: Host, s: AgentSchedule)
    requires CanonicalSchedule(host, s)
    ensures NormalizeSchedule(host, Some(PrintSchedule(s))) == Some(s)
  {
    hide NormalizeScheduleDay, Strings, CanonicalDay;
    DayReadsBack(s.mon); DayReadsBack(s.tue); DayReadsBack(s.wed); DayReadsBack(s.thu);
    DayReadsBack(s.fri); DayReadsBack(s.sat); DayReadsBack(s.sun);
  }

  lemma BrokenReadsBack(b: Option<BrokenState>)
    requires b.Some? ==> CanonicalBroken(b.value)
    ensures NormalizeBroken(Some(PrintBroken(b))) == b
  {
    if b.Some? {
      StringsReadBack(b.value.suggestedSteps);
      EvaluatorWords(b.value.evaluator);
    }
  }

  lemma AgentIsCanonical(host: Host, raw: Json)
    ensures NormalizeOneAgent(host, raw).Some? ==> CanonicalAgent(host, NormalizeOneAgent(host, raw).value)
  {
    hide CanonicalSchedule, NormalizeSchedule, NormalizeCapabilities, CanonicalStrikes, NormalizeStrikes;
    ScheduleIsCanonical(host, Get(Some(raw), Schedule));
    StrikesAreCanonical(Get(Some(raw), Strikes));
  }

  lemma PrintedFields(a: AgentRecord)
    ensures var r := Some(PrintAgent(a));
            && Get(r, Type) == Some(Str("agent")) && Get(r, Bio) == Some(Str(a.bio)) && Get(r, Enabled) == Some(Bool(a.enabled))
            && Get(r, CreatedAt) == Some(Str(a.createdAt)) && Get(r, ChangedAt) == Some(Str(a.updatedAt))
            && Get(r, Capabilities) == Some(PrintCapabilities(a.capabilities)) && Get(r, Schedule) == Some(PrintSchedule(a.schedule))
            && Get(r, Broken) == Some(PrintBroken(a.broken)) && Get(r, Strikes) == Some(PrintStrikes(a.strikes))
            && Get(r, AvatarPath) == (if a.avatarPath.Some? then Some(Str(a.avatarPath.value)) else None)
            && Get(r, EffortLevel) == (if a.effortLevel.Some? then Some(Str(EffortText(a.effortLevel.value))) else None)
  {
    hide PrintCapabilities, PrintSchedule, PrintBroken, PrintStrikes, EffortText;
  }

  lemma ListReadsBack(cs: seq<Capability>)
    ensures NormalizeCapabilities(Some(PrintCapabilities(cs))) == cs
  {
    CapabilitiesReadBack(cs);
  }

  lemma EffortReadsBack(e: Option<EffortName>)
    ensures AsEffort(if e.Some? then Some(Str(EffortText(e.value))) else None) == e
  {
    if e.Some? { EffortWords(e.value); }
  }

  lemma TextReadsBack(s: Option<string>)
    requires s != Some("")
    ensures AsText(if s.Some? then Some(Str(s.value)) else None) == s
  {
  }

  /** A record that was read is read back unchanged from what is written for it. */
  lemma AgentReadsBack(host: Host, a: AgentRecord)
    requires CanonicalAgent(host, a)
    ensures NormalizeOneAgent(host, PrintAgent(a)) == Some(a)
  {
    hide CanonicalSchedule, NormalizeSchedule, PrintSchedule, NormalizeBroken, PrintBroken, NormalizeStrikes, PrintStrikes,
         NormalizeCapabilities, PrintCapabilities, EffortText, AsEffort, AsText, CanonicalStrikes, CanonicalBroken, PrintAgent, Get;
    PrintedFields(a);
    ScheduleReadsBack(host, a.schedule);
    ListReadsBack(a.capabilities);
    BrokenReadsBack(a.broken);
    StrikesReadBack(a.strikes);
    EffortReadsBack(a.effortLevel);
    TextReadsBack(a.avatarPath);
  }
}
