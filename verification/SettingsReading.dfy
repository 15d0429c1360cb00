/** What any settings file, however it was edited, is read as: property by property, in the file's own words. */
module SettingsReading {
  import opened Values
  import opened SettingsJson
  import opened SettingsAgents
  import opened SettingsRoster
  import opened Settings

  // ----- Properties -----

  /** `j` is an object that has this property. */
  predicate Has(j: Option<Json>, key: Key, value: Json) {
    j.Some? && j.value.Obj? && key in j.value.fields && j.value.fields[key] == value
  }

  lemma GetIs(j: Option<Json>, key: Key, value: Json)
    ensures Get(j, key) == Some(value) <==> Has(j, key, value)
  {
  }

  /** The value is the property's text when that is not empty, and nothing otherwise. */
  predicate IsTextOf(value: Option<string>, j: Option<Json>) {
    value == if j.Some? && j.value.Str? && j.value.text != "" then Some(j.value.text) else None
  }

  // ----- Words -----

  /** How capabilities, dispatch statuses, evaluators and effort levels are spelled. */
  lemma WordsAre(s: string)
    ensures CapabilityOf(s) == (if s == "issue-worker" then Some(IssueWorker) else if s == "slack" then Some(SlackBot)
                                else if s == "api" then Some(Api) else None)
    ensures StatusOf(s) == (if s == "failed" then Some(FailedDispatch) else if s == "recovered" then Some(RecoveredDispatch)
                            else if s == "throttled" then Some(ThrottledDispatch) else None)
    ensures EvaluatorOf(s) == (if s == "pending" then Some(Pending) else if s == "running" then Some(Running)
                               else if s == "completed" then Some(Completed) else if s == "failed" then Some(FailedEvaluation) else None)
    ensures EffortOf(s) == (if s == "min" then Some(Min) else if s == "very_low" then Some(VeryLow) else if s == "low" then Some(Low)
                            else if s == "medium" then Some(Medium) else if s == "high" then Some(High)
                            else if s == "very_high" then Some(VeryHigh) else if s == "max" then Some(Max) else None)
  {
  }

  function Digit(n: nat): char
    requires n < 10
  {
    '0' + n as char
  }

  /** The clock text of a time of day. */
  function ClockText(hour: nat, minute: nat): string
    requires hour < 24 && minute < 60
  {
    [Digit(hour / 10), Digit(hour % 10), ':', Digit(minute / 10), Digit(minute % 10)]
  }

  function Value(c: char): nat {
    if IsDigit(c) then c as nat - '0' as nat else 0
  }

  lemma ClockIs(s: string, i: nat)
    requires i + 5 <= |s|
    ensures IsClock(s, i) <==> exists hour: nat, minute: nat :: hour < 24 && minute < 60 && s[i..i + 5] == ClockText(hour, minute)
  {
    if IsClock(s, i) {
      var hour, minute := Value(s[i]) * 10 + Value(s[i + 1]), Value(s[i + 3]) * 10 + Value(s[i + 4]);
      assert s[i..i + 5] == ClockText(hour, minute);
    }
    forall hour: nat, minute: nat | hour < 24 && minute < 60 && s[i..i + 5] == ClockText(hour, minute) ensures IsClock(s, i) {
      var t := s[i..i + 5];
      assert t[0] == s[i] && t[1] == s[i + 1] && t[2] == s[i + 2] && t[3] == s[i + 3] && t[4] == s[i + 4];
    }
  }

  /** A schedule window is two times of day with a dash between them. */
  lemma WindowIs(s: string)
    ensures IsWindow(s) <==>
      exists h: nat, m: nat, h': nat, m': nat ::
        h < 24 && m < 60 && h' < 24 && m' < 60 && s == ClockText(h, m) + "-" + ClockText(h', m')
  {
    if IsWindow(s) {
      ClockIs(s, 0);
      ClockIs(s, 6);
      var h: nat, m: nat :| h < 24 && m < 60 && s[0..5] == ClockText(h, m);
      var h': nat, m': nat :| h' < 24 && m' < 60 && s[6..11] == ClockText(h', m');
      assert s == s[0..5] + [s[5]] + s[6..11];
      assert s == ClockText(h, m) + "-" + ClockText(h', m');
    }
    forall h: nat, m: nat, h': nat, m': nat | h < 24 && m < 60 && h' < 24 && m' < 60 && s == ClockText(h, m) + "-" + ClockText(h', m')
      ensures IsWindow(s)
    {
      assert s[0..5] == ClockText(h, m) && s[6..11] == ClockText(h', m') && s[5] == '-';
      ClockIs(s, 0);
      ClockIs(s, 6);
    }
  }

  // ----- Lists -----

  predicate IsWindowText(j: Json) {
    j.Str? && IsWindow(j.text)
  }

  predicate IsText(j: Json) {
    j.Str?
  }

  predicate IsCapability(j: Json) {
    j == Str("issue-worker") || j == Str("slack") || j == Str("api")
  }

  predicate SameText(j: Json, s: string) {
    j == Str(s)
  }

  predicate SameCapability(j: Json, c: Capability) {
    j == Str(match c case IssueWorker => "issue-worker" case SlackBot => "slack" case Api => "api")
  }

  /** Exactly the windows of the list, in order; none when it is no list. */
  ghost predicate DayReads(j: Option<Json>, day: seq<string>) {
    if j.Some? && j.value.Arr? then exists at :: OneForEach(at, j.value.items, day, IsWindowText, SameText) else day == []
  }

  lemma {:induction false} WindowsFollow(items: seq<Json>) returns (at: seq<nat>)
    ensures OneForEach(at, items, Windows(items), IsWindowText, SameText)
  {
    if items == [] {
      at := [];
    } else {
      var first, rest := items[0], items[1..];
      var later := WindowsFollow(rest);
      OneFirstEach(later, rest, Windows(rest), items, if first.Str? then first.text else "", IsWindowText, SameText);
      assert [] + Windows(rest) == Windows(rest);
      at := if IsWindowText(first) then [0] + Shifted(later) else Shifted(later);
    }
  }

  lemma {:induction false} TextsFollow(items: seq<Json>) returns (at: seq<nat>)
    ensures OneForEach(at, items, StringItems(items), IsText, SameText)
  {
    if items == [] {
      at := [];
    } else {
      var first, rest := items[0], items[1..];
      var later := TextsFollow(rest);
      OneFirstEach(later, rest, StringItems(rest), items, if first.Str? then first.text else "", IsText, SameText);
      assert [] + StringItems(rest) == StringItems(rest);
      at := if IsText(first) then [0] + Shifted(later) else Shifted(later);
    }
  }

  lemma CapabilityItem(j: Json)
    ensures IsCapability(j) <==> j.Str? && CapabilityOf(j.text).Some?
    ensures IsCapability(j) ==> SameCapability(j, CapabilityOf(j.text).value)
  {
  }

  lemma {:induction false} CapabilitiesFollow(items: seq<Json>) returns (at: seq<nat>)
    ensures OneForEach(at, items, KnownCapabilities(items), IsCapability, SameCapability)
  {
    if items == [] {
      at := [];
    } else {
      var first, rest := items[0], items[1..];
      CapabilityItem(first);
      hide CapabilityOf, IsCapability, SameCapability;
      var later := CapabilitiesFollow(rest);
      OneFirstEach(later, rest, KnownCapabilities(rest), items, if IsCapability(first) then CapabilityOf(first.text).value else Api, IsCapability, SameCapability);
      assert [] + KnownCapabilities(rest) == KnownCapabilities(rest);
      at := if IsCapability(first) then [0] + Shifted(later) else Shifted(later);
    }
  }

  lemma DayIsRead(j: Option<Json>)
    ensures DayReads(j, NormalizeScheduleDay(j))
  {
    if j.Some? && j.value.Arr? { var at := WindowsFollow(j.value.items); }
  }

  /** The schedule is read when it names a time zone; always on only if it says so, and each day by itself. */
  ghost predicate ScheduleReads(host: Host, j: Option<Json>, s: Option<AgentSchedule>) {
    && (s.Some? <==> exists tz :: tz != "" && Has(j, Tz, Str(tz)) && host.isTimeZone(tz))
    && (s.Some? ==>
          && Has(j, Tz, Str(s.value.tz)) && (s.value.alwaysOn <==> Has(j, AlwaysOn, Bool(true)))
          && DayReads(Get(j, Mon), s.value.mon) && DayReads(Get(j, Tue), s.value.tue) && DayReads(Get(j, Wed), s.value.wed)
          && DayReads(Get(j, Thu), s.value.thu) && DayReads(Get(j, Fri), s.value.fri) && DayReads(Get(j, Sat), s.value.sat)
          && DayReads(Get(j, Sun), s.value.sun))
  }

  lemma ZoneIsRead(host: Host, j: Option<Json>)
    ensures NormalizeSchedule(host, j).Some? <==> exists tz :: tz != "" && Has(j, Tz, Str(tz)) && host.isTimeZone(tz)
    ensures var s := NormalizeSchedule(host, j);
      s.Some? ==> Has(j, Tz, Str(s.value.tz)) && (s.value.alwaysOn <==> Has(j, AlwaysOn, Bool(true)))
  {
    hide NormalizeScheduleDay;
    var tz := AsText(Get(j, Tz));
    assert tz.Some? ==> Has(j, Tz, Str(tz.value)) && tz.value != "";
    assert forall text :: text != "" && Has(j, Tz, Str(text)) ==> tz == Some(text);
  }

  lemma DaysAreRead(host: Host, j: Option<Json>)
    requires NormalizeSchedule(host, j).Some?
    ensures var s := NormalizeSchedule(host, j).value;
      && DayReads(Get(j, Mon), s.mon) && DayReads(Get(j, Tue), s.tue) && DayReads(Get(j, Wed), s.wed)
      && DayReads(Get(j, Thu), s.thu) && DayReads(Get(j, Fri), s.fri) && DayReads(Get(j, Sat), s.sat) && DayReads(Get(j, Sun), s.sun)
  {
    hide DayReads, NormalizeScheduleDay, Get, AsText;
    DayIsRead(Get(j, Mon)); DayIsRead(Get(j, Tue)); DayIsRead(Get(j, Wed)); DayIsRead(Get(j, Thu));
    DayIsRead(Get(j, Fri)); DayIsRead(Get(j, Sat)); DayIsRead(Get(j, Sun));
  }

  lemma ScheduleIsRead(host: Host, j: Option<Json>)
    ensures ScheduleReads(host, j, NormalizeSchedule(host, j))
  {
    hide DayReads, NormalizeSchedule, Has, Get;
    ZoneIsRead(host, j);
    if NormalizeSchedule(host, j).Some? { DaysAreRead(host, j); }
  }

  // ----- Records -----

  /** A broken state is read when it has a reason, a time and a list of steps; its evaluator is done unless it says otherwise. */
  ghost predicate BrokenReads(j: Option<Json>, b: Option<BrokenState>) {
    && (b.Some? <==>
          && (exists reason :: reason != "" && Has(j, Reason, Str(reason))) && (exists at :: at != "" && Has(j, SetAt, Str(at)))
          && (exists steps :: Has(j, SuggestedSteps, Arr(steps))))
    && (b.Some? ==>
          && Has(j, Reason, Str(b.value.reason)) && Has(j, SetAt, Str(b.value.setAt))
          && (forall steps :: Has(j, SuggestedSteps, Arr(steps)) ==> exists at :: OneForEach(at, steps, b.value.suggestedSteps, IsText, SameText))
          && b.value.evaluator == (if Has(j, EvaluatorStatus, Str("pending")) then Pending else if Has(j, EvaluatorStatus, Str("running")) then Running
                                   else if Has(j, EvaluatorStatus, Str("failed")) then FailedEvaluation else Completed)
          && IsTextOf(b.value.evaluatorDispatchId, Get(j, EvaluatorDispatchId)))
  }

  lemma EvaluatorIsRead(j: Option<Json>)
    ensures var status := AsString(Get(j, EvaluatorStatus));
      (if status.Some? && EvaluatorOf(status.value).Some? then EvaluatorOf(status.value).value else Completed)
      == (if Has(j, EvaluatorStatus, Str("pending")) then Pending else if Has(j, EvaluatorStatus, Str("running")) then Running
          else if Has(j, EvaluatorStatus, Str("failed")) then FailedEvaluation else Completed)
  {
  }

  lemma TextIsThere(j: Option<Json>, key: Key)
    ensures AsText(Get(j, key)).Some? <==> exists text :: text != "" && Has(j, key, Str(text))
    ensures AsText(Get(j, key)).Some? ==> Has(j, key, Str(AsText(Get(j, key)).value))
    ensures IsTextOf(AsText(Get(j, key)), Get(j, key))
  {
    if AsText(Get(j, key)).Some? { assert Has(j, key, Str(AsText(Get(j, key)).value)); }
  }

  lemma ListIsThere(j: Option<Json>, key: Key)
    ensures (Get(j, key).Some? && Get(j, key).value.Arr?) <==> exists items :: Has(j, key, Arr(items))
    ensures forall items :: Has(j, key, Arr(items)) ==> Get(j, key) == Some(Arr(items))
  {
    if Get(j, key).Some? && Get(j, key).value.Arr? { assert Has(j, key, Arr(Get(j, key).value.items)); }
  }

  lemma BrokenIsRead(j: Option<Json>)
    ensures BrokenReads(j, NormalizeBroken(j))
  {
    EvaluatorIsRead(j);
    TextIsThere(j, Reason);
    TextIsThere(j, SetAt);
    TextIsThere(j, EvaluatorDispatchId);
    ListIsThere(j, SuggestedSteps);
    if Get(j, SuggestedSteps).Some? && Get(j, SuggestedSteps).value.Arr? { var at := TextsFollow(Get(j, SuggestedSteps).value.items); }
    hide Has, Get, AsText, AsString, EvaluatorOf, IsTextOf, StringItems, OneForEach;
  }

  predicate StrikeReads(j: Json, e: StrikeEntry) {
    && e.dispatchId != "" && Has(Some(j), DispatchId, Str(e.dispatchId)) && e.issueId != "" && Has(Some(j), IssueId, Str(e.issueId))
    && e.timestamp != "" && Has(Some(j), Timestamp, Str(e.timestamp)) && Has(Some(j), RawError, Str(e.rawError))
    && Has(Some(j), SettingsJson.TerminalStatus,
           Str(match e.status case FailedDispatch => "failed" case RecoveredDispatch => "recovered" case ThrottledDispatch => "throttled"))
  }

  lemma StrikeIsRead(j: Json, e: StrikeEntry)
    ensures ValidateStrikeEntry(j) == Some(e) <==> StrikeReads(j, e)
  {
    WordsAre(if AsString(Get(Some(j), SettingsJson.TerminalStatus)).Some? then AsString(Get(Some(j), SettingsJson.TerminalStatus)).value else "");
  }

  /** Strikes are read when they count from none to three and list at most three entries, all of them readable. */
  ghost predicate StrikesWritten(j: Option<Json>, s: AgentStrikes) {
    && 0 <= s.count <= 3 && Has(j, Count, Num(s.count as real)) && |s.history| <= 3
    && exists items: seq<Json> :: Has(j, History, Arr(items)) && |items| == |s.history| && forall i :: 0 <= i < |items| ==> StrikeReads(items[i], s.history[i])
  }

  /** What is there is read; what is missing, or cannot be read, is no strikes. */
  ghost predicate StrikesRead(j: Option<Json>, s: AgentStrikes) {
    StrikesWritten(j, s) || ((forall t :: !StrikesWritten(j, t)) && s.count == 0 && s.history == [])
  }

  lemma {:induction false} HistoryIs(items: seq<Json>, history: seq<StrikeEntry>)
    ensures ValidateHistory(items) == Some(history) <==>
      |items| == |history| && forall i :: 0 <= i < |items| ==> StrikeReads(items[i], history[i])
    decreases |items|
  {
    hide StrikeReads, ValidateStrikeEntry;
    if items != [] && history != [] {
      StrikeIsRead(items[0], history[0]);
      HistoryIs(items[1..], history[1..]);
      FirstAndRest(items, history);
      assert history == [history[0]] + history[1..];
    }
  }

  lemma FirstAndRest(items: seq<Json>, history: seq<StrikeEntry>)
    requires items != [] && history != []
    ensures (|items| == |history| && forall i :: 0 <= i < |items| ==> StrikeReads(items[i], history[i])) <==>
      && StrikeReads(items[0], history[0]) && |items[1..]| == |history[1..]|
      && forall i :: 0 <= i < |items[1..]| ==> StrikeReads(items[1..][i], history[1..][i])
  {
    hide StrikeReads;
    if |items| == |history| {
      assert forall i :: 0 < i < |items| ==> items[i] == items[1..][i - 1] && history[i] == history[1..][i - 1];
    }
  }

  lemma CountedStrikes(j: Option<Json>, s: AgentStrikes)
    requires j.Some? && !j.value.Null?
    ensures ValidateStrikes(j) == Some(s) <==> StrikesWritten(j, s)
  {
    var history := Get(j, History);
    if history.Some? && history.value.Arr? { HistoryIs(history.value.items, s.history); }
    hide StrikeReads, ValidateHistory, ValidateStrikeEntry;
    if StrikesWritten(j, s) { assert (s.count as real).Floor == s.count; }
  }

  lemma StrikesAreRead(j: Option<Json>)
    ensures StrikesRead(j, NormalizeStrikes(j))
    ensures j.None? || j.value.Null? ==> ValidateStrikes(j) == Some(AgentStrikes(0, []))
  {
    var s := NormalizeStrikes(j);
    if j.None? || j.value.Null? {
      assert forall t :: !StrikesWritten(j, t);
    } else {
      CountedStrikes(j, s);
      forall t ensures ValidateStrikes(j) == Some(t) <==> StrikesWritten(j, t) { CountedStrikes(j, t); }
      hide StrikesWritten, ValidateStrikes;
    }
  }

  /** A record can be read when it says it is an agent, has its texts and its switch, a capability that is known, and a
      schedule in a known time zone. */
  ghost predicate Readable(host: Host, j: Option<Json>) {
    && Has(j, Type, Str("agent")) && (exists bio :: Has(j, Bio, Str(bio)))
    && (exists at :: Has(j, CreatedAt, Str(at))) && (exists at :: Has(j, ChangedAt, Str(at)))
    && (exists on :: Has(j, Enabled, Bool(on)))
    && (exists items: seq<Json> :: Has(j, Capabilities, Arr(items)) && exists i :: 0 <= i < |items| && IsCapability(items[i]))
    && (exists tz :: tz != "" && Has(Get(j, Schedule), Tz, Str(tz)) && host.isTimeZone(tz))
  }

  /** The record is what the object says, property by property. */
  ghost predicate ReadsAs(host: Host, j: Option<Json>, a: AgentRecord) {
    && Has(j, Bio, Str(a.bio)) && Has(j, CreatedAt, Str(a.createdAt)) && Has(j, ChangedAt, Str(a.updatedAt)) && Has(j, Enabled, Bool(a.enabled))
    && IsTextOf(a.avatarPath, Get(j, AvatarPath))
    && (forall items :: Has(j, Capabilities, Arr(items)) ==> exists at :: OneForEach(at, items, a.capabilities, IsCapability, SameCapability))
    && ScheduleReads(host, Get(j, Schedule), Some(a.schedule)) && BrokenReads(Get(j, Broken), a.broken) && StrikesRead(Get(j, Strikes), a.strikes)
    && EffortReads(Get(j, EffortLevel), a.effortLevel)
  }

  predicate EffortReads(j: Option<Json>, e: Option<EffortName>) {
    e == (if j == Some(Str("min")) then Some(Min) else if j == Some(Str("very_low")) then Some(VeryLow) else if j == Some(Str("low")) then Some(Low)
          else if j == Some(Str("medium")) then Some(Medium) else if j == Some(Str("high")) then Some(High)
          else if j == Some(Str("very_high")) then Some(VeryHigh) else if j == Some(Str("max")) then Some(Max) else None)
  }

  lemma EffortIsRead(j: Option<Json>)
    ensures EffortReads(j, AsEffort(j))
  {
  }

  lemma CapabilitiesRead(j: Option<Json>)
    ensures NormalizeCapabilities(j) != [] <==>
      exists items: seq<Json> :: j == Some(Arr(items)) && exists i :: 0 <= i < |items| && IsCapability(items[i])
    ensures forall items :: j == Some(Arr(items)) ==> exists at :: OneForEach(at, items, NormalizeCapabilities(j), IsCapability, SameCapability)
  {
    if j.Some? && j.value.Arr? {
      var items := j.value.items;
      var at := CapabilitiesFollow(items);
      if NormalizeCapabilities(j) != [] { assert IsCapability(items[at[0]]); }
      if i :| 0 <= i < |items| && IsCapability(items[i]) { assert i in at; }
    }
  }

  lemma HeaderIsRead(host: Host, j: Json)
    ensures var r := Some(j);
      NormalizeOneAgent(host, j).Some? <==>
        && Has(r, Type, Str("agent")) && (exists bio :: Has(r, Bio, Str(bio)))
        && (exists at :: Has(r, CreatedAt, Str(at))) && (exists at :: Has(r, ChangedAt, Str(at))) && (exists on :: Has(r, Enabled, Bool(on)))
        && NormalizeCapabilities(Get(r, Capabilities)) != [] && NormalizeSchedule(host, Get(r, Schedule)).Some?
  {
    hide NormalizeCapabilities, NormalizeSchedule, NormalizeBroken, NormalizeStrikes, AsEffort;
    var r := Some(j);
    var bio, made, changed, on := Get(r, Bio), Get(r, CreatedAt), Get(r, ChangedAt), Get(r, Enabled);
    if bio.Some? && bio.value.Str? { assert Has(r, Bio, Str(bio.value.text)); }
    if made.Some? && made.value.Str? { assert Has(r, CreatedAt, Str(made.value.text)); }
    if changed.Some? && changed.value.Str? { assert Has(r, ChangedAt, Str(changed.value.text)); }
    if on.Some? && on.value.Bool? { assert Has(r, Enabled, Bool(on.value.value)); }
  }

  lemma FieldsAreRead(host: Host, j: Json)
    requires NormalizeOneAgent(host, j).Some?
    ensures var r, a := Some(j), NormalizeOneAgent(host, j).value;
      && Has(r, Bio, Str(a.bio)) && Has(r, CreatedAt, Str(a.createdAt)) && Has(r, ChangedAt, Str(a.updatedAt)) && Has(r, Enabled, Bool(a.enabled))
      && IsTextOf(a.avatarPath, Get(r, AvatarPath)) && a.capabilities == NormalizeCapabilities(Get(r, Capabilities))
      && NormalizeSchedule(host, Get(r, Schedule)) == Some(a.schedule) && a.broken == NormalizeBroken(Get(r, Broken))
      && a.strikes == NormalizeStrikes(Get(r, Strikes)) && a.effortLevel == AsEffort(Get(r, EffortLevel))
  {
    hide NormalizeCapabilities, NormalizeSchedule, NormalizeBroken, NormalizeStrikes, AsEffort;
  }

  lemma ReadableIff(host: Host, j: Json)
    ensures NormalizeOneAgent(host, j).Some? <==> Readable(host, Some(j))
  {
    var r := Some(j);
    HeaderIsRead(host, j);
    CapabilitiesRead(Get(r, Capabilities));
    ScheduleIsRead(host, Get(r, Schedule));
    hide NormalizeOneAgent, NormalizeCapabilities, NormalizeSchedule, DayReads, IsCapability;
    forall items ensures Has(r, Capabilities, Arr(items)) <==> Get(r, Capabilities) == Some(Arr(items)) { GetIs(r, Capabilities, Arr(items)); }
  }

  lemma ReadableReads(host: Host, j: Json)
    requires NormalizeOneAgent(host, j).Some?
    ensures ReadsAs(host, Some(j), NormalizeOneAgent(host, j).value)
  {
    var r := Some(j);
    FieldsAreRead(host, j);
    CapabilitiesRead(Get(r, Capabilities));
    ScheduleIsRead(host, Get(r, Schedule));
    BrokenIsRead(Get(r, Broken));
    StrikesAreRead(Get(r, Strikes));
    EffortIsRead(Get(r, EffortLevel));
    hide NormalizeOneAgent, NormalizeCapabilities, NormalizeSchedule, NormalizeBroken, NormalizeStrikes, AsEffort, BrokenReads, StrikesRead,
         EffortReads, DayReads, IsCapability, IsTextOf, ScheduleReads;
    forall items ensures Has(r, Capabilities, Arr(items)) <==> Get(r, Capabilities) == Some(Arr(items)) { GetIs(r, Capabilities, Arr(items)); }
  }

  /** Any object under an agent's name: it is read exactly when it is readable, and then as what it says. */
  lemma AgentIsReadAs(host: Host, j: Json)
    ensures NormalizeOneAgent(host, j).Some? <==> Readable(host, Some(j))
    ensures NormalizeOneAgent(host, j).Some? ==> ReadsAs(host, Some(j), NormalizeOneAgent(host, j).value)
  {
    hide NormalizeOneAgent, Readable, ReadsAs;
    ReadableIff(host, j);
    if NormalizeOneAgent(host, j).Some? { ReadableReads(host, j); }
  }

  // ----- The roster -----

  /** One to thirty-two characters: a small letter, then small letters, digits, underscores and dashes. */
  predicate WellNamed(s: string) {
    && |s| > 0 && |s| < 33 && 'a' <= s[0] <= 'z'
    && forall c :: c in s ==> 'a' <= c <= 'z' || '0' <= c <= '9' || c == '_' || c == '-'
  }

  lemma WellNamedIs(s: string)
    ensures IsAgentName(s) <==> WellNamed(s)
  {
    if WellNamed(s) {
      forall i | 1 <= i < |s| ensures IsLower(s[i]) || IsDigit(s[i]) || s[i] == '_' || s[i] == '-' { assert s[i] in s; }
    }
  }

  /** The object lists a readable record under a good name. */
  ghost predicate Listed(host: Host, fields: map<Key, Json>, name: Key) {
    name in fields && WellNamed(host.spelling(name)) && Readable(host, Some(fields[name]))
  }

  predicate Knows(roster: Roster, name: Key) {
    exists k :: 0 <= k < |roster| && roster[k].name == name
  }

  /** The entries are records that the object lists, under their names, in the order of the names; a listed name is left
      out only behind the fifth entry. */
  ghost predicate RosterReads(host: Host, fields: map<Key, Json>, order: seq<Key>, roster: Roster, at: seq<nat>) {
    && |roster| <= 5 && |at| == |roster| && DistinctNames(roster)
    && (forall k :: 0 <= k < |at| ==> at[k] < |order| && order[at[k]] == roster[k].name)
    && (forall j, k :: 0 <= j < k < |at| ==> at[j] < at[k])
    && (forall k :: 0 <= k < |roster| ==> Listed(host, fields, roster[k].name) && ReadsAs(host, Some(fields[roster[k].name]), roster[k].record))
    && (forall i :: 0 <= i < |order| && Listed(host, fields, order[i]) ==>
          Knows(roster, order[i]) || (|roster| == 5 && at[4] < i))
  }

  lemma {:induction false} TakeOneMore(host: Host, fields: map<Key, Json>, order: seq<Key>, name: Key, taken: Roster)
    ensures Take(host, fields, order + [name], taken) == Take(host, fields, [name], Take(host, fields, order, taken))
    decreases |order|
  {
    if order == [] {
      assert order + [name] == [name];
    } else if |taken| < AGENTS_MAX {
      assert (order + [name])[1..] == order[1..] + [name];
      var next := if Find(taken, order[0]).Some? || ReadAt(host, fields, order[0]).None? then taken
                  else taken + [Named(order[0], ReadAt(host, fields, order[0]).value)];
      TakeOneMore(host, fields, order[1..], name, next);
    } else {
      FullStays(host, fields, order, taken);
      FullStays(host, fields, order + [name], taken);
      FullStays(host, fields, [name], taken);
    }
  }

  lemma FullStays(host: Host, fields: map<Key, Json>, order: seq<Key>, taken: Roster)
    requires |taken| >= AGENTS_MAX
    ensures Take(host, fields, order, taken) == taken
  {
  }

  lemma TakeOne(host: Host, fields: map<Key, Json>, name: Key, taken: Roster)
    ensures Take(host, fields, [name], taken) ==
      if |taken| < AGENTS_MAX && Find(taken, name).None? && ReadAt(host, fields, name).Some? then taken + [Named(name, ReadAt(host, fields, name).value)]
      else taken
  {
    assert [name][1..] == [];
  }

  lemma TakeLast(host: Host, fields: map<Key, Json>, order: seq<Key>, name: Key)
    ensures var before := Take(host, fields, order, []);
      Take(host, fields, order + [name], []) ==
        if |before| < 5 && Find(before, name).None? && ReadAt(host, fields, name).Some? then before + [Named(name, ReadAt(host, fields, name).value)]
        else before
  {
    hide Take, Find, ReadAt;
    TakeOneMore(host, fields, order, name, []);
    TakeOne(host, fields, name, Take(host, fields, order, []));
  }

  lemma ReadAtIs(host: Host, fields: map<Key, Json>, name: Key)
    ensures ReadAt(host, fields, name).Some? <==> Listed(host, fields, name)
    ensures ReadAt(host, fields, name).Some? ==> ReadsAs(host, Some(fields[name]), ReadAt(host, fields, name).value)
  {
    WellNamedIs(host.spelling(name));
    if name in fields { AgentIsReadAs(host, fields[name]); }
    hide WellNamed, IsAgentName, Readable, ReadsAs, NormalizeOneAgent;
  }

  lemma RosterGrows(host: Host, fields: map<Key, Json>, order: seq<Key>, last: Named, before: Roster, at: seq<nat>)
    requires RosterReads(host, fields, order, before, at) && |before| < 5 && !Knows(before, last.name)
    requires Listed(host, fields, last.name) && ReadsAs(host, Some(fields[last.name]), last.record)
    ensures RosterReads(host, fields, order + [last.name], before + [last], at + [|order|])
  {
    hide Listed, ReadsAs;
    var all, roster, places := order + [last.name], before + [last], at + [|order|];
    forall k | 0 <= k < |places| ensures places[k] < |all| && all[places[k]] == roster[k].name {
      if k < |at| { assert all[at[k]] == order[at[k]]; }
    }
    forall i | 0 <= i < |all| && Listed(host, fields, all[i]) ensures Knows(roster, all[i]) {
      if i == |order| { assert roster[|before|].name == all[i]; } else {
        assert all[i] == order[i];
        var k :| 0 <= k < |before| && before[k].name == order[i];
        assert roster[k].name == all[i];
      }
    }
    assert DistinctNames(roster);
  }

  lemma RosterStays(host: Host, fields: map<Key, Json>, order: seq<Key>, name: Key, roster: Roster, at: seq<nat>)
    requires RosterReads(host, fields, order, roster, at) && (|roster| == 5 || Knows(roster, name) || !Listed(host, fields, name))
    ensures RosterReads(host, fields, order + [name], roster, at)
  {
    hide Listed, ReadsAs;
    var all := order + [name];
    forall k | 0 <= k < |at| ensures at[k] < |all| && all[at[k]] == roster[k].name { assert all[at[k]] == order[at[k]]; }
    forall i | 0 <= i < |all| && Listed(host, fields, all[i]) ensures Knows(roster, all[i]) || (|roster| == 5 && at[4] < i) {
      if i < |order| { assert all[i] == order[i]; }
    }
  }

  lemma AtMostFive(host: Host, fields: map<Key, Json>, order: seq<Key>, roster: Roster, at: seq<nat>)
    requires RosterReads(host, fields, order, roster, at)
    ensures |roster| <= 5
  {
  }

  lemma {:induction false} TakeReads(host: Host, fields: map<Key, Json>, order: seq<Key>) returns (at: seq<nat>)
    ensures RosterReads(host, fields, order, Take(host, fields, order, []), at)
    decreases |order|
  {
    if order == [] {
      at := [];
    } else {
      var n := |order| - 1;
      var name, before := order[n], Take(host, fields, order[..n], []);
      var earlier := TakeReads(host, fields, order[..n]);
      assert order == order[..n] + [name];
      hide Take;
      TakeLast(host, fields, order[..n], name);
      ReadAtIs(host, fields, name);
      FoundIsThere(before, name);
      hide Find, ReadAt, Listed, ReadsAs, RosterReads;
      assert Find(before, name).Some? <==> Knows(before, name);
      assert |before| <= 5 by { AtMostFive(host, fields, order[..n], before, earlier); }
      if |before| < 5 && !Knows(before, name) && ReadAt(host, fields, name).Some? {
        RosterGrows(host, fields, order[..n], Named(name, ReadAt(host, fields, name).value), before, earlier);
        at := earlier + [n];
      } else {
        RosterStays(host, fields, order[..n], name, before, earlier);
        at := earlier;
      }
    }
  }

  /** The agents read from any file. */
  ghost predicate AgentsRead(host: Host, j: Option<Json>, roster: Roster) {
    if j.Some? && j.value.Obj? then exists at :: RosterReads(host, j.value.fields, j.value.order, roster, at) else roster == []
  }

  lemma AgentsAreRead(host: Host, j: Option<Json>)
    ensures AgentsRead(host, j, AgentsOf(host, j))
  {
    hide RosterReads, Take;
    if j.Some? && j.value.Obj? { var at := TakeReads(host, j.value.fields, j.value.order); }
  }

  // ----- The other sections -----

  /** On or off as the toggle's own switch says, and left to the environment otherwise. */
  predicate ToggleReads(j: Option<Json>, toggle: Option<bool>) {
    toggle == if Has(j, Enabled, Bool(true)) then Some(true) else if Has(j, Enabled, Bool(false)) then Some(false) else None
  }

  /** The toggles; the issue poller's older name counts where the newer one is missing or null. */
  predicate TogglesRead(j: Option<Json>, t: Toggles) {
    && ToggleReads(Get(j, Slack), t.slack) && ToggleReads(Get(j, DispatchApi), t.dispatchApi) && ToggleReads(Get(j, Ideator), t.ideator)
    && ToggleReads(Get(j, AutoTriage), t.autoTriage) && ToggleReads(Get(j, TrelloSync), t.trelloSync)
    && ToggleReads(if Get(j, IssuePoller).None? || Get(j, IssuePoller) == Some(Null) then Get(j, TrelloPoller) else Get(j, IssuePoller), t.issuePoller)
  }

  lemma ToggleIsRead(j: Option<Json>)
    ensures ToggleReads(j, NormalizeOverride(j))
  {
  }

  lemma TogglesAreRead(j: Option<Json>)
    ensures TogglesRead(j, NormalizeOverrides(j))
  {
    hide ToggleReads, NormalizeOverride, Get;
    ToggleIsRead(Get(j, Slack)); ToggleIsRead(Get(j, DispatchApi)); ToggleIsRead(Get(j, Ideator));
    ToggleIsRead(Get(j, AutoTriage)); ToggleIsRead(Get(j, TrelloSync));
    ToggleIsRead(OrElse(Get(j, IssuePoller), Get(j, TrelloPoller)));
  }

  /** The item is the first of the list that names the level. */
  predicate NamesFirst(items: seq<Json>, i: nat, e: EffortName)
    requires i < |items|
  {
    EffortReads(Get(Some(items[i]), Name), Some(e)) && forall j :: 0 <= j < i ==> !EffortReads(Get(Some(items[j]), Name), Some(e))
  }

  /** A level is what the first item that names it says, if that has a model and an effort, and the built-in one otherwise. */
  ghost predicate LevelReads(d: Defaults, items: seq<Json>, e: EffortName, level: EffortMapping) {
    || (exists i :: 0 <= i < |items| && NamesFirst(items, i, e) && SaysLevel(items[i], e, level))
    || (level == d.ladder(e)
        && forall i: nat, l: EffortMapping :: i < |items| && NamesFirst(items, i, e) ==> !SaysLevel(items[i], e, l))
  }

  predicate SaysLevel(item: Json, e: EffortName, level: EffortMapping) {
    && level.name == e && level.model != "" && Has(Some(item), Model, Str(level.model))
    && level.effort != "" && Has(Some(item), Effort, Str(level.effort))
  }

  lemma {:induction false} FirstNamedIs(items: seq<Json>, e: EffortName)
    ensures FirstNamed(items, e).None? <==> forall i :: 0 <= i < |items| ==> !NamesFirst(items, i, e)
    ensures FirstNamed(items, e).Some? ==> exists i :: 0 <= i < |items| && NamesFirst(items, i, e) && items[i] == FirstNamed(items, e).value
    ensures forall i :: 0 <= i < |items| && NamesFirst(items, i, e) ==> FirstNamed(items, e) == Some(items[i])
    decreases |items|
  {
    if items != [] {
      EffortIsRead(Get(Some(items[0]), Name));
      assert AsEffort(Get(Some(items[0]), Name)) == Some(e) <==> NamesFirst(items, 0, e);
      FirstNamedIs(items[1..], e);
      hide EffortReads, AsEffort, Get;
      forall i | 0 < i < |items| ensures NamesFirst(items, i, e) <==> !NamesFirst(items, 0, e) && NamesFirst(items[1..], i - 1, e) {
        FirstShifts(items, i, e);
      }
      if FirstNamed(items[1..], e).Some? && !NamesFirst(items, 0, e) {
        var i :| 0 <= i < |items[1..]| && NamesFirst(items[1..], i, e) && items[1..][i] == FirstNamed(items[1..], e).value;
        assert NamesFirst(items, i + 1, e) && items[i + 1] == items[1..][i];
      }
      assert forall i :: 0 < i < |items| ==> items[i] == items[1..][i - 1];
    }
  }

  lemma FirstShifts(items: seq<Json>, i: nat, e: EffortName)
    requires 0 < i < |items|
    ensures NamesFirst(items, i, e) <==> !NamesFirst(items, 0, e) && NamesFirst(items[1..], i - 1, e)
  {
    hide EffortReads, Get;
    assert items[1..][i - 1] == items[i];
    assert forall j :: 0 <= j < i - 1 ==> items[1..][j] == items[j + 1];
    assert forall j :: 0 < j < i ==> items[j] == items[1..][j - 1];
  }

  lemma LevelIsRead(d: Defaults, j: Option<Json>, e: EffortName)
    requires OkDefaults(d)
    ensures LevelReads(d, ItemsOf(j), e, NormalizeLevel(d, j, e))
  {
    var items, level := ItemsOf(j), NormalizeLevel(d, j, e);
    FirstNamedIs(items, e);
    hide NamesFirst, FirstNamed;
    if FirstNamed(items, e).Some? {
      var i :| 0 <= i < |items| && NamesFirst(items, i, e) && items[i] == FirstNamed(items, e).value;
      TextIsThere(Some(items[i]), Model);
      TextIsThere(Some(items[i]), Effort);
    }
  }

  /** Seven levels, one for each name, from the least to the most. */
  ghost predicate LevelsRead(d: Defaults, j: Option<Json>, levels: seq<EffortMapping>) {
    var items := if j.Some? && j.value.Arr? then j.value.items else [];
    && |levels| == 7
    && LevelReads(d, items, Min, levels[0]) && LevelReads(d, items, VeryLow, levels[1]) && LevelReads(d, items, Low, levels[2])
    && LevelReads(d, items, Medium, levels[3]) && LevelReads(d, items, High, levels[4]) && LevelReads(d, items, VeryHigh, levels[5])
    && LevelReads(d, items, Max, levels[6])
  }

  lemma LevelsAreRead(d: Defaults, j: Option<Json>)
    requires OkDefaults(d)
    ensures LevelsRead(d, j, EffortLevelsOf(d, j))
  {
    hide LevelReads, NormalizeLevel, OkDefaults;
    LevelIsRead(d, j, Min); LevelIsRead(d, j, VeryLow); LevelIsRead(d, j, Low); LevelIsRead(d, j, Medium);
    LevelIsRead(d, j, High); LevelIsRead(d, j, VeryHigh); LevelIsRead(d, j, Max);
  }

  /** A threshold of at least one, rounded down; none otherwise. */
  ghost predicate ThresholdReads(j: Option<Json>, threshold: Option<int>) {
    && (threshold.Some? <==> exists x :: x >= 1.0 && Has(j, Threshold, Num(x)))
    && (threshold.Some? ==> forall x :: Has(j, Threshold, Num(x)) ==> threshold.value as real <= x < threshold.value as real + 1.0)
  }

  lemma ThresholdIsRead(j: Option<Json>)
    ensures ThresholdReads(j, NormalizeThreshold(j))
  {
    if Get(j, Threshold).Some? && Get(j, Threshold).value.Num? {
      var x := Get(j, Threshold).value.number;
      assert Has(j, Threshold, Num(x));
    }
  }

  /** Who may have written the file: the installer, the set-up, the worker, or a named user of the dashboard. */
  predicate Writer(s: string) {
    s == "deploy" || s == "setup" || s == "worker" || (|s| > 10 && s[..10] == "dashboard:")
  }

  /** The stamp: its date text if there is one, else the epoch's, and its writer, if known, else the worker. */
  ghost predicate MetaReads(d: Defaults, j: Option<Json>, m: MetaBlock) {
    && (Has(j, UpdatedAt, Str(m.updatedAt)) || (m.updatedAt == d.epoch && forall s :: !Has(j, UpdatedAt, Str(s))))
    && ((Writer(m.updatedBy) && Has(j, UpdatedBy, Str(m.updatedBy)))
        || (m.updatedBy == "worker" && forall s :: Has(j, UpdatedBy, Str(s)) ==> !Writer(s)))
  }

  lemma WriterIs(s: string)
    ensures KnownWriter(s) <==> Writer(s)
  {
    assert |"dashboard:"| == 10;
    if |s| > 10 && s[..10] == "dashboard:" { assert s == s[..10] + s[10..]; }
  }

  lemma MetaIsRead(d: Defaults, j: Option<Json>)
    ensures MetaReads(d, j, NormalizeMeta(d, j))
  {
    var writer := AsString(Get(j, UpdatedBy));
    if writer.Some? { WriterIs(writer.value); }
    hide KnownWriter, Writer;
    var at := AsString(Get(j, UpdatedAt));
    assert at.Some? ==> Has(j, UpdatedAt, Str(at.value));
  }

  /** Any file, whatever it holds, is read section by section as what it says. */
  lemma SettingsAreReadAs(d: Defaults, raw: Option<Json>)
    requires OkDefaults(d)
    ensures var s := Normalize(d, raw);
      && TogglesRead(Get(raw, Overrides), s.overrides)
      && AgentsRead(d.host, Get(raw, Agents), s.agents)
      && (s.prepMode.Separate? <==> Has(Get(raw, AgentDefaults), SettingsJson.PrepMode, Str("separate")))
      && LevelsRead(d, Get(raw, EffortLevels), s.effortLevels)
      && s.prompt == (if Get(raw, EffortAssignmentPrompt).Some? && Get(raw, EffortAssignmentPrompt).value.Str? && Get(raw, EffortAssignmentPrompt).value.text != ""
                      then Get(raw, EffortAssignmentPrompt).value.text else d.prompt)
      && ThresholdReads(Get(raw, SelfRepair), s.threshold)
      && IsTextOf(s.pickupNamePrefix, Get(Get(raw, TestIsolation), PickupNamePrefix))
      && MetaReads(d, Get(raw, Meta), s.meta)
      && s.display == (if Get(raw, Display).Some? && (Get(raw, Display).value.Obj? || Get(raw, Display).value.Arr?)
                       then Get(raw, Display).value else Obj(map[], []))
  {
    TogglesAreRead(Get(raw, Overrides));
    AgentsAreRead(d.host, Get(raw, Agents));
    LevelsAreRead(d, Get(raw, EffortLevels));
    ThresholdIsRead(Get(raw, SelfRepair));
    TextIsThere(Get(raw, TestIsolation), PickupNamePrefix);
    MetaIsRead(d, Get(raw, Meta));
    hide TogglesRead, AgentsRead, LevelsRead, ThresholdReads, MetaReads, NormalizeOverrides, AgentsOf, EffortLevelsOf, NormalizeThreshold,
         NormalizeMeta, OkDefaults;
  }
}
