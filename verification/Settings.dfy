/** The settings value: read fail-soft from two files, written to them by category. */
module Settings {
  import opened Values
  import opened SettingsJson
  import opened SettingsAgents
  import opened SettingsRoster

  datatype EffortMapping = EffortMapping(name: EffortName, model: string, effort: string)

  datatype PrepMode = Combined | Separate

  /** Each toggle: on, off, or left to the environment. */
  datatype Toggles = Toggles(
    slack: Option<bool>, issuePoller: Option<bool>, dispatchApi: Option<bool>,
    ideator: Option<bool>, autoTriage: Option<bool>, trelloSync: Option<bool>)

  datatype MetaBlock = MetaBlock(updatedAt: string, updatedBy: string)

  /** `display` is an object or, in a hand-edited file, a list. */
  datatype SettingsValue = SettingsValue(
    overrides: Toggles, display: Json, agents: Roster, prepMode: PrepMode, effortLevels: seq<EffortMapping>,
    prompt: string, threshold: Option<int>, pickupNamePrefix: Option<string>, meta: MetaBlock)

  const EFFORT_NAMES := [Min, VeryLow, Low, Medium, High, VeryHigh, Max]

  /** What the installation supplies: the host, the built-in prompt, the built-in ladder, the epoch as text. */
  datatype Defaults = Defaults(host: Host, prompt: string, ladder: EffortName -> EffortMapping, epoch: string)

  predicate OkDefaults(d: Defaults) {
    && d.prompt != ""
    && forall e: EffortName :: d.ladder(e).name == e && d.ladder(e).model != "" && d.ladder(e).effort != ""
  }

  // ----- Reading one file -----

  /** Any object or list counts as an object here; a list has none of the names. */
  function NormalizeOverride(raw: Option<Json>): Option<bool> {
    var enabled := Get(raw, Enabled);
    if enabled.Some? && enabled.value.Bool? then Some(enabled.value.value) else None
  }

  function NormalizeOverrides(raw: Option<Json>): Toggles {
    Toggles(
      NormalizeOverride(Get(raw, Slack)),
      NormalizeOverride(OrElse(Get(raw, IssuePoller), Get(raw, TrelloPoller))),
      NormalizeOverride(Get(raw, DispatchApi)),
      NormalizeOverride(Get(raw, Ideator)),
      NormalizeOverride(Get(raw, AutoTriage)),
      NormalizeOverride(Get(raw, TrelloSync)))
  }

  const EMPTY := Obj(map[], [])

  function NormalizeDisplay(raw: Option<Json>): Json {
    if raw.Some? && (raw.value.Obj? || raw.value.Arr?) then raw.value else EMPTY
  }

  function NormalizePrepMode(raw: Option<Json>): PrepMode {
    if AsString(Get(raw, PrepMode)) == Some("separate") then Separate else Combined
  }

  /** The first list entry that names the level. */
  function FirstNamed(items: seq<Json>, e: EffortName): Option<Json> {
    if items == [] then None
    else if AsEffort(Get(Some(items[0]), Name)) == Some(e) then Some(items[0])
    else FirstNamed(items[1..], e)
  }

  function LevelFrom(d: Defaults, entry: Option<Json>, e: EffortName): EffortMapping {
    var model, effort := AsText(Get(entry, Model)), AsText(Get(entry, Effort));
    if model.None? || effort.None? then d.ladder(e) else EffortMapping(e, model.value, effort.value)
  }

  function ItemsOf(raw: Option<Json>): seq<Json> {
    if raw.Some? && raw.value.Arr? then raw.value.items else []
  }

  function NormalizeLevel(d: Defaults, raw: Option<Json>, e: EffortName): EffortMapping {
    LevelFrom(d, FirstNamed(ItemsOf(raw), e), e)
  }

  function EffortLevelsOf(d: Defaults, raw: Option<Json>): seq<EffortMapping> {
    seq(|EFFORT_NAMES|, i requires 0 <= i < |EFFORT_NAMES| => NormalizeLevel(d, raw, EFFORT_NAMES[i]))
  }

  /** One pass over the list, keeping the first entry for each name; then one slot for each level. */
  method NormalizeEffortLevels(d: Defaults, raw: Option<Json>) returns (levels: seq<EffortMapping>)
    ensures levels == EffortLevelsOf(d, raw)
  {
    var byName: map<EffortName, Json> := map[];
    var items := ItemsOf(raw);
    for k := 0 to |items|
      invariant forall e :: (if e in byName then Some(byName[e]) else FirstNamed(items[k..], e)) == FirstNamed(items, e)
    {
      assert items[k..][1..] == items[k + 1..];
      var name := AsEffort(Get(Some(items[k]), Name));
      if name.Some? && name.value !in byName {
        byName := byName[name.value := items[k]];
      }
    }
    levels := [];
    for i := 0 to |EFFORT_NAMES|
      invariant levels == EffortLevelsOf(d, raw)[..i]
    {
      var e := EFFORT_NAMES[i];
      levels := levels + [LevelFrom(d, if e in byName then Some(byName[e]) else None, e)];
    }
  }

  function NormalizePrompt(d: Defaults, raw: Option<Json>): string {
    var s := AsText(raw);
    if s.Some? then s.value else d.prompt
  }

  function NormalizeThreshold(raw: Option<Json>): Option<int> {
    var t := Get(raw, Threshold);
    if t.Some? && t.value.Num? && t.value.number >= 1.0 then Some(t.value.number.Floor) else None
  }

  function NormalizePickupPrefix(raw: Option<Json>): Option<string> {
    AsText(Get(raw, PickupNamePrefix))
  }

  const DASHBOARD_PREFIX := "dashboard:"

  predicate KnownWriter(s: string) {
    s == "deploy" || s == "setup" || s == "worker" || (DASHBOARD_PREFIX <= s && |s| > |DASHBOARD_PREFIX|)
  }

  function NormalizeMeta(d: Defaults, raw: Option<Json>): MetaBlock {
    var at, writer := AsString(Get(raw, UpdatedAt)), AsString(Get(raw, UpdatedBy));
    MetaBlock(if at.Some? then at.value else d.epoch,
              if writer.Some? && KnownWriter(writer.value) then writer.value else "worker")
  }

  /** None stands for no usable file content: everything is then at its default. */
  function Normalize(d: Defaults, raw: Option<Json>): SettingsValue {
    SettingsValue(
      NormalizeOverrides(Get(raw, Overrides)), NormalizeDisplay(Get(raw, Display)), AgentsOf(d.host, Get(raw, Agents)),
      NormalizePrepMode(Get(raw, AgentDefaults)), EffortLevelsOf(d, Get(raw, EffortLevels)),
      NormalizePrompt(d, Get(raw, EffortAssignmentPrompt)), NormalizeThreshold(Get(raw, SelfRepair)),
      NormalizePickupPrefix(Get(raw, TestIsolation)), NormalizeMeta(d, Get(raw, Meta)))
  }

  // ----- Writing a value -----

  function PrintToggle(t: Option<bool>): Json {
    Record(map[Enabled := if t.Some? then Bool(t.value) else Null])
  }

  function PrintOverrides(t: Toggles): Json {
    Record(map[Slack := PrintToggle(t.slack), IssuePoller := PrintToggle(t.issuePoller), DispatchApi := PrintToggle(t.dispatchApi),
               Ideator := PrintToggle(t.ideator), AutoTriage := PrintToggle(t.autoTriage), TrelloSync := PrintToggle(t.trelloSync)])
  }

  function PrepText(p: PrepMode): string {
    if p.Separate? then "separate" else "combined"
  }

  function PrintPrepMode(p: PrepMode): Json {
    Record(map[PrepMode := Str(PrepText(p))])
  }

  function PrintLevel(l: EffortMapping): Json {
    Record(map[Name := Str(EffortText(l.name)), Model := Str(l.model), Effort := Str(l.effort)])
  }

  function PrintLevels(levels: seq<EffortMapping>): Json {
    Arr(seq(|levels|, i requires 0 <= i < |levels| => PrintLevel(levels[i])))
  }

  function PrintThreshold(t: Option<int>): Json {
    if t.Some? then Record(map[Threshold := Num(t.value as real)]) else EMPTY
  }

  function PrintPickupPrefix(p: Option<string>): Json {
    if p.Some? then Record(map[PickupNamePrefix := Str(p.value)]) else EMPTY
  }

  function PrintMeta(m: MetaBlock): Json {
    Record(map[UpdatedAt := Str(m.updatedAt), UpdatedBy := Str(m.updatedBy)])
  }

  function ToJson(s: SettingsValue): Json {
    Record(map[Overrides := PrintOverrides(s.overrides), Display := s.display, Agents := PrintAgents(s.agents),
               AgentDefaults := PrintPrepMode(s.prepMode), EffortLevels := PrintLevels(s.effortLevels),
               EffortAssignmentPrompt := Str(s.prompt), SelfRepair := PrintThreshold(s.threshold),
               TestIsolation := PrintPickupPrefix(s.pickupNamePrefix), Meta := PrintMeta(s.meta)])
  }

  // ----- Each part reads back -----

  lemma ToggleReadsBack(t: Option<bool>)
    ensures NormalizeOverride(Some(PrintToggle(t))) == t
  {
  }

  lemma OverridesReadBack(t: Toggles)
    ensures NormalizeOverrides(Some(PrintOverrides(t))) == t
  {
    ToggleReadsBack(t.slack); ToggleReadsBack(t.issuePoller); ToggleReadsBack(t.dispatchApi);
    ToggleReadsBack(t.ideator); ToggleReadsBack(t.autoTriage); ToggleReadsBack(t.trelloSync);
    assert !PrintToggle(t.issuePoller).Null?;
    hide NormalizeOverride, PrintToggle;
  }

  lemma PrepModeReadsBack(p: PrepMode)
    ensures NormalizePrepMode(Some(PrintPrepMode(p))) == p
  {
    assert "separate" != "combined" by { assert |"separate"| == 8 && "separate"[0] != "combined"[0]; }
  }

  lemma LevelReadsBack(d: Defaults, l: EffortMapping)
    requires l.model != "" && l.effort != ""
    ensures LevelFrom(d, Some(PrintLevel(l)), l.name) == l
    ensures AsEffort(Get(Some(PrintLevel(l)), Name)) == Some(l.name)
  {
    EffortWords(l.name);
    hide EffortOf, EffortText;
  }

  predicate CanonicalLevels(levels: seq<EffortMapping>) {
    |levels| == |EFFORT_NAMES| && forall i :: 0 <= i < |levels| ==> levels[i].name == EFFORT_NAMES[i] && levels[i].model != "" && levels[i].effort != ""
  }

  lemma {:induction false} FirstNamedIs(items: seq<Json>, i: nat, e: EffortName)
    requires i < |items| && AsEffort(Get(Some(items[i]), Name)) == Some(e)
    requires forall j :: 0 <= j < i ==> AsEffort(Get(Some(items[j]), Name)) != Some(e)
    ensures FirstNamed(items, e) == Some(items[i])
  {
    hide AsEffort, Get;
    if i > 0 {
      assert forall j :: 0 <= j < i - 1 ==> items[1..][j] == items[j + 1];
      FirstNamedIs(items[1..], i - 1, e);
    }
  }

  lemma LevelsReadBack(d: Defaults, levels: seq<EffortMapping>)
    requires CanonicalLevels(levels)
    ensures EffortLevelsOf(d, Some(PrintLevels(levels))) == levels
  {
    var items := PrintLevels(levels).items;
    assert forall i, j :: 0 <= i < j < |EFFORT_NAMES| ==> EFFORT_NAMES[i] != EFFORT_NAMES[j];
    hide PrintLevel, AsEffort, Get, LevelFrom;
    forall i | 0 <= i < |levels| ensures AsEffort(Get(Some(items[i]), Name)) == Some(EFFORT_NAMES[i]) {
      LevelReadsBack(d, levels[i]);
    }
    forall i | 0 <= i < |levels| ensures NormalizeLevel(d, Some(PrintLevels(levels)), EFFORT_NAMES[i]) == levels[i] {
      FirstNamedIs(items, i, EFFORT_NAMES[i]);
      LevelReadsBack(d, levels[i]);
    }
  }

  lemma LevelsAreCanonical(d: Defaults, raw: Option<Json>)
    requires OkDefaults(d)
    ensures CanonicalLevels(EffortLevelsOf(d, raw))
  {
    hide FirstNamed, AsEffort;
  }

  lemma ThresholdReadsBack(t: Option<int>)
    requires t.Some? ==> t.value >= 1
    ensures NormalizeThreshold(Some(PrintThreshold(t))) == t
  {
  }

  lemma PickupPrefixReadsBack(p: Option<string>)
    requires p != Some("")
    ensures NormalizePickupPrefix(Some(PrintPickupPrefix(p))) == p
  {
  }

  lemma MetaReadsBack(d: Defaults, m: MetaBlock)
    requires KnownWriter(m.updatedBy)
    ensures NormalizeMeta(d, Some(PrintMeta(m))) == m
  {
    hide KnownWriter;
  }

  /** What every value that was read satisfies. */
  predicate Canonical(d: Defaults, s: SettingsValue) {
    && (s.display.Obj? || s.display.Arr?) && CanonicalRoster(d.host, s.agents) && CanonicalLevels(s.effortLevels)
    && s.prompt != "" && (s.threshold.Some? ==> s.threshold.value >= 1) && s.pickupNamePrefix != Some("")
    && KnownWriter(s.meta.updatedBy)
  }

  lemma NormalizedIsCanonical(d: Defaults, raw: Option<Json>)
    requires OkDefaults(d)
    ensures Canonical(d, Normalize(d, raw))
  {
    AgentsAreCanonical(d.host, Get(raw, Agents));
    LevelsAreCanonical(d, Get(raw, EffortLevels));
    assert KnownWriter("worker");
    hide CanonicalRoster, CanonicalLevels, EffortLevelsOf, AgentsOf, KnownWriter;
  }

  lemma PrintedParts(s: SettingsValue)
    ensures var j := Some(ToJson(s));
            && Get(j, Overrides) == Some(PrintOverrides(s.overrides)) && Get(j, Display) == Some(s.display)
            && Get(j, Agents) == Some(PrintAgents(s.agents)) && Get(j, AgentDefaults) == Some(PrintPrepMode(s.prepMode))
            && Get(j, EffortLevels) == Some(PrintLevels(s.effortLevels)) && Get(j, EffortAssignmentPrompt) == Some(Str(s.prompt))
            && Get(j, SelfRepair) == Some(PrintThreshold(s.threshold)) && Get(j, TestIsolation) == Some(PrintPickupPrefix(s.pickupNamePrefix))
            && Get(j, Meta) == Some(PrintMeta(s.meta))
  {
    hide PrintOverrides, PrintAgents, PrintPrepMode, PrintLevels, PrintThreshold, PrintPickupPrefix, PrintMeta;
  }

  lemma CanonicalReadsBack(d: Defaults, s: SettingsValue)
    requires Canonical(d, s)
    ensures Normalize(d, Some(ToJson(s))) == s
  {
    PrintedParts(s);
    hide ToJson, Get, PrintOverrides, PrintAgents, PrintPrepMode, PrintLevels, PrintThreshold, PrintPickupPrefix, PrintMeta,
         NormalizeOverrides, AgentsOf, NormalizePrepMode, EffortLevelsOf, NormalizeThreshold, NormalizePickupPrefix, NormalizeMeta,
         CanonicalRoster, CanonicalLevels, KnownWriter;
    OverridesReadBack(s.overrides);
    RosterReadsBack(d.host, s.agents);
    PrepModeReadsBack(s.prepMode);
    LevelsReadBack(d, s.effortLevels);
    ThresholdReadsBack(s.threshold);
    PickupPrefixReadsBack(s.pickupNamePrefix);
    MetaReadsBack(d, s.meta);
  }

  /** Normalizing is idempotent on whatever a file may hold. */
  lemma NormalizeIsIdempotent(d: Defaults, raw: Option<Json>)
    requires OkDefaults(d)
    ensures Normalize(d, Some(ToJson(Normalize(d, raw)))) == Normalize(d, raw)
  {
    hide Normalize, Canonical, ToJson;
    NormalizedIsCanonical(d, raw);
    CanonicalReadsBack(d, Normalize(d, raw));
  }

  lemma LegacyToggleIsRead(legacy: Option<bool>)
    ensures NormalizeOverrides(Some(Record(map[TrelloPoller := PrintToggle(legacy)]))).issuePoller == legacy
  {
    ToggleReadsBack(legacy);
    hide NormalizeOverride, PrintToggle;
  }

  lemma LegacyNameIsNotWritten(t: Toggles)
    ensures Get(Some(PrintOverrides(t)), TrelloPoller).None?
  {
    hide PrintToggle;
  }

  /** A file from before the rename: its poller toggle is read, written under the new name, and read again; the
      old name is gone. */
  lemma LegacyToggleIsCarriedOver(d: Defaults, raw: Json, legacy: Option<bool>)
    requires OkDefaults(d) && Get(Some(raw), Overrides) == Some(Record(map[TrelloPoller := PrintToggle(legacy)]))
    ensures var written := ToJson(Normalize(d, Some(raw)));
            && Get(Get(Some(written), Overrides), TrelloPoller).None?
            && Normalize(d, Some(written)).overrides.issuePoller == legacy
  {
    hide OkDefaults, AgentsOf, EffortLevelsOf, NormalizeMeta, ToJson, PrintToggle, Get, NormalizeOverrides, PrintOverrides,
         NormalizeDisplay, NormalizePrepMode, NormalizePrompt, NormalizeThreshold, NormalizePickupPrefix;
    NormalizeIsIdempotent(d, Some(raw));
    PrintedParts(Normalize(d, Some(raw)));
    LegacyToggleIsRead(legacy);
    LegacyNameIsNotWritten(Normalize(d, Some(raw)).overrides);
  }
}
