/** Two files behaving as one store: contract fields in one, drift fields in the other. */
module SettingsStore {
  import opened Values
  import opened SettingsJson
  import opened SettingsAgents
  import opened SettingsRoster
  import opened Settings

  /** A settings file: not there, not JSON, or a JSON value. */
  datatype FileState = Missing | Corrupt | Parsed(json: Json)

  function Content(f: FileState): Option<Json> {
    if f.Parsed? then Some(f.json) else None
  }

  /** A property of a patch object: not there, there but undefined, or a value. */
  datatype Slot = NoKey | Undefined | Given(json: Json)

  datatype TogglesPatch = TogglesPatch(
    slack: Option<Json>, issuePoller: Option<Json>, dispatchApi: Option<Json>,
    ideator: Option<Json>, autoTriage: Option<Json>, trelloSync: Option<Json>)

  /** None stands for undefined; a display section may be set to undefined. */
  datatype Patch = Patch(
    overrides: Option<TogglesPatch>, display: Option<map<Key, Option<Json>>>, agents: Option<Json>, agentDefaults: Option<Slot>,
    effortLevels: Option<Json>, prompt: Option<Json>, selfRepair: Option<Json>, testIsolation: Option<Json>, writtenBy: string)

  predicate TouchesContract(p: Patch) {
    p.overrides.Some? || p.agents.Some? || p.agentDefaults.Some? || p.effortLevels.Some? || p.prompt.Some? || p.selfRepair.Some?
  }

  predicate TouchesDrift(p: Patch) {
    p.display.Some? || p.testIsolation.Some?
  }

  // ----- Reading -----

  /** Milliseconds of a date text; None when it is no date. */
  type Dates = string -> Option<int>

  function LaterMeta(dates: Dates, contract: MetaBlock, drift: MetaBlock): MetaBlock {
    var c, r := dates(contract.updatedAt), dates(drift.updatedAt);
    if r.Some? && (c.None? || r.value > c.value) then drift else contract
  }

  /** Contract fields from the contract file, drift fields from the drift file, the more recent meta block. */
  function ReadSettings(d: Defaults, dates: Dates, contract: FileState, drift: FileState): SettingsValue {
    var c, r := Normalize(d, Content(contract)), Normalize(d, Content(drift));
    c.(display := r.display, pickupNamePrefix := r.pickupNamePrefix, meta := LaterMeta(dates, c.meta, r.meta))
  }

  // ----- Writing -----

  function SlotOr(patch: Option<Json>, existing: Option<bool>): Json {
    OrElse(patch, Some(PrintToggle(existing))).value
  }

  function WrittenOverrides(patch: Option<TogglesPatch>, existing: Toggles): Json {
    if patch.None? then PrintOverrides(existing) else
      var p := patch.value;
      Record(map[Slack := SlotOr(p.slack, existing.slack), IssuePoller := SlotOr(p.issuePoller, existing.issuePoller),
                 DispatchApi := SlotOr(p.dispatchApi, existing.dispatchApi), Ideator := SlotOr(p.ideator, existing.ideator),
                 AutoTriage := SlotOr(p.autoTriage, existing.autoTriage), TrelloSync := SlotOr(p.trelloSync, existing.trelloSync)])
  }

  function MergedRoster(d: Defaults, patch: Option<Json>, existing: Roster): Roster {
    if patch.None? || !patch.value.Obj? then existing else AgentsOf(d.host, Some(Spread(existing, patch.value)))
  }

  /** `{...existing, ...patch}` for the one field there is; JSON drops a field set to undefined. */
  function WrittenPrepMode(patch: Option<Slot>, existing: PrepMode): Json {
    if patch.None? || patch.value.NoKey? then PrintPrepMode(existing)
    else if patch.value.Undefined? then EMPTY
    else Record(map[PrepMode := patch.value.json])
  }

  function ContractAfter(d: Defaults, existing: SettingsValue, p: Patch, now: string): Json {
    Record(map[
      Overrides := WrittenOverrides(p.overrides, existing.overrides),
      Agents := PrintAgents(MergedRoster(d, p.agents, existing.agents)),
      AgentDefaults := WrittenPrepMode(p.agentDefaults, existing.prepMode),
      EffortLevels := PrintLevels(if p.effortLevels.Some? then EffortLevelsOf(d, p.effortLevels) else existing.effortLevels),
      EffortAssignmentPrompt := Str(if p.prompt.Some? then NormalizePrompt(d, p.prompt) else existing.prompt),
      SelfRepair := PrintThreshold(if p.selfRepair.Some? then NormalizeThreshold(p.selfRepair) else existing.threshold),
      Meta := PrintMeta(MetaBlock(now, p.writtenBy))])
  }

  function IndexedFields(spelled: nat -> Key, items: seq<Json>): map<Key, Json>
    decreases |items|
  {
    if items == [] then map[] else
      IndexedFields(spelled, items[..|items| - 1])[spelled(|items| - 1) := items[|items| - 1]]
  }

  /** What spreading a display value contributes; a list contributes its positions as names. */
  function SpreadFields(spelled: nat -> Key, display: Json): map<Key, Json> {
    if display.Obj? then display.fields else if display.Arr? then IndexedFields(spelled, display.items) else map[]
  }

  function MergedDisplay(spelled: nat -> Key, existing: Json, patch: Option<map<Key, Option<Json>>>): Json {
    if patch.None? then existing else
      var kept := SpreadFields(spelled, existing) - patch.value.Keys;
      Record(kept + map k | k in patch.value && patch.value[k].Some? :: patch.value[k].value)
  }

  function DriftAfter(spelled: nat -> Key, existing: SettingsValue, p: Patch, now: string): Json {
    Record(map[
      Display := MergedDisplay(spelled, existing.display, p.display),
      TestIsolation := PrintPickupPrefix(if p.testIsolation.Some? then NormalizePickupPrefix(p.testIsolation) else existing.pickupNamePrefix),
      Meta := PrintMeta(MetaBlock(now, p.writtenBy))])
  }

  /** The two files after a write: a patch that touches nothing stamps the contract file. */
  function ContractFileAfter(d: Defaults, contract: FileState, p: Patch, now: string): FileState {
    if TouchesContract(p) || !TouchesDrift(p) then Parsed(ContractAfter(d, Normalize(d, Content(contract)), p, now)) else contract
  }

  function DriftFileAfter(d: Defaults, spelled: nat -> Key, drift: FileState, p: Patch, now: string): FileState {
    if TouchesDrift(p) then Parsed(DriftAfter(spelled, Normalize(d, Content(drift)), p, now)) else drift
  }

  /** A patch that changes nothing but the meta block. */
  function Stamp(writtenBy: string): Patch {
    Patch(None, None, None, None, None, None, None, None, writtenBy)
  }

  /** The contract file after the agents map has been rewritten as a whole; this, unlike a patch, can drop
      agents. */
  function MutatedFile(d: Defaults, contract: FileState, mutator: Roster -> Json, writtenBy: string, now: string): FileState {
    var existing := Normalize(d, Content(contract));
    var agents := AgentsOf(d.host, Some(mutator(existing.agents)));
    Parsed(ContractAfter(d, existing.(agents := agents), Stamp(writtenBy), now))
  }

  class Store {
    const d: Defaults
    const dates: Dates
    const spelled: nat -> Key
    var contract: FileState
    var drift: FileState

    constructor (d: Defaults, dates: Dates, spelled: nat -> Key, contract: FileState, drift: FileState)
      ensures this.d == d && this.dates == dates && this.spelled == spelled && this.contract == contract && this.drift == drift
    {
      this.d, this.dates, this.spelled, this.contract, this.drift := d, dates, spelled, contract, drift;
    }

    method WriteContractFile(p: Patch, now: string)
      modifies this`contract
      ensures contract == Parsed(ContractAfter(d, Normalize(d, Content(old(contract))), p, now))
    {
      var existing := Normalize(d, Content(contract));
      contract := Parsed(ContractAfter(d, existing, p, now));
    }

    method WriteDriftFile(p: Patch, now: string)
      modifies this`drift
      ensures drift == Parsed(DriftAfter(spelled, Normalize(d, Content(old(drift))), p, now))
    {
      var existing := Normalize(d, Content(drift));
      drift := Parsed(DriftAfter(spelled, existing, p, now));
    }

    method WriteSettings(p: Patch, now: string) returns (merged: SettingsValue)
      modifies this
      ensures contract == ContractFileAfter(d, old(contract), p, now)
      ensures drift == DriftFileAfter(d, spelled, old(drift), p, now)
      ensures merged == ReadSettings(d, dates, contract, drift)
    {
      if TouchesContract(p) || !TouchesDrift(p) {
        WriteContractFile(p, now);
      }
      if TouchesDrift(p) {
        WriteDriftFile(p, now);
      }
      merged := ReadSettings(d, dates, contract, drift);
    }

    method MutateAgents(mutator: Roster -> Json, writtenBy: string, now: string) returns (merged: SettingsValue)
      modifies this
      ensures contract == MutatedFile(d, old(contract), mutator, writtenBy, now) && drift == old(drift)
      ensures merged == ReadSettings(d, dates, contract, drift)
    {
      var existing := Normalize(d, Content(contract));
      var mergedAgents := NormalizeAgents(d.host, Some(mutator(existing.agents)));
      contract := Parsed(ContractAfter(d, existing.(agents := mergedAgents), Stamp(writtenBy), now));
      merged := ReadSettings(d, dates, contract, drift);
    }
  }

  // ----- What a write changes -----

  /** A toggle after a write: what the patch says, read as a file would be, or what it was. */
  function ToggleAfter(patch: Option<Json>, before: Option<bool>): Option<bool> {
    if patch.None? || patch.value.Null? then before else NormalizeOverride(patch)
  }

  function TogglesAfter(patch: Option<TogglesPatch>, before: Toggles): Toggles {
    if patch.None? then before else
      var p := patch.value;
      Toggles(ToggleAfter(p.slack, before.slack), ToggleAfter(p.issuePoller, before.issuePoller),
              ToggleAfter(p.dispatchApi, before.dispatchApi), ToggleAfter(p.ideator, before.ideator),
              ToggleAfter(p.autoTriage, before.autoTriage), ToggleAfter(p.trelloSync, before.trelloSync))
  }

  function PrepModeAfter(patch: Option<Slot>, before: PrepMode): PrepMode {
    if patch.None? || patch.value.NoKey? then before
    else if patch.value.Undefined? then Combined
    else NormalizePrepMode(Some(Record(map[PrepMode := patch.value.json])))
  }

  lemma SlotReadsBack(patch: Option<Json>, before: Option<bool>)
    ensures NormalizeOverride(Some(SlotOr(patch, before))) == ToggleAfter(patch, before)
    ensures !SlotOr(patch, before).Null?
  {
    ToggleReadsBack(before);
  }

  lemma WrittenSlots(p: TogglesPatch, before: Toggles)
    ensures var j := Some(WrittenOverrides(Some(p), before));
            && Get(j, Slack) == Some(SlotOr(p.slack, before.slack)) && Get(j, IssuePoller) == Some(SlotOr(p.issuePoller, before.issuePoller))
            && Get(j, DispatchApi) == Some(SlotOr(p.dispatchApi, before.dispatchApi)) && Get(j, Ideator) == Some(SlotOr(p.ideator, before.ideator))
            && Get(j, AutoTriage) == Some(SlotOr(p.autoTriage, before.autoTriage)) && Get(j, TrelloSync) == Some(SlotOr(p.trelloSync, before.trelloSync))
  {
    hide SlotOr;
  }

  lemma WrittenOverridesReadBack(patch: Option<TogglesPatch>, before: Toggles)
    ensures NormalizeOverrides(Some(WrittenOverrides(patch, before))) == TogglesAfter(patch, before)
  {
    OverridesReadBack(before);
    if patch.Some? {
      var p := patch.value;
      hide NormalizeOverride, SlotOr, ToggleAfter, PrintOverrides, WrittenOverrides, Get;
      WrittenSlots(p, before);
      SlotReadsBack(p.slack, before.slack); SlotReadsBack(p.issuePoller, before.issuePoller);
      SlotReadsBack(p.dispatchApi, before.dispatchApi); SlotReadsBack(p.ideator, before.ideator);
      SlotReadsBack(p.autoTriage, before.autoTriage); SlotReadsBack(p.trelloSync, before.trelloSync);
    }
  }

  lemma WrittenPrepModeReadsBack(patch: Option<Slot>, before: PrepMode)
    ensures NormalizePrepMode(Some(WrittenPrepMode(patch, before))) == PrepModeAfter(patch, before)
  {
    PrepModeReadsBack(before);
  }

  lemma MergedRosterReadsBack(d: Defaults, patch: Option<Json>, before: Roster)
    requires CanonicalRoster(d.host, before)
    ensures AgentsOf(d.host, Some(PrintAgents(MergedRoster(d, patch, before)))) == MergedRoster(d, patch, before)
  {
    hide CanonicalRoster, AgentsOf, PrintAgents;
    if patch.Some? && patch.value.Obj? { AgentsAreCanonical(d.host, Some(Spread(before, patch.value))); }
    RosterReadsBack(d.host, MergedRoster(d, patch, before));
  }

  lemma ContractParts(d: Defaults, existing: SettingsValue, p: Patch, now: string)
    ensures var j := Some(ContractAfter(d, existing, p, now));
            && Get(j, Overrides) == Some(WrittenOverrides(p.overrides, existing.overrides))
            && Get(j, Agents) == Some(PrintAgents(MergedRoster(d, p.agents, existing.agents)))
            && Get(j, AgentDefaults) == Some(WrittenPrepMode(p.agentDefaults, existing.prepMode))
            && Get(j, EffortLevels) == Some(PrintLevels(if p.effortLevels.Some? then EffortLevelsOf(d, p.effortLevels) else existing.effortLevels))
            && Get(j, EffortAssignmentPrompt) == Some(Str(if p.prompt.Some? then NormalizePrompt(d, p.prompt) else existing.prompt))
            && Get(j, SelfRepair) == Some(PrintThreshold(if p.selfRepair.Some? then NormalizeThreshold(p.selfRepair) else existing.threshold))
  {
    hide WrittenOverrides, PrintAgents, MergedRoster, WrittenPrepMode, PrintLevels, EffortLevelsOf, NormalizePrompt, NormalizeThreshold, PrintThreshold, PrintMeta;
  }

  lemma PatchedPartsAreCanonical(d: Defaults, existing: SettingsValue, p: Patch)
    requires OkDefaults(d) && Canonical(d, existing)
    ensures CanonicalLevels(if p.effortLevels.Some? then EffortLevelsOf(d, p.effortLevels) else existing.effortLevels)
    ensures (if p.prompt.Some? then NormalizePrompt(d, p.prompt) else existing.prompt) != ""
    ensures var t := if p.selfRepair.Some? then NormalizeThreshold(p.selfRepair) else existing.threshold; t.Some? ==> t.value >= 1
    ensures CanonicalRoster(d.host, existing.agents)
  {
    LevelsAreCanonical(d, p.effortLevels);
    hide CanonicalLevels, EffortLevelsOf, CanonicalRoster, KnownWriter;
  }

  lemma ContractPartsReadBack(d: Defaults, existing: SettingsValue, p: Patch, now: string)
    requires OkDefaults(d) && Canonical(d, existing)
    ensures var after := Normalize(d, Some(ContractAfter(d, existing, p, now)));
            && after.overrides == TogglesAfter(p.overrides, existing.overrides)
            && after.agents == MergedRoster(d, p.agents, existing.agents)
            && after.prepMode == PrepModeAfter(p.agentDefaults, existing.prepMode)
            && after.effortLevels == (if p.effortLevels.Some? then EffortLevelsOf(d, p.effortLevels) else existing.effortLevels)
            && after.prompt == (if p.prompt.Some? then NormalizePrompt(d, p.prompt) else existing.prompt)
            && after.threshold == (if p.selfRepair.Some? then NormalizeThreshold(p.selfRepair) else existing.threshold)
  {
    hide ContractAfter, Get, WrittenOverrides, PrintAgents, MergedRoster, WrittenPrepMode, PrintLevels, EffortLevelsOf, PrintThreshold,
         NormalizeOverrides, AgentsOf, NormalizePrepMode, NormalizeThreshold, NormalizeMeta, CanonicalRoster, CanonicalLevels,
         KnownWriter, Canonical, OkDefaults, TogglesAfter, PrepModeAfter, NormalizeDisplay, NormalizePickupPrefix;
    PatchedPartsAreCanonical(d, existing, p);
    ContractParts(d, existing, p, now);
    WrittenOverridesReadBack(p.overrides, existing.overrides);
    MergedRosterReadsBack(d, p.agents, existing.agents);
    WrittenPrepModeReadsBack(p.agentDefaults, existing.prepMode);
    LevelsReadBack(d, if p.effortLevels.Some? then EffortLevelsOf(d, p.effortLevels) else existing.effortLevels);
    ThresholdReadsBack(if p.selfRepair.Some? then NormalizeThreshold(p.selfRepair) else existing.threshold);
  }

  /** The contract file after a write: each field is what the patch says, normalized, or what it was. */
  lemma ContractWriteReadsBack(d: Defaults, contract: FileState, p: Patch, now: string)
    requires OkDefaults(d)
    ensures var before := Normalize(d, Content(contract));
            var after := Normalize(d, Content(ContractFileAfter(d, contract, p, now)));
            && after.overrides == TogglesAfter(p.overrides, before.overrides)
            && after.agents == MergedRoster(d, p.agents, before.agents)
            && after.prepMode == PrepModeAfter(p.agentDefaults, before.prepMode)
            && after.effortLevels == (if p.effortLevels.Some? then EffortLevelsOf(d, p.effortLevels) else before.effortLevels)
            && after.prompt == (if p.prompt.Some? then NormalizePrompt(d, p.prompt) else before.prompt)
            && after.threshold == (if p.selfRepair.Some? then NormalizeThreshold(p.selfRepair) else before.threshold)
  {
    hide Normalize, ContractAfter, EffortLevelsOf, NormalizePrompt, NormalizeThreshold, OkDefaults, Canonical;
    NormalizedIsCanonical(d, Content(contract));
    ContractPartsReadBack(d, Normalize(d, Content(contract)), p, now);
  }

  /** A display section after a write: what the patch says, gone if the patch sets it to undefined, or what it was; a
      list that is patched has its items under their positions as names. */
  ghost predicate SectionIs(spelled: nat -> Key, patch: Option<map<Key, Option<Json>>>, before: Json, section: Key, after: Option<Json>) {
    if patch.Some? && section in patch.value then after == patch.value[section]
    else if patch.None? || !before.Arr? then after == Get(Some(before), section)
    else if after.None? then forall i :: 0 <= i < |before.items| ==> spelled(i) != section
    else exists i :: 0 <= i < |before.items| && spelled(i) == section && after.value == before.items[i]
                     && forall k :: i < k < |before.items| ==> spelled(k) != section
  }

  lemma {:induction false} IndexedAt(spelled: nat -> Key, items: seq<Json>, section: Key)
    ensures section !in IndexedFields(spelled, items) ==> forall i :: 0 <= i < |items| ==> spelled(i) != section
    ensures section in IndexedFields(spelled, items) ==>
              exists i :: 0 <= i < |items| && spelled(i) == section && IndexedFields(spelled, items)[section] == items[i]
                          && forall k :: i < k < |items| ==> spelled(k) != section
    decreases |items|
  {
    if items != [] {
      IndexedAt(spelled, items[..|items| - 1], section);
    }
  }

  lemma DriftParts(spelled: nat -> Key, existing: SettingsValue, p: Patch, now: string)
    ensures var j := Some(DriftAfter(spelled, existing, p, now));
            && Get(j, Display) == Some(MergedDisplay(spelled, existing.display, p.display))
            && Get(j, TestIsolation) == Some(PrintPickupPrefix(if p.testIsolation.Some? then NormalizePickupPrefix(p.testIsolation) else existing.pickupNamePrefix))
  {
    hide MergedDisplay, PrintPickupPrefix, NormalizePickupPrefix, PrintMeta;
  }

  lemma MergedDisplayIs(spelled: nat -> Key, before: Json, patch: Option<map<Key, Option<Json>>>, section: Key)
    requires before.Obj? || before.Arr?
    ensures SectionIs(spelled, patch, before, section, Get(Some(MergedDisplay(spelled, before, patch)), section))
    ensures NormalizeDisplay(Some(MergedDisplay(spelled, before, patch))) == MergedDisplay(spelled, before, patch)
  {
    if before.Arr? { IndexedAt(spelled, before.items, section); }
  }

  /** The drift file after a write. */
  lemma DriftWriteReadsBack(d: Defaults, spelled: nat -> Key, drift: FileState, p: Patch, now: string)
    requires OkDefaults(d)
    ensures var before := Normalize(d, Content(drift));
            var after := Normalize(d, Content(DriftFileAfter(d, spelled, drift, p, now)));
            && (forall section :: SectionIs(spelled, p.display, before.display, section, Get(Some(after.display), section)))
            && (p.display.None? ==> after.display == before.display)
            && after.pickupNamePrefix == (if p.testIsolation.Some? then NormalizePickupPrefix(p.testIsolation) else before.pickupNamePrefix)
  {
    var before := Normalize(d, Content(drift));
    NormalizedIsCanonical(d, Content(drift));
    var prefix := if p.testIsolation.Some? then NormalizePickupPrefix(p.testIsolation) else before.pickupNamePrefix;
    assert prefix != Some("");
    assert before.display.Obj? || before.display.Arr?;
    hide Canonical, CanonicalRoster, CanonicalLevels, KnownWriter, AgentsOf, EffortLevelsOf, NormalizeOverrides, NormalizeMeta,
         NormalizePickupPrefix, PrintPickupPrefix, SectionIs, Get, NormalizeDisplay, DriftAfter, NormalizePrompt, NormalizeThreshold, NormalizePrepMode;
    PickupPrefixReadsBack(prefix);
    DriftParts(spelled, before, p, now);
    forall section ensures SectionIs(spelled, p.display, before.display, section, Get(Some(MergedDisplay(spelled, before.display, p.display)), section)) {
      MergedDisplayIs(spelled, before.display, p.display, section);
    }
    MergedDisplayIs(spelled, before.display, p.display, Slack);
  }

  /** One store: after any write, read from both files, every patched field has its normalized patch value,
      display by section and agents by name, and every other field what it had before. */
  lemma WriteReadsBack(d: Defaults, dates: Dates, spelled: nat -> Key, contract: FileState, drift: FileState, p: Patch, now: string)
    requires OkDefaults(d)
    ensures var before := ReadSettings(d, dates, contract, drift);
            var after := ReadSettings(d, dates, ContractFileAfter(d, contract, p, now), DriftFileAfter(d, spelled, drift, p, now));
            && after.overrides == TogglesAfter(p.overrides, before.overrides)
            && after.agents == MergedRoster(d, p.agents, before.agents)
            && after.prepMode == PrepModeAfter(p.agentDefaults, before.prepMode)
            && after.effortLevels == (if p.effortLevels.Some? then EffortLevelsOf(d, p.effortLevels) else before.effortLevels)
            && after.prompt == (if p.prompt.Some? then NormalizePrompt(d, p.prompt) else before.prompt)
            && after.threshold == (if p.selfRepair.Some? then NormalizeThreshold(p.selfRepair) else before.threshold)
            && (forall section :: SectionIs(spelled, p.display, before.display, section, Get(Some(after.display), section)))
            && (p.display.None? ==> after.display == before.display)
            && after.pickupNamePrefix == (if p.testIsolation.Some? then NormalizePickupPrefix(p.testIsolation) else before.pickupNamePrefix)
  {
    ContractWriteReadsBack(d, contract, p, now);
    DriftWriteReadsBack(d, spelled, drift, p, now);
    hide Normalize, ContractFileAfter, DriftFileAfter, TogglesAfter, MergedRoster, PrepModeAfter, EffortLevelsOf, NormalizePrompt,
         NormalizeThreshold, SectionIs, NormalizePickupPrefix, Get, LaterMeta;
  }

  /** Agents on disk that a patch does not name survive the write unchanged, even when the roster is full. */
  lemma UnnamedAgentsSurvive(d: Defaults, dates: Dates, spelled: nat -> Key, contract: FileState, drift: FileState, p: Patch, now: string, name: Key)
    requires OkDefaults(d)
    requires p.agents.Some? ==> p.agents.value.Obj? && name !in p.agents.value.fields
                                && (forall k :: k in p.agents.value.fields <==> k in p.agents.value.order)
    ensures Find(ReadSettings(d, dates, ContractFileAfter(d, contract, p, now), DriftFileAfter(d, spelled, drift, p, now)).agents, name)
         == Find(ReadSettings(d, dates, contract, drift).agents, name)
  {
    WriteReadsBack(d, dates, spelled, contract, drift, p, now);
    var before := ReadSettings(d, dates, contract, drift);
    AgentsAreCanonical(d.host, Get(Content(contract), Agents));
    hide ContractFileAfter, DriftFileAfter, AgentsOf, CanonicalRoster, Spread, NormalizeOverrides, EffortLevelsOf, NormalizeMeta,
         TogglesAfter, SectionIs, NormalizePickupPrefix;
    if p.agents.Some? { MergedAgents(d.host, before.agents, p.agents.value, name); }
  }

  /** After any write, name by name: without agents in the patch all stay; an agent the patch does not name stays, one that it
      names becomes what it says, or goes if that cannot be read, and a new one is there unless the roster is full. */
  lemma NamedAgentsAreMerged(d: Defaults, dates: Dates, spelled: nat -> Key, contract: FileState, drift: FileState, p: Patch, now: string, name: Key)
    requires OkDefaults(d)
    requires p.agents.Some? ==> p.agents.value.Obj? && forall k :: k in p.agents.value.fields <==> k in p.agents.value.order
    ensures var before := ReadSettings(d, dates, contract, drift).agents;
            var after := ReadSettings(d, dates, ContractFileAfter(d, contract, p, now), DriftFileAfter(d, spelled, drift, p, now)).agents;
            && (p.agents.None? ==> after == before)
            && (p.agents.Some? && name !in p.agents.value.fields ==> Find(after, name) == Find(before, name))
            && (p.agents.Some? && name in p.agents.value.fields ==>
                  || Find(after, name) == ReadAt(d.host, p.agents.value.fields, name)
                  || (Find(before, name).None? && Find(after, name).None? && |after| == 5))
            && (p.agents.Some? ==> |after| <= 5)
  {
    WriteReadsBack(d, dates, spelled, contract, drift, p, now);
    var before := ReadSettings(d, dates, contract, drift);
    AgentsAreCanonical(d.host, Get(Content(contract), Agents));
    hide ContractFileAfter, DriftFileAfter, AgentsOf, CanonicalRoster, Spread, NormalizeOverrides, EffortLevelsOf, NormalizeMeta,
         TogglesAfter, SectionIs, NormalizePickupPrefix, ReadAt, Find;
    if p.agents.Some? { MergedAgents(d.host, before.agents, p.agents.value, name); }
  }

  /** The patch has the field and gives the other mode, or leaves it undefined while the mode is `separate`. */
  predicate ChangesPrepMode(patch: Option<Slot>, before: PrepMode) {
    patch.Some?
    && match patch.value
       case NoKey => false
       case Undefined => before.Separate?
       case Given(mode) => (mode == Str("separate")) != before.Separate?
  }

  lemma PrepModeAfterDiffers(patch: Option<Slot>, before: PrepMode)
    ensures PrepModeAfter(patch, before) != before <==> ChangesPrepMode(patch, before)
  {
  }

  /** The preparation mode read after a write differs from the one before exactly when the patch changes it:
      a patch that has the field but gives it no value does, when the mode was `separate`. */
  lemma PrepModeChangesIff(d: Defaults, dates: Dates, spelled: nat -> Key, contract: FileState, drift: FileState, p: Patch, now: string)
    requires OkDefaults(d)
    ensures var before := ReadSettings(d, dates, contract, drift).prepMode;
            var after := ReadSettings(d, dates, ContractFileAfter(d, contract, p, now), DriftFileAfter(d, spelled, drift, p, now)).prepMode;
            after != before <==> ChangesPrepMode(p.agentDefaults, before)
  {
    hide ReadSettings, ContractFileAfter, DriftFileAfter, OkDefaults, TogglesAfter, MergedRoster, SectionIs, EffortLevelsOf,
         NormalizePrompt, NormalizeThreshold, NormalizePickupPrefix, PrepModeAfter, ChangesPrepMode, Get;
    WriteReadsBack(d, dates, spelled, contract, drift, p, now);
    PrepModeAfterDiffers(p.agentDefaults, ReadSettings(d, dates, contract, drift).prepMode);
  }

  /** Rewriting the agents map changes the agents, to what can be read of the new map, and nothing else. */
  lemma MutateReadsBack(d: Defaults, dates: Dates, contract: FileState, drift: FileState, mutator: Roster -> Json, writtenBy: string, now: string)
    requires OkDefaults(d)
    ensures var before := ReadSettings(d, dates, contract, drift);
            var after := ReadSettings(d, dates, MutatedFile(d, contract, mutator, writtenBy, now), drift);
            after == before.(agents := AgentsOf(d.host, Some(mutator(before.agents))), meta := after.meta)
  {
    var existing := Normalize(d, Content(contract));
    var agents := AgentsOf(d.host, Some(mutator(existing.agents)));
    NormalizedIsCanonical(d, Content(contract));
    AgentsAreCanonical(d.host, Some(mutator(existing.agents)));
    hide Normalize, ContractAfter, EffortLevelsOf, NormalizePrompt, NormalizeThreshold, OkDefaults, AgentsOf, CanonicalRoster, CanonicalLevels, KnownWriter;
    ContractPartsReadBack(d, existing.(agents := agents), Stamp(writtenBy), now);
  }

  /** The stamp reads as a date that comes after the other one's, or the other has no date. */
  predicate LaterThan(dates: Dates, stamp: string, other: string) {
    dates(stamp).Some? && (dates(other).Some? ==> dates(stamp).value > dates(other).value)
  }

  /** Whether a write that goes to these files is the one whose stamp is read: always, if it goes to both; one to the
      contract file alone, unless the drift file's stamp is later; one to the drift file alone only if it is later
      than the contract file's stamp, or the very same. */
  predicate Surfaces(dates: Dates, p: Patch, stamp: MetaBlock, contract: MetaBlock, drift: MetaBlock) {
    if !TouchesDrift(p) then !LaterThan(dates, drift.updatedAt, stamp.updatedAt)
    else if !TouchesContract(p) then LaterThan(dates, stamp.updatedAt, contract.updatedAt) || contract == stamp
    else true
  }

  lemma WrittenMeta(d: Defaults, spelled: nat -> Key, contract: SettingsValue, drift: SettingsValue, p: Patch, now: string)
    requires KnownWriter(p.writtenBy)
    ensures Normalize(d, Some(ContractAfter(d, contract, p, now))).meta == MetaBlock(now, p.writtenBy)
    ensures Normalize(d, Some(DriftAfter(spelled, drift, p, now))).meta == MetaBlock(now, p.writtenBy)
  {
    var stamp := MetaBlock(now, p.writtenBy);
    MetaReadsBack(d, stamp);
    var c, r := ContractAfter(d, contract, p, now), DriftAfter(spelled, drift, p, now);
    assert Get(Some(c), Meta) == Some(PrintMeta(stamp)) && Get(Some(r), Meta) == Some(PrintMeta(stamp));
    hide ContractAfter, DriftAfter, KnownWriter, AgentsOf, EffortLevelsOf, NormalizeOverrides, NormalizeMeta, PrintMeta,
         NormalizePrompt, NormalizeThreshold, NormalizePickupPrefix, NormalizeDisplay, NormalizePrepMode, Get;
  }

  lemma LaterMetaIs(dates: Dates, p: Patch, stamp: MetaBlock, contract: MetaBlock, drift: MetaBlock)
    ensures TouchesContract(p) || !TouchesDrift(p) ==>
      (LaterMeta(dates, stamp, if TouchesDrift(p) then stamp else drift) == stamp <==> Surfaces(dates, p, stamp, contract, drift))
    ensures !TouchesContract(p) && TouchesDrift(p) ==>
      (LaterMeta(dates, contract, stamp) == stamp <==> Surfaces(dates, p, stamp, contract, drift))
  {
  }

  /** Whatever file or files a write goes to, its stamp is the one that is read afterwards exactly when it surfaces
      beside the stamp of the file that is not written: a contract write wins a tie, a drift write does not. */
  lemma WriteSurfacesIff(d: Defaults, dates: Dates, spelled: nat -> Key, contract: FileState, drift: FileState, p: Patch, now: string)
    requires KnownWriter(p.writtenBy)
    ensures var stamp := MetaBlock(now, p.writtenBy);
            ReadSettings(d, dates, ContractFileAfter(d, contract, p, now), DriftFileAfter(d, spelled, drift, p, now)).meta == stamp <==>
              Surfaces(dates, p, stamp, Normalize(d, Content(contract)).meta, Normalize(d, Content(drift)).meta)
  {
    hide Normalize, ContractAfter, DriftAfter, KnownWriter, LaterMeta, Surfaces, TouchesContract, TouchesDrift;
    var c, r := Normalize(d, Content(contract)), Normalize(d, Content(drift));
    WrittenMeta(d, spelled, c, r, p, now);
    LaterMetaIs(dates, p, MetaBlock(now, p.writtenBy), c.meta, r.meta);
  }

  /** Rewriting the agents map stamps the contract file. */
  lemma MutateStamps(d: Defaults, contract: FileState, mutator: Roster -> Json, writtenBy: string, now: string)
    requires KnownWriter(writtenBy)
    ensures Normalize(d, Content(MutatedFile(d, contract, mutator, writtenBy, now))).meta == MetaBlock(now, writtenBy)
  {
    hide AgentsOf, EffortLevelsOf, NormalizeOverrides, NormalizePrompt, NormalizeThreshold, KnownWriter, PrintAgents, PrintLevels, WrittenOverrides;
  }
}
