/** JSON values as the settings reader sees them. */
module SettingsJson {
  import opened Values

  /** A property name: those the reader knows, and any other. */
  datatype Key =
    | Overrides | Display | Agents | AgentDefaults | EffortLevels | EffortAssignmentPrompt | SelfRepair | TestIsolation | Meta
    | Slack | IssuePoller | TrelloPoller | DispatchApi | Ideator | AutoTriage | TrelloSync | Enabled
    | UpdatedAt | UpdatedBy | PickupNamePrefix | Threshold | PrepMode | Name | Model | Effort
    | Type | Bio | AvatarPath | Capabilities | Schedule | Broken | Strikes | EffortLevel | CreatedAt | ChangedAt
    | Tz | AlwaysOn | Mon | Tue | Wed | Thu | Fri | Sat | Sun
    | Reason | SuggestedSteps | SetAt | EvaluatorStatus | EvaluatorDispatchId
    | Count | History | DispatchId | IssueId | TerminalStatus | Timestamp | RawError
    | Other(name: string)

  /** `order` is the enumeration order of an object's properties; only the agents map is ever enumerated. */
  datatype Json =
    | Null
    | Bool(value: bool)
    | Num(number: real)
    | Str(text: string)
    | Arr(items: seq<Json>)
    | Obj(fields: map<Key, Json>, order: seq<Key>)

  /** An object read by name only. */
  function Record(fields: map<Key, Json>): Json {
    Obj(fields, [])
  }

  /** `j?.key`: None stands for undefined. */
  function Get(j: Option<Json>, key: Key): Option<Json> {
    if j.Some? && j.value.Obj? && key in j.value.fields then Some(j.value.fields[key]) else None
  }

  function AsString(j: Option<Json>): Option<string> {
    if j.Some? && j.value.Str? then Some(j.value.text) else None
  }

  /** A non-empty string, or nothing. */
  function AsText(j: Option<Json>): Option<string> {
    if j.Some? && j.value.Str? && j.value.text != "" then Some(j.value.text) else None
  }

  /** `j ?? other`. */
  function OrElse(j: Option<Json>, other: Option<Json>): Option<Json> {
    if j.None? || j.value.Null? then other else j
  }
}
