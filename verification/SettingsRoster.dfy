/** The agents map: read with a cap of five, and merged with a patch by name. */
module SettingsRoster {
  import opened Values
  import opened SettingsJson
  import opened SettingsAgents

  datatype Named = Named(name: Key, record: AgentRecord)

  type Roster = seq<Named>

  function Find(roster: Roster, name: Key): Option<AgentRecord> {
    if roster == [] then None else if roster[0].name == name then Some(roster[0].record) else Find(roster[1..], name)
  }

  /** The record under a name, if the name is well formed and the record can be read. */
  function ReadAt(host: Host, fields: map<Key, Json>, name: Key): Option<AgentRecord> {
    if name in fields && IsAgentName(host.spelling(name)) then NormalizeOneAgent(host, fields[name]) else None
  }

  /** The entries of `order` in turn, until five are taken. */
  function Take(host: Host, fields: map<Key, Json>, order: seq<Key>, taken: Roster): Roster
    decreases |order|
  {
    if order == [] || |taken| >= AGENTS_MAX then taken
    else if Find(taken, order[0]).Some? || ReadAt(host, fields, order[0]).None? then Take(host, fields, order[1..], taken)
    else Take(host, fields, order[1..], taken + [Named(order[0], ReadAt(host, fields, order[0]).value)])
  }

  function AgentsOf(host: Host, raw: Option<Json>): Roster {
    if raw.None? || !raw.value.Obj? then [] else Take(host, raw.value.fields, raw.value.order, [])
  }

  method NormalizeAgents(host: Host, raw: Option<Json>) returns (agents: Roster)
    ensures agents == AgentsOf(host, raw)
  {
    agents := [];
    if raw.None? || !raw.value.Obj? { return; }
    var fields, order := raw.value.fields, raw.value.order;
    for k := 0 to |order|
      invariant Take(host, fields, order[k..], agents) == Take(host, fields, order, [])
    {
      if |agents| >= AGENTS_MAX { return; }
      assert order[k..][1..] == order[k + 1..];
      var record := ReadAt(host, fields, order[k]);
      if Find(agents, order[k]).None? && record.Some? {
        agents := agents + [Named(order[k], record.value)];
      }
    }
  }

  // ----- Writing -----

  function FieldsOf(roster: Roster): map<Key, Json>
    decreases |roster|
  {
    if roster == [] then map[] else
      var n := |roster| - 1;
      FieldsOf(roster[..n])[roster[n].name := PrintAgent(roster[n].record)]
  }

  function NamesOf(roster: Roster): seq<Key> {
    seq(|roster|, i requires 0 <= i < |roster| => roster[i].name)
  }

  function PrintAgents(roster: Roster): Json {
    Obj(FieldsOf(roster), NamesOf(roster))
  }

  /** The names of a patch that the roster does not have. */
  function NewNames(roster: Roster, order: seq<Key>): seq<Key> {
    if order == [] then [] else (if Find(roster, order[0]).Some? then [] else [order[0]]) + NewNames(roster, order[1..])
  }

  /** `{...existing, ...patch}`: known names keep their place, new ones follow. */
  function Spread(roster: Roster, patch: Json): Json
    requires patch.Obj?
  {
    Obj(FieldsOf(roster) + patch.fields, NamesOf(roster) + NewNames(roster, patch.order))
  }

  // ----- What is read -----

  predicate DistinctNames(roster: Roster) {
    forall i, j :: 0 <= i < j < |roster| ==> roster[i].name != roster[j].name
  }

  /** What every roster that was read satisfies. */
  predicate CanonicalRoster(host: Host, roster: Roster) {
    && |roster| <= AGENTS_MAX && DistinctNames(roster)
    && forall i :: 0 <= i < |roster| ==> IsAgentName(host.spelling(roster[i].name)) && CanonicalAgent(host, roster[i].record)
  }

  lemma {:induction false} FoundIsThere(roster: Roster, name: Key)
    ensures Find(roster, name).Some? <==> exists i :: 0 <= i < |roster| && roster[i].name == name
    ensures Find(roster, name).Some? ==> exists i :: 0 <= i < |roster| && roster[i] == Named(name, Find(roster, name).value)
  {
    if roster != [] {
      FoundIsThere(roster[1..], name);
      if i :| 0 <= i < |roster[1..]| && roster[1..][i].name == name { assert roster[i + 1] == roster[1..][i]; }
      if Find(roster[1..], name).Some? && roster[0].name != name {
        var i :| 0 <= i < |roster[1..]| && roster[1..][i] == Named(name, Find(roster[1..], name).value);
        assert roster[i + 1] == roster[1..][i];
      }
    }
  }

  lemma {:induction false} FindAt(roster: Roster, i: nat)
    requires DistinctNames(roster) && i < |roster|
    ensures Find(roster, roster[i].name) == Some(roster[i].record)
  {
    if i > 0 {
      assert roster[0].name != roster[i].name;
      assert DistinctNames(roster[1..]);
      FindAt(roster[1..], i - 1);
    }
  }

  lemma {:induction false} FindInLonger(roster: Roster, last: Named, name: Key)
    ensures Find(roster + [last], name) ==
            if Find(roster, name).Some? then Find(roster, name) else if last.name == name then Some(last.record) else None
  {
    if roster != [] {
      assert (roster + [last])[1..] == roster[1..] + [last];
      FindInLonger(roster[1..], last, name);
    }
  }

  lemma CanonicalGrows(host: Host, roster: Roster, last: Named)
    requires CanonicalRoster(host, roster) && |roster| < AGENTS_MAX && forall i :: 0 <= i < |roster| ==> roster[i].name != last.name
    requires IsAgentName(host.spelling(last.name)) && CanonicalAgent(host, last.record)
    ensures CanonicalRoster(host, roster + [last])
  {
    hide CanonicalAgent, IsAgentName;
  }

  lemma TakeOneIsCanonical(host: Host, fields: map<Key, Json>, name: Key, taken: Roster)
    requires CanonicalRoster(host, taken) && |taken| < AGENTS_MAX && Find(taken, name).None? && ReadAt(host, fields, name).Some?
    ensures CanonicalRoster(host, taken + [Named(name, ReadAt(host, fields, name).value)])
  {
    FoundIsThere(taken, name);
    AgentIsCanonical(host, fields[name]);
    hide CanonicalAgent, CanonicalRoster, NormalizeOneAgent, IsAgentName, Find;
    CanonicalGrows(host, taken, Named(name, ReadAt(host, fields, name).value));
  }

  lemma {:induction false} TakeIsCanonical(host: Host, fields: map<Key, Json>, order: seq<Key>, taken: Roster)
    requires CanonicalRoster(host, taken)
    ensures CanonicalRoster(host, Take(host, fields, order, taken))
    decreases |order|
  {
    hide ReadAt, CanonicalRoster;
    if order == [] || |taken| >= AGENTS_MAX {
    } else if Find(taken, order[0]).Some? || ReadAt(host, fields, order[0]).None? {
      TakeIsCanonical(host, fields, order[1..], taken);
    } else {
      TakeOneIsCanonical(host, fields, order[0], taken);
      TakeIsCanonical(host, fields, order[1..], taken + [Named(order[0], ReadAt(host, fields, order[0]).value)]);
    }
  }

  lemma AgentsAreCanonical(host: Host, raw: Option<Json>)
    ensures CanonicalRoster(host, AgentsOf(host, raw))
  {
    if raw.Some? && raw.value.Obj? { TakeIsCanonical(host, raw.value.fields, raw.value.order, []); }
  }

  /** What a name gets is its own record. */
  lemma {:induction false} TakeFinds(host: Host, fields: map<Key, Json>, order: seq<Key>, taken: Roster, name: Key)
    ensures var r := Take(host, fields, order, taken);
            && (Find(taken, name).Some? ==> Find(r, name) == Find(taken, name))
            && (Find(taken, name).None? && Find(r, name).Some? ==> name in order && Find(r, name) == ReadAt(host, fields, name))
    decreases |order|
  {
    hide ReadAt, Find;
    if order == [] || |taken| >= AGENTS_MAX {
    } else if Find(taken, order[0]).Some? || ReadAt(host, fields, order[0]).None? {
      TakeFinds(host, fields, order[1..], taken, name);
    } else {
      var next := Named(order[0], ReadAt(host, fields, order[0]).value);
      FindInLonger(taken, next, name);
      TakeFinds(host, fields, order[1..], taken + [next], name);
    }
  }

  /** A readable name is left out only when the roster is full. */
  lemma {:induction false} LeftOutOnlyWhenFull(host: Host, fields: map<Key, Json>, order: seq<Key>, taken: Roster, name: Key)
    requires name in order && ReadAt(host, fields, name).Some?
    ensures var r := Take(host, fields, order, taken); Find(r, name).None? ==> |r| >= AGENTS_MAX
    decreases |order|
  {
    hide ReadAt, Find;
    if |taken| < AGENTS_MAX {
      var skipped := Find(taken, order[0]).Some? || ReadAt(host, fields, order[0]).None?;
      var next := if skipped then taken else taken + [Named(order[0], ReadAt(host, fields, order[0]).value)];
      if !skipped { FindInLonger(taken, Named(order[0], ReadAt(host, fields, order[0]).value), name); }
      if order[0] == name {
        TakeFinds(host, fields, order[1..], next, name);
      } else {
        LeftOutOnlyWhenFull(host, fields, order[1..], next, name);
      }
    }
  }

  /** A name that comes early enough is never cut off by the cap. */
  lemma {:induction false} EarlyIsTaken(host: Host, fields: map<Key, Json>, order: seq<Key>, taken: Roster, i: nat)
    requires i < |order| && |taken| + i < AGENTS_MAX && Find(taken, order[i]).None?
    ensures Find(Take(host, fields, order, taken), order[i]) == ReadAt(host, fields, order[i])
    decreases |order|
  {
    hide ReadAt;
    var name := order[i];
    var skipped := Find(taken, order[0]).Some? || ReadAt(host, fields, order[0]).None?;
    var next := if skipped then taken else taken + [Named(order[0], ReadAt(host, fields, order[0]).value)];
    if !skipped { FindInLonger(taken, Named(order[0], ReadAt(host, fields, order[0]).value), name); }
    if i > 0 && Find(next, name).None? {
      assert order[1..][i - 1] == name;
      EarlyIsTaken(host, fields, order[1..], next, i - 1);
    } else {
      TakeFinds(host, fields, order[1..], next, name);
    }
  }

  lemma {:induction false} FieldsAre(roster: Roster, name: Key)
    requires DistinctNames(roster)
    ensures name in FieldsOf(roster) <==> Find(roster, name).Some?
    ensures Find(roster, name).Some? ==> FieldsOf(roster)[name] == PrintAgent(Find(roster, name).value)
    decreases |roster|
  {
    hide PrintAgent;
    if roster != [] {
      var n := |roster| - 1;
      assert DistinctNames(roster[..n]);
      assert roster == roster[..n] + [roster[n]];
      FieldsAre(roster[..n], name);
      FindInLonger(roster[..n], roster[n], name);
      FoundIsThere(roster[..n], name);
    }
  }

  /** The merge of a patch into the agents on disk, name by name: agents the patch does not name survive
      unchanged even at the cap; agents it names become what the patch says, or go if it cannot be read; new
      ones are added as long as there is room; nothing else appears. */
  lemma MergedAgents(host: Host, existing: Roster, patch: Json, name: Key)
    requires CanonicalRoster(host, existing) && patch.Obj? && (forall k :: k in patch.fields <==> k in patch.order)
    ensures var merged := AgentsOf(host, Some(Spread(existing, patch)));
            && (name !in patch.fields ==> Find(merged, name) == Find(existing, name))
            && (name in patch.fields && Find(existing, name).Some? ==> Find(merged, name) == ReadAt(host, patch.fields, name))
            && (name in patch.fields && Find(existing, name).None? ==>
                  Find(merged, name) == ReadAt(host, patch.fields, name) || (Find(merged, name).None? && |merged| == AGENTS_MAX))
            && |merged| <= AGENTS_MAX
  {
    hide CanonicalAgent, NormalizeOneAgent, IsAgentName, PrintAgent;
    var whole := Spread(existing, patch);
    FieldsAre(existing, name);
    FoundIsThere(existing, name);
    NewNamesAre(existing, patch.order, name);
    TakeFinds(host, whole.fields, whole.order, [], name);
    if name in whole.order && ReadAt(host, whole.fields, name).Some? { LeftOutOnlyWhenFull(host, whole.fields, whole.order, [], name); }
    AgentsAreCanonical(host, Some(whole));
    if Find(existing, name).Some? {
      var i :| 0 <= i < |existing| && existing[i] == Named(name, Find(existing, name).value);
      assert whole.order[i] == name;
      EarlyIsTaken(host, whole.fields, whole.order, [], i);
      AgentReadsBack(host, existing[i].record);
    }
  }

  lemma {:induction false} NewNamesAre(roster: Roster, order: seq<Key>, name: Key)
    ensures name in NewNames(roster, order) <==> name in order && Find(roster, name).None?
  {
    if order != [] { NewNamesAre(roster, order[1..], name); }
  }

  lemma {:induction false} TakeRest(host: Host, roster: Roster, i: nat)
    requires CanonicalRoster(host, roster) && i <= |roster|
    ensures Take(host, FieldsOf(roster), NamesOf(roster)[i..], roster[..i]) == roster
    decreases |roster| - i
  {
    hide CanonicalAgent, NormalizeOneAgent, IsAgentName, PrintAgent;
    if i == |roster| {
      assert roster[..i] == roster;
    } else {
      var name := roster[i].name;
      assert NamesOf(roster)[i..][0] == name && NamesOf(roster)[i..][1..] == NamesOf(roster)[i + 1..];
      FieldsAre(roster, name);
      FindAt(roster, i);
      FoundIsThere(roster[..i], name);
      AgentReadsBack(host, roster[i].record);
      assert ReadAt(host, FieldsOf(roster), name) == Some(roster[i].record);
      assert roster[..i] + [roster[i]] == roster[..i + 1];
      TakeRest(host, roster, i + 1);
    }
  }

  /** Agents that were read are read back unchanged from what is written for them. */
  lemma RosterReadsBack(host: Host, roster: Roster)
    requires CanonicalRoster(host, roster)
    ensures AgentsOf(host, Some(PrintAgents(roster))) == roster
  {
    TakeRest(host, roster, 0);
    assert NamesOf(roster)[0..] == NamesOf(roster) && roster[..0] == [];
  }
}
