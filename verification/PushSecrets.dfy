/** Pushing secrets: the diff filter and the worker pool, against running every put in sequence. */
module PushSecrets {
  import opened ShellText
  import opened PutCommand

  datatype Put = Put(profile: string, region: string, name: string, value: string)

  predicate OkPut(p: Put) {
    PlainOptions(p.profile, p.region, p.name)
  }

  function Text(p: Put): string {
    PutCommandText(p.profile, p.region, p.name, p.value)
  }

  type Store = map<string, string>

  /** What the store holds after `aws` ran with the arguments that the shell handed to it. */
  function Run(store: Store, p: Put): Store {
    store[p.name := CollapseRuns(p.value)]
  }

  /** The store is changed as the shell's reading of the command says: its name and value arguments. */
  lemma RunFollowsTheShell(store: Store, p: Put)
    requires OkPut(p)
    ensures ShellWords(Text(p)).Some?
    ensures var argv := ShellWords(Text(p)).value;
            && |argv| >= 11 && argv[|argv| - 2] == "--value" && argv[|argv| - 11] == "--name"
            && Run(store, p) == store[argv[|argv| - 10] := argv[|argv| - 1]]
  {
    ShellReadsPutCommand(p.profile, p.region, p.name, p.value);
  }

  function Texts(puts: seq<Put>): seq<string> {
    seq(|puts|, i requires 0 <= i < |puts| => Text(puts[i]))
  }

  // ----- The filter -----

  /** A command worth running: it cannot be taken apart, or its value is not what the store holds. */
  predicate WorthRunning(existing: Store, cmd: string) {
    var parsed := ParsePutParameterCommand(cmd);
    parsed.None? || parsed.value.path !in existing || existing[parsed.value.path] != parsed.value.value
  }

  function Filtered(existing: Store, cmds: seq<string>): seq<string>
    decreases |cmds|
  {
    if cmds == [] then [] else
      var n := |cmds| - 1;
      Filtered(existing, cmds[..n]) + (if WorthRunning(existing, cmds[n]) then [cmds[n]] else [])
  }

  /** The paths of the commands that are not worth running, in command order. */
  function SkippedPaths(existing: Store, cmds: seq<string>): seq<string>
    decreases |cmds|
  {
    if cmds == [] then [] else
      var n := |cmds| - 1;
      SkippedPaths(existing, cmds[..n]) +
      (if WorthRunning(existing, cmds[n]) then [] else [ParsePutParameterCommand(cmds[n]).value.path])
  }

  method FilterUnchangedPuts(cmds: seq<string>, existing: Store) returns (toPush: seq<string>, skipped: seq<string>)
    ensures toPush == Filtered(existing, cmds)
    ensures skipped == SkippedPaths(existing, cmds)
    ensures |toPush| + |skipped| == |cmds|
    ensures forall path :: path in skipped ==> path in existing
  {
    toPush, skipped := [], [];
    for k := 0 to |cmds|
      invariant toPush == Filtered(existing, cmds[..k]) && skipped == SkippedPaths(existing, cmds[..k])
      invariant |toPush| + |skipped| == k
      invariant forall path :: path in skipped ==> path in existing
    {
      assert cmds[..k + 1][..k] == cmds[..k];
      var parsed := ParsePutParameterCommand(cmds[k]);
      if parsed.None? {
        toPush := toPush + [cmds[k]];
      } else if parsed.value.path in existing && existing[parsed.value.path] == parsed.value.value {
        skipped := skipped + [parsed.value.path];
      } else {
        toPush := toPush + [cmds[k]];
      }
    }
    assert cmds[..|cmds|] == cmds;
  }

  /** The store holds the value that the put would store. */
  predicate UpToDate(existing: Store, p: Put) {
    p.name in existing && existing[p.name] == CollapseRuns(p.value)
  }

  /** The puts whose commands the filter keeps, and the names of the others. */
  function Changed(existing: Store, puts: seq<Put>): seq<Put>
    decreases |puts|
  {
    if puts == [] then [] else
      var n := |puts| - 1;
      Changed(existing, puts[..n]) + (if UpToDate(existing, puts[n]) then [] else [puts[n]])
  }

  function UnchangedNames(existing: Store, puts: seq<Put>): seq<string>
    decreases |puts|
  {
    if puts == [] then [] else
      var n := |puts| - 1;
      UnchangedNames(existing, puts[..n]) + (if UpToDate(existing, puts[n]) then [puts[n].name] else [])
  }

  /** On built commands the filter keeps the commands of exactly the changed puts and skips the names of exactly
      the others, both in order. */
  lemma {:induction false} FilteredAreChanged(existing: Store, puts: seq<Put>)
    requires forall i :: 0 <= i < |puts| ==> OkPut(puts[i])
    ensures Filtered(existing, Texts(puts)) == Texts(Changed(existing, puts))
    ensures SkippedPaths(existing, Texts(puts)) == UnchangedNames(existing, puts)
    decreases |puts|
  {
    if puts != [] {
      var n := |puts| - 1;
      var p := puts[n];
      FilteredAreChanged(existing, puts[..n]);
      assert Texts(puts)[..n] == Texts(puts[..n]);
      ParseInvertsBuild(p.profile, p.region, p.name, p.value);
      assert WorthRunning(existing, Text(p)) <==> !UpToDate(existing, p);
    }
  }
}
