/** The worker pool that runs commands concurrently, every interleaving of it, and what it leaves in the
    store. */
module PushPool {
  import opened Values
  import opened PutCommand
  import opened PushSecrets

  /** A worker is about to claim, has a command in flight, or has returned. */
  datatype Worker = Claiming | InFlight(command: nat) | Returned

  datatype State = State(nextIndex: nat, workers: seq<Worker>, failures: nat, claimed: seq<nat>, ended: seq<nat>, store: Store)

  /** One worker goes on: it claims the next command, or its command ends, well or not; a failed command may
      or may not have written. */
  datatype Step = Claim(worker: nat) | Succeed(worker: nat) | Fail(worker: nat, wrote: bool)

  function Max(a: int, b: int): int { if a > b then a else b }

  function Min(a: int, b: int): int { if a < b then a else b }

  function WorkerCount(limit: int, n: nat): nat {
    Max(1, Min(limit, n))
  }

  function Start(limit: int, n: nat, store: Store): State {
    State(0, seq(WorkerCount(limit, n), _ => Claiming), 0, [], [], store)
  }

  function SetWorker(s: State, w: nat, to: Worker): State
    requires w < |s.workers|
  {
    s.(workers := s.workers[w := to])
  }

  function Next(puts: seq<Put>, s: State, step: Step): State {
    if step.worker >= |s.workers| then s else
      match step
      case Claim(w) =>
        if !s.workers[w].Claiming? then s else
          var i := s.nextIndex;
          if i >= |puts| then SetWorker(s, w, Returned).(nextIndex := i + 1)
          else SetWorker(s, w, InFlight(i)).(nextIndex := i + 1, claimed := s.claimed + [i])
      case Succeed(w) =>
        if !s.workers[w].InFlight? || s.workers[w].command >= |puts| then s else
          var i := s.workers[w].command;
          SetWorker(s, w, Claiming).(ended := s.ended + [i], store := Run(s.store, puts[i]))
      case Fail(w, wrote) =>
        if !s.workers[w].InFlight? || s.workers[w].command >= |puts| then s else
          var i := s.workers[w].command;
          SetWorker(s, w, Claiming).(ended := s.ended + [i], failures := s.failures + 1,
                                     store := if wrote then Run(s.store, puts[i]) else s.store)
  }

  function Exec(puts: seq<Put>, s: State, steps: seq<Step>): State
    decreases |steps|
  {
    if steps == [] then s else Exec(puts, Next(puts, s, steps[0]), steps[1..])
  }

  /** Every worker has returned: the run settles, and throws if anything failed. */
  predicate Settled(s: State) {
    forall w :: 0 <= w < |s.workers| ==> s.workers[w].Returned?
  }

  function Upto(n: nat): seq<nat> {
    seq(n, i requires 0 <= i < n => i)
  }

  predicate Distinct(s: seq<nat>) {
    forall i, j :: 0 <= i < j < |s| ==> s[i] != s[j]
  }

  // ----- Every interleaving -----

  ghost predicate ClaimsInOrder(puts: seq<Put>, s: State) {
    && s.claimed == Upto(Min(s.nextIndex, |puts|))
    && (forall w :: 0 <= w < |s.workers| && s.workers[w].Returned? ==> s.nextIndex >= |puts|)
    && (forall w :: 0 <= w < |s.workers| && s.workers[w].InFlight? ==>
          s.workers[w].command < Min(s.nextIndex, |puts|) && s.workers[w].command !in s.ended)
    && (forall v, w :: 0 <= v < w < |s.workers| && s.workers[v].InFlight? && s.workers[w].InFlight? ==>
          s.workers[v].command != s.workers[w].command)
    && Distinct(s.ended)
    && (forall i :: i in s.ended ==> i < Min(s.nextIndex, |puts|))
    && (forall i :: 0 <= i < Min(s.nextIndex, |puts|) && i !in s.ended ==>
          exists w :: 0 <= w < |s.workers| && s.workers[w] == InFlight(i))
  }

  lemma StartIsOk(puts: seq<Put>, limit: int, store: Store)
    ensures ClaimsInOrder(puts, Start(limit, |puts|, store))
  {
  }

  lemma ClaimKeepsOrder(puts: seq<Put>, s: State, w: nat)
    requires ClaimsInOrder(puts, s)
    ensures ClaimsInOrder(puts, Next(puts, s, Claim(w)))
  {
    if w < |s.workers| && s.workers[w].Claiming? {
      var u := Next(puts, s, Claim(w));
      if s.nextIndex < |puts| { assert Upto(s.nextIndex) + [s.nextIndex] == Upto(s.nextIndex + 1); }
      forall i | 0 <= i < Min(u.nextIndex, |puts|) && i !in u.ended
        ensures exists v :: 0 <= v < |u.workers| && u.workers[v] == InFlight(i)
      {
        if i == s.nextIndex {
          assert u.workers[w] == InFlight(i);
        } else {
          var v :| 0 <= v < |s.workers| && s.workers[v] == InFlight(i);
          assert u.workers[v] == InFlight(i);
        }
      }
    }
  }

  lemma EndKeepsOrder(puts: seq<Put>, s: State, step: Step)
    requires ClaimsInOrder(puts, s) && !step.Claim?
    ensures ClaimsInOrder(puts, Next(puts, s, step))
  {
    var w := step.worker;
    if w < |s.workers| && s.workers[w].InFlight? {
      var u := Next(puts, s, step);
      var done := s.workers[w].command;
      forall i | 0 <= i < Min(u.nextIndex, |puts|) && i !in u.ended
        ensures exists v :: 0 <= v < |u.workers| && u.workers[v] == InFlight(i)
      {
        var v :| 0 <= v < |s.workers| && s.workers[v] == InFlight(i);
        assert v != w && u.workers[v] == InFlight(i);
      }
    }
  }

  lemma {:induction false} RunKeepsOrder(puts: seq<Put>, s: State, steps: seq<Step>)
    requires ClaimsInOrder(puts, s)
    ensures ClaimsInOrder(puts, Exec(puts, s, steps)) && |Exec(puts, s, steps).workers| == |s.workers|
    decreases |steps|
  {
    hide ClaimsInOrder;
    if steps != [] {
      if steps[0].Claim? { ClaimKeepsOrder(puts, s, steps[0].worker); } else { EndKeepsOrder(puts, s, steps[0]); }
      RunKeepsOrder(puts, Next(puts, s, steps[0]), steps[1..]);
    }
  }

  /** At every moment each command has been claimed at most once, in order, none has ended twice, and there are as
      many workers, with one command each, as the limit allows and the commands need, and at least one; when the run settles each has been claimed and has ended exactly
      once. */
  lemma EachClaimedOnce(puts: seq<Put>, limit: int, store: Store, steps: seq<Step>)
    ensures var s := Exec(puts, Start(limit, |puts|, store), steps);
            && s.claimed == Upto(Min(s.nextIndex, |puts|))
            && Distinct(s.ended)
            && |s.workers| == (if limit < 1 || |puts| == 0 then 1 else if limit < |puts| then limit else |puts|)
            && (Settled(s) ==> s.claimed == Upto(|puts|) && forall i :: i in s.ended <==> 0 <= i < |puts|)
  {
    StartIsOk(puts, limit, store);
    RunKeepsOrder(puts, Start(limit, |puts|, store), steps);
    var s := Exec(puts, Start(limit, |puts|, store), steps);
    if Settled(s) {
      assert s.workers[0].Returned?;
    }
  }

  // ----- The store -----

  predicate DistinctPaths(puts: seq<Put>) {
    forall i, j :: 0 <= i < j < |puts| ==> puts[i].name != puts[j].name
  }

  /** The store is the old one with exactly the ended puts applied, in whatever order they ended. */
  ghost predicate StoreIs(puts: seq<Put>, before: Store, ended: seq<nat>, store: Store) {
    && (forall i :: 0 <= i < |puts| && i in ended ==> puts[i].name in store && store[puts[i].name] == CollapseRuns(puts[i].value))
    && (forall path: string :: (forall i :: 0 <= i < |puts| && i in ended ==> puts[i].name != path) ==> SameAt(before, store, path))
  }

  predicate SameAt(a: Store, b: Store, path: string) {
    (path in a <==> path in b) && (path in a ==> a[path] == b[path])
  }

  lemma RunKeepsStore(puts: seq<Put>, before: Store, ended: seq<nat>, store: Store, i: nat)
    requires DistinctPaths(puts) && i < |puts| && StoreIs(puts, before, ended, store)
    ensures StoreIs(puts, before, ended + [i], Run(store, puts[i]))
  {
    var after := Run(store, puts[i]);
    forall j | 0 <= j < |puts| && j in ended + [i]
      ensures puts[j].name in after && after[puts[j].name] == CollapseRuns(puts[j].value)
    {
      if j < i { assert puts[j].name != puts[i].name; }
      if i < j { assert puts[i].name != puts[j].name; }
    }
    forall path: string | forall j :: 0 <= j < |puts| && j in ended + [i] ==> puts[j].name != path
      ensures SameAt(before, after, path)
    {
      assert i in ended + [i];
      assert forall j :: j in ended ==> j in ended + [i];
      assert SameAt(before, store, path);
    }
  }

  predicate NoFailure(steps: seq<Step>) {
    forall k :: 0 <= k < |steps| ==> !steps[k].Fail?
  }

  lemma {:induction false} PoolStore(puts: seq<Put>, before: Store, s: State, steps: seq<Step>)
    requires DistinctPaths(puts) && NoFailure(steps) && StoreIs(puts, before, s.ended, s.store)
    ensures var u := Exec(puts, s, steps); StoreIs(puts, before, u.ended, u.store) && u.failures == s.failures
    decreases |steps|
  {
    if steps != [] {
      var u := Next(puts, s, steps[0]);
      var step := steps[0];
      assert StoreIs(puts, before, u.ended, u.store) by {
        if step.Succeed? && step.worker < |s.workers| && s.workers[step.worker].InFlight? && s.workers[step.worker].command < |puts| {
          RunKeepsStore(puts, before, s.ended, s.store, s.workers[step.worker].command);
        }
      }
      hide StoreIs;
      PoolStore(puts, before, u, steps[1..]);
    }
  }

  /** Running every put, one after the other. */
  function Sequential(store: Store, puts: seq<Put>): Store
    decreases |puts|
  {
    if puts == [] then store else Run(Sequential(store, puts[..|puts| - 1]), puts[|puts| - 1])
  }

  lemma {:induction false} SequentialIs(store: Store, puts: seq<Put>, path: string)
    requires DistinctPaths(puts)
    ensures forall i :: 0 <= i < |puts| && puts[i].name == path ==>
              path in Sequential(store, puts) && Sequential(store, puts)[path] == CollapseRuns(puts[i].value)
    ensures (forall i :: 0 <= i < |puts| ==> puts[i].name != path) ==> SameAt(store, Sequential(store, puts), path)
    decreases |puts|
  {
    if puts != [] {
      var n := |puts| - 1;
      assert DistinctPaths(puts[..n]) by {
        forall i, j | 0 <= i < j < |puts[..n]| ensures puts[..n][i].name != puts[..n][j].name {
          assert puts[i].name != puts[j].name;
        }
      }
      SequentialIs(store, puts[..n], path);
      forall i | 0 <= i < |puts| && puts[i].name == path
        ensures path in Sequential(store, puts) && Sequential(store, puts)[path] == CollapseRuns(puts[i].value)
      {
        if i < n {
          assert puts[..n][i] == puts[i] && puts[i].name != puts[n].name;
        }
      }
      if forall i :: 0 <= i < |puts| ==> puts[i].name != path {
        assert forall i :: 0 <= i < n ==> puts[..n][i] == puts[i];
        assert puts[n].name != path;
      }
    }
  }

  // ----- Filtering loses nothing -----

  /** The reader told the truth, perhaps not all of it. */
  ghost predicate TrueSubset(existing: Store, store: Store) {
    forall path :: path in existing ==> path in store && store[path] == existing[path]
  }

  const BATCH := 10

  /** Names asked for together: at most ten a call. */
  method BuildBatches(paths: seq<string>) returns (batches: seq<seq<string>>)
    ensures Flatten(batches) == paths
    ensures forall b :: b in batches ==> 0 < |b| <= 10
  {
    batches := [];
    var i := 0;
    while i < |paths|
      invariant 0 <= i && Flatten(batches) == paths[..Min(i, |paths|)]
      invariant forall b :: b in batches ==> 0 < |b| <= 10
    {
      var end := Min(i + BATCH, |paths|);
      FlattenSnoc(batches, paths[i..end]);
      batches := batches + [paths[i..end]];
      i := i + BATCH;
    }
    assert paths[..|paths|] == paths;
  }

  function Flatten(batches: seq<seq<string>>): seq<string>
    decreases |batches|
  {
    if batches == [] then [] else Flatten(batches[..|batches| - 1]) + batches[|batches| - 1]
  }

  lemma FlattenSnoc(batches: seq<seq<string>>, batch: seq<string>)
    ensures Flatten(batches + [batch]) == Flatten(batches) + batch
  {
    assert (batches + [batch])[..|batches|] == batches;
  }

  /** The answers in the order in which they arrive; a batch that failed is left out. */
  function Merge(answers: seq<Option<Store>>): Store
    decreases |answers|
  {
    if answers == [] then map[] else
      var n := |answers| - 1;
      if answers[n].Some? then Merge(answers[..n]) + answers[n].value else Merge(answers[..n])
  }

  /** Whatever batches fail and in whatever order the others arrive, what was read is true of the store, and nothing
      that a batch answered is missing. */
  lemma {:induction false} FetchedIsTrueSubset(answers: seq<Option<Store>>, store: Store)
    requires forall k :: 0 <= k < |answers| && answers[k].Some? ==> TrueSubset(answers[k].value, store)
    ensures TrueSubset(Merge(answers), store)
    ensures forall path :: path in Merge(answers) <==> exists k :: 0 <= k < |answers| && answers[k].Some? && path in answers[k].value
    decreases |answers|
  {
    if answers != [] {
      var n := |answers| - 1;
      FetchedIsTrueSubset(answers[..n], store);
      forall path ensures path in Merge(answers) <==> exists k :: 0 <= k < |answers| && answers[k].Some? && path in answers[k].value {
        if k :| 0 <= k < |answers| && answers[k].Some? && path in answers[k].value && k < n { assert answers[..n][k] == answers[k]; }
        if path in Merge(answers[..n]) {
          var k :| 0 <= k < n && answers[..n][k].Some? && path in answers[..n][k].value;
          assert answers[k] == answers[..n][k];
        }
      }
    }
  }

  lemma {:induction false} ChangedAre(existing: Store, puts: seq<Put>, p: Put)
    ensures p in Changed(existing, puts) <==>
            p in puts && !UpToDate(existing, p)
    decreases |puts|
  {
    if puts != [] {
      var n := |puts| - 1;
      ChangedAre(existing, puts[..n], p);
      assert puts == puts[..n] + [puts[n]];
    }
  }

  lemma {:induction false} ChangedDistinct(existing: Store, puts: seq<Put>)
    requires DistinctPaths(puts)
    ensures DistinctPaths(Changed(existing, puts))
    decreases |puts|
  {
    if puts != [] {
      var n := |puts| - 1;
      var rest := Changed(existing, puts[..n]);
      assert forall i :: 0 <= i < n ==> puts[..n][i] == puts[i];
      ChangedDistinct(existing, puts[..n]);
      forall k | 0 <= k < |rest| ensures rest[k].name != puts[n].name {
        ChangedAre(existing, puts[..n], rest[k]);
        var i :| 0 <= i < n && puts[..n][i] == rest[k];
        assert puts[i].name != puts[n].name;
      }
    }
  }

  lemma OutcomeAt(puts: seq<Put>, changed: seq<Put>, existing: Store, before: Store, ended: seq<nat>, after: Store, path: string)
    requires DistinctPaths(puts) && changed == Changed(existing, puts) && DistinctPaths(changed) && TrueSubset(existing, before)
    requires (forall i :: i in ended <==> 0 <= i < |changed|) && StoreIs(changed, before, ended, after)
    ensures SameAt(after, Sequential(before, puts), path)
  {
    SequentialIs(before, puts, path);
    if i :| 0 <= i < |puts| && puts[i].name == path {
      ChangedAre(existing, puts, puts[i]);
      if puts[i] in changed {
        var k :| 0 <= k < |changed| && changed[k] == puts[i];
        assert changed[k].name in after;
      } else {
        forall k | 0 <= k < |changed| ensures changed[k].name != path {
          ChangedAre(existing, puts, changed[k]);
          var j :| 0 <= j < |puts| && puts[j] == changed[k];
          if j < i { assert puts[j].name != puts[i].name; }
          if i < j { assert puts[i].name != puts[j].name; }
        }
        assert SameAt(before, after, path);
      }
    } else {
      forall k | 0 <= k < |changed| ensures changed[k].name != path {
        ChangedAre(existing, puts, changed[k]);
        var j :| 0 <= j < |puts| && puts[j] == changed[k];
      }
      assert SameAt(before, after, path);
    }
  }

  /** Any interleaving of the pool over the filtered puts, when none fails, leaves the store as running every
      put in sequence would; and the run reports no failure. */
  lemma FilteredPoolEqualsSequentialPush(puts: seq<Put>, existing: Store, before: Store, limit: int, steps: seq<Step>)
    requires DistinctPaths(puts) && TrueSubset(existing, before) && NoFailure(steps)
    requires Settled(Exec(Changed(existing, puts), Start(limit, |Changed(existing, puts)|, before), steps))
    ensures var s := Exec(Changed(existing, puts), Start(limit, |Changed(existing, puts)|, before), steps);
            s.store == Sequential(before, puts) && s.failures == 0
  {
    var changed := Changed(existing, puts);
    var start := Start(limit, |changed|, before);
    ChangedDistinct(existing, puts);
    PoolStore(changed, before, start, steps);
    EachClaimedOnce(changed, limit, before, steps);
    var s := Exec(changed, start, steps);
    var expected := Sequential(before, puts);
    forall path: string ensures SameAt(s.store, expected, path) {
      OutcomeAt(puts, changed, existing, before, s.ended, s.store, path);
    }
    SameEverywhere(s.store, expected);
  }

  lemma SameEverywhere(a: Store, b: Store)
    requires forall path: string :: SameAt(a, b, path)
    ensures a == b
  {
    forall path: string ensures path in a <==> path in b { assert SameAt(a, b, path); }
    forall path | path in a ensures a[path] == b[path] { assert SameAt(a, b, path); }
  }

  // ----- How a run goes on, and what failures leave -----

  /** The step moves its worker: one that is free claims, one with a command in flight ends it. */
  predicate Moves(s: State, step: Step) {
    step.worker < |s.workers| && if step.Claim? then s.workers[step.worker].Claiming? else s.workers[step.worker].InFlight?
  }

  predicate MovingRun(puts: seq<Put>, s: State, steps: seq<Step>)
    decreases |steps|
  {
    steps != [] ==> Moves(s, steps[0]) && MovingRun(puts, Next(puts, s, steps[0]), steps[1..])
  }

  /** What the workers still have to do: return, or end a command and return. */
  function Pending(workers: seq<Worker>): nat
    decreases |workers|
  {
    if workers == [] then 0 else
      var last := workers[|workers| - 1];
      Pending(workers[..|workers| - 1]) + (if last.Returned? then 0 else if last.Claiming? then 1 else 2)
  }

  function Left(puts: seq<Put>, s: State): nat {
    Pending(s.workers) + if s.nextIndex < |puts| then 2 * (|puts| - s.nextIndex) else 0
  }

  lemma {:induction false} PendingAfter(workers: seq<Worker>, w: nat, to: Worker)
    requires w < |workers|
    ensures var weight := (x: Worker) => if x.Returned? then 0 else if x.Claiming? then 1 else 2;
      Pending(workers[w := to]) == Pending(workers) - weight(workers[w]) + weight(to)
    decreases |workers|
  {
    var n := |workers| - 1;
    if w < n {
      PendingAfter(workers[..n], w, to);
      assert workers[w := to][..n] == workers[..n][w := to];
    } else {
      assert workers[w := to][..n] == workers[..n];
    }
  }

  lemma {:induction false} NothingPendingIff(workers: seq<Worker>)
    ensures Pending(workers) == 0 <==> forall w :: 0 <= w < |workers| ==> workers[w].Returned?
    decreases |workers|
  {
    if workers != [] { NothingPendingIff(workers[..|workers| - 1]); }
  }

  lemma {:induction false} PendingAtStart(workers: seq<Worker>)
    requires forall w :: 0 <= w < |workers| ==> workers[w].Claiming?
    ensures Pending(workers) == |workers|
    decreases |workers|
  {
    if workers != [] { PendingAtStart(workers[..|workers| - 1]); }
  }

  lemma MoveBringsNearer(puts: seq<Put>, s: State, step: Step)
    requires ClaimsInOrder(puts, s) && Moves(s, step)
    ensures Left(puts, Next(puts, s, step)) == Left(puts, s) - 1
  {
    hide ClaimsInOrder, Pending;
    var w := step.worker;
    if s.workers[w].InFlight? { InFlightIsThere(puts, s, w); }
    PendingAfter(s.workers, w, Next(puts, s, step).workers[w]);
  }

  lemma InFlightIsThere(puts: seq<Put>, s: State, w: nat)
    requires ClaimsInOrder(puts, s) && w < |s.workers| && s.workers[w].InFlight?
    ensures s.workers[w].command < |puts|
  {
  }

  lemma {:induction false} RunBringsNearer(puts: seq<Put>, s: State, steps: seq<Step>)
    requires ClaimsInOrder(puts, s) && MovingRun(puts, s, steps)
    ensures Left(puts, Exec(puts, s, steps)) == Left(puts, s) - |steps|
    decreases |steps|
  {
    hide ClaimsInOrder, Left, Next, Moves;
    if steps != [] {
      MoveBringsNearer(puts, s, steps[0]);
      if steps[0].Claim? { ClaimKeepsOrder(puts, s, steps[0].worker); } else { EndKeepsOrder(puts, s, steps[0]); }
      RunBringsNearer(puts, Next(puts, s, steps[0]), steps[1..]);
    }
  }

  /** Every run moves on until it settles, whatever fails: at any moment that is not settled some worker can move, and a run
      has settled exactly after two moves for each command and one for each worker. */
  lemma RunsSettle(puts: seq<Put>, limit: int, store: Store, steps: seq<Step>)
    requires MovingRun(puts, Start(limit, |puts|, store), steps)
    ensures var s := Exec(puts, Start(limit, |puts|, store), steps);
            && (Settled(s) <==> |steps| == 2 * |puts| + |s.workers|)
            && (!Settled(s) ==> exists w :: 0 <= w < |s.workers| && (Moves(s, Claim(w)) || (Moves(s, Succeed(w)) && Moves(s, Fail(w, true)))))
  {
    var start := Start(limit, |puts|, store);
    StartIsOk(puts, limit, store);
    RunKeepsOrder(puts, start, steps);
    RunBringsNearer(puts, start, steps);
    PendingAtStart(start.workers);
    var s := Exec(puts, start, steps);
    NothingPendingIff(s.workers);
    hide Exec, Pending;
    if Settled(s) { assert s.workers[0].Returned?; }
    if w :| 0 <= w < |s.workers| && !s.workers[w].Returned? { assert Moves(s, Claim(w)) || (Moves(s, Succeed(w)) && Moves(s, Fail(w, true))); }
  }

  /** The commands that have written, in the order in which they ended. */
  function Wrote(puts: seq<Put>, s: State, steps: seq<Step>): seq<nat>
    decreases |steps|
  {
    if steps == [] then [] else
      var step := steps[0];
      (if Moves(s, step) && (step.Succeed? || (step.Fail? && step.wrote)) then [s.workers[step.worker].command] else [])
      + Wrote(puts, Next(puts, s, step), steps[1..])
  }

  /** How many commands have failed. */
  function Failed(puts: seq<Put>, s: State, steps: seq<Step>): nat
    decreases |steps|
  {
    if steps == [] then 0 else
      (if Moves(s, steps[0]) && steps[0].Fail? then 1 else 0) + Failed(puts, Next(puts, s, steps[0]), steps[1..])
  }

  lemma StepWrites(puts: seq<Put>, before: Store, s: State, step: Step, earlier: seq<nat>)
    requires DistinctPaths(puts) && ClaimsInOrder(puts, s) && StoreIs(puts, before, earlier, s.store)
    ensures var u := Next(puts, s, step);
            var wrote := Moves(s, step) && (step.Succeed? || (step.Fail? && step.wrote));
            && StoreIs(puts, before, earlier + (if wrote then [s.workers[step.worker].command] else []), u.store)
            && u.failures == s.failures + (if Moves(s, step) && step.Fail? then 1 else 0)
  {
    if step.worker < |s.workers| && s.workers[step.worker].InFlight? {
      InFlightIsThere(puts, s, step.worker);
      RunKeepsStore(puts, before, earlier, s.store, s.workers[step.worker].command);
    }
    assert earlier + [] == earlier;
    hide StoreIs, ClaimsInOrder, DistinctPaths;
  }

  lemma {:induction false} RunWrites(puts: seq<Put>, before: Store, s: State, steps: seq<Step>, earlier: seq<nat>)
    requires DistinctPaths(puts) && ClaimsInOrder(puts, s) && StoreIs(puts, before, earlier, s.store)
    ensures var u := Exec(puts, s, steps);
            && StoreIs(puts, before, earlier + Wrote(puts, s, steps), u.store) && u.failures == s.failures + Failed(puts, s, steps)
    decreases |steps|
  {
    hide StoreIs, ClaimsInOrder, DistinctPaths, Next, Moves;
    if steps == [] {
      assert earlier + [] == earlier;
    } else {
      var step := steps[0];
      var now := if Moves(s, step) && (step.Succeed? || (step.Fail? && step.wrote)) then [CommandOf(s, step)] else [];
      StepWrites(puts, before, s, step, earlier);
      if step.Claim? { ClaimKeepsOrder(puts, s, step.worker); } else { EndKeepsOrder(puts, s, step); }
      MovedCommand(s, step);
      RunWrites(puts, before, Next(puts, s, step), steps[1..], earlier + now);
      assert earlier + now + Wrote(puts, Next(puts, s, step), steps[1..]) == earlier + (now + Wrote(puts, Next(puts, s, step), steps[1..]));
    }
  }

  function CommandOf(s: State, step: Step): nat {
    if step.worker < |s.workers| && s.workers[step.worker].InFlight? then s.workers[step.worker].command else 0
  }

  lemma MovedCommand(s: State, step: Step)
    ensures Moves(s, step) && !step.Claim? ==> s.workers[step.worker].command == CommandOf(s, step)
  {
  }

  /** Whatever fails, at every moment: the store is the old one with exactly the puts applied that have written, and every
      failure has been counted. */
  lemma FailuresLeave(puts: seq<Put>, limit: int, before: Store, steps: seq<Step>)
    requires DistinctPaths(puts)
    ensures var start := Start(limit, |puts|, before);
            var s := Exec(puts, start, steps);
            StoreIs(puts, before, Wrote(puts, start, steps), s.store) && s.failures == Failed(puts, start, steps)
  {
    var start := Start(limit, |puts|, before);
    StartIsOk(puts, limit, before);
    RunWrites(puts, before, start, steps, []);
    assert [] + Wrote(puts, start, steps) == Wrote(puts, start, steps);
  }
}
