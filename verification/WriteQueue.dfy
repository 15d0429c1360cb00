/** Writers of one file: a promise chain within each process, and an exclusively created lock file between
    processes. */
module WriteQueue {
  import opened Values

  /** A queued write: `prev` is the write it was chained on, if the map held one. */
  datatype Phase = Waiting | Running | Settled(ok: bool)

  datatype Write = Write(prev: Option<nat>, phase: Phase)

  /** `entry` is the map's entry for the path: the last write enqueued, until its clean-up. `started` lists
      the writes in the order in which their bodies began. */
  datatype Queue = Queue(writes: seq<Write>, entry: Option<nat>, started: seq<nat>)

  const EMPTY := Queue([], None, [])

  function Enqueued(q: Queue): Queue {
    q.(writes := q.writes + [Write(q.entry, Waiting)], entry := Some(|q.writes|))
  }

  /** The promise a write was chained on has settled, fulfilled or not. */
  predicate Ready(q: Queue, t: nat) {
    && t < |q.writes| && q.writes[t].phase.Waiting?
    && (q.writes[t].prev.Some? ==> q.writes[t].prev.value < |q.writes| && q.writes[q.writes[t].prev.value].phase.Settled?)
  }

  function Started(q: Queue, t: nat): Queue
    requires Ready(q, t)
  {
    q.(writes := q.writes[t := q.writes[t].(phase := Running)], started := q.started + [t])
  }

  function Ended(q: Queue, t: nat, ok: bool): Queue
    requires t < |q.writes| && q.writes[t].phase.Running?
  {
    q.(writes := q.writes[t := q.writes[t].(phase := Settled(ok))])
  }

  /** The finally callback: remove the entry only if it is still this write. */
  function CleanedUp(q: Queue, t: nat): Queue
    requires t < |q.writes| && q.writes[t].phase.Settled?
  {
    if q.entry == Some(t) then q.(entry := None) else q
  }

  /** Started writes come before waiting ones, one at a time, and each waits for all before it. */
  ghost predicate Orderly(q: Queue) {
    && (forall i, j :: 0 <= i < j < |q.writes| && !q.writes[j].phase.Waiting? ==> q.writes[i].phase.Settled?)
    && (forall j :: 0 <= j < |q.writes| && q.writes[j].prev.Some? ==> q.writes[j].prev.value == j - 1)
    && (forall i, j :: 0 <= i < j < |q.writes| && q.writes[j].prev.None? ==> q.writes[i].phase.Settled?)
    && (q.entry.Some? ==> q.entry.value == |q.writes| - 1)
    && (q.entry.None? ==> forall i :: 0 <= i < |q.writes| ==> q.writes[i].phase.Settled?)
    && |q.started| <= |q.writes| && (forall k :: 0 <= k < |q.started| ==> q.started[k] == k && !q.writes[k].phase.Waiting?)
    && (forall i :: |q.started| <= i < |q.writes| ==> q.writes[i].phase.Waiting?)
  }

  lemma EnqueuedIsOrderly(q: Queue)
    requires Orderly(q)
    ensures Orderly(Enqueued(q))
  {
  }

  lemma StartedIsOrderly(q: Queue, t: nat)
    requires Orderly(q) && Ready(q, t)
    ensures Orderly(Started(q, t)) && t == |q.started|
  {
    assert t == |q.started|;
    var u := Started(q, t);
    forall i | 0 <= i < t ensures u.writes[i].phase.Settled? {
      if q.writes[t].prev.Some? && i < t - 1 { assert !q.writes[t - 1].phase.Waiting?; }
    }
  }

  lemma EndedIsOrderly(q: Queue, t: nat, ok: bool)
    requires Orderly(q) && t < |q.writes| && q.writes[t].phase.Running?
    ensures Orderly(Ended(q, t, ok))
  {
  }

  lemma CleanedUpIsOrderly(q: Queue, t: nat)
    requires Orderly(q) && t < |q.writes| && q.writes[t].phase.Settled?
    ensures Orderly(CleanedUp(q, t))
  {
    if q.entry == Some(t) {
      forall i | 0 <= i < |q.writes| ensures q.writes[i].phase.Settled? {
        if i < t { assert !q.writes[t].phase.Waiting?; }
      }
    }
  }

  /** The map entry and the chain behind it, as the queueing code updates them. */
  class PathQueue {
    var writes: seq<Write>
    var entry: Option<nat>
    var started: seq<nat>

    function View(): Queue
      reads this
    {
      Queue(writes, entry, started)
    }

    constructor ()
      ensures View() == EMPTY
    {
      writes, entry, started := [], None, [];
    }

    method EnqueueWrite() returns (next: nat)
      requires Orderly(View())
      modifies this
      ensures View() == Enqueued(old(View())) && Orderly(View()) && next == old(|writes|)
    {
      EnqueuedIsOrderly(View());
      var prev := entry;
      next := |writes|;
      writes := writes + [Write(prev, Waiting)];
      entry := Some(next);
    }

    method RunBody(t: nat)
      requires Orderly(View()) && Ready(View(), t)
      modifies this
      ensures View() == Started(old(View()), t) && Orderly(View())
    {
      StartedIsOrderly(View(), t);
      writes := writes[t := writes[t].(phase := Running)];
      started := started + [t];
    }

    method Settle(t: nat, ok: bool)
      requires Orderly(View()) && t < |writes| && writes[t].phase.Running?
      modifies this
      ensures View() == Ended(old(View()), t, ok) && Orderly(View())
    {
      EndedIsOrderly(View(), t, ok);
      writes := writes[t := writes[t].(phase := Settled(ok))];
    }

    method Finally(t: nat)
      requires Orderly(View()) && t < |writes| && writes[t].phase.Settled?
      modifies this
      ensures View() == CleanedUp(old(View()), t) && Orderly(View())
    {
      CleanedUpIsOrderly(View(), t);
      if entry == Some(t) {
        entry := None;
      }
    }
  }

  // ----- Several processes and the lock file -----

  const LOCK_STALE_MS := 30_000

  /** Where the running write of a process is: outside the lock, trying to create it, having found it stale
      and about to unlink it, or inside. A process may die anywhere, and leaves its lock file behind. */
  datatype At = Outside | Trying | Unlinking | Holding | Dead

  datatype Process = Process(queue: Queue, at: At)

  /** `lock` is the lock file: when it was created, and by which process; nobody reads the latter. */
  datatype Lock = Lock(since: int, owner: nat)

  datatype State = State(processes: seq<Process>, lock: Option<Lock>, now: int)

  datatype Step =
    | Tick(ms: nat)
    | Enqueue(p: nat)
    | Begin(p: nat, t: nat)
    | Create(p: nat)
    | Stat(p: nat)
    | Unlink(p: nat)
    | GiveUp(p: nat)
    | Release(p: nat, ok: bool)
    | CleanUp(p: nat, t: nat)
    | Die(p: nat)

  function Start(n: nat): State {
    State(seq(n, _ => Process(EMPTY, Outside)), None, 0)
  }

  function Moved(s: State, p: nat, to: Process): State
    requires p < |s.processes|
  {
    s.(processes := s.processes[p := to])
  }

  /** The write whose body is running in a queue. */
  function RunningWrite(q: Queue): Option<nat> {
    if |q.started| > 0 && q.started[|q.started| - 1] < |q.writes| && q.writes[q.started[|q.started| - 1]].phase.Running?
    then Some(q.started[|q.started| - 1]) else None
  }

  /** The body ends: the write settles and the process is outside the lock. */
  function EndBody(s: State, p: nat, ok: bool): State
    requires p < |s.processes|
  {
    var q := s.processes[p].queue;
    var t := RunningWrite(q);
    Moved(s, p, Process(if t.Some? then Ended(q, t.value, ok) else q, Outside))
  }

  function Next(s: State, step: Step): State {
    if step.Tick? then s.(now := s.now + step.ms)
    else if step.p >= |s.processes| || s.processes[step.p].at.Dead? then s
    else
      var p := step.p;
      var q, at := s.processes[p].queue, s.processes[p].at;
      match step
      case Enqueue(_) => Moved(s, p, Process(Enqueued(q), at))
      case Begin(_, t) => if Ready(q, t) then Moved(s, p, Process(Started(q, t), Trying)) else s
      case Create(_) =>
        if at.Trying? && s.lock.None? then Moved(s, p, Process(q, Holding)).(lock := Some(Lock(s.now, p))) else s
      case Stat(_) =>
        if at.Trying? && s.lock.Some? && s.now - s.lock.value.since > LOCK_STALE_MS then Moved(s, p, Process(q, Unlinking)) else s
      case Unlink(_) => if at.Unlinking? then Moved(s, p, Process(q, Trying)).(lock := None) else s
      case GiveUp(_) => if at.Trying? then EndBody(s, p, false) else s
      case Release(_, ok) => if at.Holding? then EndBody(s, p, ok).(lock := None) else s
      case CleanUp(_, t) =>
        if t < |q.writes| && q.writes[t].phase.Settled? then Moved(s, p, Process(CleanedUp(q, t), at)) else s
      case Die(_) => Moved(s, p, Process(q, Dead))
      case _ => s
  }

  function Exec(s: State, steps: seq<Step>): State
    decreases |steps|
  {
    if steps == [] then s else Exec(Next(s, steps[0]), steps[1..])
  }

  ghost predicate ProcessOk(p: Process) {
    && Orderly(p.queue)
    && (!p.at.Dead? ==> (p.at.Outside? <==> forall i :: 0 <= i < |p.queue.writes| ==> !p.queue.writes[i].phase.Running?))
  }

  ghost predicate QueuesOk(s: State) {
    forall p :: 0 <= p < |s.processes| ==> ProcessOk(s.processes[p])
  }

  lemma RunningIsLast(q: Queue)
    requires Orderly(q) && exists i :: 0 <= i < |q.writes| && q.writes[i].phase.Running?
    ensures RunningWrite(q).Some?
    ensures forall i :: 0 <= i < |q.writes| && q.writes[i].phase.Running? ==> i == RunningWrite(q).value
  {
    var i :| 0 <= i < |q.writes| && q.writes[i].phase.Running?;
    var last := |q.started| - 1;
    assert i <= last;
  }

  lemma EndBodyKeeps(s: State, p: nat, ok: bool)
    requires QueuesOk(s) && p < |s.processes| && !s.processes[p].at.Outside? && !s.processes[p].at.Dead?
    ensures QueuesOk(EndBody(s, p, ok))
  {
    var q := s.processes[p].queue;
    RunningIsLast(q);
    EndedIsOrderly(q, RunningWrite(q).value, ok);
  }

  lemma BeginKeeps(p: Process, t: nat)
    requires ProcessOk(p) && !p.at.Dead? && Ready(p.queue, t)
    ensures ProcessOk(Process(Started(p.queue, t), Trying))
  {
    StartedIsOrderly(p.queue, t);
    assert Started(p.queue, t).writes[t].phase.Running?;
  }

  lemma EnqueueKeeps(p: Process)
    requires ProcessOk(p) && !p.at.Dead?
    ensures ProcessOk(Process(Enqueued(p.queue), p.at))
  {
    EnqueuedIsOrderly(p.queue);
    var u := Enqueued(p.queue);
    if !p.at.Outside? {
      var i :| 0 <= i < |p.queue.writes| && p.queue.writes[i].phase.Running?;
      assert u.writes[i].phase.Running?;
    }
  }

  lemma StepKeepsQueues(s: State, step: Step)
    requires QueuesOk(s)
    ensures QueuesOk(Next(s, step)) && |Next(s, step).processes| == |s.processes|
  {
    if !step.Tick? && step.p < |s.processes| && !s.processes[step.p].at.Dead? {
      var p := s.processes[step.p];
      assert ProcessOk(p);
      match step
      case Enqueue(_) => EnqueueKeeps(p);
      case Begin(_, t) => if Ready(p.queue, t) { BeginKeeps(p, t); }
      case GiveUp(_) => if p.at.Trying? { EndBodyKeeps(s, step.p, false); }
      case Release(_, ok) => if p.at.Holding? { EndBodyKeeps(s, step.p, ok); }
      case CleanUp(_, t) =>
        if t < |p.queue.writes| && p.queue.writes[t].phase.Settled? { CleanedUpIsOrderly(p.queue, t); }
      case _ =>
    }
  }

  lemma {:induction false} RunKeepsQueues(s: State, steps: seq<Step>)
    requires QueuesOk(s)
    ensures QueuesOk(Exec(s, steps)) && |Exec(s, steps).processes| == |s.processes|
    decreases |steps|
  {
    if steps != [] {
      StepKeepsQueues(s, steps[0]);
      RunKeepsQueues(Next(s, steps[0]), steps[1..]);
    }
  }

  /** In every run, in each process: bodies begin in the order in which they were enqueued, rejected or not,
      at most one runs at a time, and the map entry is gone only when no write is unfinished. */
  lemma OneAtATimeInOrder(n: nat, steps: seq<Step>, p: nat)
    requires p < n
    ensures var s := Exec(Start(n), steps);
            && |s.processes| == n
            && var q := s.processes[p].queue;
               && (forall k :: 0 <= k < |q.started| ==> q.started[k] == k)
               && (forall i, j :: 0 <= i < j < |q.writes| ==> !(q.writes[i].phase.Running? && q.writes[j].phase.Running?))
               && (forall i, j :: 0 <= i < j < |q.writes| && !q.writes[j].phase.Waiting? ==> q.writes[i].phase.Settled?)
               && (q.entry.None? ==> forall i :: 0 <= i < |q.writes| ==> q.writes[i].phase.Settled?)
  {
    RunKeepsQueues(Start(n), steps);
    assert ProcessOk(Exec(Start(n), steps).processes[p]);
  }

  // ----- Between processes -----

  /** Whoever is inside created the lock file that is there. */
  ghost predicate Exclusive(s: State) {
    forall p :: 0 <= p < |s.processes| && s.processes[p].at.Holding? ==> s.lock.Some? && s.lock.value.owner == p
  }

  /** An unlink that was decided on a stale lock, and now removes the lock file of a process that is inside. */
  predicate Evicts(s: State, step: Step) {
    && step.Unlink? && step.p < |s.processes| && s.processes[step.p].at.Unlinking?
    && s.lock.Some? && s.lock.value.owner < |s.processes| && s.processes[s.lock.value.owner].at.Holding?
  }

  predicate EvictsNobody(s: State, steps: seq<Step>)
    decreases |steps|
  {
    steps != [] ==> !Evicts(s, steps[0]) && EvictsNobody(Next(s, steps[0]), steps[1..])
  }

  ghost predicate AlwaysExclusive(s: State, steps: seq<Step>)
    decreases |steps|
  {
    Exclusive(s) && (steps != [] ==> AlwaysExclusive(Next(s, steps[0]), steps[1..]))
  }

  lemma StepKeepsExclusiveIff(s: State, step: Step)
    requires Exclusive(s)
    ensures Exclusive(Next(s, step)) <==> !Evicts(s, step)
  {
    var s' := Next(s, step);
    if Evicts(s, step) { assert s'.processes[s.lock.value.owner].at.Holding?; }
  }

  /** Whoever is inside owns the lock file at every moment exactly in the runs in which no unlink hits the lock
      file of a process that is inside. */
  lemma {:induction false} AlwaysExclusiveIff(s: State, steps: seq<Step>)
    requires Exclusive(s)
    ensures AlwaysExclusive(s, steps) <==> EvictsNobody(s, steps)
    decreases |steps|
  {
    if steps != [] {
      StepKeepsExclusiveIff(s, steps[0]);
      if Exclusive(Next(s, steps[0])) { AlwaysExclusiveIff(Next(s, steps[0]), steps[1..]); }
      else { assert !AlwaysExclusive(Next(s, steps[0]), steps[1..]); }
    }
  }

  lemma {:induction false} AlwaysExclusiveEndsSo(s: State, steps: seq<Step>)
    requires AlwaysExclusive(s, steps)
    ensures Exclusive(Exec(s, steps))
    decreases |steps|
  {
    if steps != [] { AlwaysExclusiveEndsSo(Next(s, steps[0]), steps[1..]); }
  }

  /** In every such run no two processes are inside at once. */
  lemma MutualExclusion(n: nat, steps: seq<Step>, a: nat, b: nat)
    requires EvictsNobody(Start(n), steps)
    requires a < b < |Exec(Start(n), steps).processes|
    ensures !(Exec(Start(n), steps).processes[a].at.Holding? && Exec(Start(n), steps).processes[b].at.Holding?)
  {
    AlwaysExclusiveIff(Start(n), steps);
    AlwaysExclusiveEndsSo(Start(n), steps);
  }

  /** In every other run, at the first eviction, two are inside one step later: the evictor creates its own file. */
  lemma EvictionIsShared(s: State, step: Step)
    requires Exclusive(s) && Evicts(s, step)
    ensures var u := Exec(s, [step, Create(step.p)]);
            && s.lock.value.owner != step.p && |u.processes| == |s.processes|
            && u.processes[s.lock.value.owner].at.Holding? && u.processes[step.p].at.Holding?
  {
    Extend(s, step, [Create(step.p)]);
    Extend(Next(s, step), Create(step.p), []);
  }

  /** No lock file is ever found older than the stale age. */
  predicate FindsNoStaleLock(s: State, steps: seq<Step>)
    decreases |steps|
  {
    steps != [] ==>
      && (steps[0].Stat? && s.lock.Some? ==> s.now - s.lock.value.since <= LOCK_STALE_MS)
      && FindsNoStaleLock(Next(s, steps[0]), steps[1..])
  }

  /** Runs that find no stale lock are among them: nobody ever decides to unlink. */
  lemma {:induction false} NoStaleLockEvictsNobody(s: State, steps: seq<Step>)
    requires FindsNoStaleLock(s, steps) && forall p :: 0 <= p < |s.processes| ==> !s.processes[p].at.Unlinking?
    ensures EvictsNobody(s, steps)
    decreases |steps|
  {
    if steps != [] { NoStaleLockEvictsNobody(Next(s, steps[0]), steps[1..]); }
  }

  lemma Extend(s: State, step: Step, rest: seq<Step>)
    ensures Exec(s, [step] + rest) == Exec(Next(s, step), rest)
  {
    assert ([step] + rest)[1..] == rest;
  }

  /** Whenever a holder's lock file outlives the stale age while another process is trying, the other can
      steal it, and then both are inside. */
  lemma StaleLockIsShared(s: State, a: nat, b: nat)
    requires a != b && a < |s.processes| && b < |s.processes|
    requires s.processes[a].at.Holding? && s.processes[b].at.Trying?
    requires s.lock.Some? && s.now - s.lock.value.since > LOCK_STALE_MS
    ensures var u := Exec(s, [Stat(b), Unlink(b), Create(b)]);
            |u.processes| == |s.processes| && u.processes[a].at.Holding? && u.processes[b].at.Holding?
  {
    Extend(s, Stat(b), [Unlink(b), Create(b)]);
    var s1 := Next(s, Stat(b));
    Extend(s1, Unlink(b), [Create(b)]);
    var s2 := Next(s1, Unlink(b));
    Extend(s2, Create(b), []);
  }

  /** Whenever two processes are trying while the lock file is stale, whoever left it, the one that takes it over
      can be evicted at once, with a fresh lock file: the other's unlink was decided on the stale one. */
  lemma FreshHolderIsEvicted(s: State, a: nat, b: nat)
    requires a != b && a < |s.processes| && b < |s.processes|
    requires s.processes[a].at.Trying? && s.processes[b].at.Trying?
    requires s.lock.Some? && s.now - s.lock.value.since > LOCK_STALE_MS
    ensures var u := Exec(s, [Stat(a), Stat(b), Unlink(a), Create(a)]);
            && |u.processes| == |s.processes| && u.processes[a].at.Holding? && u.lock == Some(Lock(s.now, a))
            && Evicts(u, Unlink(b))
            && var w := Exec(u, [Unlink(b), Create(b)]);
               |w.processes| == |s.processes| && w.processes[a].at.Holding? && w.processes[b].at.Holding?
  {
    Extend(s, Stat(a), [Stat(b), Unlink(a), Create(a)]);
    var s1 := Next(s, Stat(a));
    Extend(s1, Stat(b), [Unlink(a), Create(a)]);
    var s2 := Next(s1, Stat(b));
    Extend(s2, Unlink(a), [Create(a)]);
    var s3 := Next(s2, Unlink(a));
    Extend(s3, Create(a), []);
    var u := Next(s3, Create(a));
    Extend(u, Unlink(b), [Create(b)]);
    Extend(Next(u, Unlink(b)), Create(b), []);
  }

  /** Such a moment is reached from the start, with two processes and one write each. */
  lemma StaleMomentIsReached()
    ensures var s := Exec(Start(2), [Enqueue(0), Begin(0, 0), Create(0), Enqueue(1), Begin(1, 0), Tick(LOCK_STALE_MS + 1)]);
            && |s.processes| == 2 && s.processes[0].at.Holding? && s.processes[1].at.Trying?
            && s.lock.Some? && s.now - s.lock.value.since > LOCK_STALE_MS
  {
    var queued, running := Enqueued(EMPTY), Started(Enqueued(EMPTY), 0);
    var outside, inside, trying := Process(EMPTY, Outside), Process(running, Holding), Process(running, Trying);
    var s0 := State([outside, outside], None, 0);
    assert Start(2) == s0;
    var s1 := s0.(processes := [Process(queued, Outside), outside]);
    assert Next(s0, Enqueue(0)) == s1;
    var s2 := s1.(processes := [trying, outside]);
    assert Next(s1, Begin(0, 0)) == s2;
    var s3 := State([inside, outside], Some(Lock(0, 0)), 0);
    assert Next(s2, Create(0)) == s3;
    var s4 := s3.(processes := [inside, Process(queued, Outside)]);
    assert Next(s3, Enqueue(1)) == s4;
    var s5 := s4.(processes := [inside, trying]);
    assert Next(s4, Begin(1, 0)) == s5;
    var s6 := s5.(now := LOCK_STALE_MS + 1);
    assert Next(s5, Tick(LOCK_STALE_MS + 1)) == s6;
    hide Next, Exec;
    var last := [Tick(LOCK_STALE_MS + 1)];
    var second := [Enqueue(1), Begin(1, 0)] + last;
    assert Exec(s6, []) == s6 by { NoSteps(s6); }
    Extend(s5, Tick(LOCK_STALE_MS + 1), []);
    Extend(s4, Begin(1, 0), last);
    Extend(s3, Enqueue(1), [Begin(1, 0)] + last);
    assert [Enqueue(1)] + ([Begin(1, 0)] + last) == second;
    Extend(s2, Create(0), second);
    Extend(s1, Begin(0, 0), [Create(0)] + second);
    Extend(s0, Enqueue(0), [Begin(0, 0)] + ([Create(0)] + second));
    assert [Enqueue(0)] + ([Begin(0, 0)] + ([Create(0)] + second)) ==
           [Enqueue(0), Begin(0, 0), Create(0), Enqueue(1), Begin(1, 0), Tick(LOCK_STALE_MS + 1)];
    assert last == [Tick(LOCK_STALE_MS + 1)] + [];
  }

  /** The other moment too: a holder dies inside, and two others are trying when its lock file grows stale. */
  lemma AbandonedMomentIsReached()
    ensures var s := Exec(Start(3), [Enqueue(0), Begin(0, 0), Create(0), Die(0), Enqueue(1), Begin(1, 0), Enqueue(2), Begin(2, 0),
                                     Tick(LOCK_STALE_MS + 1)]);
            && |s.processes| == 3 && s.processes[0].at.Dead? && s.processes[1].at.Trying? && s.processes[2].at.Trying?
            && s.lock.Some? && s.now - s.lock.value.since > LOCK_STALE_MS
  {
    var queued, running := Enqueued(EMPTY), Started(Enqueued(EMPTY), 0);
    var outside, trying, dead := Process(EMPTY, Outside), Process(running, Trying), Process(running, Dead);
    var ready := Process(queued, Outside);
    var s0 := State([outside, outside, outside], None, 0);
    assert Start(3) == s0;
    var s1 := s0.(processes := [ready, outside, outside]);
    assert Next(s0, Enqueue(0)) == s1;
    var s2 := s0.(processes := [trying, outside, outside]);
    assert Next(s1, Begin(0, 0)) == s2;
    var s3 := State([Process(running, Holding), outside, outside], Some(Lock(0, 0)), 0);
    assert Next(s2, Create(0)) == s3;
    var s4 := s3.(processes := [dead, outside, outside]);
    assert Next(s3, Die(0)) == s4;
    var s5 := s3.(processes := [dead, ready, outside]);
    assert Next(s4, Enqueue(1)) == s5;
    var s6 := s3.(processes := [dead, trying, outside]);
    assert Next(s5, Begin(1, 0)) == s6;
    var s7 := s3.(processes := [dead, trying, ready]);
    assert Next(s6, Enqueue(2)) == s7;
    var s8 := s3.(processes := [dead, trying, trying]);
    assert Next(s7, Begin(2, 0)) == s8;
    var s9 := s8.(now := LOCK_STALE_MS + 1);
    assert Next(s8, Tick(LOCK_STALE_MS + 1)) == s9;
    hide Next, Exec;
    NoSteps(s9);
    Extend(s8, Tick(LOCK_STALE_MS + 1), []);
    var r8 := [Tick(LOCK_STALE_MS + 1)] + [];
    Extend(s7, Begin(2, 0), r8);
    var r7 := [Begin(2, 0)] + r8;
    Extend(s6, Enqueue(2), r7);
    var r6 := [Enqueue(2)] + r7;
    Extend(s5, Begin(1, 0), r6);
    var r5 := [Begin(1, 0)] + r6;
    Extend(s4, Enqueue(1), r5);
    var r4 := [Enqueue(1)] + r5;
    Extend(s3, Die(0), r4);
    var r3 := [Die(0)] + r4;
    Extend(s2, Create(0), r3);
    var r2 := [Create(0)] + r3;
    Extend(s1, Begin(0, 0), r2);
    Extend(s0, Enqueue(0), [Begin(0, 0)] + r2);
    assert [Enqueue(0)] + ([Begin(0, 0)] + r2)
        == [Enqueue(0), Begin(0, 0), Create(0), Die(0), Enqueue(1), Begin(1, 0), Enqueue(2), Begin(2, 0), Tick(LOCK_STALE_MS + 1)];
  }

  lemma NoSteps(s: State)
    ensures Exec(s, []) == s
  {
  }

  // ----- Writes go on, and the lock is given back -----

  /** The lock file that is there was left by a process that is inside, or that died. */
  predicate LockIsOwned(s: State) {
    s.lock.Some? ==>
      && s.lock.value.owner < |s.processes|
      && (s.processes[s.lock.value.owner].at.Holding? || s.processes[s.lock.value.owner].at.Dead?)
  }

  lemma {:induction false} RunKeepsLockOwned(s: State, steps: seq<Step>)
    requires QueuesOk(s) && LockIsOwned(s)
    ensures LockIsOwned(Exec(s, steps))
    decreases |steps|
  {
    if steps != [] {
      StepKeepsLockOwned(s, steps[0]);
      StepKeepsQueues(s, steps[0]);
      RunKeepsLockOwned(Next(s, steps[0]), steps[1..]);
    }
  }

  lemma StepKeepsLockOwned(s: State, step: Step)
    requires QueuesOk(s) && LockIsOwned(s)
    ensures LockIsOwned(Next(s, step))
  {
    hide ProcessOk, Ready, RunningWrite;
    if step.Begin? && step.p < |s.processes| && s.processes[step.p].at.Holding? { BusyIsNotReady(s.processes[step.p], step.t); }
  }

  lemma BusyIsNotReady(process: Process, t: nat)
    requires ProcessOk(process) && !process.at.Dead? && !process.at.Outside?
    ensures !Ready(process.queue, t)
  {
    var q := process.queue;
    var r :| 0 <= r < |q.writes| && q.writes[r].phase.Running?;
    assert r + 1 < |q.writes| ==> q.writes[r + 1].phase.Waiting?;
    assert t > r + 1 && t < |q.writes| ==> q.writes[t - 1].phase.Waiting?;
  }

  predicate NobodyDies(steps: seq<Step>) {
    forall k :: 0 <= k < |steps| ==> !steps[k].Die?
  }

  predicate NoneDead(s: State) {
    forall p :: 0 <= p < |s.processes| ==> !s.processes[p].at.Dead?
  }

  lemma {:induction false} NobodyIsDead(s: State, steps: seq<Step>)
    requires NobodyDies(steps) && NoneDead(s)
    ensures NoneDead(Exec(s, steps))
    decreases |steps|
  {
    if steps != [] {
      assert !steps[0].Die?;
      assert NoneDead(Next(s, steps[0]));
      NobodyIsDead(Next(s, steps[0]), steps[1..]);
    }
  }

  /** In every run in which nobody dies and no unlink evicts anybody, the lock file is there exactly while some process
      is inside, and that process made it. */
  lemma LockIffInside(n: nat, steps: seq<Step>, p: nat)
    requires NobodyDies(steps) && EvictsNobody(Start(n), steps)
    requires p < |Exec(Start(n), steps).processes|
    ensures var s := Exec(Start(n), steps);
            && (s.lock.Some? <==> exists h :: 0 <= h < |s.processes| && s.processes[h].at.Holding?)
            && (s.processes[p].at.Holding? <==> s.lock.Some? && s.lock.value.owner == p)
  {
    AlwaysExclusiveIff(Start(n), steps);
    AlwaysExclusiveEndsSo(Start(n), steps);
    NobodyIsDead(Start(n), steps);
    RunKeepsLockOwned(Start(n), steps);
  }

  /** Hence, in such a run, a process that is trying while nobody is inside gets in, with a lock file of its own. */
  lemma TryingGetsIn(n: nat, steps: seq<Step>, p: nat)
    requires NobodyDies(steps) && EvictsNobody(Start(n), steps)
    requires p < |Exec(Start(n), steps).processes| && Exec(Start(n), steps).processes[p].at.Trying?
    requires forall h :: 0 <= h < |Exec(Start(n), steps).processes| ==> !Exec(Start(n), steps).processes[h].at.Holding?
    ensures var s := Exec(Start(n), steps);
            var u := Next(s, Create(p));
            && u.lock == Some(Lock(s.now, p)) && |u.processes| == |s.processes| && u.processes[p] == Process(s.processes[p].queue, Holding)
            && forall h :: 0 <= h < |s.processes| && h != p ==> u.processes[h] == s.processes[h]
  {
    LockIffInside(n, steps, p);
  }

  /** In every run, in each process that lives: once the writes before it have settled, whether they succeeded or not,
      the next write can begin, and then tries for the lock. */
  lemma NextWriteBegins(n: nat, steps: seq<Step>, p: nat, t: nat)
    requires p < |Exec(Start(n), steps).processes|
    requires var process := Exec(Start(n), steps).processes[p];
             && !process.at.Dead? && t < |process.queue.writes| && process.queue.writes[t].phase.Waiting?
             && forall i :: 0 <= i < t ==> process.queue.writes[i].phase.Settled?
    ensures var s := Exec(Start(n), steps);
            var u := Next(s, Begin(p, t));
            && s.processes[p].at.Outside? && |u.processes| == |s.processes| && u.lock == s.lock && u.processes[p].at.Trying?
            && u.processes[p].queue.writes == s.processes[p].queue.writes[t := s.processes[p].queue.writes[t].(phase := Running)]
  {
    RunKeepsQueues(Start(n), steps);
    var process := Exec(Start(n), steps).processes[p];
    assert ProcessOk(process);
    assert Ready(process.queue, t);
    NoneRuns(process, t);
  }

  lemma NoneRuns(process: Process, t: nat)
    requires ProcessOk(process) && !process.at.Dead? && t < |process.queue.writes| && process.queue.writes[t].phase.Waiting?
    requires forall i :: 0 <= i < t ==> process.queue.writes[i].phase.Settled?
    ensures process.at.Outside?
  {
    var q := process.queue;
    forall j | 0 <= j < |q.writes| ensures !q.writes[j].phase.Running? {
      if j > t { assert q.writes[j].phase.Waiting?; }
    }
  }

  /** In every run: a process inside that releases the lock leaves no lock file, its write settled as the body ended;
      a process that gives up trying leaves the lock file alone and its write rejected. */
  lemma BodyEnds(n: nat, steps: seq<Step>, p: nat, ok: bool)
    requires p < |Exec(Start(n), steps).processes|
    ensures var s := Exec(Start(n), steps);
            s.processes[p].at.Holding? ==>
              && Next(s, Release(p, ok)).lock == None && EndsAs(s, Next(s, Release(p, ok)), p, ok)
    ensures var s := Exec(Start(n), steps);
            s.processes[p].at.Trying? ==>
              && Next(s, GiveUp(p)).lock == s.lock && EndsAs(s, Next(s, GiveUp(p)), p, false)
  {
    RunKeepsQueues(Start(n), steps);
    hide Exec, Start, EndBody, EndsAs, Orderly, Next;
    var s := Exec(Start(n), steps);
    assert ProcessOk(s.processes[p]);
    EndSteps(s, p, ok);
    if s.processes[p].at.Holding? || s.processes[p].at.Trying? {
      RunningIsLast(s.processes[p].queue);
      EndBodyEnds(s, p, ok);
      EndBodyEnds(s, p, false);
    }
  }

  lemma EndSteps(s: State, p: nat, ok: bool)
    requires p < |s.processes|
    ensures s.processes[p].at.Holding? ==> Next(s, Release(p, ok)) == EndBody(s, p, ok).(lock := None)
    ensures s.processes[p].at.Trying? ==> Next(s, GiveUp(p)) == EndBody(s, p, false)
  {
  }

  /** The one write that was running has settled, the process is outside, and nothing else has changed. */
  ghost predicate EndsAs(s: State, u: State, p: nat, ok: bool)
    requires p < |s.processes|
  {
    && |u.processes| == |s.processes| && u.processes[p].at.Outside? && u.now == s.now
    && (forall h :: 0 <= h < |s.processes| && h != p ==> u.processes[h] == s.processes[h])
    && u.processes[p].queue.entry == s.processes[p].queue.entry && u.processes[p].queue.started == s.processes[p].queue.started
    && exists t :: 0 <= t < |s.processes[p].queue.writes| && s.processes[p].queue.writes[t].phase.Running?
         && u.processes[p].queue.writes == s.processes[p].queue.writes[t := s.processes[p].queue.writes[t].(phase := Settled(ok))]
  }

  lemma EndBodyEnds(s: State, p: nat, ok: bool)
    requires p < |s.processes| && RunningWrite(s.processes[p].queue).Some?
    ensures EndsAs(s, EndBody(s, p, ok), p, ok) && EndBody(s, p, ok).lock == s.lock
    ensures EndsAs(s, EndBody(s, p, ok).(lock := None), p, ok)
  {
    var t := RunningWrite(s.processes[p].queue).value;
    assert s.processes[p].queue.writes[t].phase.Running?;
  }

  /** In every run: when a process that lives cleans up after its last write, and that has settled, the map entry goes;
      cleaning up after an earlier write leaves the entry of the later one. */
  lemma EntryGoes(n: nat, steps: seq<Step>, p: nat, t: nat)
    requires p < |Exec(Start(n), steps).processes|
    requires var process := Exec(Start(n), steps).processes[p];
             !process.at.Dead? && t < |process.queue.writes| && process.queue.writes[t].phase.Settled?
    ensures var s := Exec(Start(n), steps);
            var u := Next(s, CleanUp(p, t));
            && |u.processes| == |s.processes|
            && u.processes[p].queue.entry == if t == |s.processes[p].queue.writes| - 1 then None else s.processes[p].queue.entry
  {
    RunKeepsQueues(Start(n), steps);
    assert ProcessOk(Exec(Start(n), steps).processes[p]);
  }

  /** A process that is trying decides to unlink exactly when the lock file it finds is more than half a minute old. */
  lemma StaleIff(s: State, p: nat)
    requires p < |s.processes| && s.processes[p].at.Trying?
    ensures var u := Next(s, Stat(p));
            && |u.processes| == |s.processes| && u.lock == s.lock
            && (u.processes[p].at.Unlinking? <==> s.lock.Some? && s.now - s.lock.value.since > 30_000)
  {
  }

  /** Two processes write one after the other: the second gets in. */
  lemma TwoWritesInTurn()
    ensures var s := Exec(Start(2), [Enqueue(0), Begin(0, 0), Create(0), Release(0, true), Enqueue(1), Begin(1, 0), Create(1)]);
            && |s.processes| == 2 && s.processes[0].at.Outside? && s.processes[1].at.Holding? && s.lock == Some(Lock(0, 1))
  {
    var queued, running := Enqueued(EMPTY), Started(Enqueued(EMPTY), 0);
    var outside, trying := Process(EMPTY, Outside), Process(running, Trying);
    var ended := Process(Ended(running, 0, true), Outside);
    var s0 := State([outside, outside], None, 0);
    assert Start(2) == s0;
    var s1 := s0.(processes := [Process(queued, Outside), outside]);
    assert Next(s0, Enqueue(0)) == s1;
    var s2 := s0.(processes := [trying, outside]);
    assert Next(s1, Begin(0, 0)) == s2;
    var s3 := State([Process(running, Holding), outside], Some(Lock(0, 0)), 0);
    assert Next(s2, Create(0)) == s3;
    var s4 := s0.(processes := [ended, outside]);
    assert Next(s3, Release(0, true)) == s4;
    var s5 := s0.(processes := [ended, Process(queued, Outside)]);
    assert Next(s4, Enqueue(1)) == s5;
    var s6 := s0.(processes := [ended, trying]);
    assert Next(s5, Begin(1, 0)) == s6;
    var s7 := State([ended, Process(running, Holding)], Some(Lock(0, 1)), 0);
    assert Next(s6, Create(1)) == s7;
    hide Next, Exec;
    NoSteps(s7);
    Extend(s6, Create(1), []);
    var r6 := [Create(1)] + [];
    Extend(s5, Begin(1, 0), r6);
    var r5 := [Begin(1, 0)] + r6;
    Extend(s4, Enqueue(1), r5);
    var r4 := [Enqueue(1)] + r5;
    Extend(s3, Release(0, true), r4);
    var r3 := [Release(0, true)] + r4;
    Extend(s2, Create(0), r3);
    Extend(s1, Begin(0, 0), [Create(0)] + r3);
    Extend(s0, Enqueue(0), [Begin(0, 0)] + ([Create(0)] + r3));
    assert [Enqueue(0)] + ([Begin(0, 0)] + ([Create(0)] + r3))
        == [Enqueue(0), Begin(0, 0), Create(0), Release(0, true), Enqueue(1), Begin(1, 0), Create(1)];
  }
}
