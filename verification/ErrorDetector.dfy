/** The API-error detector: confirmation window, epochs, and the timed specification it refines.

    Time is the event loop's clock. A confirmation timer that is due runs before an entry of the same
    instant, and runs exactly when it is due. */
module ErrorDetector {
  import opened Values

  /** A watcher entry as the detector sees it; `synthetic` is the API-error signature. */
  datatype Entry = Entry(assistant: bool, sidechain: bool, synthetic: bool, text: string)

  /** An input at an instant; `epoch` is the recover count the detector reads then. */
  datatype Input = EntryAt(at: int, entry: Entry, epoch: int) | StopAt(at: int)

  datatype Pending = Pending(deadline: int, epoch: int, text: string)
  datatype Fire = Fire(at: int, epoch: int, text: string)

  datatype State = State(firedAtEpoch: int, pending: Option<Pending>, stopped: bool, fires: seq<Fire>)

  const FRESH := State(-1, None, false, [])

  predicate MainStream(e: Entry) { e.assistant && !e.sidechain }

  /** Runs the confirmation timer if it is due at `now`. */
  function Elapse(s: State, now: int): State {
    if s.pending.None? || now < s.pending.value.deadline then s
    else
      var p := s.pending.value;
      if s.stopped || s.firedAtEpoch >= p.epoch then s.(pending := None)
      else State(p.epoch, None, s.stopped, s.fires + [Fire(p.deadline, p.epoch, p.text)])
  }

  function Handle(window: nat, s: State, input: Input): State {
    match input
    case StopAt(_) => s.(stopped := true, pending := None)
    case EntryAt(at, e, epoch) =>
      if s.stopped || !MainStream(e) then s
      else if !e.synthetic then s.(pending := None)
      else if s.firedAtEpoch >= epoch || s.pending.Some? then s
      else s.(pending := Some(Pending(at + window, epoch, e.text)))
  }

  /** The detector after the first n inputs. */
  function Exec(window: nat, trace: seq<Input>, n: nat): State
    requires n <= |trace|
  {
    if n == 0 then FRESH else Handle(window, Elapse(Exec(window, trace, n - 1), trace[n - 1].at), trace[n - 1])
  }

  class ApiErrorDetector {
    const window: nat
    var firedAtEpoch: int
    var pending: Option<Pending>
    var stopped: bool
    /** The calls made to the error handler, oldest first. */
    var fires: seq<Fire>

    function View(): State
      reads this
    {
      State(firedAtEpoch, pending, stopped, fires)
    }

    constructor (window: nat)
      requires window > 0
      ensures this.window == window && View() == FRESH
    {
      this.window, firedAtEpoch, pending, stopped, fires := window, -1, None, false, [];
    }

    method Stop()
      modifies this
      ensures View() == old(View()).(stopped := true, pending := None)
    {
      stopped := true;
      if pending.Some? { pending := None; }
    }

    method HandleEntry(now: int, e: Entry, recoverCount: int)
      modifies this
      ensures View() == Handle(window, old(View()), EntryAt(now, e, recoverCount))
    {
      if stopped || !e.assistant || e.sidechain { return; }
      if e.synthetic {
        ArmOrIgnore(now, e.text, recoverCount);
        return;
      }
      if pending.Some? { pending := None; }
    }

    method ArmOrIgnore(now: int, text: string, currentEpoch: int)
      modifies this
      ensures View() == if old(firedAtEpoch) >= currentEpoch || old(pending).Some? then old(View())
                        else old(View()).(pending := Some(Pending(now + window, currentEpoch, text)))
    {
      if firedAtEpoch >= currentEpoch { return; }
      if pending.Some? { return; }
      pending := Some(Pending(now + window, currentEpoch, text));
    }

    /** The timer callback of the event loop, given the chance to run at `now`. */
    method OnTimer(now: int)
      modifies this
      ensures View() == Elapse(old(View()), now)
    {
      if pending.None? || now < pending.value.deadline { return; }
      var info := pending.value;
      pending := None;
      if stopped || firedAtEpoch >= info.epoch { return; }
      firedAtEpoch := info.epoch;
      fires := fires + [Fire(info.deadline, info.epoch, info.text)];
    }
  }

  // ----- The declarative specification -----

  predicate Timed(trace: seq<Input>) {
    forall i, j :: 0 <= i < j < |trace| ==> trace[i].at <= trace[j].at
  }

  /** A real assistant entry that is not a sub-agent's, or stop. */
  predicate Clears(input: Input) {
    input.StopAt? || (input.entry.assistant && !input.entry.sidechain && !input.entry.synthetic)
  }

  /** The window opened by entry j is still open after n inputs at `now`. */
  predicate OpenAt(window: nat, trace: seq<Input>, j: nat, n: nat, now: int)
    requires j < n <= |trace|
  {
    now < trace[j].at + window && forall k | j < k < n :: !Clears(trace[k])
  }

  /** The window opened by entry j has elapsed by `now` with nothing clearing it. */
  predicate ElapsedBy(window: nat, trace: seq<Input>, j: nat, n: nat, now: int)
    requires j < n <= |trace|
  {
    trace[j].at + window <= now && forall k | j < k < n && trace[k].at < trace[j].at + window :: !Clears(trace[k])
  }

  /** Entry i opens a window: a synthetic assistant entry that is not a sub-agent's, not stopped, finding no open window and an unfired epoch. */
  predicate Armed(window: nat, trace: seq<Input>, i: nat)
    requires i < |trace|
    decreases i
  {
    && trace[i].EntryAt? && trace[i].entry.assistant && !trace[i].entry.sidechain && trace[i].entry.synthetic
    && (forall k | 0 <= k < i :: !trace[k].StopAt?)
    && trace[i].epoch > -1
    && (forall j: nat | j < i && Armed(window, trace, j) ::
          && !OpenAt(window, trace, j, i, trace[i].at)
          && (ElapsedBy(window, trace, j, i, trace[i].at) ==> trace[j].epoch < trace[i].epoch))
  }

  /** Entry j's window ended in a fire, n inputs in, at `now`. */
  predicate Confirmed(window: nat, trace: seq<Input>, j: nat, n: nat, now: int)
    requires j < n <= |trace|
  {
    Armed(window, trace, j) && ElapsedBy(window, trace, j, n, now)
  }

  function FireOf(window: nat, trace: seq<Input>, j: nat): Fire
    requires j < |trace| && trace[j].EntryAt?
  {
    Fire(trace[j].at + window, trace[j].epoch, trace[j].entry.text)
  }

  function WindowOf(window: nat, trace: seq<Input>, j: nat): Pending
    requires j < |trace| && trace[j].EntryAt?
  {
    Pending(trace[j].at + window, trace[j].epoch, trace[j].entry.text)
  }

  predicate Increasing(fires: seq<Fire>) {
    forall i, j :: 0 <= i < j < |fires| ==> fires[i].epoch < fires[j].epoch && fires[i].at < fires[j].at
  }

  /** The pending record is the window the specification says is open. */
  ghost predicate PendingAgrees(window: nat, trace: seq<Input>, n: nat, now: int, pending: Option<Pending>)
    requires n <= |trace|
  {
    && (pending.Some? ==> exists j: nat :: j < n && Armed(window, trace, j) && OpenAt(window, trace, j, n, now)
                                           && pending.value == WindowOf(window, trace, j))
    && (forall j: nat | j < n && Armed(window, trace, j) && OpenAt(window, trace, j, n, now) ::
          pending == Some(WindowOf(window, trace, j)))
  }

  /** The calls made are the confirmed windows' fires. */
  ghost predicate FiresAgree(window: nat, trace: seq<Input>, n: nat, now: int, fires: seq<Fire>)
    requires n <= |trace|
  {
    && (forall j: nat | j < n && Confirmed(window, trace, j, n, now) :: FireOf(window, trace, j) in fires)
    && (forall f | f in fires :: exists j: nat :: j < n && Confirmed(window, trace, j, n, now) && f == FireOf(window, trace, j))
  }

  predicate Consistent(s: State, now: int) {
    && (s.stopped ==> s.pending.None?)
    && Increasing(s.fires)
    && s.firedAtEpoch == (if s.fires == [] then -1 else s.fires[|s.fires| - 1].epoch)
    && (s.fires != [] ==> s.firedAtEpoch > -1 && s.fires[|s.fires| - 1].at <= now)
    && (s.pending.Some? ==>
          && s.firedAtEpoch < s.pending.value.epoch
          && (s.fires != [] ==> s.fires[|s.fires| - 1].at < s.pending.value.deadline))
  }

  /** The state after n inputs, with the clock at `now`, says what the specification says. */
  ghost predicate Agrees(window: nat, trace: seq<Input>, n: nat, now: int, s: State)
    requires n <= |trace|
  {
    && Consistent(s, now)
    && (s.stopped <==> exists k :: 0 <= k < n && trace[k].StopAt?)
    && PendingAgrees(window, trace, n, now, s.pending)
    && FiresAgree(window, trace, n, now, s.fires)
  }

  /** As time passes without input, windows only close by elapsing. */
  lemma Passing(window: nat, trace: seq<Input>, j: nat, n: nat, now: int, later: int)
    requires Timed(trace) && j < n <= |trace| && trace[n - 1].at <= now <= later
    ensures OpenAt(window, trace, j, n, now) ==>
      if trace[j].at + window <= later then ElapsedBy(window, trace, j, n, later) else OpenAt(window, trace, j, n, later)
    ensures OpenAt(window, trace, j, n, later) ==> OpenAt(window, trace, j, n, now)
    ensures ElapsedBy(window, trace, j, n, now) ==> ElapsedBy(window, trace, j, n, later)
    ensures ElapsedBy(window, trace, j, n, later) && !ElapsedBy(window, trace, j, n, now) ==> OpenAt(window, trace, j, n, now)
  {
    if now < trace[j].at + window {
      forall k | j < k < n ensures trace[k].at < trace[j].at + window { }
    }
  }

  lemma ElapsePending(window: nat, trace: seq<Input>, n: nat, now: int, later: int, s: State)
    requires Timed(trace) && n <= |trace| && now <= later && (n > 0 ==> trace[n - 1].at <= now)
    requires PendingAgrees(window, trace, n, now, s.pending)
    ensures PendingAgrees(window, trace, n, later, Elapse(s, later).pending)
  {
    var pending := Elapse(s, later).pending;
    forall j: nat | j < n && Armed(window, trace, j) && OpenAt(window, trace, j, n, later)
      ensures pending == Some(WindowOf(window, trace, j))
    {
      Passing(window, trace, j, n, now, later);
    }
    if pending.Some? {
      var j: nat :| j < n && Armed(window, trace, j) && OpenAt(window, trace, j, n, now) && pending.value == WindowOf(window, trace, j);
      Passing(window, trace, j, n, now, later);
      assert OpenAt(window, trace, j, n, later);
    }
  }

  lemma ElapseFires(window: nat, trace: seq<Input>, n: nat, now: int, later: int, s: State)
    requires Timed(trace) && n <= |trace| && now <= later && (n > 0 ==> trace[n - 1].at <= now)
    requires Agrees(window, trace, n, now, s)
    ensures FiresAgree(window, trace, n, later, Elapse(s, later).fires)
  {
    var fires := Elapse(s, later).fires;
    forall j: nat | j < n && Confirmed(window, trace, j, n, later) ensures FireOf(window, trace, j) in fires {
      Passing(window, trace, j, n, now, later);
      if Confirmed(window, trace, j, n, now) {
        assert FireOf(window, trace, j) in s.fires;
      } else {
        assert s.pending == Some(WindowOf(window, trace, j));
      }
    }
    forall f | f in fires ensures exists j: nat :: j < n && Confirmed(window, trace, j, n, later) && f == FireOf(window, trace, j) {
      if f in s.fires {
        var j: nat :| j < n && Confirmed(window, trace, j, n, now) && f == FireOf(window, trace, j);
        Passing(window, trace, j, n, now, later);
        assert Confirmed(window, trace, j, n, later);
      } else {
        var j: nat :| j < n && Armed(window, trace, j) && OpenAt(window, trace, j, n, now) && s.pending.value == WindowOf(window, trace, j);
        Passing(window, trace, j, n, now, later);
        assert Confirmed(window, trace, j, n, later);
      }
    }
  }

  lemma ElapseAgrees(window: nat, trace: seq<Input>, n: nat, now: int, later: int, s: State)
    requires Timed(trace) && n <= |trace| && now <= later && (n > 0 ==> trace[n - 1].at <= now)
    requires Agrees(window, trace, n, now, s)
    ensures Agrees(window, trace, n, later, Elapse(s, later))
  {
    ElapsePending(window, trace, n, now, later, s);
    ElapseFires(window, trace, n, now, later, s);
    assert Consistent(Elapse(s, later), later) by {
      if s.pending.Some? {
        var j: nat :| j < n && Armed(window, trace, j) && s.pending.value == WindowOf(window, trace, j);
      }
    }
  }

  /** An input closes open windows only by clearing them, and adds only its own. */
  lemma Arriving(window: nat, trace: seq<Input>, j: nat, n: nat)
    requires window > 0 && j <= n < |trace|
    ensures j < n ==> (OpenAt(window, trace, j, n + 1, trace[n].at) <==> OpenAt(window, trace, j, n, trace[n].at) && !Clears(trace[n]))
    ensures j < n ==> (ElapsedBy(window, trace, j, n + 1, trace[n].at) <==> ElapsedBy(window, trace, j, n, trace[n].at))
    ensures OpenAt(window, trace, n, n + 1, trace[n].at) && !ElapsedBy(window, trace, n, n + 1, trace[n].at)
  {
  }

  lemma FiredEpochs(window: nat, trace: seq<Input>, n: nat, s: State)
    requires n < |trace| && Agrees(window, trace, n, trace[n].at, s) && trace[n].EntryAt?
    ensures s.firedAtEpoch < trace[n].epoch <==>
      && trace[n].epoch > -1
      && forall j: nat | j < n && Confirmed(window, trace, j, n, trace[n].at) :: trace[j].epoch < trace[n].epoch
  {
    hide ElapsedBy, OpenAt, PendingAgrees;
    if s.fires != [] {
      var last := s.fires[|s.fires| - 1];
      assert last in s.fires;
      var j: nat :| j < n && Confirmed(window, trace, j, n, trace[n].at) && last == FireOf(window, trace, j);
      assert trace[j].epoch == s.firedAtEpoch;
    }
    forall j: nat | j < n && Confirmed(window, trace, j, n, trace[n].at) ensures trace[j].epoch <= s.firedAtEpoch {
      var i :| 0 <= i < |s.fires| && s.fires[i] == FireOf(window, trace, j);
    }
  }

  lemma ArmsExactly(window: nat, trace: seq<Input>, n: nat, s: State)
    requires n < |trace| && Agrees(window, trace, n, trace[n].at, s)
    ensures Armed(window, trace, n) <==>
      && trace[n].EntryAt? && MainStream(trace[n].entry) && trace[n].entry.synthetic
      && !s.stopped && s.pending.None? && s.firedAtEpoch < trace[n].epoch
  {
    if trace[n].EntryAt? {
      FiredEpochs(window, trace, n, s);
      assert s.pending.None? <==> forall j: nat | j < n && Armed(window, trace, j) :: !OpenAt(window, trace, j, n, trace[n].at);
    }
  }

  lemma HandleFires(window: nat, trace: seq<Input>, n: nat, fires: seq<Fire>)
    requires window > 0 && n < |trace| && FiresAgree(window, trace, n, trace[n].at, fires)
    ensures FiresAgree(window, trace, n + 1, trace[n].at, fires)
  {
    forall j: nat | j <= n ensures j < n && Confirmed(window, trace, j, n, trace[n].at) <==> Confirmed(window, trace, j, n + 1, trace[n].at) {
      Arriving(window, trace, j, n);
    }
    forall f | f in fires ensures exists j: nat :: j < n + 1 && Confirmed(window, trace, j, n + 1, trace[n].at) && f == FireOf(window, trace, j) {
      var j: nat :| j < n && Confirmed(window, trace, j, n, trace[n].at) && f == FireOf(window, trace, j);
      assert Confirmed(window, trace, j, n + 1, trace[n].at);
    }
  }

  lemma HandleAgrees(window: nat, trace: seq<Input>, n: nat, s: State)
    requires window > 0 && Timed(trace) && n < |trace| && Agrees(window, trace, n, trace[n].at, s)
    ensures Agrees(window, trace, n + 1, trace[n].at, Handle(window, s, trace[n]))
  {
    var s' := Handle(window, s, trace[n]);
    ArmsExactly(window, trace, n, s);
    HandleFires(window, trace, n, s.fires);
    forall j: nat | j < n + 1 && Armed(window, trace, j) && OpenAt(window, trace, j, n + 1, trace[n].at)
      ensures s'.pending == Some(WindowOf(window, trace, j))
    {
      Arriving(window, trace, j, n);
    }
    if s'.pending.Some? {
      Arriving(window, trace, n, n);
      if s'.pending == s.pending {
        var j: nat :| j < n && Armed(window, trace, j) && OpenAt(window, trace, j, n, trace[n].at) && s.pending.value == WindowOf(window, trace, j);
        Arriving(window, trace, j, n);
        assert OpenAt(window, trace, j, n + 1, trace[n].at);
      } else {
        assert Armed(window, trace, n) && s'.pending.value == WindowOf(window, trace, n);
      }
    }
  }

  lemma {:induction false} ExecAgrees(window: nat, trace: seq<Input>, n: nat, now: int)
    requires window > 0 && Timed(trace) && n <= |trace| && (n > 0 ==> trace[n - 1].at <= now)
    ensures Agrees(window, trace, n, now, Elapse(Exec(window, trace, n), now))
  {
    if n > 0 {
      var at := trace[n - 1].at;
      if n > 1 { assert trace[n - 2].at <= at; }
      ExecAgrees(window, trace, n - 1, at);
      HandleAgrees(window, trace, n - 1, Elapse(Exec(window, trace, n - 1), at));
      ElapseAgrees(window, trace, n, at, now, Exec(window, trace, n));
    }
  }

  /** The detector fires exactly the confirmed windows, each at its window's end, with strictly increasing epochs. */
  lemma DetectorRefinesSpecification(window: nat, trace: seq<Input>, now: int)
    requires window > 0 && Timed(trace) && (trace != [] ==> trace[|trace| - 1].at <= now)
    ensures var fires := Elapse(Exec(window, trace, |trace|), now).fires;
      && (forall f :: f in fires <==>
            exists j: nat :: j < |trace| && Confirmed(window, trace, j, |trace|, now) && f == FireOf(window, trace, j))
      && Increasing(fires)
  {
    ExecAgrees(window, trace, |trace|, now);
  }

  /** So no epoch is fired twice, by whatever entries. */
  lemma OneFirePerEpoch(window: nat, trace: seq<Input>, now: int, i: nat, j: nat)
    requires window > 0 && Timed(trace) && i < j < |trace| && trace[|trace| - 1].at <= now
    requires Confirmed(window, trace, i, |trace|, now) && Confirmed(window, trace, j, |trace|, now)
    ensures trace[i].epoch < trace[j].epoch && trace[i].at + window <= trace[j].at
  {
    var n := |trace|;
    assert Armed(window, trace, j) && Armed(window, trace, i);
    assert trace[i].at <= trace[j].at;
    assert !OpenAt(window, trace, i, j, trace[j].at);
    forall k | i < k < j && trace[k].at < trace[i].at + window ensures !Clears(trace[k]) { }
    assert ElapsedBy(window, trace, i, j, trace[j].at);
  }
}
