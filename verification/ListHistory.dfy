/** Histories of edits, one at a time, from the seeded file; and how an edited file is checked, written and
    read back. */
module ListHistory {
  import opened Values
  import opened ListsFile
  import opened ListEdits

  // ----- The validator on edited files -----

  lemma {:induction false} OneDefaultCounts(lists: seq<Entry>, t: ListType, k: nat)
    requires k < |lists| && OfType(lists[k], t) && IsDefault(lists[k])
    requires forall i :: 0 <= i < |lists| && OfType(lists[i], t) && IsDefault(lists[i]) ==> i == k
    ensures CountDefaults(lists, t) == 1
    decreases |lists|
  {
    var n := |lists| - 1;
    if k < n {
      OneDefaultCounts(lists[..n], t, k);
    } else {
      SomeDefault(lists[..n], t);
      assert forall i :: 0 <= i < n ==> lists[..n][i] == lists[i];
    }
  }

  lemma {:induction false} TwoDefaultsCount(lists: seq<Entry>, t: ListType, i: nat, j: nat)
    requires i < j < |lists|
    requires OfType(lists[i], t) && IsDefault(lists[i]) && OfType(lists[j], t) && IsDefault(lists[j])
    ensures CountDefaults(lists, t) > 1
    decreases |lists|
  {
    var n := |lists| - 1;
    if j < n {
      TwoDefaultsCount(lists[..n], t, i, j);
    } else {
      SomeDefault(lists[..n], t);
      assert lists[..n][i] == lists[i];
    }
  }

  lemma CountIsOneDefault(lists: seq<List>, t: ListType)
    requires Distinct(lists)
    ensures CountDefaults(AsEntries(lists), t) == 1 <==> OneDefault(lists, t)
  {
    var entries := AsEntries(lists);
    assert forall i :: 0 <= i < |lists| ==> (OfType(entries[i], t) && IsDefault(entries[i]) <==> DefaultOf(lists[i], t));
    if OneDefault(lists, t) {
      var k := DefaultPlace(lists, t);
      OneDefaultCounts(entries, t, k);
    }
    if CountDefaults(entries, t) == 1 {
      SomeDefault(entries, t);
      var k :| 0 <= k < |lists| && OfType(entries[k], t) && IsDefault(entries[k]);
      forall i | 0 <= i < |lists| && DefaultOf(lists[i], t) ensures i == k {
        if i < k { TwoDefaultsCount(entries, t, i, k); }
        if k < i { TwoDefaultsCount(entries, t, k, i); }
      }
      DefaultAt(lists, t, k);
    }
  }

  lemma TombstonesAgree(file: File, id: string)
    ensures Some(id) in AsRaw(file).tombstones <==> id in file.tombstones
  {
    if id in file.tombstones {
      var i :| 0 <= i < |file.tombstones| && file.tombstones[i] == id;
      assert AsRaw(file).tombstones[i] == Some(id);
    }
  }

  lemma EntriesAgree(file: File, i: nat)
    requires i < |file.lists|
    ensures var e := AsRaw(file).lists[i];
            (Shape(e) && e.order.value >= 0.0 && e.id !in AsRaw(file).tombstones) <==> (OkList(file.lists[i]) && file.lists[i].id !in file.tombstones)
  {
    TombstonesAgree(file, file.lists[i].id);
  }

  /** The validator accepts exactly the well-formed files. */
  lemma AcceptedIffWellformed(file: File)
    ensures Accepted(AsRaw(file)) <==> Wellformed(file)
  {
    hide OneDefault, CountDefaults, Shape, OkList;
    var raw := AsRaw(file);
    forall i | 0 <= i < |file.lists| ensures raw.lists[i].id == Some(file.lists[i].id) && file.lists[i] in file.lists {
      EntriesAgree(file, i);
    }
    assert (forall i :: 0 <= i < |raw.lists| ==> Shape(raw.lists[i]) && raw.lists[i].order.value >= 0.0 && raw.lists[i].id !in raw.tombstones)
      <==> (forall l :: l in file.lists ==> OkList(l) && l.id !in file.tombstones) by {
      forall i | 0 <= i < |file.lists| ensures (Shape(raw.lists[i]) && raw.lists[i].order.value >= 0.0 && raw.lists[i].id !in raw.tombstones)
          <==> (OkList(file.lists[i]) && file.lists[i].id !in file.tombstones) {
        EntriesAgree(file, i);
      }
    }
    if Distinct(file.lists) {
      forall t: ListType ensures CountDefaults(raw.lists, t) == 1 <==> OneDefault(file.lists, t) {
        CountIsOneDefault(file.lists, t);
      }
    }
  }

  // ----- Histories -----

  function SeedName(t: ListType): string {
    match t
    case Archived => "Backlog"
    case Review => "Review"
    case Ready => "To Do"
    case InProgress => "In Progress"
    case Completed => "Done"
    case Cancelled => "Cancelled"
  }

  function SeedList(ids: seq<string>, k: nat): List
    requires |ids| == |LIST_TYPES| && k < |LIST_TYPES|
  {
    List(ids[k], SeedName(LIST_TYPES[k]), LIST_TYPES[k], k as real, true, SeedColor(LIST_TYPES[k]))
  }

  /** The seed, with the ids drawn for it. */
  function DefaultLists(ids: seq<string>): File
    requires |ids| == |LIST_TYPES|
  {
    File(seq(|LIST_TYPES|, k requires 0 <= k < |LIST_TYPES| => SeedList(ids, k)), [])
  }

  predicate FreshIds(ids: seq<string>) {
    && |ids| == |LIST_TYPES| && (forall id :: id in ids ==> id != "")
    && (forall i, j :: 0 <= i < j < |ids| ==> ids[i] != ids[j])
  }

  lemma SeedListsAreOk(ids: seq<string>)
    requires FreshIds(ids)
    ensures forall l :: l in DefaultLists(ids).lists ==> OkList(l)
    ensures Distinct(DefaultLists(ids).lists)
  {
    var file := DefaultLists(ids);
    forall l | l in file.lists ensures OkList(l) {
      var k :| 0 <= k < |LIST_TYPES| && file.lists[k] == l;
      SeedColorsAreColors(l.kind);
      assert ids[k] in ids;
    }
  }

  lemma SeedHasDefaults(ids: seq<string>, t: ListType)
    requires |ids| == |LIST_TYPES|
    ensures OneDefault(DefaultLists(ids).lists, t)
  {
    EveryTypeIsListed(t);
    var k :| 0 <= k < |LIST_TYPES| && LIST_TYPES[k] == t;
    DefaultAt(DefaultLists(ids).lists, t, k);
  }

  lemma SeedIsWellformed(ids: seq<string>)
    requires FreshIds(ids)
    ensures Wellformed(DefaultLists(ids)) && NamedTombstones(DefaultLists(ids))
  {
    hide OkList, Distinct, OneDefault;
    SeedListsAreOk(ids);
    forall t: ListType ensures OneDefault(DefaultLists(ids).lists, t) {
      SeedHasDefaults(ids, t);
    }
  }

  datatype Step =
    | Create(input: CreateInput, id: string)
    | Update(id: string, patch: UpdateInput)
    | Delete(id: string)
    | Swap(a: string, b: string)

  /** One edit; a rejected edit leaves the file as it was. */
  function Next(file: File, step: Step, rank: string -> int): File {
    match step
    case Create(input, id) => var r := ApplyCreateList(file, input, id); if r.Ok? then r.value.file else file
    case Update(id, patch) => var r := ApplyUpdateList(file, id, patch); if r.Ok? then r.value else file
    case Delete(id) => var r := ApplyDeleteList(file, id, rank); if r.Ok? then r.value.file else file
    case Swap(a, b) => var r := ApplySwapOrder(file, a, b); if r.Ok? then r.value else file
  }

  function Exec(file: File, steps: seq<Step>, rank: string -> int): File
    decreases |steps|
  {
    if steps == [] then file else Exec(Next(file, steps[0], rank), steps[1..], rank)
  }

  /** A drawn id is fresh: no list carries it, none ever did. */
  predicate FreshStep(file: File, step: Step) {
    step.Create? ==> step.id != "" && Find(file.lists, step.id).None? && step.id !in file.tombstones
  }

  predicate FreshRun(file: File, steps: seq<Step>, rank: string -> int)
    decreases |steps|
  {
    steps != [] ==> FreshStep(file, steps[0]) && FreshRun(Next(file, steps[0], rank), steps[1..], rank)
  }

  predicate NamedTombstones(file: File) {
    forall id :: id in file.tombstones ==> id != ""
  }

  lemma StepKeepsWellformed(file: File, step: Step, rank: string -> int)
    requires Wellformed(file) && FreshStep(file, step)
    ensures Wellformed(Next(file, step, rank))
  {
    hide ApplyCreateList, ApplyUpdateList, ApplyDeleteList, ApplySwapOrder, Wellformed;
    match step
    case Create(input, id) => if ApplyCreateList(file, input, id).Ok? { CreateKeeps(file, input, id); }
    case Update(id, patch) => if ApplyUpdateList(file, id, patch).Ok? { UpdateKeeps(file, id, patch); }
    case Delete(id) => if ApplyDeleteList(file, id, rank).Ok? { DeleteKeeps(file, id, rank); }
    case Swap(a, b) => if ApplySwapOrder(file, a, b).Ok? { SwapKeeps(file, a, b); }
  }

  /** The type of the list with this id, while there is one. */
  function TypeOf(file: File, id: string): Option<ListType> {
    var l := Find(file.lists, id);
    if l.Some? then Some(l.value.kind) else None
  }

  lemma {:induction false} RewriteKeepsType(before: seq<List>, after: seq<List>, id: string)
    requires SameIds(before, after) && forall i :: 0 <= i < |before| ==> after[i].kind == before[i].kind
    ensures Find(before, id).Some? == Find(after, id).Some?
    ensures Find(before, id).Some? ==> Find(after, id).value.kind == Find(before, id).value.kind
    decreases |before|
  {
    if before != [] && before[0].id != id {
      RewriteKeepsType(before[1..], after[1..], id);
    }
  }

  lemma {:induction false} FindInLonger(lists: seq<List>, last: List, id: string)
    requires last.id != id
    ensures Find(lists + [last], id) == Find(lists, id)
    decreases |lists|
  {
    if lists != [] {
      assert (lists + [last])[1..] == lists[1..] + [last];
      FindInLonger(lists[1..], last, id);
    }
  }

  lemma {:induction false} FindInRemainder(lists: seq<List>, gone: string, id: string)
    requires gone != id
    ensures Find(Without(lists, gone), id) == Find(lists, id)
    decreases |lists|
  {
    if lists != [] {
      FindInRemainder(lists[1..], gone, id);
      if lists[0].id != gone {
        assert Without(lists, gone)[1..] == Without(lists[1..], gone);
      } else {
        assert Without(lists, gone) == Without(lists[1..], gone);
      }
    }
  }

  lemma CreateKeepsType(file: File, input: CreateInput, fresh_: string, id: string)
    requires ApplyCreateList(file, input, fresh_).Ok? && TypeOf(file, id).Some? && Find(file.lists, fresh_).None?
    ensures TypeOf(ApplyCreateList(file, input, fresh_).value.file, id) == TypeOf(file, id)
  {
    var created := ApplyCreateList(file, input, fresh_).value.created;
    var rest := if created.isDefault then DemoteDefaults(file.lists, created.kind) else file.lists;
    RewriteKeepsType(file.lists, rest, id);
    FindInLonger(rest, created, id);
  }

  lemma DeleteKeepsType(file: File, gone: string, id: string, rank: string -> int)
    requires ApplyDeleteList(file, gone, rank).Ok? && TypeOf(file, id).Some? && gone != id
    ensures TypeOf(ApplyDeleteList(file, gone, rank).value.file, id) == TypeOf(file, id)
  {
    var d := ApplyDeleteList(file, gone, rank).value;
    FindInRemainder(file.lists, gone, id);
    RewriteKeepsType(Without(file.lists, gone), Promote(Without(file.lists, gone), d.reassignTo.id), id);
    DeletedShape(file, gone, rank);
  }

  /** One edit: a live id keeps its type or is tombstoned; tombstones are only ever added. */
  lemma StepKeepsTypes(file: File, step: Step, rank: string -> int, id: string)
    requires FreshStep(file, step)
    ensures file.tombstones <= Next(file, step, rank).tombstones
    ensures TypeOf(file, id).Some? ==>
              TypeOf(Next(file, step, rank), id) == TypeOf(file, id) || id in Next(file, step, rank).tombstones
  {
    var next := Next(file, step, rank);
    match step
    case Create(input, fresh_) =>
      if ApplyCreateList(file, input, fresh_).Ok? && TypeOf(file, id).Some? { CreateKeepsType(file, input, fresh_, id); }
    case Update(target, patch) =>
      if ApplyUpdateList(file, target, patch).Ok? { RewriteKeepsType(file.lists, next.lists, id); }
    case Delete(gone) =>
      if ApplyDeleteList(file, gone, rank).Ok? && TypeOf(file, id).Some? && gone != id { DeleteKeepsType(file, gone, id, rank); }
    case Swap(a, b) =>
      if ApplySwapOrder(file, a, b).Ok? { RewriteKeepsType(file.lists, next.lists, id); }
  }

  lemma {:induction false} RunKeeps(file: File, steps: seq<Step>, rank: string -> int, id: string)
    requires Wellformed(file) && FreshRun(file, steps, rank)
    ensures Wellformed(Exec(file, steps, rank))
    ensures file.tombstones <= Exec(file, steps, rank).tombstones
    ensures TypeOf(file, id).Some? ==>
              TypeOf(Exec(file, steps, rank), id) == TypeOf(file, id) || id in Exec(file, steps, rank).tombstones
    decreases |steps|
  {
    if steps != [] {
      var next := Next(file, steps[0], rank);
      hide Wellformed, TypeOf, Next;
      StepKeepsWellformed(file, steps[0], rank);
      StepKeepsTypes(file, steps[0], rank, id);
      RunKeeps(next, steps[1..], rank, id);
    }
  }

  lemma {:induction false} RunKeepsNames(file: File, steps: seq<Step>, rank: string -> int)
    requires Wellformed(file) && FreshRun(file, steps, rank) && NamedTombstones(file)
    ensures NamedTombstones(Exec(file, steps, rank))
    decreases |steps|
  {
    if steps != [] {
      StepKeepsWellformed(file, steps[0], rank);
      assert NamedTombstones(Next(file, steps[0], rank)) by {
        if steps[0].Delete? && ApplyDeleteList(file, steps[0].id, rank).Ok? {
          assert OkList(Find(file.lists, steps[0].id).value);
        }
      }
      RunKeepsNames(Next(file, steps[0], rank), steps[1..], rank);
    }
  }

  /** Every history of edits from the seed reads back as it was written. */
  lemma EveryHistoryReadsBack(ids: seq<string>, steps: seq<Step>, rank: string -> int)
    requires FreshIds(ids) && FreshRun(DefaultLists(ids), steps, rank)
    ensures Normalize(AsRaw(Exec(DefaultLists(ids), steps, rank))) == Exec(DefaultLists(ids), steps, rank)
  {
    var file := Exec(DefaultLists(ids), steps, rank);
    SeedIsWellformed(ids);
    RunKeeps(DefaultLists(ids), steps, rank, "");
    RunKeepsNames(DefaultLists(ids), steps, rank);
    forall l | l in file.lists ensures Shape(AsEntry(l)) {
      assert OkList(l);
    }
    ReadReturnsWhatWasWritten(file);
  }

  /** Every history of edits from the seed, with fresh ids, stays accepted by the validator. */
  lemma EveryHistoryIsAccepted(ids: seq<string>, steps: seq<Step>, rank: string -> int)
    requires FreshIds(ids) && FreshRun(DefaultLists(ids), steps, rank)
    ensures Accepted(AsRaw(Exec(DefaultLists(ids), steps, rank)))
  {
    SeedIsWellformed(ids);
    RunKeeps(DefaultLists(ids), steps, rank, "");
    AcceptedIffWellformed(Exec(DefaultLists(ids), steps, rank));
  }

  /** A deleted id never names a list again, however the history goes on. */
  lemma DeletedIsNeverRevived(ids: seq<string>, before: seq<Step>, after: seq<Step>, rank: string -> int, id: string)
    requires FreshIds(ids) && FreshRun(DefaultLists(ids), before, rank)
    requires FreshRun(Exec(DefaultLists(ids), before, rank), after, rank)
    requires id in Exec(DefaultLists(ids), before, rank).tombstones
    ensures forall l :: l in Exec(Exec(DefaultLists(ids), before, rank), after, rank).lists ==> l.id != id
  {
    SeedIsWellformed(ids);
    RunKeeps(DefaultLists(ids), before, rank, id);
    RunKeeps(Exec(DefaultLists(ids), before, rank), after, rank, id);
  }

  lemma TypeOfListed(file: File, l: List)
    requires Distinct(file.lists) && l in file.lists
    ensures TypeOf(file, l.id) == Some(l.kind)
  {
    SameIdSameList(file.lists, l, Find(file.lists, l.id).value);
  }

  /** A list that is there before and after a stretch of history has the same type. */
  lemma TypesNeverChange(ids: seq<string>, before: seq<Step>, after: seq<Step>, rank: string -> int, l: List, later: List)
    requires FreshIds(ids) && FreshRun(DefaultLists(ids), before, rank)
    requires FreshRun(Exec(DefaultLists(ids), before, rank), after, rank)
    requires l in Exec(DefaultLists(ids), before, rank).lists
    requires later in Exec(Exec(DefaultLists(ids), before, rank), after, rank).lists && later.id == l.id
    ensures later.kind == l.kind
  {
    SeedIsWellformed(ids);
    RunKeeps(DefaultLists(ids), before, rank, l.id);
    RunKeeps(Exec(DefaultLists(ids), before, rank), after, rank, l.id);
    hide Exec, FreshRun;
    TypeOfListed(Exec(DefaultLists(ids), before, rank), l);
    TypeOfListed(Exec(Exec(DefaultLists(ids), before, rank), after, rank), later);
  }

  // ----- What one more edit does to any history -----

  /** The seed: one default list of each type, in this order, under these names and colours. */
  lemma SeedIs(ids: seq<string>)
    requires FreshIds(ids)
    ensures DefaultLists(ids).tombstones == []
    ensures DefaultLists(ids).lists == [
      List(ids[0], "Backlog", Archived, 0.0, true, "#64748b"), List(ids[1], "Review", Review, 1.0, true, "#3b82f6"),
      List(ids[2], "To Do", Ready, 2.0, true, "#22d3ee"), List(ids[3], "In Progress", InProgress, 3.0, true, "#f59e0b"),
      List(ids[4], "Done", Completed, 4.0, true, "#22c55e"), List(ids[5], "Cancelled", Cancelled, 5.0, true, "#71717a")]
  {
  }

  /** After any history, an edit that is refused leaves the file as it is; a list that is created is there, in its type and under
      its name; one that is updated has taken the patch; one that is deleted is gone, and its id buried; two that are
      swapped have each other's order. */
  lemma EditsTakeEffect(ids: seq<string>, steps: seq<Step>, step: Step, rank: string -> int)
    requires FreshIds(ids) && FreshRun(DefaultLists(ids), steps, rank) && FreshStep(Exec(DefaultLists(ids), steps, rank), step)
    ensures TakesEffect(Exec(DefaultLists(ids), steps, rank), step, Exec(DefaultLists(ids), steps + [step], rank), rank)
  {
    var file := Exec(DefaultLists(ids), steps, rank);
    SeedIsWellformed(ids);
    RunKeeps(DefaultLists(ids), steps, rank, "");
    ExecSnoc(DefaultLists(ids), steps, step, rank);
    hide Exec, FreshRun, Wellformed;
    match step
    case Create(input, id) => CreateTakesEffect(file, input, id, rank);
    case Update(id, patch) => UpdateTakesEffect(file, id, patch, rank);
    case Delete(id) => DeleteTakesEffect(file, id, rank);
    case Swap(a, b) => SwapTakesEffect(file, a, b, rank);
  }

  predicate Refused(file: File, step: Step, rank: string -> int) {
    match step
    case Create(input, id) => ApplyCreateList(file, input, id).Failed?
    case Update(id, patch) => ApplyUpdateList(file, id, patch).Failed?
    case Delete(id) => ApplyDeleteList(file, id, rank).Failed?
    case Swap(a, b) => ApplySwapOrder(file, a, b).Failed?
  }

  ghost predicate TakesEffect(file: File, step: Step, after: File, rank: string -> int) {
    if Refused(file, step, rank) then after == file else
      match step
      case Create(input, id) =>
        exists l :: l in after.lists && l.id == id && input.name == Given(l.name) && input.kind == Given(l.kind)
      case Update(id, patch) => exists l, l' :: l in file.lists && l.id == id && l' in after.lists && TakesPatch(l, l', patch)
      case Delete(id) => id in after.tombstones && forall l :: l in after.lists ==> l.id != id
      case Swap(a, b) =>
        exists la, lb :: la in file.lists && la.id == a && lb in file.lists && lb.id == b
                         && la.(order := lb.order) in after.lists && lb.(order := la.order) in after.lists
  }

  lemma {:induction false} ExecSnoc(file: File, steps: seq<Step>, step: Step, rank: string -> int)
    ensures Exec(file, steps + [step], rank) == Next(Exec(file, steps, rank), step, rank)
    decreases |steps|
  {
    if steps == [] {
      assert [] + [step] == [step] && [step][1..] == [];
    } else {
      assert (steps + [step])[1..] == steps[1..] + [step];
      ExecSnoc(Next(file, steps[0], rank), steps[1..], step, rank);
    }
  }

  lemma CreateTakesEffect(file: File, input: CreateInput, id: string, rank: string -> int)
    requires Wellformed(file)
    ensures TakesEffect(file, Create(input, id), Next(file, Create(input, id), rank), rank)
  {
    CreateResult(file, input, id);
    hide ApplyCreateList, Wellformed;
    if ApplyCreateList(file, input, id).Ok? { assert ApplyCreateList(file, input, id).value.created in Next(file, Create(input, id), rank).lists; }
  }

  lemma UpdateTakesEffect(file: File, id: string, patch: UpdateInput, rank: string -> int)
    requires Wellformed(file)
    ensures TakesEffect(file, Update(id, patch), Next(file, Update(id, patch), rank), rank)
  {
    hide ApplyUpdateList, ApplyCreateList, ApplySwapOrder, ApplyDeleteList, Wellformed, TakesPatch;
    UpdateResult(file, id, patch);
    if ApplyUpdateList(file, id, patch).Ok? {
      var after := ApplyUpdateList(file, id, patch).value;
      var k :| 0 <= k < |file.lists| && file.lists[k].id == id && TakesPatch(file.lists[k], after.lists[k], patch);
      assert file.lists[k] in file.lists && after.lists[k] in after.lists;
    }
  }

  lemma DeleteBuries(file: File, id: string, rank: string -> int)
    requires Wellformed(file) && ApplyDeleteList(file, id, rank).Ok?
    ensures var after := ApplyDeleteList(file, id, rank).value.file;
            id in after.tombstones && forall l :: l in after.lists ==> l.id != id
  {
    DeletedLists(file, id, rank);
    WithoutKeeps(file.lists, id);
    hide ApplyDeleteList, Wellformed, Without;
  }

  lemma DeleteTakesEffect(file: File, id: string, rank: string -> int)
    requires Wellformed(file)
    ensures TakesEffect(file, Delete(id), Next(file, Delete(id), rank), rank)
  {
    if ApplyDeleteList(file, id, rank).Ok? { DeleteBuries(file, id, rank); }
    hide ApplySwapOrder, ApplyCreateList, ApplyUpdateList, ApplyDeleteList, Wellformed, Find;
  }

  ghost predicate Exchanged(before: seq<List>, after: seq<List>, a: string, b: string) {
    exists la, lb :: la in before && la.id == a && lb in before && lb.id == b
                     && la.(order := lb.order) in after && lb.(order := la.order) in after
  }

  lemma SwapExchanges(file: File, a: string, b: string)
    requires Wellformed(file) && ApplySwapOrder(file, a, b).Ok?
    ensures Exchanged(file.lists, ApplySwapOrder(file, a, b).value.lists, a, b)
  {
    hide ApplySwapOrder, Wellformed, Find;
    SwapEffect(file, a, b);
    var after, lists := ApplySwapOrder(file, a, b).value, file.lists;
    var i, j :| 0 <= i < |lists| && 0 <= j < |lists| && lists[i].id == a && lists[j].id == b
                && after.lists[i] == lists[i].(order := lists[j].order) && after.lists[j] == lists[j].(order := lists[i].order);
    assert lists[i] in lists && lists[j] in lists && after.lists[i] in after.lists && after.lists[j] in after.lists;
  }

  lemma SwapTakesEffect(file: File, a: string, b: string, rank: string -> int)
    requires Wellformed(file)
    ensures TakesEffect(file, Swap(a, b), Next(file, Swap(a, b), rank), rank)
  {
    if ApplySwapOrder(file, a, b).Ok? { SwapExchanges(file, a, b); }
    hide ApplySwapOrder, ApplyCreateList, ApplyUpdateList, ApplyDeleteList, Wellformed, Find;
  }
}
