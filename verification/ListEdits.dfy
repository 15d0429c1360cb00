/** The four operators that edit a list file, and what every history of them keeps. */
module ListEdits {
  import opened Values
  import opened ListsFile

  datatype Code = BadShape | NotFound | CrossType | LastOfType

  datatype Result<+T> = Ok(value: T) | Failed(code: Code)

  /** An optional field of a request: absent, of the wrong type or format, or a value. */
  datatype Field<+T> = Absent | Wrong | Given(value: T)

  datatype CreateInput = CreateInput(
    name: Field<string>, kind: Field<ListType>, order: Field<real>, isDefault: Field<bool>, color: Field<string>)

  /** `otherKeys`: the request names something that is not a field of a list, or that cannot be changed. */
  datatype UpdateInput = UpdateInput(
    name: Field<string>, order: Field<real>, isDefault: Field<bool>, color: Field<string>, otherKeys: bool)

  datatype Created = Created(file: File, created: List)

  datatype Deleted = Deleted(file: File, deleted: List, reassignTo: List)

  // ----- Well-formed files -----

  predicate OkList(l: List) {
    l.id != "" && l.name != "" && IsHexColor(l.color) && l.order >= 0.0
  }

  predicate Distinct(lists: seq<List>) {
    forall i, j :: 0 <= i < j < |lists| ==> lists[i].id != lists[j].id
  }

  predicate DefaultOf(l: List, t: ListType) {
    l.kind == t && l.isDefault
  }

  /** Among lists with distinct ids: exactly one is the default of the type. */
  ghost predicate OneDefault(lists: seq<List>, t: ListType) {
    && (exists l :: l in lists && DefaultOf(l, t))
    && (forall a, b :: a in lists && b in lists && DefaultOf(a, t) && DefaultOf(b, t) ==> a == b)
  }

  ghost predicate Wellformed(file: File) {
    && (forall l :: l in file.lists ==> OkList(l) && l.id !in file.tombstones)
    && Distinct(file.lists)
    && (forall t: ListType :: OneDefault(file.lists, t))
  }

  // ----- The operators -----

  function Find(lists: seq<List>, id: string): (l: Option<List>)
    ensures l.Some? ==> l.value in lists && l.value.id == id
    ensures l.None? ==> forall x :: x in lists ==> x.id != id
  {
    if lists == [] then None
    else if lists[0].id == id then Some(lists[0])
    else Find(lists[1..], id)
  }

  function FindDefault(lists: seq<List>, t: ListType): (l: Option<List>)
    ensures l.Some? ==> l.value in lists && DefaultOf(l.value, t)
    ensures l.None? ==> forall x :: x in lists ==> !DefaultOf(x, t)
  {
    if lists == [] then None
    else if DefaultOf(lists[0], t) then Some(lists[0])
    else FindDefault(lists[1..], t)
  }

  function MaxOrder(lists: seq<List>, t: ListType): (m: real)
    ensures m >= -1.0 && forall l :: l in lists && l.kind == t ==> l.order <= m
    decreases |lists|
  {
    if lists == [] then -1.0 else
      var n := |lists| - 1;
      var m := MaxOrder(lists[..n], t);
      assert forall l :: l in lists ==> l in lists[..n] || l == lists[n];
      if lists[n].kind == t && lists[n].order > m then lists[n].order else m
  }

  /** Demote whatever is the default of the type. */
  function DemoteDefaults(lists: seq<List>, t: ListType): seq<List> {
    seq(|lists|, i requires 0 <= i < |lists| => if DefaultOf(lists[i], t) then lists[i].(isDefault := false) else lists[i])
  }

  function AddList(lists: seq<List>, created: List): seq<List> {
    (if created.isDefault then DemoteDefaults(lists, created.kind) else lists) + [created]
  }

  predicate ValidCreate(input: CreateInput) {
    && input.name.Given? && input.name.value != "" && input.kind.Given?
    && (input.order.Absent? || (input.order.Given? && input.order.value >= 0.0))
    && !input.isDefault.Wrong?
    && (input.color.Absent? || (input.color.Given? && IsHexColor(input.color.value)))
  }

  function ApplyCreateList(file: File, input: CreateInput, id: string): Result<Created> {
    if !ValidCreate(input) then Failed(BadShape) else
      var t := input.kind.value;
      var existing := FindDefault(file.lists, t);
      var becomesDefault := input.isDefault == Given(true) || existing.None?;
      var order := if input.order.Given? then input.order.value else MaxOrder(file.lists, t) + 1.0;
      var inherited := if existing.Some? then existing.value.color else NEUTRAL_LIST_COLOR;
      var created := List(id, input.name.value, t, order, becomesDefault, if input.color.Given? then input.color.value else inherited);
      Ok(Created(file.(lists := AddList(file.lists, created)), created))
  }

  predicate ValidUpdate(patch: UpdateInput) {
    && (patch.name.Absent? || (patch.name.Given? && patch.name.value != ""))
    && (patch.order.Absent? || (patch.order.Given? && patch.order.value >= 0.0))
    && !patch.isDefault.Wrong?
    && (patch.color.Absent? || (patch.color.Given? && IsHexColor(patch.color.value)))
    && !(patch.name.Absent? && patch.order.Absent? && patch.isDefault.Absent? && patch.color.Absent? && !patch.otherKeys)
  }

  function Or<T>(f: Field<T>, old_: T): T {
    if f.Given? then f.value else old_
  }

  function Patched(l: List, patch: UpdateInput): List {
    l.(name := Or(patch.name, l.name), order := Or(patch.order, l.order),
       isDefault := Or(patch.isDefault, l.isDefault), color := Or(patch.color, l.color))
  }

  function ApplyUpdateList(file: File, id: string, patch: UpdateInput): Result<File> {
    if !ValidUpdate(patch) then Failed(BadShape) else
      var target := Find(file.lists, id);
      if target.None? then Failed(NotFound)
      else if patch.isDefault == Given(false) && target.value.isDefault then Failed(BadShape)
      else
        Ok(file.(lists := UpdateAll(file.lists, id, patch, target.value.kind)))
  }

  function UpdateAll(lists: seq<List>, id: string, patch: UpdateInput, t: ListType): seq<List> {
    seq(|lists|, i requires 0 <= i < |lists| =>
        if lists[i].id == id then Patched(lists[i], patch)
        else if patch.isDefault == Given(true) && DefaultOf(lists[i], t) then lists[i].(isDefault := false)
        else lists[i])
  }

  function Without(lists: seq<List>, id: string): seq<List> {
    if lists == [] then [] else (if lists[0].id == id then [] else [lists[0]]) + Without(lists[1..], id)
  }

  function Siblings(lists: seq<List>, t: ListType, id: string): (siblings: seq<List>)
    ensures forall l :: l in siblings <==> l in lists && l.kind == t && l.id != id
  {
    if lists == [] then [] else
      (if lists[0].kind == t && lists[0].id != id then [lists[0]] else []) + Siblings(lists[1..], t, id)
  }

  /** `rank` stands for the collation of ids. */
  predicate NotAfter(a: List, b: List, rank: string -> int) {
    a.order < b.order || (a.order == b.order && rank(a.id) <= rank(b.id))
  }

  /** The first of the sorted siblings. */
  function Least(siblings: seq<List>, rank: string -> int): (l: List)
    requires siblings != []
    ensures l in siblings && forall other :: other in siblings ==> NotAfter(l, other, rank)
  {
    if |siblings| == 1 then siblings[0] else
      var rest := Least(siblings[1..], rank);
      assert forall other :: other in siblings ==> other == siblings[0] || other in siblings[1..];
      if NotAfter(siblings[0], rest, rank) then siblings[0] else rest
  }

  function Promote(lists: seq<List>, id: string): seq<List> {
    seq(|lists|, i requires 0 <= i < |lists| => if lists[i].id == id then lists[i].(isDefault := true) else lists[i])
  }

  function ApplyDeleteList(file: File, id: string, rank: string -> int): Result<Deleted> {
    var target := Find(file.lists, id);
    if target.None? then Failed(NotFound) else
      var siblings := Siblings(file.lists, target.value.kind, id);
      if siblings == [] then Failed(LastOfType) else
        var existing := FindDefault(siblings, target.value.kind);
        var reassignTo := if existing.Some? then existing.value else Least(siblings, rank);
        var rest := Without(file.lists, id);
        var lists := if target.value.isDefault && existing.None? then Promote(rest, reassignTo.id) else rest;
        Ok(Deleted(File(lists, file.tombstones + [id]), target.value, reassignTo))
  }

  function WithOrder(lists: seq<List>, a: string, aOrder: real, b: string, bOrder: real): seq<List> {
    seq(|lists|, i requires 0 <= i < |lists| =>
        if lists[i].id == a then lists[i].(order := aOrder)
        else if lists[i].id == b then lists[i].(order := bOrder)
        else lists[i])
  }

  function ApplySwapOrder(file: File, a: string, b: string): Result<File> {
    if a == "" || b == "" || a == b then Failed(BadShape) else
      var la, lb := Find(file.lists, a), Find(file.lists, b);
      if la.None? || lb.None? then Failed(NotFound)
      else if la.value.kind != lb.value.kind then Failed(CrossType)
      else Ok(file.(lists := WithOrder(file.lists, a, lb.value.order, b, la.value.order)))
  }

  // ----- Lists with distinct ids -----

  lemma SameIdSameList(lists: seq<List>, a: List, b: List)
    requires Distinct(lists) && a in lists && b in lists && a.id == b.id
    ensures a == b
  {
    var i :| 0 <= i < |lists| && lists[i] == a;
    var j :| 0 <= j < |lists| && lists[j] == b;
  }

  lemma FindAt(lists: seq<List>, i: nat)
    requires Distinct(lists) && i < |lists|
    ensures Find(lists, lists[i].id) == Some(lists[i])
  {
    SameIdSameList(lists, lists[i], Find(lists, lists[i].id).value);
  }

  lemma {:induction false} WithoutKeeps(lists: seq<List>, id: string)
    ensures forall l :: l in Without(lists, id) <==> l in lists && l.id != id
    ensures Distinct(lists) ==> Distinct(Without(lists, id))
    decreases |lists|
  {
    if lists != [] {
      WithoutKeeps(lists[1..], id);
      if Distinct(lists) {
        assert Distinct(lists[1..]) by {
          forall i, j | 0 <= i < j < |lists[1..]| ensures lists[1..][i].id != lists[1..][j].id {
            assert lists[i + 1].id != lists[j + 1].id;
          }
        }
        forall l | l in Without(lists[1..], id) ensures l.id != lists[0].id {
          var k :| 0 <= k < |lists[1..]| && lists[1..][k] == l;
          assert lists[0].id != lists[k + 1].id;
        }
      }
    }
  }

  /** Lists rewritten one by one without touching their ids. */
  ghost predicate SameIds(before: seq<List>, after: seq<List>) {
    |after| == |before| && forall i :: 0 <= i < |before| ==> after[i].id == before[i].id
  }

  lemma RewriteKeepsDistinct(before: seq<List>, after: seq<List>)
    requires Distinct(before) && SameIds(before, after)
    ensures Distinct(after)
  {
    forall i, j | 0 <= i < j < |after| ensures after[i].id != after[j].id {
      assert before[i].id != before[j].id;
    }
  }

  /** Exactly one default of each type, from the one place where it is. */
  lemma DefaultAt(lists: seq<List>, t: ListType, k: nat)
    requires k < |lists| && DefaultOf(lists[k], t)
    requires forall i :: 0 <= i < |lists| && DefaultOf(lists[i], t) ==> i == k
    ensures OneDefault(lists, t)
  {
    assert lists[k] in lists;
    forall a, b | a in lists && b in lists && DefaultOf(a, t) && DefaultOf(b, t) ensures a == b {
      var i :| 0 <= i < |lists| && lists[i] == a;
      var j :| 0 <= j < |lists| && lists[j] == b;
      assert DefaultOf(lists[i], t) && DefaultOf(lists[j], t);
    }
  }

  lemma DefaultPlace(lists: seq<List>, t: ListType) returns (k: nat)
    requires OneDefault(lists, t) && Distinct(lists)
    ensures k < |lists| && DefaultOf(lists[k], t)
    ensures forall i :: 0 <= i < |lists| && DefaultOf(lists[i], t) ==> i == k
  {
    var l :| l in lists && DefaultOf(l, t);
    k :| 0 <= k < |lists| && lists[k] == l;
    forall i | 0 <= i < |lists| && DefaultOf(lists[i], t) ensures i == k {
      assert lists[i] in lists && lists[i] == l;
    }
  }

  // ----- Every operator keeps files well formed -----

  lemma AddListKeepsDefaults(lists: seq<List>, created: List, t: ListType)
    requires Distinct(lists) && OneDefault(lists, t)
    ensures OneDefault(AddList(lists, created), t)
  {
    var k := DefaultPlace(lists, t);
    DefaultAt(AddList(lists, created), t, if DefaultOf(created, t) then |lists| else k);
  }

  lemma AddListKeepsDistinct(lists: seq<List>, created: List)
    requires Distinct(lists) && forall l :: l in lists ==> l.id != created.id
    ensures Distinct(AddList(lists, created))
  {
    var all := AddList(lists, created);
    forall i, j | 0 <= i < j < |all| ensures all[i].id != all[j].id {
      assert all[i].id == lists[i].id && lists[i] in lists;
      if j < |lists| { assert lists[i].id != lists[j].id; }
    }
  }

  lemma AddListKeepsOk(lists: seq<List>, created: List, tombstones: seq<string>)
    requires OkList(created) && created.id !in tombstones
    requires forall l :: l in lists ==> OkList(l) && l.id !in tombstones
    ensures forall l :: l in AddList(lists, created) ==> OkList(l) && l.id !in tombstones
  {
    var all := AddList(lists, created);
    forall l | l in all ensures OkList(l) && l.id !in tombstones {
      var i :| 0 <= i < |all| && all[i] == l;
      if i < |lists| { assert lists[i] in lists; }
    }
  }

  lemma CreatedIsOk(file: File, input: CreateInput, id: string)
    requires Wellformed(file) && ApplyCreateList(file, input, id).Ok? && id != ""
    ensures var result := ApplyCreateList(file, input, id).value;
            OkList(result.created) && result.created.id == id && result.file == file.(lists := AddList(file.lists, result.created))
  {
    hide OneDefault, Distinct, AddList;
    assert IsHexColor(NEUTRAL_LIST_COLOR);
  }

  /** A fresh id keeps the file well formed, whatever the request. */
  lemma CreateKeeps(file: File, input: CreateInput, id: string)
    requires Wellformed(file) && ApplyCreateList(file, input, id).Ok?
    requires id != "" && Find(file.lists, id).None? && id !in file.tombstones
    ensures Wellformed(ApplyCreateList(file, input, id).value.file)
  {
    hide OkList, AddList, Distinct, OneDefault;
    CreatedIsOk(file, input, id);
    hide ApplyCreateList;
    var created := ApplyCreateList(file, input, id).value.created;
    AddListKeepsOk(file.lists, created, file.tombstones);
    AddListKeepsDistinct(file.lists, created);
    forall t: ListType ensures OneDefault(AddList(file.lists, created), t) {
      AddListKeepsDefaults(file.lists, created, t);
    }
  }

  lemma UpdateAllKeepsDefaults(lists: seq<List>, i: nat, patch: UpdateInput, t: ListType)
    requires Distinct(lists) && OneDefault(lists, t) && i < |lists|
    requires !(patch.isDefault == Given(false) && lists[i].isDefault)
    ensures OneDefault(UpdateAll(lists, lists[i].id, patch, lists[i].kind), t)
  {
    var k := DefaultPlace(lists, t);
    assert forall j :: 0 <= j < |lists| && lists[j].id == lists[i].id ==> j == i;
    DefaultAt(UpdateAll(lists, lists[i].id, patch, lists[i].kind), t,
              if patch.isDefault == Given(true) && lists[i].kind == t then i else k);
  }

  lemma UpdateAllKeepsOk(lists: seq<List>, id: string, patch: UpdateInput, t: ListType, tombstones: seq<string>)
    requires ValidUpdate(patch) && forall l :: l in lists ==> OkList(l) && l.id !in tombstones
    ensures forall l :: l in UpdateAll(lists, id, patch, t) ==> OkList(l) && l.id !in tombstones
    ensures SameIds(lists, UpdateAll(lists, id, patch, t))
  {
    var all := UpdateAll(lists, id, patch, t);
    forall l | l in all ensures OkList(l) && l.id !in tombstones {
      var i :| 0 <= i < |all| && all[i] == l;
      assert lists[i] in lists;
    }
  }

  lemma UpdateKeeps(file: File, id: string, patch: UpdateInput)
    requires Wellformed(file) && ApplyUpdateList(file, id, patch).Ok?
    ensures Wellformed(ApplyUpdateList(file, id, patch).value)
  {
    hide OkList, Distinct, OneDefault, UpdateAll, ValidUpdate, SameIds;
    var target := Find(file.lists, id).value;
    var i :| 0 <= i < |file.lists| && file.lists[i] == target;
    var lists := UpdateAll(file.lists, id, patch, target.kind);
    UpdateAllKeepsOk(file.lists, id, patch, target.kind, file.tombstones);
    RewriteKeepsDistinct(file.lists, lists);
    forall t: ListType ensures OneDefault(lists, t) {
      UpdateAllKeepsDefaults(file.lists, i, patch, t);
    }
  }

  /** The reassignment target is the one default of the type after a delete; when the default itself was
      deleted, it is the least of the remaining lists of that type. */
  lemma DeleteReassigns(file: File, id: string, rank: string -> int)
    requires Wellformed(file) && ApplyDeleteList(file, id, rank).Ok?
    ensures var d := ApplyDeleteList(file, id, rank).value;
            && d.deleted in file.lists && d.deleted.id == id
            && d.reassignTo in file.lists && d.reassignTo.id != id && d.reassignTo.kind == d.deleted.kind
            && OneDefault(d.file.lists, d.deleted.kind)
            && (exists l :: l in d.file.lists && l.id == d.reassignTo.id && DefaultOf(l, d.deleted.kind))
            && (d.deleted.isDefault ==> forall l :: l in file.lists && l.id != id && l.kind == d.deleted.kind ==>
                  d.reassignTo.order < l.order || (d.reassignTo.order == l.order && rank(d.reassignTo.id) <= rank(l.id)))
            && (!d.deleted.isDefault ==> d.reassignTo.isDefault)
  {
    var d := ApplyDeleteList(file, id, rank).value;
    var t := d.deleted.kind;
    var siblings := Siblings(file.lists, t, id);
    var rest := Without(file.lists, id);
    WithoutKeeps(file.lists, id);
    var was := DefaultPlace(file.lists, t);
    var default := file.lists[was];
    assert default in file.lists && DefaultOf(default, t);
    if d.deleted.isDefault {
      assert d.deleted == default by { assert DefaultOf(d.deleted, t); }
      assert FindDefault(siblings, t).None?;
      assert d.reassignTo in rest;
      var k :| 0 <= k < |rest| && rest[k] == d.reassignTo;
      forall i | 0 <= i < |rest| && DefaultOf(d.file.lists[i], t) ensures i == k {
        assert rest[i] in rest && rest[i] in file.lists && rest[i] != default;
      }
      DefaultAt(d.file.lists, t, k);
      assert d.file.lists[k] in d.file.lists;
    } else {
      assert default in siblings && FindDefault(siblings, t) == Some(default);
      assert default in rest;
    }
  }

  lemma PromoteKeepsOtherDefaults(lists: seq<List>, l: List, t: ListType)
    requires Distinct(lists) && l in lists && l.kind != t && OneDefault(lists, t)
    ensures OneDefault(Promote(lists, l.id), t)
  {
    var k := DefaultPlace(lists, t);
    forall i | 0 <= i < |lists| && lists[i].id == l.id ensures lists[i].kind != t {
      SameIdSameList(lists, lists[i], l);
    }
    DefaultAt(Promote(lists, l.id), t, k);
  }

  lemma WithoutKeepsOtherDefaults(lists: seq<List>, target: List, t: ListType)
    requires Distinct(lists) && target in lists && target.kind != t && OneDefault(lists, t)
    ensures OneDefault(Without(lists, target.id), t)
  {
    WithoutKeeps(lists, target.id);
    var l :| l in lists && DefaultOf(l, t);
    assert l.id != target.id by { if l.id == target.id { SameIdSameList(lists, l, target); } }
    assert l in Without(lists, target.id);
  }

  lemma DeleteKeepsOtherDefaults(file: File, id: string, rank: string -> int, t: ListType)
    requires Wellformed(file) && ApplyDeleteList(file, id, rank).Ok?
    requires t != ApplyDeleteList(file, id, rank).value.deleted.kind
    ensures OneDefault(ApplyDeleteList(file, id, rank).value.file.lists, t)
  {
    hide Distinct, OneDefault, Without, Promote, OkList;
    var d := ApplyDeleteList(file, id, rank).value;
    assert OneDefault(file.lists, t);
    WithoutKeeps(file.lists, id);
    WithoutKeepsOtherDefaults(file.lists, d.deleted, t);
    PromoteKeepsOtherDefaults(Without(file.lists, id), d.reassignTo, t);
  }

  lemma PromoteKeepsOk(lists: seq<List>, id: string)
    requires forall l :: l in lists ==> OkList(l)
    ensures forall l :: l in Promote(lists, id) ==> OkList(l) && exists was :: was in lists && was.id == l.id
    ensures SameIds(lists, Promote(lists, id))
  {
    var all := Promote(lists, id);
    forall l | l in all ensures OkList(l) && exists was :: was in lists && was.id == l.id {
      var i :| 0 <= i < |all| && all[i] == l;
      assert lists[i] in lists;
    }
  }

  lemma DeleteKeepsDefaults(file: File, id: string, rank: string -> int)
    requires Wellformed(file) && ApplyDeleteList(file, id, rank).Ok?
    ensures forall t: ListType :: OneDefault(ApplyDeleteList(file, id, rank).value.file.lists, t)
  {
    hide *;
    forall t: ListType ensures OneDefault(ApplyDeleteList(file, id, rank).value.file.lists, t) {
      if t == ApplyDeleteList(file, id, rank).value.deleted.kind {
        DeleteReassigns(file, id, rank);
      } else {
        DeleteKeepsOtherDefaults(file, id, rank, t);
      }
    }
  }

  lemma RemovalKeepsOk(file: File, id: string, promoted: string)
    requires Distinct(file.lists) && forall l :: l in file.lists ==> OkList(l) && l.id !in file.tombstones
    ensures Distinct(Without(file.lists, id)) && Distinct(Promote(Without(file.lists, id), promoted))
    ensures forall l :: l in Without(file.lists, id) ==> OkList(l) && l.id !in file.tombstones + [id]
    ensures forall l :: l in Promote(Without(file.lists, id), promoted) ==> OkList(l) && l.id !in file.tombstones + [id]
  {
    hide Distinct, Without, Promote, OkList, SameIds;
    var rest := Without(file.lists, id);
    WithoutKeeps(file.lists, id);
    PromoteKeepsOk(rest, promoted);
    RewriteKeepsDistinct(rest, Promote(rest, promoted));
  }

  lemma DeletedShape(file: File, id: string, rank: string -> int)
    requires ApplyDeleteList(file, id, rank).Ok?
    ensures var d := ApplyDeleteList(file, id, rank).value;
            && d.file.tombstones == file.tombstones + [id]
            && (d.file.lists == Without(file.lists, id) || d.file.lists == Promote(Without(file.lists, id), d.reassignTo.id))
  {
  }

  lemma DeleteKeeps(file: File, id: string, rank: string -> int)
    requires Wellformed(file) && ApplyDeleteList(file, id, rank).Ok?
    ensures Wellformed(ApplyDeleteList(file, id, rank).value.file)
  {
    hide ApplyDeleteList, Distinct, OneDefault, Without, Promote, OkList;
    DeletedShape(file, id, rank);
    DeleteKeepsDefaults(file, id, rank);
    RemovalKeepsOk(file, id, ApplyDeleteList(file, id, rank).value.reassignTo.id);
  }

  /** Changing orders only. */
  lemma ReorderKeeps(file: File, lists: seq<List>)
    requires Wellformed(file) && |lists| == |file.lists|
    requires forall i :: 0 <= i < |lists| ==> lists[i] == file.lists[i].(order := lists[i].order) && lists[i].order >= 0.0
    ensures Wellformed(file.(lists := lists))
  {
    RewriteKeepsDistinct(file.lists, lists);
    forall l | l in lists ensures OkList(l) && l.id !in file.tombstones {
      var i :| 0 <= i < |lists| && lists[i] == l;
      assert file.lists[i] in file.lists;
    }
    forall t: ListType ensures OneDefault(lists, t) {
      var k := DefaultPlace(file.lists, t);
      DefaultAt(lists, t, k);
    }
  }

  lemma SwapKeeps(file: File, a: string, b: string)
    requires Wellformed(file) && ApplySwapOrder(file, a, b).Ok?
    ensures Wellformed(ApplySwapOrder(file, a, b).value)
  {
    hide OneDefault, Distinct;
    var la, lb := Find(file.lists, a).value, Find(file.lists, b).value;
    var lists := WithOrder(file.lists, a, lb.order, b, la.order);
    forall i | 0 <= i < |lists| ensures lists[i] == file.lists[i].(order := lists[i].order) && lists[i].order >= 0.0 {
      assert OkList(la) && OkList(lb) && file.lists[i] in file.lists;
    }
    ReorderKeeps(file, lists);
  }

  // ----- What each operator does, and when it refuses -----

  lemma {:induction false} MaxOrderIsReached(lists: seq<List>, t: ListType)
    ensures MaxOrder(lists, t) == -1.0 || exists l :: l in lists && l.kind == t && l.order == MaxOrder(lists, t)
    decreases |lists|
  {
    if lists != [] { MaxOrderIsReached(lists[..|lists| - 1], t); }
  }

  /** The new list comes last, as asked; what was not asked follows the type: the next order after all its
      lists, the colour of its default, and default only if asked. Of the others only a default of that type
      may change, and only by losing its place to the new one. */
  lemma CreateResult(file: File, input: CreateInput, id: string)
    requires Wellformed(file)
    ensures ApplyCreateList(file, input, id).Ok? || ApplyCreateList(file, input, id) == Failed(BadShape)
    ensures ApplyCreateList(file, input, id) == Failed(BadShape) <==>
              || input.name.Absent? || input.name.Wrong? || input.name == Given("")
              || input.kind.Absent? || input.kind.Wrong?
              || input.order.Wrong? || (input.order.Given? && input.order.value < 0.0)
              || input.isDefault.Wrong?
              || input.color.Wrong? || (input.color.Given? && !IsHexColor(input.color.value))
    ensures ApplyCreateList(file, input, id).Ok? ==>
              var r := ApplyCreateList(file, input, id).value;
              var l := r.created;
              var n := |file.lists|;
              && |r.file.lists| == n + 1 && r.file.lists[n] == l && r.file.tombstones == file.tombstones
              && l.id == id && input.name == Given(l.name) && input.kind == Given(l.kind)
              && (l.isDefault <==> input.isDefault == Given(true))
              && (if input.order.Given? then l.order == input.order.value
                  else (exists last :: last in file.lists && last.kind == l.kind && l.order == last.order + 1.0)
                       && forall other :: other in file.lists && other.kind == l.kind ==> other.order + 1.0 <= l.order)
              && (if input.color.Given? then l.color == input.color.value
                  else exists d :: d in file.lists && DefaultOf(d, l.kind) && l.color == d.color)
              && forall i :: 0 <= i < n ==>
                   r.file.lists[i] == file.lists[i].(isDefault := file.lists[i].isDefault && !(l.isDefault && file.lists[i].kind == l.kind))
  {
    if ValidCreate(input) {
      var t := input.kind.value;
      assert OneDefault(file.lists, t);
      var d :| d in file.lists && DefaultOf(d, t);
      assert OkList(d);
      MaxOrderIsReached(file.lists, t);
    }
  }

  /** A patch with a field of the wrong form, or with none at all. */
  predicate IllFormed(patch: UpdateInput) {
    || patch.name.Wrong? || patch.name == Given("")
    || patch.order.Wrong? || (patch.order.Given? && patch.order.value < 0.0)
    || patch.isDefault.Wrong?
    || patch.color.Wrong? || (patch.color.Given? && !IsHexColor(patch.color.value))
    || (patch.name.Absent? && patch.order.Absent? && patch.isDefault.Absent? && patch.color.Absent? && !patch.otherKeys)
  }

  /** Each field is what the patch gives, or what it was. */
  predicate TakesPatch(before: List, after: List, patch: UpdateInput) {
    && after.id == before.id && after.kind == before.kind
    && (patch.name.Given? ==> after.name == patch.name.value) && (patch.name.Absent? ==> after.name == before.name)
    && (patch.order.Given? ==> after.order == patch.order.value) && (patch.order.Absent? ==> after.order == before.order)
    && (patch.isDefault.Given? ==> after.isDefault == patch.isDefault.value)
    && (patch.isDefault.Absent? ==> after.isDefault == before.isDefault)
    && (patch.color.Given? ==> after.color == patch.color.value) && (patch.color.Absent? ==> after.color == before.color)
  }

  lemma PatchedTakesPatch(l: List, patch: UpdateInput)
    requires !IllFormed(patch)
    ensures TakesPatch(l, Patched(l, patch), patch)
  {
  }

  lemma IllFormedIs(patch: UpdateInput)
    ensures ValidUpdate(patch) <==> !IllFormed(patch)
  {
  }

  /** A patch is refused when it is ill-formed, names no list, or would take a type's default away; otherwise
      it changes the fields it gives in the list it names, and a promotion demotes the default it replaces. */
  lemma UpdateResult(file: File, id: string, patch: UpdateInput)
    requires Wellformed(file)
    ensures var r := ApplyUpdateList(file, id, patch);
            && (r.Ok? || r == Failed(NotFound) || r == Failed(BadShape))
            && (r == Failed(NotFound) <==> !IllFormed(patch) && forall l :: l in file.lists ==> l.id != id)
            && (r == Failed(BadShape) <==>
                  IllFormed(patch) || (exists l :: l in file.lists && l.id == id && l.isDefault && patch.isDefault == Given(false)))
            && (r.Ok? ==>
                  && |r.value.lists| == |file.lists| && r.value.tombstones == file.tombstones
                  && exists k :: 0 <= k < |file.lists| && file.lists[k].id == id
                       && TakesPatch(file.lists[k], r.value.lists[k], patch)
                       && forall i :: 0 <= i < |file.lists| && i != k ==>
                            r.value.lists[i] == file.lists[i].(isDefault := file.lists[i].isDefault &&
                                                               !(patch.isDefault == Given(true) && file.lists[i].kind == file.lists[k].kind)))
  {
    hide OneDefault, OkList, ValidUpdate, IllFormed, TakesPatch, Patched;
    IllFormedIs(patch);
    var target := Find(file.lists, id);
    if target.Some? {
      var k :| 0 <= k < |file.lists| && file.lists[k] == target.value;
      forall l | l in file.lists && l.id == id ensures l == target.value {
        SameIdSameList(file.lists, l, target.value);
      }
      assert forall i :: 0 <= i < |file.lists| && i != k ==> file.lists[i].id != id by {
        forall i | 0 <= i < |file.lists| && i != k ensures file.lists[i].id != id {
          if i < k { assert file.lists[i].id != file.lists[k].id; } else { assert file.lists[k].id != file.lists[i].id; }
        }
      }
      var r := ApplyUpdateList(file, id, patch);
      if r.Ok? {
        PatchedTakesPatch(file.lists[k], patch);
        assert r.value.lists[k] == Patched(file.lists[k], patch);
      }
    }
  }

  lemma {:induction false} WithoutCloses(lists: seq<List>, k: nat)
    requires k < |lists| && Distinct(lists)
    ensures Without(lists, lists[k].id) == lists[..k] + lists[k + 1..]
    decreases |lists|
  {
    var id, rest := lists[k].id, lists[1..];
    forall i, j | 0 <= i < j < |rest| ensures rest[i].id != rest[j].id {
      assert lists[i + 1].id != lists[j + 1].id;
    }
    if k == 0 {
      forall i | 0 <= i < |rest| ensures rest[i].id != id {
        assert lists[0].id != lists[i + 1].id;
      }
      NothingToRemove(rest, id);
    } else {
      assert lists[0].id != lists[k].id && rest[k - 1] == lists[k];
      WithoutCloses(rest, k - 1);
      assert [lists[0]] + (rest[..k - 1] + rest[k..]) == lists[..k] + lists[k + 1..];
    }
  }

  lemma {:induction false} NothingToRemove(lists: seq<List>, id: string)
    requires forall i :: 0 <= i < |lists| ==> lists[i].id != id
    ensures Without(lists, id) == lists
    decreases |lists|
  {
    if lists != [] { NothingToRemove(lists[1..], id); }
  }

  lemma PlaceOf(file: File, id: string) returns (k: nat)
    requires Distinct(file.lists) && Find(file.lists, id).Some?
    ensures k < |file.lists| && file.lists[k] == Find(file.lists, id).value
    ensures Without(file.lists, id) == file.lists[..k] + file.lists[k + 1..]
  {
    k :| 0 <= k < |file.lists| && file.lists[k] == Find(file.lists, id).value;
    WithoutCloses(file.lists, k);
  }

  lemma DeleteRefused(file: File, id: string, rank: string -> int)
    requires Wellformed(file)
    ensures var r := ApplyDeleteList(file, id, rank);
            && (r.Ok? || r == Failed(NotFound) || r == Failed(LastOfType))
            && (r == Failed(NotFound) <==> forall l :: l in file.lists ==> l.id != id)
            && (r == Failed(LastOfType) <==>
                  exists l :: l in file.lists && l.id == id && forall other :: other in file.lists && other.kind == l.kind ==> other.id == id)
  {
    hide OkList, OneDefault, Wellformed, Without, FindDefault, Least, Promote;
    var target := Find(file.lists, id);
    if target.Some? {
      assert Distinct(file.lists) by { DistinctOf(file); }
      forall l | l in file.lists && l.id == id ensures l == target.value {
        SameIdSameList(file.lists, l, target.value);
      }
      var siblings := Siblings(file.lists, target.value.kind, id);
      if siblings != [] { assert siblings[0] in siblings; }
    }
  }

  lemma DeletedLists(file: File, id: string, rank: string -> int)
    requires Wellformed(file) && ApplyDeleteList(file, id, rank).Ok?
    ensures var d := ApplyDeleteList(file, id, rank).value;
            && Find(file.lists, id) == Some(d.deleted) && d.file.tombstones == file.tombstones + [id]
            && d.file.lists == if d.deleted.isDefault then Promote(Without(file.lists, id), d.reassignTo.id) else Without(file.lists, id)
  {
    hide Wellformed, Without, Promote;
    var target := Find(file.lists, id).value;
    if target.isDefault { OnlyDefault(file, target); }
  }

  /** One list taken out, and of the others one perhaps promoted. */
  lemma ClosedUp(lists: seq<List>, k: nat, promotes: bool, id: string)
    requires k < |lists|
    ensures var rest := lists[..k] + lists[k + 1..];
            var after := if promotes then Promote(rest, id) else rest;
            && |after| == |lists| - 1
            && forall i :: 0 <= i < |after| ==>
                 var was := lists[if i < k then i else i + 1]; after[i] == was.(isDefault := was.isDefault || (promotes && was.id == id))
  {
    var rest := lists[..k] + lists[k + 1..];
    forall i | 0 <= i < |rest| ensures rest[i] == lists[if i < k then i else i + 1] { }
    hide Promote;
    if promotes { PromotedAre(rest, id); }
  }

  lemma PromotedAre(lists: seq<List>, id: string)
    ensures |Promote(lists, id)| == |lists|
    ensures forall i :: 0 <= i < |lists| ==> Promote(lists, id)[i] == lists[i].(isDefault := lists[i].isDefault || lists[i].id == id)
  {
  }

  lemma DeleteEffect(file: File, id: string, rank: string -> int)
    requires Wellformed(file) && ApplyDeleteList(file, id, rank).Ok?
    ensures var d := ApplyDeleteList(file, id, rank).value;
            && d.file.tombstones == file.tombstones + [id]
            && |d.file.lists| == |file.lists| - 1
            && exists k :: 0 <= k < |file.lists| && file.lists[k] == d.deleted && d.deleted.id == id
                 && forall i :: 0 <= i < |d.file.lists| ==>
                      var was := file.lists[if i < k then i else i + 1];
                      d.file.lists[i] == was.(isDefault := was.isDefault || (d.deleted.isDefault && was.id == d.reassignTo.id))
  {
    hide ApplyDeleteList, Wellformed, Without, Find, Distinct, Promote;
    DeletedLists(file, id, rank);
    var d := ApplyDeleteList(file, id, rank).value;
    DistinctOf(file);
    var k := PlaceOf(file, id);
    ClosedUp(file.lists, k, d.deleted.isDefault, d.reassignTo.id);
  }

  /** A delete is refused when it names no list or the last of its type; otherwise exactly that list goes, the
      rest close up, and only the reassignment target may change, by becoming the default. */
  lemma DeleteResult(file: File, id: string, rank: string -> int)
    requires Wellformed(file)
    ensures var r := ApplyDeleteList(file, id, rank);
            && (r.Ok? || r == Failed(NotFound) || r == Failed(LastOfType))
            && (r == Failed(NotFound) <==> forall l :: l in file.lists ==> l.id != id)
            && (r == Failed(LastOfType) <==>
                  exists l :: l in file.lists && l.id == id && forall other :: other in file.lists && other.kind == l.kind ==> other.id == id)
            && (r.Ok? ==>
                  var d := r.value;
                  && d.file.tombstones == file.tombstones + [id]
                  && |d.file.lists| == |file.lists| - 1
                  && exists k :: 0 <= k < |file.lists| && file.lists[k] == d.deleted && d.deleted.id == id
                       && forall i :: 0 <= i < |d.file.lists| ==>
                            var was := file.lists[if i < k then i else i + 1];
                            d.file.lists[i] == was.(isDefault := was.isDefault || (d.deleted.isDefault && was.id == d.reassignTo.id)))
  {
    hide ApplyDeleteList;
    DeleteRefused(file, id, rank);
    if ApplyDeleteList(file, id, rank).Ok? { DeleteEffect(file, id, rank); }
  }

  lemma DistinctOf(file: File)
    requires Wellformed(file)
    ensures Distinct(file.lists)
  {
  }

  /** No other list of the type is its default. */
  lemma OnlyDefault(file: File, default: List)
    requires Wellformed(file) && default in file.lists && default.isDefault
    ensures forall l :: l in file.lists && l.kind == default.kind && l.id != default.id ==> !l.isDefault
  {
    assert OneDefault(file.lists, default.kind);
    forall l | l in file.lists && l.kind == default.kind && l.id != default.id ensures !l.isDefault {
      if l.isDefault { assert DefaultOf(l, default.kind) && DefaultOf(default, default.kind); }
    }
  }

  // ----- Swapping -----

  function Orders(lists: seq<List>): seq<real> {
    seq(|lists|, i requires 0 <= i < |lists| => lists[i].order)
  }

  lemma SwappedPlaces(file: File, a: string, b: string) returns (i: nat, j: nat)
    requires Distinct(file.lists) && ApplySwapOrder(file, a, b).Ok?
    ensures i < |file.lists| && j < |file.lists| && i != j && file.lists[i].id == a && file.lists[j].id == b
    ensures var lists := ApplySwapOrder(file, a, b).value.lists;
            lists == file.lists[i := file.lists[i].(order := file.lists[j].order)][j := file.lists[j].(order := file.lists[i].order)]
  {
    var la, lb := Find(file.lists, a).value, Find(file.lists, b).value;
    i :| 0 <= i < |file.lists| && file.lists[i] == la;
    j :| 0 <= j < |file.lists| && file.lists[j] == lb;
    forall k | 0 <= k < |file.lists| ensures (file.lists[k].id == a ==> k == i) && (file.lists[k].id == b ==> k == j) {
      if k < i { assert file.lists[k].id != file.lists[i].id; }
      if k < j { assert file.lists[k].id != file.lists[j].id; }
    }
  }

  lemma SwapIsPermutation(xs: seq<real>, i: nat, j: nat)
    requires i < |xs| && j < |xs|
    ensures multiset(xs[i := xs[j]][j := xs[i]]) == multiset(xs)
  {
    if i == j {
      assert xs[i := xs[j]][j := xs[i]] == xs;
    }
  }

  lemma SwapRefused(file: File, a: string, b: string)
    requires Wellformed(file)
    ensures var r := ApplySwapOrder(file, a, b);
            && (r.Ok? || r == Failed(BadShape) || r == Failed(NotFound) || r == Failed(CrossType))
            && (r == Failed(BadShape) <==> a == "" || b == "" || a == b)
            && (r == Failed(NotFound) <==>
                  a != "" && b != "" && a != b && ((forall l :: l in file.lists ==> l.id != a) || forall l :: l in file.lists ==> l.id != b))
            && (r == Failed(CrossType) <==>
                  a != "" && b != "" && a != b
                  && exists la, lb :: la in file.lists && lb in file.lists && la.id == a && lb.id == b && la.kind != lb.kind)
  {
    DistinctOf(file);
    hide Wellformed, WithOrder;
    var la, lb := Find(file.lists, a), Find(file.lists, b);
    if la.Some? && lb.Some? {
      forall l | l in file.lists && l.id == a ensures l == la.value { SameIdSameList(file.lists, l, la.value); }
      forall l | l in file.lists && l.id == b ensures l == lb.value { SameIdSameList(file.lists, l, lb.value); }
    }
  }

  lemma SwapEffect(file: File, a: string, b: string)
    requires Wellformed(file) && ApplySwapOrder(file, a, b).Ok?
    ensures var u := ApplySwapOrder(file, a, b).value;
            && |u.lists| == |file.lists| && u.tombstones == file.tombstones
            && exists i, j :: 0 <= i < |file.lists| && 0 <= j < |file.lists| && file.lists[i].id == a && file.lists[j].id == b
                 && u.lists[i] == file.lists[i].(order := file.lists[j].order)
                 && u.lists[j] == file.lists[j].(order := file.lists[i].order)
                 && forall k :: 0 <= k < |file.lists| && k != i && k != j ==> u.lists[k] == file.lists[k]
  {
    DistinctOf(file);
    assert ApplySwapOrder(file, a, b).value.tombstones == file.tombstones;
    hide ApplySwapOrder, Wellformed, Distinct;
    var i, j := SwappedPlaces(file, a, b);
    var lists := file.lists;
    var u := ApplySwapOrder(file, a, b).value.lists;
    assert u[i] == lists[i].(order := lists[j].order) && u[j] == lists[j].(order := lists[i].order);
  }

  /** A swap is refused when an id is empty or both are the same, when either names no list, or when their types differ;
      otherwise each of the two lists takes the other's order, and nothing else changes. */
  lemma SwapResult(file: File, a: string, b: string)
    requires Wellformed(file)
    ensures var r := ApplySwapOrder(file, a, b);
            && (r.Ok? || r == Failed(BadShape) || r == Failed(NotFound) || r == Failed(CrossType))
            && (r == Failed(BadShape) <==> a == "" || b == "" || a == b)
            && (r == Failed(NotFound) <==>
                  a != "" && b != "" && a != b && ((forall l :: l in file.lists ==> l.id != a) || forall l :: l in file.lists ==> l.id != b))
            && (r == Failed(CrossType) <==>
                  a != "" && b != "" && a != b
                  && exists la, lb :: la in file.lists && lb in file.lists && la.id == a && lb.id == b && la.kind != lb.kind)
            && (r.Ok? ==>
                  && |r.value.lists| == |file.lists| && r.value.tombstones == file.tombstones
                  && exists i, j :: 0 <= i < |file.lists| && 0 <= j < |file.lists| && file.lists[i].id == a && file.lists[j].id == b
                       && r.value.lists[i] == file.lists[i].(order := file.lists[j].order)
                       && r.value.lists[j] == file.lists[j].(order := file.lists[i].order)
                       && forall k :: 0 <= k < |file.lists| && k != i && k != j ==> r.value.lists[k] == file.lists[k])
  {
    hide ApplySwapOrder;
    SwapRefused(file, a, b);
    if ApplySwapOrder(file, a, b).Ok? { SwapEffect(file, a, b); }
  }

  /** A swap moves orders about and loses none. */
  lemma SwapKeepsOrders(file: File, a: string, b: string)
    requires Wellformed(file) && ApplySwapOrder(file, a, b).Ok?
    ensures multiset(Orders(ApplySwapOrder(file, a, b).value.lists)) == multiset(Orders(file.lists))
  {
    hide OneDefault, ApplySwapOrder;
    var i, j := SwappedPlaces(file, a, b);
    var xs := Orders(file.lists);
    assert Orders(ApplySwapOrder(file, a, b).value.lists) == xs[i := xs[j]][j := xs[i]];
    SwapIsPermutation(xs, i, j);
  }

  /** Swapping twice changes nothing. */
  lemma SwapTwiceIsIdentity(file: File, a: string, b: string)
    requires Wellformed(file) && ApplySwapOrder(file, a, b).Ok?
    ensures ApplySwapOrder(ApplySwapOrder(file, a, b).value, a, b) == Ok(file)
  {
    hide OneDefault;
    var once := ApplySwapOrder(file, a, b).value;
    SwapKeeps(file, a, b);
    var i, j := SwappedPlaces(file, a, b);
    assert once.lists[i] in once.lists && once.lists[j] in once.lists;
    FindAt(once.lists, i);
    FindAt(once.lists, j);
    FindAt(file.lists, i);
    FindAt(file.lists, j);
    hide Find;
    assert ApplySwapOrder(once, a, b).Ok?;
    hide ApplySwapOrder;
    var m, n := SwappedPlaces(once, a, b);
    assert m == i && n == j;
    assert ApplySwapOrder(once, a, b).value.lists == file.lists;
  }
}
