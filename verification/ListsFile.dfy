/** The list taxonomy: what a valid file is, the validator that gathers every fault, reading, and the four
    operators that edit a file. */
module ListsFile {
  import opened Values

  datatype ListType = Archived | Review | Ready | InProgress | Completed | Cancelled

  const LIST_TYPES: seq<ListType> := [Archived, Review, Ready, InProgress, Completed, Cancelled]

  const NEUTRAL_LIST_COLOR := "#94a3b8"

  datatype List = List(id: string, name: string, kind: ListType, order: real, isDefault: bool, color: string)

  datatype File = File(lists: seq<List>, tombstones: seq<string>)

  // ----- Entries as parsed, before any check -----

  /** The `type` string: one of the six, the retired "blocked", or anything else. */
  datatype Kind = Known(value: ListType) | Blocked | Unknown

  /** A field that should be a boolean; other values are truthy or not. */
  datatype Flag = Bool(value: bool) | Junk(truthy: bool)

  /** None stands for a missing field or one of the wrong type; `order` is Some only when finite. */
  datatype Entry =
    | NoObject
    | Entry(id: Option<string>, name: Option<string>, kind: Kind, order: Option<real>, isDefault: Flag, color: Option<string>)

  datatype RawFile = RawFile(lists: seq<Entry>, tombstones: seq<Option<string>>)

  predicate IsHexDigit(c: char) {
    '0' <= c <= '9' || 'a' <= c <= 'f' || 'A' <= c <= 'F'
  }

  predicate IsHexColor(s: string) {
    (|s| == 4 || |s| == 7) && s[0] == '#' && forall i :: 1 <= i < |s| ==> IsHexDigit(s[i])
  }

  /** A colour is a number sign and three or six hexadecimal digits, large or small. */
  lemma HexColorIs(s: string)
    ensures IsHexColor(s) <==>
      && |s| > 0 && s[0] == '#' && (|s[1..]| == 3 || |s[1..]| == 6)
      && forall c :: c in s[1..] ==>
           c in ['0', '1', '2', '3', '4', '5', '6', '7', '8', '9', 'a', 'b', 'c', 'd', 'e', 'f', 'A', 'B', 'C', 'D', 'E', 'F']
  {
    if IsHexColor(s) {
      forall c | c in s[1..] ensures IsHexDigit(c) {
        var i :| 0 <= i < |s[1..]| && s[1..][i] == c;
        assert s[i + 1] == c;
      }
    } else {
      if i :| 1 <= i < |s| && !IsHexDigit(s[i]) { assert s[1..][i - 1] == s[i] && s[i] in s[1..]; }
    }
  }

  function SeedColor(t: ListType): string {
    match t
    case Archived => "#64748b"
    case Review => "#3b82f6"
    case Ready => "#22d3ee"
    case InProgress => "#f59e0b"
    case Completed => "#22c55e"
    case Cancelled => "#71717a"
  }

  predicate ShapeButColor(e: Entry) {
    e.Entry? && Truthy(e.id) && Truthy(e.name) && e.kind.Known? && e.order.Some? && e.isDefault.Bool?
  }

  predicate Shape(e: Entry) {
    ShapeButColor(e) && e.color.Some? && IsHexColor(e.color.value)
  }

  function AsList(e: Entry): List
    requires Shape(e)
  {
    List(e.id.value, e.name.value, e.kind.value, e.order.value, e.isDefault.value, e.color.value)
  }

  function AsEntry(l: List): Entry {
    Entry(Some(l.id), Some(l.name), Known(l.kind), Some(l.order), Bool(l.isDefault), Some(l.color))
  }

  function AsEntries(lists: seq<List>): seq<Entry> {
    seq(|lists|, i requires 0 <= i < |lists| => AsEntry(lists[i]))
  }

  function AsOptions(ids: seq<string>): seq<Option<string>> {
    seq(|ids|, i requires 0 <= i < |ids| => Some(ids[i]))
  }

  function AsRaw(file: File): RawFile {
    RawFile(AsEntries(file.lists), AsOptions(file.tombstones))
  }

  predicate OfType(e: Entry, t: ListType) {
    e.Entry? && e.kind == Known(t)
  }

  predicate IsDefault(e: Entry) {
    e.Entry? && (if e.isDefault.Bool? then e.isDefault.value else e.isDefault.truthy)
  }

  function CountOf(lists: seq<Entry>, t: ListType): nat
    decreases |lists|
  {
    if lists == [] then 0 else
      CountOf(lists[..|lists| - 1], t) + (if OfType(lists[|lists| - 1], t) then 1 else 0)
  }

  function CountDefaults(lists: seq<Entry>, t: ListType): nat
    decreases |lists|
  {
    if lists == [] then 0 else
      CountDefaults(lists[..|lists| - 1], t) + (if OfType(lists[|lists| - 1], t) && IsDefault(lists[|lists| - 1]) then 1 else 0)
  }

  // ----- The validator -----

  datatype Fault =
    | BadColor(index: nat)
    | Malformed(index: nat)
    | DuplicateId(index: nat)
    | ReusedId(index: nat)
    | NegativeOrder(index: nat)
    | NoListOf(kind: ListType)
    | NoDefaultOf(kind: ListType)
    | ManyDefaultsOf(kind: ListType, count: nat)

  predicate EarlierId(lists: seq<Entry>, i: nat, id: string)
    requires i <= |lists|
  {
    exists j :: 0 <= j < i && Shape(lists[j]) && lists[j].id == Some(id)
  }

  /** The fault is true of the file. */
  predicate Has(lists: seq<Entry>, tombstones: seq<Option<string>>, fault: Fault) {
    match fault
    case BadColor(i) => i < |lists| && !Shape(lists[i]) && ShapeButColor(lists[i])
    case Malformed(i) => i < |lists| && !ShapeButColor(lists[i])
    case DuplicateId(i) => i < |lists| && Shape(lists[i]) && EarlierId(lists, i, lists[i].id.value)
    case ReusedId(i) => i < |lists| && Shape(lists[i]) && lists[i].id in tombstones
    case NegativeOrder(i) => i < |lists| && Shape(lists[i]) && lists[i].order.value < 0.0
    case NoListOf(t) => CountOf(lists, t) == 0
    case NoDefaultOf(t) => CountOf(lists, t) > 0 && CountDefaults(lists, t) == 0
    case ManyDefaultsOf(t, n) => n == CountDefaults(lists, t) && n > 1
  }

  predicate OfEntry(fault: Fault) {
    fault.BadColor? || fault.Malformed? || fault.DuplicateId? || fault.ReusedId? || fault.NegativeOrder?
  }

  /** The faults that the i-th entry contributes. */
  function EntryFaults(lists: seq<Entry>, tombstones: seq<Option<string>>, i: nat): seq<Fault>
    requires i < |lists|
  {
    if !Shape(lists[i]) then [if ShapeButColor(lists[i]) then BadColor(i) else Malformed(i)]
    else
      (if EarlierId(lists, i, lists[i].id.value) then [DuplicateId(i)] else [])
      + (if lists[i].id in tombstones then [ReusedId(i)] else [])
      + (if lists[i].order.value < 0.0 then [NegativeOrder(i)] else [])
  }

  lemma EntryFaultsAreAll(lists: seq<Entry>, tombstones: seq<Option<string>>, i: nat, fault: Fault)
    requires i < |lists|
    ensures fault in EntryFaults(lists, tombstones, i) <==> OfEntry(fault) && fault.index == i && Has(lists, tombstones, fault)
  {
  }

  method CheckEntries(lists: seq<Entry>, tombstones: seq<Option<string>>) returns (errors: seq<Fault>)
    ensures forall fault :: fault in errors <==> OfEntry(fault) && Has(lists, tombstones, fault)
  {
    errors := [];
    var seenIds: set<string> := {};
    for i := 0 to |lists|
      invariant forall fault :: fault in errors <==> OfEntry(fault) && fault.index < i && Has(lists, tombstones, fault)
      invariant forall id :: id in seenIds <==> EarlierId(lists, i, id)
    {
      var l := lists[i];
      ghost var before := errors;
      if !Shape(l) {
        errors := errors + [if ShapeButColor(l) then BadColor(i) else Malformed(i)];
      } else {
        if l.id.value in seenIds {
          errors := errors + [DuplicateId(i)];
        }
        seenIds := seenIds + {l.id.value};
        if l.id in tombstones {
          errors := errors + [ReusedId(i)];
        }
        if l.order.value < 0.0 {
          errors := errors + [NegativeOrder(i)];
        }
      }
      assert errors == before + EntryFaults(lists, tombstones, i);
      forall fault ensures fault in errors <==> OfEntry(fault) && fault.index < i + 1 && Has(lists, tombstones, fault) {
        EntryFaultsAreAll(lists, tombstones, i, fault);
      }
    }
  }

  function At(m: map<ListType, nat>, t: ListType): nat {
    if t in m then m[t] else 0
  }

  /** Group the entries by type: how many of each, and how many of those are defaults. */
  method CountByType(lists: seq<Entry>) returns (sizes: map<ListType, nat>, defaults: map<ListType, nat>)
    ensures forall t :: At(sizes, t) == CountOf(lists, t) && At(defaults, t) == CountDefaults(lists, t)
  {
    sizes, defaults := map[], map[];
    for i := 0 to |lists|
      invariant forall t :: At(sizes, t) == CountOf(lists[..i], t)
      invariant forall t :: At(defaults, t) == CountDefaults(lists[..i], t)
    {
      assert lists[..i + 1][..i] == lists[..i];
      var l := lists[i];
      if l.Entry? && l.kind.Known? {
        var t := l.kind.value;
        sizes := sizes[t := At(sizes, t) + 1];
        if IsDefault(l) {
          defaults := defaults[t := At(defaults, t) + 1];
        }
      }
    }
    assert lists[..|lists|] == lists;
  }

  lemma EveryTypeIsListed(t: ListType)
    ensures t in LIST_TYPES
  {
    match t
    case Archived => assert LIST_TYPES[0] == t;
    case Review => assert LIST_TYPES[1] == t;
    case Ready => assert LIST_TYPES[2] == t;
    case InProgress => assert LIST_TYPES[3] == t;
    case Completed => assert LIST_TYPES[4] == t;
    case Cancelled => assert LIST_TYPES[5] == t;
  }

  /** The faults that one type contributes. */
  function TypeFaults(lists: seq<Entry>, t: ListType): seq<Fault> {
    if CountOf(lists, t) == 0 then [NoListOf(t)]
    else if CountDefaults(lists, t) == 0 then [NoDefaultOf(t)]
    else if CountDefaults(lists, t) > 1 then [ManyDefaultsOf(t, CountDefaults(lists, t))]
    else []
  }

  lemma TypeFaultsAreAll(lists: seq<Entry>, tombstones: seq<Option<string>>, t: ListType, fault: Fault)
    ensures fault in TypeFaults(lists, t) <==> !OfEntry(fault) && fault.kind == t && Has(lists, tombstones, fault)
  {
    CountsAgree(lists, t);
  }

  /** Look at each type's group in turn. */
  method CheckTypes(lists: seq<Entry>, tombstones: seq<Option<string>>) returns (errors: seq<Fault>)
    ensures forall fault :: fault in errors <==> !OfEntry(fault) && Has(lists, tombstones, fault)
  {
    hide Has;
    var sizes, defaults := CountByType(lists);
    errors := [];
    for k := 0 to |LIST_TYPES|
      invariant forall fault :: fault in errors <==>
                  !OfEntry(fault) && fault.kind in LIST_TYPES[..k] && Has(lists, tombstones, fault)
    {
      var t := LIST_TYPES[k];
      ghost var before := errors;
      if At(sizes, t) == 0 {
        errors := errors + [NoListOf(t)];
      } else if At(defaults, t) == 0 {
        errors := errors + [NoDefaultOf(t)];
      } else if At(defaults, t) > 1 {
        errors := errors + [ManyDefaultsOf(t, At(defaults, t))];
      }
      assert errors == before + TypeFaults(lists, t);
      assert LIST_TYPES[..k + 1] == LIST_TYPES[..k] + [t];
      forall fault ensures fault in errors <==> !OfEntry(fault) && fault.kind in LIST_TYPES[..k + 1] && Has(lists, tombstones, fault) {
        TypeFaultsAreAll(lists, tombstones, t, fault);
      }
    }
    forall fault ensures !OfEntry(fault) ==> fault.kind in LIST_TYPES[..|LIST_TYPES|] {
      if !OfEntry(fault) { EveryTypeIsListed(fault.kind); }
      assert LIST_TYPES[..|LIST_TYPES|] == LIST_TYPES;
    }
  }

  lemma {:induction false} CountsAgree(lists: seq<Entry>, t: ListType)
    ensures CountDefaults(lists, t) <= CountOf(lists, t)
    decreases |lists|
  {
    if lists != [] { CountsAgree(lists[..|lists| - 1], t); }
  }

  /** Every fault of the file is reported, and nothing else. */
  method ValidateLists(file: RawFile) returns (errors: seq<Fault>)
    ensures forall fault :: fault in errors <==> Has(file.lists, file.tombstones, fault)
  {
    var ofEntries := CheckEntries(file.lists, file.tombstones);
    var ofTypes := CheckTypes(file.lists, file.tombstones);
    errors := ofEntries + ofTypes;
  }

  /** What the file promises: well-formed entries with distinct, never reused ids and orders from zero up,
      and for every type one default among at least one list. */
  ghost predicate Accepted(file: RawFile) {
    && (forall i :: 0 <= i < |file.lists| ==> Shape(file.lists[i]) && file.lists[i].order.value >= 0.0 && file.lists[i].id !in file.tombstones)
    && (forall i, j :: 0 <= i < j < |file.lists| ==> file.lists[i].id != file.lists[j].id)
    && (forall t: ListType :: CountDefaults(file.lists, t) == 1)
  }

  lemma {:induction false} SomeDefault(lists: seq<Entry>, t: ListType)
    ensures CountDefaults(lists, t) > 0 <==> exists i :: 0 <= i < |lists| && OfType(lists[i], t) && IsDefault(lists[i])
    decreases |lists|
  {
    if lists != [] {
      var n := |lists| - 1;
      SomeDefault(lists[..n], t);
      if i :| 0 <= i < n && OfType(lists[i], t) && IsDefault(lists[i]) {
        assert lists[..n][i] == lists[i];
      }
      if i :| 0 <= i < n && OfType(lists[..n][i], t) && IsDefault(lists[..n][i]) {
        assert lists[..n][i] == lists[i];
      }
    }
  }

  /** The validator finds nothing exactly in the files that keep the promise. */
  lemma AcceptedIffNoFault(file: RawFile)
    ensures (forall fault :: !Has(file.lists, file.tombstones, fault)) <==> Accepted(file)
  {
    var lists, tombs := file.lists, file.tombstones;
    if forall fault :: !Has(lists, tombs, fault) {
      forall i | 0 <= i < |lists| ensures Shape(lists[i]) && lists[i].order.value >= 0.0 && lists[i].id !in tombs {
        assert !Has(lists, tombs, Malformed(i)) && !Has(lists, tombs, BadColor(i));
        assert !Has(lists, tombs, NegativeOrder(i)) && !Has(lists, tombs, ReusedId(i));
      }
      forall i, j | 0 <= i < j < |lists| ensures lists[i].id != lists[j].id {
        assert !Has(lists, tombs, DuplicateId(j));
      }
      forall t: ListType ensures CountDefaults(lists, t) == 1 {
        assert !Has(lists, tombs, NoListOf(t)) && !Has(lists, tombs, NoDefaultOf(t));
        assert !Has(lists, tombs, ManyDefaultsOf(t, CountDefaults(lists, t)));
      }
    }
    if Accepted(file) {
      forall fault ensures !Has(lists, tombs, fault) {
        if fault.NoListOf? { CountsAgree(lists, fault.kind); }
      }
    }
  }

  // ----- Reading -----

  /** A missing or empty colour takes its type's seed colour; an unknown type takes the neutral one. */
  function Backfill(e: Entry): Entry {
    if e.NoObject? || Truthy(e.color) then e
    else e.(color := Some(if e.kind.Known? then SeedColor(e.kind.value) else NEUTRAL_LIST_COLOR))
  }

  function BackfillAll(lists: seq<Entry>): seq<Entry> {
    seq(|lists|, i requires 0 <= i < |lists| => Backfill(lists[i]))
  }

  function WellShaped(lists: seq<Entry>): seq<List> {
    if lists == [] then [] else (if Shape(lists[0]) then [AsList(lists[0])] else []) + WellShaped(lists[1..])
  }

  function Strings(ids: seq<Option<string>>): seq<string> {
    if ids == [] then [] else (if Truthy(ids[0]) then [ids[0].value] else []) + Strings(ids[1..])
  }

  /** What `readLists` makes of a parsed file: it never fails, it drops what it cannot use. */
  function Normalize(raw: RawFile): File {
    File(WellShaped(BackfillAll(raw.lists)), Strings(raw.tombstones))
  }

  // ----- What reading keeps -----

  predicate HasNoColor(e: Entry)
    requires e.Entry?
  {
    e.color.None? || e.color.value == ""
  }

  /** An entry that reading keeps: all its parts are there, the colour excepted, which must be one if it is there. */
  predicate IsReadable(e: Entry) {
    && e.Entry? && e.id.Some? && e.id.value != "" && e.name.Some? && e.name.value != "" && e.kind.Known? && e.order.Some? && e.isDefault.Bool?
    && (HasNoColor(e) || IsHexColor(e.color.value))
  }

  predicate ReadAs(e: Entry, l: List) {
    && e.Entry? && e.id == Some(l.id) && e.name == Some(l.name) && e.kind == Known(l.kind) && e.order == Some(l.order) && e.isDefault == Bool(l.isDefault)
    && l.color == if !HasNoColor(e) then e.color.value
                  else match l.kind
                       case Archived => "#64748b"
                       case Review => "#3b82f6"
                       case Ready => "#22d3ee"
                       case InProgress => "#f59e0b"
                       case Completed => "#22c55e"
                       case Cancelled => "#71717a"
  }

  predicate IsNamed(id: Option<string>) { id.Some? && id.value != "" }

  predicate SameId(id: Option<string>, read: string) { id == Some(read) }

  lemma SeedColorsAreColors(t: ListType)
    ensures IsHexColor(SeedColor(t))
  {
  }

  lemma ReadableShape(e: Entry)
    ensures Shape(Backfill(e)) <==> IsReadable(e)
    ensures IsReadable(e) ==> ReadAs(e, AsList(Backfill(e)))
  {
    if e.Entry? && e.kind.Known? { SeedColorsAreColors(e.kind.value); }
    hide IsHexColor;
  }

  lemma {:induction false} ListsFollow(entries: seq<Entry>) returns (at: seq<nat>)
    ensures OneForEach(at, entries, WellShaped(BackfillAll(entries)), IsReadable, ReadAs)
  {
    if entries == [] {
      at := [];
    } else {
      var first, rest := entries[0], entries[1..];
      ReadableShape(first);
      assert BackfillAll(entries)[0] == Backfill(first) && BackfillAll(entries)[1..] == BackfillAll(rest);
      hide Shape, IsReadable, ReadAs, AsList, Backfill, BackfillAll;
      var later := ListsFollow(rest);
      var read := WellShaped(BackfillAll(rest));
      assert [] + read == read;
      if IsReadable(first) {
        OneFirstEach(later, rest, read, entries, AsList(Backfill(first)), IsReadable, ReadAs);
        at := [0] + Shifted(later);
      } else {
        OneFirstEach(later, rest, read, entries, List("", "", Archived, 0.0, false, ""), IsReadable, ReadAs);
        at := Shifted(later);
      }
    }
  }

  lemma {:induction false} IdsFollow(ids: seq<Option<string>>) returns (at: seq<nat>)
    ensures OneForEach(at, ids, Strings(ids), IsNamed, SameId)
  {
    if ids == [] {
      at := [];
    } else {
      var first, rest := ids[0], ids[1..];
      var later := IdsFollow(rest);
      OneFirstEach(later, rest, Strings(rest), ids, if first.Some? then first.value else "", IsNamed, SameId);
      assert [] + Strings(rest) == Strings(rest);
      at := if IsNamed(first) then [0] + Shifted(later) else Shifted(later);
    }
  }

  /** Whatever a file holds, what is read of it are, in order, exactly the readable entries and the non-empty ids. */
  lemma FileIsReadAs(raw: RawFile)
    ensures exists at :: OneForEach(at, raw.lists, Normalize(raw).lists, IsReadable, ReadAs)
    ensures exists at :: OneForEach(at, raw.tombstones, Normalize(raw).tombstones, IsNamed, SameId)
  {
    hide OneForEach;
    var at := ListsFollow(raw.lists);
    assert OneForEach(at, raw.lists, Normalize(raw).lists, IsReadable, ReadAs);
    var buried := IdsFollow(raw.tombstones);
    assert OneForEach(buried, raw.tombstones, Normalize(raw).tombstones, IsNamed, SameId);
  }

  lemma {:induction false} WellShapedKeepsAll(lists: seq<List>)
    requires forall l :: l in lists ==> Shape(AsEntry(l))
    ensures WellShaped(AsEntries(lists)) == lists
  {
    if lists != [] {
      assert lists[0] in lists && AsEntries(lists)[1..] == AsEntries(lists[1..]);
      WellShapedKeepsAll(lists[1..]);
    }
  }

  lemma {:induction false} StringsKeepsAll(ids: seq<string>)
    requires forall id :: id in ids ==> id != ""
    ensures Strings(AsOptions(ids)) == ids
  {
    if ids != [] {
      assert ids[0] in ids && AsOptions(ids)[1..] == AsOptions(ids[1..]);
      assert forall id :: id in ids[1..] ==> id in ids;
      StringsKeepsAll(ids[1..]);
    }
  }

  /** Reading returns exactly what was written, when every list is well shaped. */
  lemma ReadReturnsWhatWasWritten(file: File)
    requires forall l :: l in file.lists ==> Shape(AsEntry(l))
    requires forall id :: id in file.tombstones ==> id != ""
    ensures Normalize(AsRaw(file)) == file
  {
    forall i | 0 <= i < |file.lists| ensures Backfill(AsEntry(file.lists[i])) == AsEntry(file.lists[i]) {
      assert file.lists[i] in file.lists && Shape(AsEntry(file.lists[i]));
    }
    assert BackfillAll(AsEntries(file.lists)) == AsEntries(file.lists);
    WellShapedKeepsAll(file.lists);
    StringsKeepsAll(file.tombstones);
  }
}
