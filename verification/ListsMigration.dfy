/** The one-shot migration that retires lists of type "blocked". */
module ListsMigration {
  import opened Values
  import opened ListsFile

  predicate IsBlocked(e: Entry) {
    e.Entry? && e.kind.Blocked?
  }

  /** The ids of the blocked lists, in file order. */
  function BlockedIds(lists: seq<Entry>): seq<string>
    decreases |lists|
  {
    if lists == [] then [] else
      var n := |lists| - 1;
      BlockedIds(lists[..n]) + (if IsBlocked(lists[n]) && Truthy(lists[n].id) then [lists[n].id.value] else [])
  }

  function Kept(lists: seq<Entry>): seq<Entry>
    decreases |lists|
  {
    if lists == [] then [] else
      var n := |lists| - 1;
      Kept(lists[..n]) + (if lists[n].Entry? && !IsBlocked(lists[n]) then [lists[n]] else [])
  }

  /** The ids that are not among those already known. */
  function Unknown(ids: seq<string>, known: seq<string>): seq<string> {
    if ids == [] then [] else (if ids[0] in known then [] else [ids[0]]) + Unknown(ids[1..], known)
  }

  function Migrated(file: RawFile): RawFile {
    var tombstones := Strings(file.tombstones);
    RawFile(BackfillAll(Kept(file.lists)), AsOptions(tombstones + Unknown(BlockedIds(file.lists), tombstones)))
  }

  /** The file on disk after the migration has run. */
  ghost function AfterMigration(file: RawFile): RawFile {
    if BlockedIds(file.lists) != [] && Accepted(Migrated(file)) then Migrated(file) else file
  }

  /** Strip the blocked lists, bury their ids, fill in missing colours; write only what the validator accepts. */
  method MigrateListsFile(file: RawFile) returns (migrated: bool, removedIds: seq<string>, next: RawFile)
    ensures migrated <==> BlockedIds(file.lists) != [] && Accepted(Migrated(file))
    ensures next == AfterMigration(file)
    ensures removedIds == if migrated then BlockedIds(file.lists) else []
  {
    var removed: seq<string> := [];
    var kept: seq<Entry> := [];
    for k := 0 to |file.lists|
      invariant removed == BlockedIds(file.lists[..k]) && kept == Kept(file.lists[..k])
    {
      assert file.lists[..k + 1][..k] == file.lists[..k];
      var entry := file.lists[k];
      if entry.Entry? {
        if entry.kind == Blocked {
          if Truthy(entry.id) {
            removed := removed + [entry.id.value];
          }
        } else {
          kept := kept + [entry];
        }
      }
    }
    assert file.lists[..|file.lists|] == file.lists;
    if |removed| == 0 { return false, [], file; }
    var rawTombstones := Strings(file.tombstones);
    var candidate := RawFile(BackfillAll(kept), AsOptions(rawTombstones + Unknown(removed, rawTombstones)));
    var errors := ValidateLists(candidate);
    AcceptedIffNoFault(candidate);
    if |errors| > 0 {
      assert errors[0] in errors;
      return false, [], file;
    }
    return true, removed, candidate;
  }

  // ----- Valid files of seven types -----

  /** Well formed apart from a colour that predates colours, and of one of the seven types. */
  predicate SevenShape(e: Entry) {
    && e.Entry? && Truthy(e.id) && Truthy(e.name) && !e.kind.Unknown? && e.order.Some? && e.order.value >= 0.0 && e.isDefault.Bool?
    && (Truthy(e.color) ==> IsHexColor(e.color.value))
  }

  /** A valid file from before the migration. */
  ghost predicate SevenAccepted(file: RawFile) {
    && (forall i :: 0 <= i < |file.lists| ==> SevenShape(file.lists[i]) && file.lists[i].id !in file.tombstones)
    && (forall i, j :: 0 <= i < j < |file.lists| ==> file.lists[i].id != file.lists[j].id)
    && (forall t: ListType :: CountDefaults(file.lists, t) == 1)
  }

  lemma BackfilledShape(e: Entry)
    requires SevenShape(e) && !IsBlocked(e)
    ensures Shape(Backfill(e)) && Backfill(e).order == e.order && Backfill(e).id == e.id
  {
  }

  lemma {:induction false} KeptAreEntries(lists: seq<Entry>)
    ensures forall e :: e in Kept(lists) <==> e in lists && e.Entry? && !IsBlocked(e)
    decreases |lists|
  {
    if lists != [] {
      var n := |lists| - 1;
      KeptAreEntries(lists[..n]);
      assert lists == lists[..n] + [lists[n]];
    }
  }

  lemma {:induction false} KeptDistinct(lists: seq<Entry>)
    requires forall i :: 0 <= i < |lists| ==> lists[i].Entry?
    requires forall i, j :: 0 <= i < j < |lists| ==> lists[i].id != lists[j].id
    ensures forall i :: 0 <= i < |Kept(lists)| ==> Kept(lists)[i].Entry?
    ensures forall i, j :: 0 <= i < j < |Kept(lists)| ==> Kept(lists)[i].id != Kept(lists)[j].id
    decreases |lists|
  {
    if lists != [] {
      var n := |lists| - 1;
      KeptDistinct(lists[..n]);
      KeptAreEntries(lists[..n]);
      forall e | e in Kept(lists[..n]) ensures e.Entry? && e.id != lists[n].id {
        var i :| 0 <= i < n && lists[..n][i] == e;
        assert lists[i].id != lists[n].id;
      }
    }
  }

  lemma CountSnoc(lists: seq<Entry>, e: Entry, t: ListType)
    ensures CountDefaults(lists + [e], t) == CountDefaults(lists, t) + (if OfType(e, t) && IsDefault(e) then 1 else 0)
  {
    assert (lists + [e])[..|lists|] == lists;
  }

  lemma {:induction false} KeptCounts(lists: seq<Entry>, t: ListType)
    ensures CountDefaults(Kept(lists), t) == CountDefaults(lists, t)
    decreases |lists|
  {
    if lists != [] {
      var n := |lists| - 1;
      var last := lists[n];
      var before := Kept(lists[..n]);
      assert Kept(lists) == before + (if last.Entry? && !IsBlocked(last) then [last] else []);
      assert lists == lists[..n] + [last];
      hide CountDefaults, Kept;
      KeptCounts(lists[..n], t);
      CountSnoc(lists[..n], last, t);
      CountSnoc(before, last, t);
      assert before + [] == before;
    }
  }

  lemma {:induction false} BackfillCounts(lists: seq<Entry>, t: ListType)
    ensures CountDefaults(BackfillAll(lists), t) == CountDefaults(lists, t)
    decreases |lists|
  {
    if lists != [] {
      var n := |lists| - 1;
      assert BackfillAll(lists)[..n] == BackfillAll(lists[..n]);
      BackfillCounts(lists[..n], t);
    }
  }

  lemma {:induction false} BlockedIdsAre(lists: seq<Entry>, id: string)
    ensures id in BlockedIds(lists) <==> exists e :: e in lists && IsBlocked(e) && e.id == Some(id) && id != ""
    decreases |lists|
  {
    if lists != [] {
      var n := |lists| - 1;
      BlockedIdsAre(lists[..n], id);
      assert lists == lists[..n] + [lists[n]];
    }
  }

  lemma {:induction false} UnknownAre(ids: seq<string>, known: seq<string>, id: string)
    ensures id in Unknown(ids, known) <==> id in ids && id !in known
  {
    if ids != [] { UnknownAre(ids[1..], known, id); }
  }

  lemma {:induction false} StringsAre(ids: seq<Option<string>>, id: string)
    ensures id in Strings(ids) <==> Some(id) in ids && id != ""
  {
    if ids != [] { StringsAre(ids[1..], id); }
  }

  lemma OptionsAre(ids: seq<string>, id: string)
    ensures Some(id) in AsOptions(ids) <==> id in ids
  {
    if id in ids {
      var i :| 0 <= i < |ids| && ids[i] == id;
      assert AsOptions(ids)[i] == Some(id);
    }
  }

  /** Afterwards exactly the old tombstones and the removed ids are buried. */
  lemma Buried(file: RawFile, id: string)
    ensures Some(id) in Migrated(file).tombstones <==>
            id != "" && (Some(id) in file.tombstones || exists e :: e in file.lists && IsBlocked(e) && e.id == Some(id))
  {
    var known := Strings(file.tombstones);
    OptionsAre(known + Unknown(BlockedIds(file.lists), known), id);
    UnknownAre(BlockedIds(file.lists), known, id);
    StringsAre(file.tombstones, id);
    BlockedIdsAre(file.lists, id);
  }

  lemma KeptEntryIsAccepted(file: RawFile, e: Entry)
    requires SevenAccepted(file) && e in Kept(file.lists)
    ensures Shape(Backfill(e)) && Backfill(e).order.value >= 0.0 && Backfill(e).id == e.id
    ensures e.id !in Migrated(file).tombstones
  {
    hide CountDefaults;
    KeptAreEntries(file.lists);
    var i :| 0 <= i < |file.lists| && file.lists[i] == e;
    assert SevenShape(file.lists[i]);
    BackfilledShape(e);
    Buried(file, e.id.value);
    forall other | other in file.lists && IsBlocked(other) ensures other.id != e.id {
      var j :| 0 <= j < |file.lists| && file.lists[j] == other;
      if i < j { assert file.lists[i].id != file.lists[j].id; } else { assert file.lists[j].id != file.lists[i].id; }
    }
  }

  /** A valid seven-type file becomes an accepted six-type one. */
  lemma MigratedIsAccepted(file: RawFile)
    requires SevenAccepted(file)
    ensures Accepted(Migrated(file))
  {
    var kept := Kept(file.lists);
    var next := Migrated(file);
    forall i | 0 <= i < |kept| ensures Shape(next.lists[i]) && next.lists[i].order.value >= 0.0
                                       && next.lists[i].id == kept[i].id && next.lists[i].id !in next.tombstones {
      assert kept[i] in kept;
      KeptEntryIsAccepted(file, kept[i]);
    }
    KeptDistinct(file.lists);
    forall t: ListType ensures CountDefaults(next.lists, t) == 1 {
      KeptCounts(file.lists, t);
      BackfillCounts(kept, t);
    }
  }

  /** The migration of a valid seven-type file: accepted, no blocked list left, their ids buried, and a second
      run changes nothing. A file without blocked lists is left alone. */
  lemma MigrationIsComplete(file: RawFile)
    requires SevenAccepted(file)
    ensures Accepted(Migrated(file))
    ensures BlockedIds(Migrated(file).lists) == []
    ensures BlockedIds(file.lists) == [] <==> forall e :: e in file.lists ==> !IsBlocked(e)
    ensures forall e :: e in file.lists && IsBlocked(e) ==> e.id in Migrated(file).tombstones
    ensures forall id :: Some(id) in file.tombstones && id != "" ==> Some(id) in Migrated(file).tombstones
  {
    hide CountDefaults, Migrated;
    MigratedIsAccepted(file);
    NoBlockedLeft(file);
    forall e | e in file.lists && IsBlocked(e) ensures e.id in Migrated(file).tombstones && e.id.value in BlockedIds(file.lists) {
      var i :| 0 <= i < |file.lists| && file.lists[i] == e;
      assert SevenShape(file.lists[i]);
      Buried(file, e.id.value);
      BlockedIdsAre(file.lists, e.id.value);
    }
    if BlockedIds(file.lists) != [] {
      BlockedIdsAre(file.lists, BlockedIds(file.lists)[0]);
    }
    forall id | Some(id) in file.tombstones && id != "" ensures Some(id) in Migrated(file).tombstones {
      Buried(file, id);
    }
  }

  lemma NoBlockedLeft(file: RawFile)
    ensures BlockedIds(Migrated(file).lists) == []
  {
    var kept := Kept(file.lists);
    KeptAreEntries(file.lists);
    forall e | e in BackfillAll(kept) ensures !IsBlocked(e) {
      var i :| 0 <= i < |kept| && BackfillAll(kept)[i] == e;
      assert kept[i] in kept;
    }
    NoneBlocked(BackfillAll(kept));
  }

  lemma {:induction false} NoneBlocked(lists: seq<Entry>)
    requires forall e :: e in lists ==> !IsBlocked(e)
    ensures BlockedIds(lists) == []
    decreases |lists|
  {
    if lists != [] {
      assert lists[|lists| - 1] in lists;
      NoneBlocked(lists[..|lists| - 1]);
    }
  }

  /** Running the migration again, on any file, changes nothing; on a valid seven-type file both runs leave
      the file an accepted one wherever there was a blocked list to remove. */
  lemma RerunChangesNothing(file: RawFile)
    ensures AfterMigration(AfterMigration(file)) == AfterMigration(file)
    ensures SevenAccepted(file) && BlockedIds(file.lists) != [] ==> Accepted(AfterMigration(file))
  {
    NoBlockedLeft(file);
    if SevenAccepted(file) { MigratedIsAccepted(file); }
  }
}
