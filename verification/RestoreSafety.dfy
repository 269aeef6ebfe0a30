/**
 What every stop of a restore leaves and what its end leaves, for any number of steps.
 */
module RestoreSafety {
  import opened Wrappers
  import opened RestoreTree
  import opened RestoreSteps

  // ----- What a finished restore leaves -----

  // A staged database's file holds the staged bytes and its temporary file and journals are gone;
  // any other file is as before.
  function FinalFile(files: map<FileName, Bytes>, databases: map<Database, Bytes>, f: FileName): Option<Bytes> {
    if f.Other? || f.db !in databases then Get(files, f) else if f.Live? then Some(databases[f.db]) else None
  }

  // The fresh copy of a staged directory, or none if nothing is staged under the name.
  function RestoredDir(staged: map<DirName, seq<Entry>>, name: DirName): Option<Tree> {
    if name in staged then CopyTree(staged[name], [], map[]) else None
  }

  // The staged directory can be copied without a file and a directory meeting at one path.
  predicate Copies(staged: map<DirName, seq<Entry>>, name: DirName) {
    name in staged ==> RestoredDir(staged, name).Some?
  }

  // Every database and directory is in place.
  ghost predicate Replaced(before: Disk, after: Disk)
    requires before.staged.Some?
  {
    var staged := before.staged.value;
    && (forall f :: Get(after.files, f) == FinalFile(before.files, staged.files, f))
    && (forall name :: Get(after.dirs, name) == RestoredDir(staged.dirs, name) && Copies(staged.dirs, name))
  }

  // The rollback of this attempt holds the databases and directories it replaced; it has no place
  // for journals.
  ghost predicate HoldsAll(rollback: Rollback, before: Disk) {
    SavesDatabases(rollback.files, before.files) && forall name :: Get(rollback.dirs, name) == Get(before.dirs, name)
  }

  ghost predicate SavesDatabases(copies: map<Database, Bytes>, files: map<FileName, Bytes>) {
    forall db :: Get(copies, db) == Get(files, Live(db))
  }

  // Rollbacks after the marker is gone: older ones unchanged or pruned, the newest three kept.
  ghost predicate RollbacksKept(before: Disk, after: Disk, stamp: int) {
    var stamps := before.saved.Keys + {stamp};
    && NewestStamps(stamps, ROLLBACKS_KEPT) <= after.saved.Keys <= stamps
    && (forall t :: t in after.saved && t != stamp ==> after.saved[t] == before.saved[t])
    && (stamp in after.saved ==> HoldsAll(after.saved[stamp], before))
  }

  // A stop or end after the marker is gone.
  ghost predicate Finished(before: Disk, after: Disk, stamp: int)
    requires before.staged.Some?
  {
    && !after.marker && (after.staged == before.staged || after.staged == None)
    && Replaced(before, after) && RollbacksKept(before, after, stamp)
  }

  // ----- What a stop before the marker is gone leaves -----

  // A live database is the old one, the staged one, or missing for a moment; never torn. Before it
  // goes away its bytes are in this attempt's rollback.
  ghost predicate DatabaseSafe(before: Disk, after: Disk, stamp: int, db: Database)
    requires before.staged.Some?
  {
    var was, now, new_ := Get(before.files, Live(db)), Get(after.files, Live(db)), Get(before.staged.value.files, db);
    || now == was
    || (new_.Some? && (now == None || now == new_)
        && (was.Some? ==> stamp in after.saved && Get(after.saved[stamp].files, db) == was))
  }

  // A data directory is the old one, or the old one was moved into this attempt's rollback and what
  // is there now, if anything, comes from the staged one.
  ghost predicate DirectorySafe(before: Disk, after: Disk, stamp: int, name: DirName)
    requires before.staged.Some?
  {
    var was, now := Get(before.dirs, name), Get(after.dirs, name);
    || now == was
    || ((was.Some? ==> stamp in after.saved && Get(after.saved[stamp].dirs, name) == was)
        && (now.Some? ==> PartlyCopied(before.staged.value.dirs, name, now.value)))
  }

  // What a number of steps make of the fresh copy; the first makes the directory itself.
  ghost predicate PartlyCopied(staged: map<DirName, seq<Entry>>, name: DirName, tree: Tree) {
    name in staged && exists steps :: CopiedTree(staged[name], [], map[], steps).value == tree && steps > 0
  }

  predicate OnlyTouches(before: map<int, Rollback>, after: map<int, Rollback>, stamp: int) {
    && after.Keys <= before.Keys + {stamp}
    && forall t :: t in before && t != stamp ==> t in after && after[t] == before[t]
  }

  // Only files of the given databases may differ.
  ghost predicate SameOutside(before: map<FileName, Bytes>, after: map<FileName, Bytes>, databases: set<Database>) {
    forall f: FileName :: f.Other? || f.db !in databases ==> Get(after, f) == Get(before, f)
  }

  ghost predicate StoppedEarly(before: Disk, after: Disk, stamp: int)
    requires before.staged.Some?
  {
    && after.marker && after.staged == before.staged
    && OnlyTouches(before.saved, after.saved, stamp)
    && SameOutside(before.files, after.files, before.staged.value.files.Keys)
    && (forall db :: DatabaseSafe(before, after, stamp, db))
    && (forall name :: DirectorySafe(before, after, stamp, name))
  }

  // ----- Rollback copies -----

  lemma {:induction false} SavingWorks(disk: Disk, stamp: int, steps: nat)
    requires stamp !in disk.saved
    ensures var r := Saving(disk, stamp, steps);
            && r.value == disk.(saved := r.value.saved) && OnlyTouches(disk.saved, r.value.saved, stamp)
            && (r.ok <==> steps >= 1 + SaveCost(disk.files, 0))
            && (r.ok ==> r.left == steps - 1 - SaveCost(disk.files, 0))
            && (r.ok ==> r.value.saved.Keys == disk.saved.Keys + {stamp})
            && (r.ok ==> r.value.saved[stamp].dirs == map[] && SavesDatabases(r.value.saved[stamp].files, disk.files))
  {
    if steps > 0 {
      var r := SavedFrom(map[], disk.files, 0, steps - 1);
      if r.ok {
        forall db ensures Get(r.value, db) == Get(disk.files, Live(db)) {
          assert db == DATABASES[0] || db == DATABASES[1];
        }
      }
    }
  }

  // ----- Databases -----

  // A staged database is the old one, the new one or missing; any other is untouched.
  ghost predicate MaybeSwapped(before: map<FileName, Bytes>, after: map<FileName, Bytes>,
                               databases: map<Database, Bytes>, db: Database)
  {
    var was, now := Get(before, Live(db)), Get(after, Live(db));
    now == was || (db in databases && (now == None || now == Some(databases[db])))
  }

  lemma {:induction false} SwappedOneWorks(files: map<FileName, Bytes>, db: Database, data: Bytes, steps: nat)
    ensures var r := SwappedOne(files, db, data, steps);
            var cost := |data| + 4 + if Live(db) in files then 1 else 0;
            && (r.ok <==> steps >= cost) && (r.ok ==> r.left == steps - cost)
            && (r.ok ==> r.value == (files - {Temporary(db), Wal(db), Shm(db)})[Live(db) := data])
            && Get(r.value, Live(db)) in {Get(files, Live(db)), None, Some(data)}
            && SameOutside(files, r.value, {db})
  {
  }

  lemma {:induction false} SwapCostSees(a: map<FileName, Bytes>, b: map<FileName, Bytes>,
                                        databases: map<Database, Bytes>, i: nat)
    requires i <= |DATABASES| && forall j :: i <= j < |DATABASES| ==>
               (Live(DATABASES[j]) in a <==> Live(DATABASES[j]) in b)
    ensures SwapCost(a, databases, i) == SwapCost(b, databases, i)
    decreases |DATABASES| - i
  {
    if i < |DATABASES| {
      SwapCostSees(a, b, databases, i + 1);
    }
  }

  // The place of a database in the order they are swapped.
  function Place(db: Database): (i: nat)
    ensures i < |DATABASES| && DATABASES[i] == db
  {
    if db.MusicDatabase? then 0 else 1
  }

  lemma {:induction false} SwapLeavesOthers(files: map<FileName, Bytes>, after: map<FileName, Bytes>, i: nat)
    requires i < |DATABASES| && SameOutside(files, after, {DATABASES[i]})
    ensures forall j :: 0 <= j < |DATABASES| && j != i ==>
              Get(after, Live(DATABASES[j])) == Get(files, Live(DATABASES[j]))
    ensures forall j :: 0 <= j < |DATABASES| && j != i ==>
              (Live(DATABASES[j]) in after <==> Live(DATABASES[j]) in files)
  {
  }

  ghost predicate SwapsSafely(files: map<FileName, Bytes>, after: map<FileName, Bytes>,
                              databases: map<Database, Bytes>, i: nat)
  {
    && SameOutside(files, after, databases.Keys)
    && forall db ::
         if Place(db) < i then Get(after, Live(db)) == Get(files, Live(db))
         else MaybeSwapped(files, after, databases, db)
  }

  lemma {:induction false} SwappedFromIsSafe(files: map<FileName, Bytes>, databases: map<Database, Bytes>, i: nat,
                                             steps: nat)
    requires i <= |DATABASES|
    ensures SwapsSafely(files, SwappedFrom(files, databases, i, steps).value, databases, i)
    decreases |DATABASES| - i
  {
    if i < |DATABASES| {
      var db := DATABASES[i];
      if db in databases {
        var one := SwappedOne(files, db, databases[db], steps);
        SwappedOneWorks(files, db, databases[db], steps);
        if one.ok {
          SwappedFromIsSafe(one.value, databases, i + 1, one.left);
        }
      } else {
        SwappedFromIsSafe(files, databases, i + 1, steps);
      }
    }
  }

  lemma {:induction false} SwappedFromEnds(files: map<FileName, Bytes>, databases: map<Database, Bytes>, i: nat,
                                           steps: nat)
    requires i <= |DATABASES|
    ensures var r := SwappedFrom(files, databases, i, steps);
            && (r.ok <==> steps >= SwapCost(files, databases, i))
            && (r.ok ==> r.left == steps - SwapCost(files, databases, i))
    decreases |DATABASES| - i
  {
    if i < |DATABASES| {
      var db := DATABASES[i];
      if db in databases {
        var one := SwappedOne(files, db, databases[db], steps);
        SwappedOneWorks(files, db, databases[db], steps);
        if one.ok {
          SwappedFromEnds(one.value, databases, i + 1, one.left);
          SwapLeavesOthers(files, one.value, i);
          SwapCostSees(files, one.value, databases, i + 1);
        }
      } else {
        SwappedFromEnds(files, databases, i + 1, steps);
      }
    }
  }

  lemma {:induction false} SwappedFromSwaps(files: map<FileName, Bytes>, databases: map<Database, Bytes>, i: nat,
                                            steps: nat)
    requires i <= |DATABASES| && SwappedFrom(files, databases, i, steps).ok
    ensures forall f: FileName :: Get(SwappedFrom(files, databases, i, steps).value, f)
                == if f.Other? || Place(f.db) >= i then FinalFile(files, databases, f) else Get(files, f)
    decreases |DATABASES| - i
  {
    if i < |DATABASES| {
      var db := DATABASES[i];
      if db in databases {
        SwappedOneWorks(files, db, databases[db], steps);
        var one := SwappedOne(files, db, databases[db], steps);
        SwappedFromSwaps(one.value, databases, i + 1, one.left);
      } else {
        SwappedFromSwaps(files, databases, i + 1, steps);
      }
    }
  }

  // ----- Directories -----

  lemma {:induction false} PlacedFileWorks(at: Path, name: string, data: Bytes, tree: Tree, steps: nat)
    ensures var r := PlacedFile(at, name, data, tree, steps);
            var cost := |data| + 2 + if at + [name] in tree then 1 else 0;
            && (r.ok <==> PutFile(at, name, data, tree).Some? && steps >= cost)
            && (r.ok ==> r.left == steps - cost && PutFile(at, name, data, tree) == Some(r.value))
  {
    var temp, target := at + [TempName(name)], at + [name];
    assert temp[|at|] != target[|at|];
    if PlacedFile(at, name, data, tree, steps).ok {
      assert PlacedFile(at, name, data, tree, steps).value == (tree - {temp})[target := File(data)];
    }
  }

  lemma {:induction false} CopiedTreeWorks(entries: seq<Entry>, at: Path, tree: Tree, steps: nat)
    ensures var r, whole := CopiedTree(entries, at, tree, steps), CopyTree(entries, at, tree);
            && (r.ok <==> whole.Some? && steps >= TreeCost(entries, at, tree))
            && (r.ok ==> r.left == steps - TreeCost(entries, at, tree) && whole == Some(r.value))
    decreases entries, 1
  {
    if !(at in tree && tree[at].File?) && steps > 0 {
      CopiedEntriesWork(entries, at, tree[at := Folder], steps - 1);
    }
  }

  lemma {:induction false} CopiedEntryWorks(entry: Entry, at: Path, tree: Tree, steps: nat)
    ensures var r, whole := CopiedEntry(entry, at, tree, steps), CopyEntry(entry, at, tree);
            && (r.ok <==> whole.Some? && steps >= EntryCost(entry, at, tree))
            && (r.ok ==> r.left == steps - EntryCost(entry, at, tree) && whole == Some(r.value))
    decreases entry, 2
  {
    match entry.source
    case SourceFile(data) => PlacedFileWorks(at, entry.name, data, tree, steps);
    case SourceDir(entries) => CopiedTreeWorks(entries, at + [entry.name], tree, steps);
  }

  lemma {:induction false} CopiedEntriesWork(entries: seq<Entry>, at: Path, tree: Tree, steps: nat)
    ensures var r, whole := CopiedEntries(entries, at, tree, steps), CopyEntries(entries, at, tree);
            && (r.ok <==> whole.Some? && steps >= EntriesCost(entries, at, tree))
            && (r.ok ==> r.left == steps - EntriesCost(entries, at, tree) && whole == Some(r.value))
    decreases entries, 0
  {
    if entries != [] {
      CopiedEntryWorks(entries[0], at, tree, steps);
      var first := CopiedEntry(entries[0], at, tree, steps);
      if first.ok {
        CopiedEntriesWork(entries[1..], at, first.value, first.left);
      }
    }
  }

  // One directory: done, or stopped with the old one safe and nothing there but a part of the copy.
  ghost predicate ShelfSafe(before: Shelves, after: Shelves, source: map<DirName, seq<Entry>>, name: DirName) {
    var was, now := Get(before.live, name), Get(after.live, name);
    || (now == was && Get(after.rolled, name) == Get(before.rolled, name))
    || (was.Some? && Get(after.rolled, name) == was && (now.Some? ==> PartlyCopied(source, name, now.value)))
    || (was.None? && Get(after.rolled, name) == Get(before.rolled, name)
        && (now.Some? ==> PartlyCopied(source, name, now.value)))
  }

  ghost predicate SameShelf(before: Shelves, after: Shelves, name: DirName) {
    Get(after.live, name) == Get(before.live, name) && Get(after.rolled, name) == Get(before.rolled, name)
  }

  ghost predicate ShelfDone(before: Shelves, after: Shelves, source: map<DirName, seq<Entry>>, name: DirName) {
    && Get(after.live, name) == RestoredDir(source, name) && Copies(source, name)
    && Get(after.rolled, name) == if name in before.live then Some(before.live[name]) else Get(before.rolled, name)
  }

  lemma {:induction false} RefilledWorks(shelves: Shelves, source: map<DirName, seq<Entry>>, name: DirName, steps: nat)
    requires name !in shelves.live
    ensures var r := Refilled(shelves, source, name, steps);
            var cost := if name in source then TreeCost(source[name], [], map[]) else 0;
            && (r.ok <==> Copies(source, name) && steps >= cost) && (r.ok ==> r.left == steps - cost)
            && (r.ok ==> Get(r.value.live, name) == RestoredDir(source, name))
            && r.value.rolled == shelves.rolled
            && (name in r.value.live ==> PartlyCopied(source, name, r.value.live[name]))
            && forall other :: other != name ==> SameShelf(shelves, r.value, other)
  {
    if name in source {
      CopiedTreeWorks(source[name], [], map[], steps);
      var copy := CopiedTree(source[name], [], map[], steps);
      if copy.ok {
        EntriesKeepFolders(source[name], [], map[[] := Folder], []);
      }
    }
  }

  lemma {:induction false} RestoredOneWorks(shelves: Shelves, source: map<DirName, seq<Entry>>, name: DirName,
                                            steps: nat)
    ensures var r := RestoredOne(shelves, source, name, steps);
            var cost := DirectoryCost(shelves.live, source, name);
            && (r.ok <==> Copies(source, name) && steps >= cost) && (r.ok ==> r.left == steps - cost)
            && (r.ok ==> ShelfDone(shelves, r.value, source, name)) && ShelfSafe(shelves, r.value, source, name)
            && forall other :: other != name ==> SameShelf(shelves, r.value, other)
  {
    if name !in shelves.live {
      RefilledWorks(shelves, source, name, steps);
    } else if steps > 0 {
      var moved := Shelves(shelves.live - {name}, shelves.rolled[name := shelves.live[name]]);
      RefilledWorks(moved, source, name, steps - 1);
      forall other | other != name ensures SameShelf(shelves, moved, other) {
      }
    }
  }

  // The place of a directory in the order they are restored.
  function DirectoryIndex(name: DirName): (j: nat)
    ensures j < |DIRECTORIES| && DIRECTORIES[j] == name
  {
    match name
    case Config => 0
    case ProfilePictures => 1
    case AlbumCovers => 2
    case ArtistIcons => 3
    case Artwork => 4
  }

  lemma {:induction false} DirectoriesCostSees(a: map<DirName, Tree>, b: map<DirName, Tree>,
                                               source: map<DirName, seq<Entry>>, i: nat)
    requires i <= |DIRECTORIES| && forall j :: i <= j < |DIRECTORIES| ==> (DIRECTORIES[j] in a <==> DIRECTORIES[j] in b)
    ensures DirectoriesCost(a, source, i) == DirectoriesCost(b, source, i)
    decreases |DIRECTORIES| - i
  {
    if i < |DIRECTORIES| {
      DirectoriesCostSees(a, b, source, i + 1);
    }
  }

  // Directories before place i are left alone; the others end safely, and done if the run does.
  ghost predicate ShelvesFrom(before: Shelves, after: Shelves, source: map<DirName, seq<Entry>>, i: nat, ok: bool) {
    forall name ::
      if DirectoryIndex(name) < i then SameShelf(before, after, name)
      else ShelfSafe(before, after, source, name) && (ok ==> ShelfDone(before, after, source, name))
  }

  lemma {:induction false} ShelvesCompose(a: Shelves, b: Shelves, c: Shelves, source: map<DirName, seq<Entry>>, i: nat,
                                          ok: bool)
    requires i < |DIRECTORIES| && ShelfDone(a, b, source, DIRECTORIES[i]) && ShelfSafe(a, b, source, DIRECTORIES[i])
    requires forall other :: other != DIRECTORIES[i] ==> SameShelf(a, b, other)
    requires ShelvesFrom(b, c, source, i + 1, ok)
    ensures ShelvesFrom(a, c, source, i, ok)
  {
    forall name
      ensures if DirectoryIndex(name) < i then SameShelf(a, c, name)
              else ShelfSafe(a, c, source, name) && (ok ==> ShelfDone(a, c, source, name))
    {
      if name == DIRECTORIES[i] {
        assert SameShelf(b, c, name);
      } else {
        assert SameShelf(a, b, name);
      }
    }
  }

  lemma {:induction false} ShelvesStop(a: Shelves, b: Shelves, source: map<DirName, seq<Entry>>, i: nat)
    requires i < |DIRECTORIES| && ShelfSafe(a, b, source, DIRECTORIES[i])
    requires forall other :: other != DIRECTORIES[i] ==> SameShelf(a, b, other)
    ensures ShelvesFrom(a, b, source, i, false)
  {
    forall name | name != DIRECTORIES[i] ensures SameShelf(a, b, name) && ShelfSafe(a, b, source, name) {
    }
  }

  lemma {:induction false} RestoredFromIsSafe(shelves: Shelves, source: map<DirName, seq<Entry>>, i: nat, steps: nat)
    requires i <= |DIRECTORIES|
    ensures var r := RestoredFrom(shelves, source, i, steps); ShelvesFrom(shelves, r.value, source, i, r.ok)
    decreases |DIRECTORIES| - i
  {
    if i < |DIRECTORIES| {
      var one := RestoredOne(shelves, source, DIRECTORIES[i], steps);
      RestoredOneWorks(shelves, source, DIRECTORIES[i], steps);
      if one.ok {
        RestoredFromIsSafe(one.value, source, i + 1, one.left);
        var r := RestoredFrom(one.value, source, i + 1, one.left);
        ShelvesCompose(shelves, one.value, r.value, source, i, r.ok);
      } else {
        ShelvesStop(shelves, one.value, source, i);
      }
    }
  }

  lemma {:induction false} RestoredFromEnds(shelves: Shelves, source: map<DirName, seq<Entry>>, i: nat, steps: nat)
    requires i <= |DIRECTORIES|
    ensures var r := RestoredFrom(shelves, source, i, steps);
            && (r.ok <==> (forall j :: i <= j < |DIRECTORIES| ==> Copies(source, DIRECTORIES[j]))
                          && steps >= DirectoriesCost(shelves.live, source, i))
            && (r.ok ==> r.left == steps - DirectoriesCost(shelves.live, source, i))
    decreases |DIRECTORIES| - i
  {
    if i < |DIRECTORIES| {
      var one := RestoredOne(shelves, source, DIRECTORIES[i], steps);
      RestoredOneWorks(shelves, source, DIRECTORIES[i], steps);
      if one.ok {
        RestoredFromEnds(one.value, source, i + 1, one.left);
        forall j | i + 1 <= j < |DIRECTORIES|
          ensures DIRECTORIES[j] in shelves.live <==> DIRECTORIES[j] in one.value.live
        {
          assert SameShelf(shelves, one.value, DIRECTORIES[j]);
        }
        DirectoriesCostSees(shelves.live, one.value.live, source, i + 1);
      }
    }
  }

  // ----- Old rollbacks -----

  lemma {:induction false} RankIsSmall(stamps: set<int>, t: int)
    requires t in stamps
    ensures Rank(stamps, t) < |stamps|
  {
    SubsetIsSmaller((set u | u in stamps && u > t), stamps - {t});
  }

  lemma {:induction false} PrunedKeepsNewest(saved: map<int, Rollback>, steps: nat)
    ensures var r := Pruned(saved, steps);
            && NewestStamps(saved.Keys, ROLLBACKS_KEPT) <= r.value.Keys <= saved.Keys
            && (forall t :: t in r.value ==> r.value[t] == saved[t])
            && (r.ok ==> r.value.Keys == NewestStamps(saved.Keys, ROLLBACKS_KEPT))
  {
    forall t | t in saved ensures Rank(saved.Keys, t) < |saved.Keys| {
      RankIsSmall(saved.Keys, t);
    }
    assert |saved.Keys| == |saved|;
  }

  // A step takes one rollback, newest first, but the newest three stay.
  lemma {:induction false} PruningTakesNextNewest(saved: map<int, Rollback>, steps: nat, t: int)
    ensures var newer := |set u | u in saved && u > t|;
            t in Pruned(saved, steps).value <==> t in saved && (newer < 3 || newer >= 3 + steps)
  {
    assert (set u | u in saved && u > t) == (set u | u in saved.Keys && u > t);
    assert |saved.Keys| == |saved|;
    if t in saved {
      RankIsSmall(saved.Keys, t);
    }
  }

  // ----- The whole procedure -----

  lemma {:induction false} SwappingWorks(disk: Disk, steps: nat)
    requires disk.staged.Some?
    ensures var r, databases := Swapping(disk, steps), disk.staged.value.files;
            && r.value == disk.(files := r.value.files)
            && SameOutside(disk.files, r.value.files, databases.Keys)
            && (forall db :: MaybeSwapped(disk.files, r.value.files, databases, db))
            && (r.ok <==> steps >= SwapCost(disk.files, databases, 0))
            && (r.ok ==> r.left == steps - SwapCost(disk.files, databases, 0))
            && (r.ok ==> forall f :: Get(r.value.files, f) == FinalFile(disk.files, databases, f))
  {
    var databases := disk.staged.value.files;
    SwappedFromIsSafe(disk.files, databases, 0, steps);
    SwappedFromEnds(disk.files, databases, 0, steps);
    forall db ensures MaybeSwapped(disk.files, Swapping(disk, steps).value.files, databases, db) {
      assert Place(db) >= 0;
    }
    if Swapping(disk, steps).ok {
      SwappedFromSwaps(disk.files, databases, 0, steps);
    }
  }

  lemma {:induction false} RestoringWorks(disk: Disk, stamp: int, steps: nat)
    requires disk.staged.Some? && stamp in disk.saved && disk.saved[stamp].dirs == map[]
    ensures var r, source := Restoring(disk, stamp, steps), disk.staged.value.dirs;
            && r.value.saved.Keys == disk.saved.Keys && OnlyTouches(disk.saved, r.value.saved, stamp)
            && r.value == disk.(dirs := r.value.dirs, saved := r.value.saved)
            && r.value.saved[stamp].files == disk.saved[stamp].files
            && ShelvesFrom(Shelves(disk.dirs, map[]), Shelves(r.value.dirs, r.value.saved[stamp].dirs), source, 0, r.ok)
            && (r.ok <==> (forall name :: Copies(source, name)) && steps >= DirectoriesCost(disk.dirs, source, 0))
            && (r.ok ==> r.left == steps - DirectoriesCost(disk.dirs, source, 0))
  {
    var shelves, source := Shelves(disk.dirs, map[]), disk.staged.value.dirs;
    RestoredFromIsSafe(shelves, source, 0, steps);
    RestoredFromEnds(shelves, source, 0, steps);
    AllAreListed(source);
  }

  lemma {:induction false} AllAreListed(source: map<DirName, seq<Entry>>)
    ensures (forall name :: Copies(source, name))
            <==> forall j :: 0 <= j < |DIRECTORIES| ==> Copies(source, DIRECTORIES[j])
  {
    if forall j :: 0 <= j < |DIRECTORIES| ==> Copies(source, DIRECTORIES[j]) {
      forall name ensures Copies(source, name) {
        assert Copies(source, DIRECTORIES[DirectoryIndex(name)]);
      }
    }
  }

  // The disk after the databases are replaced, or while they are.
  lemma {:induction false} FilesStopIsSafe(before: Disk, after: Disk, stamp: int)
    requires before.staged.Some? && before.marker && after == before.(files := after.files, saved := after.saved)
    requires OnlyTouches(before.saved, after.saved, stamp)
    requires SameOutside(before.files, after.files, before.staged.value.files.Keys)
    requires forall db :: MaybeSwapped(before.files, after.files, before.staged.value.files, db)
    requires after.files == before.files
             || (stamp in after.saved && SavesDatabases(after.saved[stamp].files, before.files))
    ensures StoppedEarly(before, after, stamp)
  {
    forall db ensures DatabaseSafe(before, after, stamp, db) {
      assert MaybeSwapped(before.files, after.files, before.staged.value.files, db);
    }
    forall name ensures DirectorySafe(before, after, stamp, name) {
    }
  }

  // The disk while the directories are restored.
  lemma {:induction false} DirsStopIsSafe(before: Disk, mid: Disk, after: Disk, stamp: int, ok: bool)
    requires before.staged.Some? && StoppedEarly(before, mid, stamp) && mid.dirs == before.dirs
    requires stamp in mid.saved && SavesDatabases(mid.saved[stamp].files, before.files)
    requires after == mid.(dirs := after.dirs, saved := after.saved)
    requires after.saved.Keys == mid.saved.Keys && OnlyTouches(mid.saved, after.saved, stamp)
    requires after.saved[stamp].files == mid.saved[stamp].files
    requires ShelvesFrom(Shelves(mid.dirs, map[]), Shelves(after.dirs, after.saved[stamp].dirs),
                         before.staged.value.dirs, 0, ok)
    ensures StoppedEarly(before, after, stamp)
  {
    forall db ensures DatabaseSafe(before, after, stamp, db) {
      assert DatabaseSafe(before, mid, stamp, db);
    }
    var a, b := Shelves(mid.dirs, map[]), Shelves(after.dirs, after.saved[stamp].dirs);
    forall name ensures DirectorySafe(before, after, stamp, name) {
      assert DirectoryIndex(name) >= 0 && ShelfSafe(a, b, before.staged.value.dirs, name);
    }
  }

  lemma {:induction false} DirsAreDone(before: Disk, after: Disk, stamp: int)
    requires before.staged.Some? && stamp in after.saved
    requires ShelvesFrom(Shelves(before.dirs, map[]), Shelves(after.dirs, after.saved[stamp].dirs),
                         before.staged.value.dirs, 0, true)
    ensures forall name ::
              Get(after.dirs, name) == RestoredDir(before.staged.value.dirs, name)
              && Copies(before.staged.value.dirs, name)
    ensures forall name :: Get(after.saved[stamp].dirs, name) == Get(before.dirs, name)
  {
    var a, b := Shelves(before.dirs, map[]), Shelves(after.dirs, after.saved[stamp].dirs);
    forall name
      ensures Get(after.dirs, name) == RestoredDir(before.staged.value.dirs, name)
              && Copies(before.staged.value.dirs, name)
      ensures Get(after.saved[stamp].dirs, name) == Get(before.dirs, name)
    {
      assert DirectoryIndex(name) >= 0 && ShelfDone(a, b, before.staged.value.dirs, name);
    }
  }

  // Every staged directory can be copied.
  ghost predicate AllCopy(disk: Disk)
    requires disk.staged.Some?
  {
    forall name :: Copies(disk.staged.value.dirs, name)
  }

  lemma {:induction false} ReplacingIsSafe(disk: Disk, stamp: int, steps: nat)
    requires disk.marker && disk.staged.Some? && stamp !in disk.saved
    ensures var r := Replacing(disk, stamp, steps);
            && StoppedEarly(disk, r.value, stamp)
            && (r.ok ==> Replaced(disk, r.value) && r.value.saved.Keys == disk.saved.Keys + {stamp})
            && (r.ok ==> HoldsAll(r.value.saved[stamp], disk))
  {
    var saved := Saving(disk, stamp, steps);
    SavingWorks(disk, stamp, steps);
    FilesStopIsSafe(disk, saved.value, stamp);
    if saved.ok {
      var swapped := Swapping(saved.value, saved.left);
      SwappingWorks(saved.value, saved.left);
      FilesStopIsSafe(disk, swapped.value, stamp);
      if swapped.ok {
        var restored := Restoring(swapped.value, stamp, swapped.left);
        RestoringWorks(swapped.value, stamp, swapped.left);
        DirsStopIsSafe(disk, swapped.value, restored.value, stamp, restored.ok);
        if restored.ok {
          DirsAreDone(disk, restored.value, stamp);
        }
      }
    }
  }

  lemma {:induction false} ReplacingEnds(disk: Disk, stamp: int, steps: nat)
    requires disk.staged.Some? && stamp !in disk.saved
    ensures var r := Replacing(disk, stamp, steps);
            && (r.ok <==> AllCopy(disk) && steps >= ReplaceCost(disk))
            && (r.ok ==> r.left == steps - ReplaceCost(disk) && r.value.saved.Keys == disk.saved.Keys + {stamp})
  {
    var saved := Saving(disk, stamp, steps);
    SavingWorks(disk, stamp, steps);
    if saved.ok {
      var swapped := Swapping(saved.value, saved.left);
      SwappingWorks(saved.value, saved.left);
      if swapped.ok {
        RestoringWorks(swapped.value, stamp, swapped.left);
      }
    }
  }

  // With any number of steps, what is left is safe: before the marker is gone everything replaced is
  // in the rollback, and after that the restore is complete.
  lemma {:induction false} EveryStopIsSafe(disk: Disk, stamp: int, steps: nat)
    requires disk.marker && Complete(disk.staged) && stamp !in disk.saved
    ensures var after := Applying(disk, stamp, steps).disk;
            if after.marker then StoppedEarly(disk, after, stamp) else Finished(disk, after, stamp)
  {
    ReplacingIsSafe(disk, stamp, steps);
    var replaced := Replacing(disk, stamp, steps);
    if replaced.ok {
      PrunedKeepsNewest(replaced.value.saved, if replaced.left < 2 then 0 else replaced.left - 2);
      var after := Applying(disk, stamp, steps).disk;
      if !after.marker {
        assert NewestStamps(replaced.value.saved.Keys, ROLLBACKS_KEPT) <= after.saved.Keys <= replaced.value.saved.Keys;
      }
    }
  }

  // What is in a rollback was taken from the disk: a beginning of a database, a directory as it was.
  ghost predicate TakenFrom(rollback: Rollback, before: Disk) {
    TakenBytes(rollback.files, before.files) && TakenTrees(rollback.dirs, before.dirs)
  }

  ghost predicate TakenBytes(copies: map<Database, Bytes>, files: map<FileName, Bytes>) {
    forall db :: db in copies ==> Live(db) in files && copies[db] <= files[Live(db)]
  }

  ghost predicate TakenTrees(rolled: map<DirName, Tree>, live: map<DirName, Tree>) {
    forall name :: name in rolled ==> Get(live, name) == Some(rolled[name])
  }

  lemma {:induction false} SavedFromTakes(copies: map<Database, Bytes>, files: map<FileName, Bytes>, i: nat, steps: nat)
    requires i <= |DATABASES| && TakenBytes(copies, files)
    ensures TakenBytes(SavedFrom(copies, files, i, steps).value, files)
    decreases |DATABASES| - i
  {
    if i < |DATABASES| {
      var one := SavedOne(copies, files, DATABASES[i], steps);
      if one.ok {
        SavedFromTakes(one.value, files, i + 1, one.left);
      }
    }
  }

  lemma {:induction false} SavingTakes(disk: Disk, stamp: int, steps: nat)
    requires stamp !in disk.saved
    ensures var saved := Saving(disk, stamp, steps).value.saved;
            stamp in saved ==> TakenFrom(saved[stamp], disk) && saved[stamp].dirs == map[]
  {
    if steps > 0 {
      SavedFromTakes(map[], disk.files, 0, steps - 1);
    }
  }

  lemma {:induction false} RestoringTakes(disk: Disk, stamp: int, steps: nat)
    requires disk.staged.Some? && stamp in disk.saved && disk.saved[stamp].dirs == map[]
    ensures var saved := Restoring(disk, stamp, steps).value.saved;
            stamp in saved && saved[stamp].files == disk.saved[stamp].files && TakenTrees(saved[stamp].dirs, disk.dirs)
  {
    RestoringWorks(disk, stamp, steps);
    var a, after := Shelves(disk.dirs, map[]), Restoring(disk, stamp, steps).value;
    var b := Shelves(after.dirs, after.saved[stamp].dirs);
    forall name | name in b.rolled ensures Get(disk.dirs, name) == Some(b.rolled[name]) {
      assert DirectoryIndex(name) >= 0 && ShelfSafe(a, b, disk.staged.value.dirs, name);
    }
  }

  lemma {:induction false} ReplacingTakes(disk: Disk, stamp: int, steps: nat)
    requires disk.staged.Some? && stamp !in disk.saved
    ensures var saved := Replacing(disk, stamp, steps).value.saved; stamp in saved ==> TakenFrom(saved[stamp], disk)
  {
    var saved := Saving(disk, stamp, steps);
    SavingTakes(disk, stamp, steps);
    if saved.ok {
      var swapped := Swapping(saved.value, saved.left);
      assert swapped.value.saved == saved.value.saved && swapped.value.dirs == disk.dirs;
      if swapped.ok {
        RestoringTakes(swapped.value, stamp, swapped.left);
      }
    }
  }

  lemma {:induction false} RollbackIsTaken(disk: Disk, stamp: int, steps: nat)
    requires disk.marker && Complete(disk.staged) && stamp !in disk.saved
    ensures var after := Applying(disk, stamp, steps).disk;
            after.marker && stamp in after.saved ==> TakenFrom(after.saved[stamp], disk)
  {
    ReplacingTakes(disk, stamp, steps);
    var replaced := Replacing(disk, stamp, steps);
    var after := Applying(disk, stamp, steps).disk;
    if replaced.ok {
      assert after == CleaningUp(replaced.value, replaced.left).value;
      assert after.marker ==> after == replaced.value;
    } else {
      assert after == replaced.value;
    }
  }

  // A restore ends exactly when every staged directory can be copied and the steps suffice.
  lemma {:induction false} RestoreEndsExactly(disk: Disk, stamp: int, steps: nat)
    requires disk.marker && Complete(disk.staged) && stamp !in disk.saved
    ensures Applying(disk, stamp, steps).outcome.Restored?
            <==> AllCopy(disk) && steps >= RestoreCost(disk)
    ensures Applying(disk, stamp, steps).outcome in {Restored, Stopped}
  {
    var replaced := Replacing(disk, stamp, steps);
    assert Applying(disk, stamp, steps).outcome
           == if replaced.ok && CleaningUp(replaced.value, replaced.left).ok then Restored else Stopped;
    ReplacingEnds(disk, stamp, steps);
    if replaced.ok {
      OneMore(disk.saved, replaced.value.saved, stamp);
      CleaningEnds(replaced.value, replaced.left);
    }
  }

  // It then has taken just that many steps.
  lemma {:induction false} RestoreTakesItsCost(disk: Disk, stamp: int, steps: nat)
    requires disk.marker && Complete(disk.staged) && stamp !in disk.saved
    requires Applying(disk, stamp, steps).outcome.Restored?
    ensures Applying(disk, stamp, steps).left == steps - RestoreCost(disk)
  {
    var replaced := Replacing(disk, stamp, steps);
    ReplacingEnds(disk, stamp, steps);
    OneMore(disk.saved, replaced.value.saved, stamp);
    CleaningEnds(replaced.value, replaced.left);
  }

  lemma {:induction false} OneMore(before: map<int, Rollback>, after: map<int, Rollback>, stamp: int)
    requires after.Keys == before.Keys + {stamp} && stamp !in before
    ensures |after| == |before| + 1
  {
    assert |after| == |after.Keys| && |before| == |before.Keys|;
  }

  lemma {:induction false} CleaningEnds(disk: Disk, steps: nat)
    ensures var r := CleaningUp(disk, steps);
            (r.ok <==> steps >= 2 + TooMany(disk.saved)) && (r.ok ==> r.left == steps - 2 - TooMany(disk.saved))
  {
  }

  // An end has dropped the marker, the staged files and all but the newest three rollbacks.
  lemma {:induction false} EndIsClean(disk: Disk, stamp: int, steps: nat)
    requires stamp !in disk.saved && Applying(disk, stamp, steps).outcome.Restored?
    ensures var after := Applying(disk, stamp, steps).disk;
            && !after.marker && after.staged == None
            && after.saved.Keys == NewestStamps(disk.saved.Keys + {stamp}, 3)
  {
    ReplacingEnds(disk, stamp, steps);
    var replaced := Replacing(disk, stamp, steps);
    PrunedKeepsNewest(replaced.value.saved, replaced.left - 2);
  }
}
