/**
 Applying a staged backup before any database is opened, on a disk that may stop after any file
 step: `steps` is the number of steps that still succeed. Each method leaves exactly what module
 RestoreSteps says those steps make of the disk.
 */
module StagedRestore {
  import opened Wrappers
  import opened RestoreTree
  import opened RestoreSteps

  class RestoreDisk {
    var marker: bool
    var staged: Option<Staged>
    var files: map<FileName, Bytes>
    var dirs: map<DirName, Tree>
    var saved: map<int, Rollback>
    var steps: nat

    ghost function TheDisk(): Disk
      reads this
    {
      Disk(marker, staged, files, dirs, saved)
    }

    method Spend() returns (ok: bool)
      modifies `steps
      ensures ok <==> old(steps) > 0
      ensures steps == if ok then old(steps) - 1 else 0
    {
      ok := steps > 0;
      if ok {
        steps := steps - 1;
      }
    }

    method CopyBytes(data: Bytes) returns (written: Option<Bytes>, ok: bool)
      modifies `steps
      ensures Ran(written, steps, ok) == CopiedBytes(data, old(steps))
    {
      ok := Spend();
      if !ok {
        return None, false;
      }
      var copied: Bytes := [];
      for i := 0 to |data|
        invariant copied == data[..i] && steps + i + 1 == old(steps)
      {
        ok := Spend();
        if !ok {
          return Some(copied), false;
        }
        copied := copied + [data[i]];
      }
      assert data[..|data|] == data;
      return Some(copied), true;
    }

    // ----- Rollback copies -----

    method SaveDatabases(stamp: int) returns (ok: bool)
      modifies `saved, `steps
      ensures Ran(TheDisk(), steps, ok) == Saving(old(TheDisk()), stamp, old(steps))
    {
      ok := Spend();
      if !ok {
        return;
      }
      var copies: map<Database, Bytes> := map[];
      saved := saved[stamp := Rollback(map[], map[])];
      for i := 0 to |DATABASES|
        invariant saved == old(saved)[stamp := Rollback(copies, map[])]
        invariant SavedFrom(copies, files, i, steps) == SavedFrom(map[], files, 0, old(steps) - 1)
      {
        copies, ok := SaveDatabase(copies, DATABASES[i]);
        saved := saved[stamp := Rollback(copies, map[])];
        assert saved == old(saved)[stamp := Rollback(copies, map[])];
        if !ok {
          return;
        }
      }
      ok := true;
    }

    method SaveDatabase(copies: map<Database, Bytes>, db: Database) returns (copies': map<Database, Bytes>, ok: bool)
      modifies `steps
      ensures Ran(copies', steps, ok) == SavedOne(copies, files, db, old(steps))
    {
      copies', ok := copies, true;
      if Live(db) in files {
        var written;
        written, ok := CopyBytes(files[Live(db)]);
        if written.Some? {
          copies' := copies[db := written.value];
        }
      }
    }

    // ----- Databases -----

    method SwapDatabase(db: Database, data: Bytes) returns (ok: bool)
      modifies `files, `steps
      ensures Ran(files, steps, ok) == SwappedOne(old(files), db, data, old(steps))
    {
      var written;
      written, ok := CopyBytes(data);
      if written.Some? {
        files := files[Temporary(db) := written.value];
      }
      if ok {
        ok := RenameOver(db);
      }
      if ok {
        ok := DropJournals(db);
      }
    }

    method RenameOver(db: Database) returns (ok: bool)
      requires Temporary(db) in files
      modifies `files, `steps
      ensures Ran(files, steps, ok) == RenamedOver(old(files), db, old(steps))
    {
      if Live(db) in files {
        ok := Spend();
        if !ok {
          return;
        }
        files := files - {Live(db)};
      }
      ok := Spend();
      if ok {
        files := files[Live(db) := files[Temporary(db)]] - {Temporary(db)};
      }
    }

    method DropJournals(db: Database) returns (ok: bool)
      modifies `files, `steps
      ensures Ran(files, steps, ok) == WithoutJournals(old(files), db, old(steps))
    {
      ok := Spend();
      if ok {
        files := files - {Wal(db)};
        ok := Spend();
        if ok {
          files := files - {Shm(db)};
          assert files == old(files) - {Wal(db), Shm(db)};
        }
      }
    }

    method SwapDatabases(databases: map<Database, Bytes>) returns (ok: bool)
      modifies `files, `steps
      ensures Ran(files, steps, ok) == SwappedFrom(old(files), databases, 0, old(steps))
    {
      ok := true;
      for i := 0 to |DATABASES|
        invariant SwappedFrom(files, databases, i, steps) == SwappedFrom(old(files), databases, 0, old(steps))
      {
        var db := DATABASES[i];
        if db in databases {
          ok := SwapDatabase(db, databases[db]);
          if !ok {
            return;
          }
        }
      }
      ok := true;
    }

    // ----- Data directories -----

    method CopyRestoreTree(entries: seq<Entry>, at: Path, tree: Tree) returns (copied: Tree, ok: bool)
      modifies `steps
      ensures Ran(copied, steps, ok) == CopiedTree(entries, at, tree, old(steps))
      decreases entries, 1
    {
      copied := tree;
      if at in tree && tree[at].File? {
        return copied, false;
      }
      ok := Spend();
      if !ok {
        return;
      }
      copied := copied[at := Folder];
      for i := 0 to |entries|
        invariant CopiedEntries(entries[i..], at, copied, steps)
                  == CopiedEntries(entries, at, tree[at := Folder], old(steps) - 1)
      {
        assert entries[i..][0] == entries[i] && entries[i..][1..] == entries[i + 1..];
        match entries[i].source {
          case SourceFile(data) => copied, ok := PlaceFile(at, entries[i].name, data, copied);
          case SourceDir(inner) => copied, ok := CopyRestoreTree(inner, at + [entries[i].name], copied);
        }
        if !ok {
          return;
        }
      }
      ok := true;
    }

    // Copies to the temporary name, removes the target file and renames.
    method PlaceFile(at: Path, name: string, data: Bytes, tree: Tree) returns (placed: Tree, ok: bool)
      modifies `steps
      ensures Ran(placed, steps, ok) == PlacedFile(at, name, data, tree, old(steps))
    {
      placed := tree;
      var temp, target := at + [TempName(name)], at + [name];
      assert temp[|at|] != target[|at|];
      if temp in tree && tree[temp].Folder? {
        return placed, false;
      }
      var written;
      written, ok := CopyBytes(data);
      if written.Some? {
        placed := placed[temp := File(written.value)];
      }
      if !ok {
        return;
      }
      if target in placed && placed[target].File? {
        ok := Spend();
        if !ok {
          return;
        }
        placed := placed - {target};
      }
      if target in placed {
        return placed, false;
      }
      ok := Spend();
      if ok {
        placed := placed[target := placed[temp]] - {temp};
      }
    }

    method RestoreDirectory(name: DirName, source: map<DirName, seq<Entry>>, stamp: int) returns (ok: bool)
      requires stamp in saved
      modifies `dirs, `saved, `steps
      ensures stamp in saved && saved == old(saved)[stamp := old(saved)[stamp].(dirs := saved[stamp].dirs)]
      ensures Ran(Shelves(dirs, saved[stamp].dirs), steps, ok)
              == RestoredOne(Shelves(old(dirs), old(saved)[stamp].dirs), source, name, old(steps))
    {
      ok := true;
      if name in dirs {
        ok := Spend();
        if !ok {
          return;
        }
        saved := saved[stamp := saved[stamp].(dirs := saved[stamp].dirs[name := dirs[name]])];
        dirs := dirs - {name};
      }
      if name in source {
        var copied;
        copied, ok := CopyRestoreTree(source[name], [], map[]);
        if copied != map[] {
          dirs := dirs[name := copied];
        }
      }
    }

    method RestoreDirectories(source: map<DirName, seq<Entry>>, stamp: int) returns (ok: bool)
      requires stamp in saved
      modifies `dirs, `saved, `steps
      ensures stamp in saved && saved == old(saved)[stamp := old(saved)[stamp].(dirs := saved[stamp].dirs)]
      ensures Ran(Shelves(dirs, saved[stamp].dirs), steps, ok)
              == RestoredFrom(Shelves(old(dirs), old(saved)[stamp].dirs), source, 0, old(steps))
    {
      ok := true;
      for i := 0 to |DIRECTORIES|
        invariant stamp in saved && saved == old(saved)[stamp := old(saved)[stamp].(dirs := saved[stamp].dirs)]
        invariant RestoredFrom(Shelves(dirs, saved[stamp].dirs), source, i, steps)
                  == RestoredFrom(Shelves(old(dirs), old(saved)[stamp].dirs), source, 0, old(steps))
      {
        ok := RestoreDirectory(DIRECTORIES[i], source, stamp);
        if !ok {
          return;
        }
      }
      ok := true;
    }

    // ----- Old rollbacks -----

    method PruneRestoreRollbacks() returns (ok: bool)
      modifies `saved, `steps
      ensures Ran(saved, steps, ok) == Pruned(old(saved), old(steps))
    {
      ghost var all := saved;
      var sorted := StampsNewestFirst(saved.Keys);
      SortedHasAll(sorted, all);
      NothingPruned(all);
      for n := 0 to if |sorted| > ROLLBACKS_KEPT then |sorted| - ROLLBACKS_KEPT else 0
        invariant saved == PrunedBy(all, n) && steps + n == old(steps)
      {
        ok := Spend();
        if !ok {
          return;
        }
        OneMorePruned(all, sorted, n);
        saved := saved - {sorted[ROLLBACKS_KEPT + n]};
      }
      ok := true;
    }

    // ----- The whole procedure -----

    method ApplyStagedRestore(stamp: int) returns (outcome: Outcome)
      requires stamp !in saved
      modifies this
      ensures Applied(outcome, TheDisk(), steps) == Applying(old(TheDisk()), stamp, old(steps))
      ensures outcome.NothingStaged? <==> !old(marker)
      ensures outcome.Incomplete?
              <==> old(marker) && (old(staged).None? || !old(staged).value.manifest
                                   || MusicDatabase !in old(staged).value.files)
      ensures outcome.NothingStaged? || outcome.Incomplete? ==> TheDisk() == old(TheDisk()) && steps == old(steps)
    {
      if !marker {
        return NothingStaged;
      }
      if !Complete(staged) {
        return Incomplete;
      }
      var ok := ReplaceEverything(staged.value, stamp);
      if !ok {
        return Stopped;
      }
      ok := CleanUp();
      return if ok then Restored else Stopped;
    }

    method ReplaceEverything(source: Staged, stamp: int) returns (ok: bool)
      requires staged == Some(source)
      modifies `files, `dirs, `saved, `steps
      ensures Ran(TheDisk(), steps, ok) == Replacing(old(TheDisk()), stamp, old(steps))
    {
      ok := SaveDatabases(stamp);
      if ok {
        ok := SwapDatabases(source.files);
      }
      if ok {
        ok := RestoreDirectories(source.dirs, stamp);
      }
    }

    // The marker goes first, then the staged files and old rollbacks.
    method CleanUp() returns (ok: bool)
      modifies `marker, `staged, `saved, `steps
      ensures Ran(TheDisk(), steps, ok) == CleaningUp(old(TheDisk()), old(steps))
    {
      ok := Spend();
      if !ok {
        return;
      }
      marker := false;
      ok := Spend();
      if !ok {
        return;
      }
      staged := None;
      ok := PruneRestoreRollbacks();
    }
  }

  // ----- Sorting time stamps -----

  lemma {:induction false} Member<T>(items: set<T>) returns (item: T)
    requires items != {}
    ensures item in items
  {
    item :| item in items;
  }

  lemma {:induction false} MaxExists(stamps: set<int>) returns (top: int)
    requires stamps != {}
    ensures top in stamps && forall t :: t in stamps ==> t <= top
    decreases |stamps|
  {
    var t := Member(stamps);
    if stamps == {t} {
      top := t;
    } else {
      var rest := MaxExists(stamps - {t});
      assert stamps == stamps - {t} + {t};
      top := if t > rest then t else rest;
    }
  }

  ghost predicate NewestFirst(sorted: seq<int>) {
    forall i, j :: 0 <= i < j < |sorted| ==> sorted[i] > sorted[j]
  }

  ghost predicate Sorts(sorted: seq<int>, stamps: set<int>) {
    NewestFirst(sorted) && forall t :: t in sorted <==> t in stamps
  }

  method StampsNewestFirst(stamps: set<int>) returns (sorted: seq<int>)
    ensures Sorts(sorted, stamps)
  {
    sorted := [];
    var rest := stamps;
    while rest != {}
      invariant rest <= stamps && NewestFirst(sorted)
      invariant forall t :: t in stamps <==> t in rest || t in sorted
      invariant forall t, i :: t in rest && 0 <= i < |sorted| ==> sorted[i] > t
      decreases |rest|
    {
      ghost var one := MaxExists(rest);
      var top :| top in rest && forall t :: t in rest ==> t <= top;
      sorted := sorted + [top];
      rest := rest - {top};
    }
  }

  ghost function FirstStamps(sorted: seq<int>, n: nat): set<int>
    requires n <= |sorted|
  {
    set i | 0 <= i < n :: sorted[i]
  }

  lemma {:induction false} FirstStampsAreN(sorted: seq<int>, n: nat)
    requires NewestFirst(sorted) && n <= |sorted|
    ensures |FirstStamps(sorted, n)| == n
  {
    if n > 0 {
      FirstStampsAreN(sorted, n - 1);
      var top := sorted[n - 1];
      assert FirstStamps(sorted, n) == FirstStamps(sorted, n - 1) + {top};
      assert top !in FirstStamps(sorted, n - 1);
    }
  }

  lemma {:induction false} SortedHasAll(sorted: seq<int>, saved: map<int, Rollback>)
    requires Sorts(sorted, saved.Keys)
    ensures |sorted| == |saved|
  {
    FirstStampsAreN(sorted, |sorted|);
    forall t ensures t in saved.Keys <==> t in FirstStamps(sorted, |sorted|) {
    }
    assert saved.Keys == FirstStamps(sorted, |sorted|);
    assert |saved| == |saved.Keys|;
  }

  // A stamp's place in the sorted list is the number of newer ones.
  lemma {:induction false} PlaceIsRank(sorted: seq<int>, stamps: set<int>, i: nat)
    requires Sorts(sorted, stamps) && i < |sorted|
    ensures Rank(stamps, sorted[i]) == i
  {
    var newer := set u | u in stamps && u > sorted[i];
    FirstStampsAreN(sorted, i);
    forall u ensures u in newer <==> u in FirstStamps(sorted, i) {
      if u in newer {
        var k :| 0 <= k < |sorted| && sorted[k] == u;
      }
    }
    assert newer == FirstStamps(sorted, i);
  }

  lemma {:induction false} NothingPruned(saved: map<int, Rollback>)
    ensures PrunedBy(saved, 0) == saved
  {
  }

  // Dropping the next place of the sorted list is the next step of the pruning.
  lemma {:induction false} OneMorePruned(saved: map<int, Rollback>, sorted: seq<int>, n: nat)
    requires Sorts(sorted, saved.Keys) && ROLLBACKS_KEPT + n < |sorted|
    ensures PrunedBy(saved, n) - {sorted[ROLLBACKS_KEPT + n]} == PrunedBy(saved, n + 1)
  {
    var i := ROLLBACKS_KEPT + n;
    PlaceIsRank(sorted, saved.Keys, i);
    forall t | t in saved && Rank(saved.Keys, t) == i ensures t == sorted[i] {
      var k :| 0 <= k < |sorted| && sorted[k] == t;
      PlaceIsRank(sorted, saved.Keys, k);
    }
  }
}
