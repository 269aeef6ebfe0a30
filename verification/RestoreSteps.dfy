/**
 What a given number of file steps make of a disk when a staged backup is applied. Every function
 takes the steps that still succeed and gives the result reached, the steps left and whether it
 got to its end. A file copy creates its target and then writes one chunk a step, so a stop can
 leave a torn copy; a rename or a removal is one step.
 */
module RestoreSteps {
  import opened Wrappers
  import opened RestoreTree

  datatype Database = MusicDatabase | CoreDatabase

  // Files of the Database directory.
  datatype FileName =
    | Live(db: Database)
    | Temporary(db: Database)
    | Wal(db: Database)
    | Shm(db: Database)
    | Other(name: string)

  datatype DirName = Config | ProfilePictures | AlbumCovers | ArtistIcons | Artwork

  const DATABASES := [MusicDatabase, CoreDatabase]
  const DIRECTORIES := [Config, ProfilePictures, AlbumCovers, ArtistIcons, Artwork]

  datatype Staged = Staged(manifest: bool, files: map<Database, Bytes>, dirs: map<DirName, seq<Entry>>)

  datatype Rollback = Rollback(files: map<Database, Bytes>, dirs: map<DirName, Tree>)

  // `saved` holds the before-restore directories under their time stamps.
  datatype Disk = Disk(
    marker: bool,
    staged: Option<Staged>,
    files: map<FileName, Bytes>,
    dirs: map<DirName, Tree>,
    saved: map<int, Rollback>)

  const ROLLBACKS_KEPT := 3

  datatype Outcome = NothingStaged | Incomplete | Stopped | Restored

  // What a piece of work came to.
  datatype Ran<T> = Ran(value: T, left: nat, ok: bool)

  predicate Complete(staged: Option<Staged>) {
    staged.Some? && staged.value.manifest && MusicDatabase in staged.value.files
  }

  // ----- Files -----

  // The bytes a copy has written; none if the target was not even created.
  function CopiedBytes(data: Bytes, steps: nat): (r: Ran<Option<Bytes>>)
    ensures r.ok <==> steps > |data|
    ensures r.ok ==> r.value == Some(data)
  {
    if steps == 0 then Ran(None, 0, false)
    else if steps <= |data| then Ran(Some(data[..steps - 1]), 0, false)
    else Ran(Some(data), steps - |data| - 1, true)
  }

  // A copy that is stopped leaves no target, or one with a byte for each step behind the first.
  lemma {:induction false} StoppedCopyIsTorn(data: Bytes, steps: nat)
    requires steps <= |data|
    ensures var r := CopiedBytes(data, steps);
            && !r.ok && r.left == 0 && (r.value.None? <==> steps == 0)
            && (r.value.Some? ==> |r.value.value| == steps - 1 && r.value.value <= data)
  {
  }

  // One database into the rollback, if it is there.
  function SavedOne(copies: map<Database, Bytes>, files: map<FileName, Bytes>, db: Database, steps: nat)
    : Ran<map<Database, Bytes>>
  {
    if Live(db) !in files then Ran(copies, steps, true)
    else
      var copy := CopiedBytes(files[Live(db)], steps);
      Ran(if copy.value.Some? then copies[db := copy.value.value] else copies, copy.left, copy.ok)
  }

  function SavedFrom(copies: map<Database, Bytes>, files: map<FileName, Bytes>, i: nat, steps: nat)
    : Ran<map<Database, Bytes>>
    requires i <= |DATABASES|
    decreases |DATABASES| - i
  {
    if i == |DATABASES| then Ran(copies, steps, true)
    else
      var one := SavedOne(copies, files, DATABASES[i], steps);
      if one.ok then SavedFrom(one.value, files, i + 1, one.left) else one
  }

  // Removes the live file, then renames the temporary one into place.
  function RenamedOver(files: map<FileName, Bytes>, db: Database, steps: nat): Ran<map<FileName, Bytes>>
    requires Temporary(db) in files
  {
    if Live(db) in files then
      if steps == 0 then Ran(files, 0, false) else Renamed(files - {Live(db)}, db, steps - 1)
    else Renamed(files, db, steps)
  }

  function Renamed(files: map<FileName, Bytes>, db: Database, steps: nat): Ran<map<FileName, Bytes>>
    requires Temporary(db) in files
  {
    if steps == 0 then Ran(files, 0, false)
    else Ran(files[Live(db) := files[Temporary(db)]] - {Temporary(db)}, steps - 1, true)
  }

  function WithoutJournals(files: map<FileName, Bytes>, db: Database, steps: nat): Ran<map<FileName, Bytes>> {
    if steps == 0 then Ran(files, 0, false)
    else if steps == 1 then Ran(files - {Wal(db)}, 0, false)
    else Ran(files - {Wal(db), Shm(db)}, steps - 2, true)
  }

  function SwappedOne(files: map<FileName, Bytes>, db: Database, data: Bytes, steps: nat): Ran<map<FileName, Bytes>> {
    var copy := CopiedBytes(data, steps);
    var written := if copy.value.Some? then files[Temporary(db) := copy.value.value] else files;
    if !copy.ok then Ran(written, copy.left, false)
    else
      var placed := RenamedOver(written, db, copy.left);
      if placed.ok then WithoutJournals(placed.value, db, placed.left) else placed
  }

  function SwappedFrom(files: map<FileName, Bytes>, databases: map<Database, Bytes>, i: nat, steps: nat)
    : Ran<map<FileName, Bytes>>
    requires i <= |DATABASES|
    decreases |DATABASES| - i
  {
    if i == |DATABASES| then Ran(files, steps, true)
    else if DATABASES[i] !in databases then SwappedFrom(files, databases, i + 1, steps)
    else
      var one := SwappedOne(files, DATABASES[i], databases[DATABASES[i]], steps);
      if one.ok then SwappedFrom(one.value, databases, i + 1, one.left) else one
  }

  // ----- Directories -----

  function Moved(tree: Tree, from: Path, to: Path, steps: nat): Ran<Tree>
    requires from in tree
  {
    if steps == 0 then Ran(tree, 0, false) else Ran(tree[to := tree[from]] - {from}, steps - 1, true)
  }

  // Copies to the temporary name, removes the target file and renames.
  function PlacedFile(at: Path, name: string, data: Bytes, tree: Tree, steps: nat): Ran<Tree> {
    var temp, target := at + [TempName(name)], at + [name];
    assert temp[|at|] != target[|at|];
    if temp in tree && tree[temp].Folder? then Ran(tree, steps, false)
    else
      var copy := CopiedBytes(data, steps);
      var written := if copy.value.Some? then tree[temp := File(copy.value.value)] else tree;
      if !copy.ok then Ran(written, copy.left, false)
      else if target in tree && tree[target].Folder? then Ran(written, copy.left, false)
      else if target !in tree then Moved(written, temp, target, copy.left)
      else if copy.left == 0 then Ran(written, 0, false)
      else Moved(written - {target}, temp, target, copy.left - 1)
  }

  function CopiedTree(entries: seq<Entry>, at: Path, tree: Tree, steps: nat): Ran<Tree>
    decreases entries, 1
  {
    if at in tree && tree[at].File? then Ran(tree, steps, false)
    else if steps == 0 then Ran(tree, 0, false)
    else CopiedEntries(entries, at, tree[at := Folder], steps - 1)
  }

  function CopiedEntry(entry: Entry, at: Path, tree: Tree, steps: nat): Ran<Tree>
    decreases entry, 2
  {
    match entry.source
    case SourceFile(data) => PlacedFile(at, entry.name, data, tree, steps)
    case SourceDir(entries) => CopiedTree(entries, at + [entry.name], tree, steps)
  }

  function CopiedEntries(entries: seq<Entry>, at: Path, tree: Tree, steps: nat): Ran<Tree>
    decreases entries, 0
  {
    if entries == [] then Ran(tree, steps, true)
    else
      var first := CopiedEntry(entries[0], at, tree, steps);
      if first.ok then CopiedEntries(entries[1..], at, first.value, first.left) else first
  }

  // The live data directories and those moved into the rollback.
  datatype Shelves = Shelves(live: map<DirName, Tree>, rolled: map<DirName, Tree>)

  function Refilled(shelves: Shelves, source: map<DirName, seq<Entry>>, name: DirName, steps: nat): Ran<Shelves> {
    if name !in source then Ran(shelves, steps, true)
    else
      var copy := CopiedTree(source[name], [], map[], steps);
      Ran(if copy.value == map[] then shelves else shelves.(live := shelves.live[name := copy.value]),
          copy.left, copy.ok)
  }

  function RestoredOne(shelves: Shelves, source: map<DirName, seq<Entry>>, name: DirName, steps: nat): Ran<Shelves> {
    if name !in shelves.live then Refilled(shelves, source, name, steps)
    else if steps == 0 then Ran(shelves, 0, false)
    else
      Refilled(Shelves(shelves.live - {name}, shelves.rolled[name := shelves.live[name]]), source, name, steps - 1)
  }

  function RestoredFrom(shelves: Shelves, source: map<DirName, seq<Entry>>, i: nat, steps: nat): Ran<Shelves>
    requires i <= |DIRECTORIES|
    decreases |DIRECTORIES| - i
  {
    if i == |DIRECTORIES| then Ran(shelves, steps, true)
    else
      var one := RestoredOne(shelves, source, DIRECTORIES[i], steps);
      if one.ok then RestoredFrom(one.value, source, i + 1, one.left) else one
  }

  // ----- Old rollbacks -----

  // How many stamps are newer.
  function Rank(stamps: set<int>, t: int): nat {
    |set u | u in stamps && u > t|
  }

  // The newest `cap` stamps.
  function NewestStamps(stamps: set<int>, cap: nat): set<int> {
    set t | t in stamps && Rank(stamps, t) < cap
  }

  // Past the newest three, `n` rollbacks are gone, the newer ones first.
  function PrunedBy(saved: map<int, Rollback>, n: nat): map<int, Rollback> {
    map t | t in saved && (Rank(saved.Keys, t) < ROLLBACKS_KEPT || Rank(saved.Keys, t) >= ROLLBACKS_KEPT + n)
      :: saved[t]
  }

  function TooMany(saved: map<int, Rollback>): nat {
    if |saved| > ROLLBACKS_KEPT then |saved| - ROLLBACKS_KEPT else 0
  }

  function Pruned(saved: map<int, Rollback>, steps: nat): Ran<map<int, Rollback>> {
    if steps < TooMany(saved) then Ran(PrunedBy(saved, steps), 0, false)
    else Ran(PrunedBy(saved, TooMany(saved)), steps - TooMany(saved), true)
  }

  // ----- The whole procedure -----

  // The rollback of the databases.
  function Saving(disk: Disk, stamp: int, steps: nat): Ran<Disk> {
    if steps == 0 then Ran(disk, 0, false)
    else
      var copies := SavedFrom(map[], disk.files, 0, steps - 1);
      Ran(disk.(saved := disk.saved[stamp := Rollback(copies.value, map[])]), copies.left, copies.ok)
  }

  function Swapping(disk: Disk, steps: nat): Ran<Disk>
    requires disk.staged.Some?
  {
    var files := SwappedFrom(disk.files, disk.staged.value.files, 0, steps);
    Ran(disk.(files := files.value), files.left, files.ok)
  }

  function Restoring(disk: Disk, stamp: int, steps: nat): Ran<Disk>
    requires disk.staged.Some? && stamp in disk.saved
  {
    var rollback := disk.saved[stamp];
    var shelves := RestoredFrom(Shelves(disk.dirs, rollback.dirs), disk.staged.value.dirs, 0, steps);
    Ran(disk.(dirs := shelves.value.live, saved := disk.saved[stamp := rollback.(dirs := shelves.value.rolled)]),
        shelves.left, shelves.ok)
  }

  // Everything before the marker is removed.
  function Replacing(disk: Disk, stamp: int, steps: nat): Ran<Disk>
    requires disk.staged.Some?
  {
    var saved := Saving(disk, stamp, steps);
    if !saved.ok then saved
    else
      var swapped := Swapping(saved.value, saved.left);
      if swapped.ok then Restoring(swapped.value, stamp, swapped.left) else swapped
  }

  // The marker goes first, then the staged files and old rollbacks.
  function CleaningUp(disk: Disk, steps: nat): Ran<Disk> {
    if steps == 0 then Ran(disk, 0, false)
    else if steps == 1 then Ran(disk.(marker := false), 0, false)
    else
      var pruned := Pruned(disk.saved, steps - 2);
      Ran(disk.(marker := false, staged := None, saved := pruned.value), pruned.left, pruned.ok)
  }

  datatype Applied = Applied(outcome: Outcome, disk: Disk, left: nat)

  function Applying(disk: Disk, stamp: int, steps: nat): Applied {
    if !disk.marker then Applied(NothingStaged, disk, steps)
    else if !Complete(disk.staged) then Applied(Incomplete, disk, steps)
    else
      var replaced := Replacing(disk, stamp, steps);
      if !replaced.ok then Applied(Stopped, replaced.value, replaced.left)
      else
        var done := CleaningUp(replaced.value, replaced.left);
        Applied(if done.ok then Restored else Stopped, done.value, done.left)
  }

  // ----- What it takes -----

  function SaveCost(files: map<FileName, Bytes>, i: nat): nat
    requires i <= |DATABASES|
    decreases |DATABASES| - i
  {
    if i == |DATABASES| then 0
    else (if Live(DATABASES[i]) in files then |files[Live(DATABASES[i])]| + 1 else 0) + SaveCost(files, i + 1)
  }

  // Copying, removing the live file, renaming and removing two journals.
  function SwapCost(files: map<FileName, Bytes>, databases: map<Database, Bytes>, i: nat): nat
    requires i <= |DATABASES|
    decreases |DATABASES| - i
  {
    if i == |DATABASES| then 0
    else
      var db := DATABASES[i];
      (if db in databases then |databases[db]| + 4 + (if Live(db) in files then 1 else 0) else 0)
      + SwapCost(files, databases, i + 1)
  }

  function EntryCost(entry: Entry, at: Path, tree: Tree): nat
    decreases entry, 2
  {
    match entry.source
    case SourceFile(data) => |data| + 2 + if at + [entry.name] in tree then 1 else 0
    case SourceDir(entries) => TreeCost(entries, at + [entry.name], tree)
  }

  function EntriesCost(entries: seq<Entry>, at: Path, tree: Tree): nat
    decreases entries, 0
  {
    if entries == [] then 0
    else
      var next := CopyEntry(entries[0], at, tree);
      EntryCost(entries[0], at, tree) + if next.Some? then EntriesCost(entries[1..], at, next.value) else 0
  }

  function TreeCost(entries: seq<Entry>, at: Path, tree: Tree): nat
    decreases entries, 1
  {
    1 + EntriesCost(entries, at, tree[at := Folder])
  }

  function DirectoryCost(live: map<DirName, Tree>, source: map<DirName, seq<Entry>>, name: DirName): nat {
    (if name in live then 1 else 0) + (if name in source then TreeCost(source[name], [], map[]) else 0)
  }

  function DirectoriesCost(live: map<DirName, Tree>, source: map<DirName, seq<Entry>>, i: nat): nat
    requires i <= |DIRECTORIES|
    decreases |DIRECTORIES| - i
  {
    if i == |DIRECTORIES| then 0 else DirectoryCost(live, source, DIRECTORIES[i]) + DirectoriesCost(live, source, i + 1)
  }

  function ReplaceCost(disk: Disk): nat
    requires disk.staged.Some?
  {
    1 + SaveCost(disk.files, 0) + SwapCost(disk.files, disk.staged.value.files, 0)
    + DirectoriesCost(disk.dirs, disk.staged.value.dirs, 0)
  }

  // All file steps of a restore of this disk.
  function RestoreCost(disk: Disk): nat
    requires disk.staged.Some?
  {
    ReplaceCost(disk) + 2 + if |disk.saved| + 1 > ROLLBACKS_KEPT then |disk.saved| + 1 - ROLLBACKS_KEPT else 0
  }
}
