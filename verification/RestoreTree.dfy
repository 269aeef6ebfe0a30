/**
 Copying a staged directory tree into a live directory: the recursive copy writes each file
 under a temporary sibling name and renames it into place.
 */
module RestoreTree {
  import opened Wrappers

  type Bytes = seq<nat>

  type Path = seq<string>

  datatype Node = File(data: Bytes) | Folder

  // A live directory: what is at each path below it, [] being the directory itself.
  type Tree = map<Path, Node>

  // A staged directory entry; a directory lists its entries in the order they are read.
  datatype Source = SourceFile(data: Bytes) | SourceDir(entries: seq<Entry>)

  datatype Entry = Entry(name: string, source: Source)

  // The file name with its extension `e` replaced by `e.restore-tmp`.
  function TempName(name: string): (r: string)
    ensures |r| > |name|
  {
    var dot := LastDot(name);
    if dot <= 0 then name + "." + ".restore-tmp"
    else if dot == |name| - 1 then name[..dot] + "." + ".restore-tmp"
    else name[..dot] + "." + name[dot + 1..] + ".restore-tmp"
  }

  function LastDot(name: string): (r: int)
    ensures -1 <= r < |name|
  {
    if name == [] then -1 else if name[|name| - 1] == '.' then |name| - 1 else LastDot(name[..|name| - 1])
  }

  lemma {:induction false} LastDotIs(stem: string, extension: string)
    requires '.' !in extension
    ensures LastDot(stem + "." + extension) == |stem|
  {
    var name := stem + "." + extension;
    if extension != [] {
      var n := |extension| - 1;
      assert name[|name| - 1] == extension[n];
      assert name[..|name| - 1] == stem + "." + extension[..n];
      LastDotIs(stem, extension[..n]);
    }
  }

  lemma {:induction false} NoDotBehindFirst(name: string)
    requires forall i :: 0 < i < |name| ==> name[i] != '.'
    ensures LastDot(name) <= 0
  {
    if |name| > 1 {
      NoDotBehindFirst(name[..|name| - 1]);
    }
  }

  // A name with an extension just gets a longer one; any other gets an empty extension first.
  lemma {:induction false} TempNameIs(stem: string, extension: string)
    requires '.' !in extension
    ensures stem != [] ==> TempName(stem + "." + extension) == stem + "." + extension + ".restore-tmp"
    ensures stem == [] ==> TempName("." + extension) == "." + extension + "..restore-tmp"
    ensures TempName(extension) == extension + "..restore-tmp"
  {
    LastDotIs(stem, extension);
    NoDotBehindFirst(extension);
    NoDotBehindFirst("." + extension);
    assert "." + ".restore-tmp" == "..restore-tmp";
    assert extension + "." + ".restore-tmp" == extension + "..restore-tmp";
    assert ("." + extension) + "." + ".restore-tmp" == "." + extension + "..restore-tmp";
    if stem != [] {
      var name := stem + "." + extension;
      assert name[..|stem|] == stem && name[|stem| + 1..] == extension;
      assert stem + "." + ".restore-tmp" == stem + "." + [] + ".restore-tmp";
    }
  }

  // ----- What a completed copy leaves; None is an I/O error -----

  function PutFile(at: Path, name: string, data: Bytes, tree: Tree): Option<Tree> {
    var temp, target := at + [TempName(name)], at + [name];
    if (temp in tree && tree[temp].Folder?) || (target in tree && tree[target].Folder?) then None
    else Some((tree - {temp})[target := File(data)])
  }

  function CopyTree(entries: seq<Entry>, at: Path, tree: Tree): Option<Tree>
    decreases entries, 1
  {
    if at in tree && tree[at].File? then None else CopyEntries(entries, at, tree[at := Folder])
  }

  function CopyEntry(entry: Entry, at: Path, tree: Tree): Option<Tree>
    decreases entry, 2
  {
    match entry.source
    case SourceFile(data) => PutFile(at, entry.name, data, tree)
    case SourceDir(entries) => CopyTree(entries, at + [entry.name], tree)
  }

  function CopyEntries(entries: seq<Entry>, at: Path, tree: Tree): Option<Tree>
    decreases entries, 0
  {
    if entries == [] then Some(tree)
    else
      var first := CopyEntry(entries[0], at, tree);
      if first.None? then None else CopyEntries(entries[1..], at, first.value)
  }

  // ----- The staged tree as a live one -----

  function FlatTree(entries: seq<Entry>, at: Path): Tree
    decreases entries, 1
  {
    map[at := Folder] + FlatEntries(entries, at)
  }

  function FlatEntry(entry: Entry, at: Path): Tree
    decreases entry, 2
  {
    match entry.source
    case SourceFile(data) => map[at + [entry.name] := File(data)]
    case SourceDir(entries) => FlatTree(entries, at + [entry.name])
  }

  function FlatEntries(entries: seq<Entry>, at: Path): Tree
    decreases entries, 0
  {
    if entries == [] then map[] else FlatEntry(entries[0], at) + FlatEntries(entries[1..], at)
  }

  // A directory holds a name once.
  predicate DistinctNames(entries: seq<Entry>)
    decreases entries
  {
    && (forall i, j :: 0 <= i < j < |entries| ==> entries[i].name != entries[j].name)
    && (forall i :: 0 <= i < |entries| && entries[i].source.SourceDir? ==> DistinctNames(entries[i].source.entries))
  }

  // No file is read after a sibling that already bears the file's temporary name.
  predicate NoClash(entries: seq<Entry>)
    decreases entries
  {
    && (forall i, j :: 0 <= i < j < |entries| && entries[j].source.SourceFile? ==>
          entries[i].name != TempName(entries[j].name))
    && (forall i :: 0 <= i < |entries| && entries[i].source.SourceDir? ==> NoClash(entries[i].source.entries))
  }

  ghost predicate Names(entries: seq<Entry>, name: string) {
    exists i :: 0 <= i < |entries| && entries[i].name == name
  }

  // ----- Without a clash the copy is exact -----

  // Nothing is in the way of the entries still to be copied.
  ghost predicate Clear(tree: Tree, at: Path, entries: seq<Entry>) {
    && (forall i, p :: 0 <= i < |entries| && p in tree ==> !(at + [entries[i].name] <= p))
    && (forall i :: 0 <= i < |entries| && entries[i].source.SourceFile? ==> at + [TempName(entries[i].name)] !in tree)
  }

  lemma {:induction false} FlatTreeIsUnder(entries: seq<Entry>, at: Path, p: Path)
    requires p in FlatTree(entries, at)
    ensures at <= p
    decreases entries, 1
  {
    if p != at {
      FlatEntriesAreUnder(entries, at, p);
    }
  }

  lemma {:induction false} FlatEntriesAreUnder(entries: seq<Entry>, at: Path, p: Path)
    requires p in FlatEntries(entries, at)
    ensures |p| > |at| && at <= p && Names(entries, p[|at|])
    decreases entries, 0
  {
    if p in FlatEntries(entries[1..], at) {
      FlatEntriesAreUnder(entries[1..], at, p);
      var i :| 0 <= i < |entries[1..]| && entries[1..][i].name == p[|at|];
      assert entries[i + 1].name == p[|at|];
    } else if entries[0].source.SourceDir? {
      FlatTreeIsUnder(entries[0].source.entries, at + [entries[0].name], p);
      assert p[|at|] == entries[0].name;
    }
  }

  lemma {:induction false} BelowIsUnder(at: Path, name: string, p: Path)
    ensures at + [name] <= p ==> at <= p && p[|at|] == name
  {
    if at + [name] <= p {
      assert p[..|at|] == at;
    }
  }

  lemma {:induction false} CopyTreeIsExact(entries: seq<Entry>, at: Path, tree: Tree)
    requires DistinctNames(entries) && NoClash(entries)
    requires forall p :: p in tree ==> !(at <= p)
    ensures CopyTree(entries, at, tree) == Some(tree + FlatTree(entries, at))
    decreases entries, 1
  {
    var made := tree[at := Folder];
    forall i, p | 0 <= i < |entries| && p in made ensures !(at + [entries[i].name] <= p) {
      BelowIsUnder(at, entries[i].name, p);
    }
    forall i | 0 <= i < |entries| ensures at + [TempName(entries[i].name)] !in made {
      assert at <= at + [TempName(entries[i].name)];
    }
    CopyEntriesIsExact(entries, at, made);
    assert tree[at := Folder] + FlatEntries(entries, at) == tree + FlatTree(entries, at);
  }

  lemma {:induction false} PlusIsAssociative(a: Tree, b: Tree, c: Tree)
    ensures (a + b) + c == a + (b + c)
  {
  }

  lemma {:induction false} CopyEntriesIsExact(entries: seq<Entry>, at: Path, tree: Tree)
    requires DistinctNames(entries) && NoClash(entries) && Clear(tree, at, entries)
    ensures CopyEntries(entries, at, tree) == Some(tree + FlatEntries(entries, at))
    decreases entries, 0
  {
    if entries != [] {
      var entry := entries[0];
      CopyEntryIsExact(entries, at, tree);
      var next := tree + FlatEntry(entry, at);
      StaysClear(entries, at, tree);
      CopyEntriesIsExact(entries[1..], at, next);
      PlusIsAssociative(tree, FlatEntry(entry, at), FlatEntries(entries[1..], at));
    } else {
      assert tree + map[] == tree;
    }
  }

  lemma {:induction false} CopyEntryIsExact(entries: seq<Entry>, at: Path, tree: Tree)
    requires entries != [] && DistinctNames(entries) && NoClash(entries) && Clear(tree, at, entries)
    ensures CopyEntry(entries[0], at, tree) == Some(tree + FlatEntry(entries[0], at))
    decreases entries, -1
  {
    var entry := entries[0];
    var target := at + [entry.name];
    match entry.source
    case SourceFile(data) =>
      assert target !in tree;
      assert tree - {at + [TempName(entry.name)]} == tree;
      assert tree[target := File(data)] == tree + map[target := File(data)];
    case SourceDir(inner) =>
      CopyTreeIsExact(inner, target, tree);
  }

  lemma {:induction false} FlatEntryIsUnder(entry: Entry, at: Path, p: Path)
    requires p in FlatEntry(entry, at)
    ensures at + [entry.name] <= p && |p| > |at| && p[|at|] == entry.name
  {
    if entry.source.SourceDir? {
      FlatTreeIsUnder(entry.source.entries, at + [entry.name], p);
    }
    BelowIsUnder(at, entry.name, p);
  }

  lemma {:induction false} StaysClear(entries: seq<Entry>, at: Path, tree: Tree)
    requires entries != [] && DistinctNames(entries) && NoClash(entries) && Clear(tree, at, entries)
    ensures Clear(tree + FlatEntry(entries[0], at), at, entries[1..])
  {
    var next := tree + FlatEntry(entries[0], at);
    var rest := entries[1..];
    forall i, p | 0 <= i < |rest| && p in next ensures !(at + [rest[i].name] <= p) {
      assert rest[i] == entries[i + 1];
      if p in FlatEntry(entries[0], at) {
        FlatEntryIsUnder(entries[0], at, p);
        BelowIsUnder(at, rest[i].name, p);
      }
    }
    forall i | 0 <= i < |rest| && rest[i].source.SourceFile? ensures at + [TempName(rest[i].name)] !in next {
      assert rest[i] == entries[i + 1];
      var temp := at + [TempName(rest[i].name)];
      if temp in FlatEntry(entries[0], at) {
        FlatEntryIsUnder(entries[0], at, temp);
      }
    }
  }

  // ----- With a clash something is lost -----

  lemma {:induction false} CopyTreeAddsUnder(entries: seq<Entry>, at: Path, tree: Tree, p: Path)
    requires CopyTree(entries, at, tree).Some? && p in CopyTree(entries, at, tree).value
    ensures p in tree || at <= p
    decreases entries, 1
  {
    CopyEntriesAddBelow(entries, at, tree[at := Folder], p);
  }

  lemma {:induction false} CopyEntryAddsUnder(entry: Entry, at: Path, tree: Tree, p: Path)
    requires CopyEntry(entry, at, tree).Some? && p in CopyEntry(entry, at, tree).value
    ensures p in tree || at + [entry.name] <= p
    decreases entry, 2
  {
    if entry.source.SourceDir? {
      CopyTreeAddsUnder(entry.source.entries, at + [entry.name], tree, p);
    }
  }

  lemma {:induction false} CopyEntriesAddBelow(entries: seq<Entry>, at: Path, tree: Tree, p: Path)
    requires CopyEntries(entries, at, tree).Some? && p in CopyEntries(entries, at, tree).value
    ensures p in tree || (at <= p && |p| > |at| && Names(entries, p[|at|]))
    decreases entries, 0
  {
    if entries != [] {
      var first := CopyEntry(entries[0], at, tree).value;
      CopyEntriesAddBelow(entries[1..], at, first, p);
      if p in first {
        CopyEntryAddsUnder(entries[0], at, tree, p);
        BelowIsUnder(at, entries[0].name, p);
      } else {
        var i :| 0 <= i < |entries[1..]| && entries[1..][i].name == p[|at|];
        assert entries[i + 1].name == p[|at|];
      }
    }
  }

  lemma {:induction false} TreeKeepsFolders(entries: seq<Entry>, at: Path, tree: Tree, p: Path)
    requires p in tree && tree[p].Folder? && CopyTree(entries, at, tree).Some?
    ensures var copied := CopyTree(entries, at, tree).value; p in copied && copied[p].Folder?
    decreases entries, 1
  {
    EntriesKeepFolders(entries, at, tree[at := Folder], p);
  }

  lemma {:induction false} EntryKeepsFolders(entry: Entry, at: Path, tree: Tree, p: Path)
    requires p in tree && tree[p].Folder? && CopyEntry(entry, at, tree).Some?
    ensures var copied := CopyEntry(entry, at, tree).value; p in copied && copied[p].Folder?
    decreases entry, 2
  {
    if entry.source.SourceDir? {
      TreeKeepsFolders(entry.source.entries, at + [entry.name], tree, p);
    }
  }

  lemma {:induction false} EntriesKeepFolders(entries: seq<Entry>, at: Path, tree: Tree, p: Path)
    requires p in tree && tree[p].Folder? && CopyEntries(entries, at, tree).Some?
    ensures var copied := CopyEntries(entries, at, tree).value; p in copied && copied[p].Folder?
    decreases entries, 0
  {
    if entries != [] {
      EntryKeepsFolders(entries[0], at, tree, p);
      EntriesKeepFolders(entries[1..], at, CopyEntry(entries[0], at, tree).value, p);
    }
  }

  // A path below a name that is no longer to come stays missing.
  lemma {:induction false} StaysMissing(entries: seq<Entry>, at: Path, tree: Tree, p: Path)
    requires CopyEntries(entries, at, tree).Some? && p !in tree
    requires |p| > |at| && !Names(entries, p[|at|])
    ensures p !in CopyEntries(entries, at, tree).value
  {
    if p in CopyEntries(entries, at, tree).value {
      CopyEntriesAddBelow(entries, at, tree, p);
    }
  }

  ghost predicate UsesTemp(entries: seq<Entry>, name: string) {
    exists j :: 0 <= j < |entries| && entries[j].source.SourceFile? && TempName(entries[j].name) == name
  }

  // A sibling bearing a later file's temporary name is consumed by it, or blocks it if a directory.
  lemma {:induction false} TempIsConsumed(entries: seq<Entry>, at: Path, tree: Tree, name: string)
    requires UsesTemp(entries, name) && !Names(entries, name)
    ensures var copied := CopyEntries(entries, at, tree);
            copied.None? || (at + [name] !in copied.value && !(at + [name] in tree && tree[at + [name]].Folder?))
    decreases entries
  {
    var copied := CopyEntries(entries, at, tree);
    if copied.Some? {
      var first := CopyEntry(entries[0], at, tree).value;
      var p := at + [name];
      var rest := entries[1..];
      if entries[0].source.SourceFile? && TempName(entries[0].name) == name {
        assert p[|at|] == name != entries[0].name == (at + [entries[0].name])[|at|];
        assert p !in first;
        StaysMissing(rest, at, first, p);
      } else {
        if p in tree && tree[p].Folder? {
          EntryKeepsFolders(entries[0], at, tree, p);
        }
        TempIsConsumed(rest, at, first, name);
      }
    }
  }

  ghost predicate Vacant(tree: Tree, at: Path, entries: seq<Entry>) {
    forall i, p :: 0 <= i < |entries| && p in tree ==> !(at + [entries[i].name] <= p)
  }

  // The copy stopped with an error or misses a path of the staged tree.
  ghost predicate Lost(copied: Option<Tree>, whole: Tree) {
    copied.None? || exists p :: p in whole && p !in copied.value
  }

  lemma {:induction false} ClashLosesInTree(entries: seq<Entry>, at: Path, tree: Tree)
    requires DistinctNames(entries) && !NoClash(entries) && forall p :: p in tree ==> !(at <= p)
    ensures Lost(CopyTree(entries, at, tree), FlatTree(entries, at))
    decreases entries, 1
  {
    var made := tree[at := Folder];
    forall i, p | 0 <= i < |entries| && p in made ensures !(at + [entries[i].name] <= p) {
      BelowIsUnder(at, entries[i].name, p);
    }
    ClashLosesInEntries(entries, at, made);
    var copied := CopyTree(entries, at, tree);
    if copied.Some? {
      var p :| p in FlatEntries(entries, at) && p !in copied.value;
      assert p in FlatTree(entries, at);
    }
  }

  lemma {:induction false} ClashLosesInEntries(entries: seq<Entry>, at: Path, tree: Tree)
    requires DistinctNames(entries) && !NoClash(entries) && Vacant(tree, at, entries)
    ensures Lost(CopyEntries(entries, at, tree), FlatEntries(entries, at))
    decreases entries, 0
  {
    var entry, rest := entries[0], entries[1..];
    if CopyEntries(entries, at, tree).Some? {
      if entry.source.SourceDir? && !NoClash(entry.source.entries) {
        ClashInFirstLoses(entries, at, tree);
      } else if UsesTemp(rest, entry.name) {
        FirstIsConsumed(entries, at, tree);
      } else {
        VacantForTail(entries, at, tree);
        ClashLosesInEntries(rest, at, CopyEntry(entry, at, tree).value);
        var p :| p in FlatEntries(rest, at) && p !in CopyEntries(entries, at, tree).value;
        assert p in FlatEntries(entries, at);
      }
    }
  }

  lemma {:induction false} ClashInFirstLoses(entries: seq<Entry>, at: Path, tree: Tree)
    requires entries != [] && DistinctNames(entries) && Vacant(tree, at, entries)
             && CopyEntries(entries, at, tree).Some?
    requires entries[0].source.SourceDir? && !NoClash(entries[0].source.entries)
    ensures Lost(CopyEntries(entries, at, tree), FlatEntries(entries, at))
    decreases entries, -1
  {
    var entry := entries[0];
    ClashLosesInTree(entry.source.entries, at + [entry.name], tree);
    var first := CopyEntry(entry, at, tree).value;
    var p :| p in FlatEntry(entry, at) && p !in first;
    FlatEntryIsUnder(entry, at, p);
    StaysMissing(entries[1..], at, first, p);
    assert p in FlatEntries(entries, at);
  }

  lemma {:induction false} FirstIsConsumed(entries: seq<Entry>, at: Path, tree: Tree)
    requires entries != [] && DistinctNames(entries) && CopyEntries(entries, at, tree).Some?
    requires UsesTemp(entries[1..], entries[0].name)
    ensures Lost(CopyEntries(entries, at, tree), FlatEntries(entries, at))
  {
    TempIsConsumed(entries[1..], at, CopyEntry(entries[0], at, tree).value, entries[0].name);
    assert at + [entries[0].name] in FlatEntry(entries[0], at);
    assert at + [entries[0].name] in FlatEntries(entries, at);
  }

  lemma {:induction false} VacantForTail(entries: seq<Entry>, at: Path, tree: Tree)
    requires entries != [] && DistinctNames(entries) && Vacant(tree, at, entries)
             && CopyEntry(entries[0], at, tree).Some?
    ensures Vacant(CopyEntry(entries[0], at, tree).value, at, entries[1..])
  {
    var first := CopyEntry(entries[0], at, tree).value;
    var rest := entries[1..];
    forall i, p | 0 <= i < |rest| && p in first ensures !(at + [rest[i].name] <= p) {
      assert rest[i] == entries[i + 1];
      CopyEntryAddsUnder(entries[0], at, tree, p);
      BelowIsUnder(at, rest[i].name, p);
      BelowIsUnder(at, entries[0].name, p);
    }
  }

  // A staged directory is restored entry for entry exactly when, at every level, no file is read
  // after a sibling bearing its temporary name.
  lemma {:induction false} CopyIsExactWithoutClash(entries: seq<Entry>)
    requires DistinctNames(entries)
    ensures CopyTree(entries, [], map[]) == Some(FlatTree(entries, [])) <==> NoClash(entries)
  {
    if NoClash(entries) {
      CopyTreeIsExact(entries, [], map[]);
      assert map[] + FlatTree(entries, []) == FlatTree(entries, []);
    } else {
      ClashLosesInTree(entries, [], map[]);
    }
  }
}
