/**
 The track list of an album that no download batch declares, told from the records alone: the songs
 of its fullest folder, sorted by track number.
 */
module DownloadFolders {
  import opened Wrappers
  import opened DownloadGrouping

  lemma {:induction false} LookupIsLast(songs: seq<Song>, i: nat)
    requires i < |songs| && forall j :: i < j < |songs| ==> songs[j].id != songs[i].id
    ensures Lookup(songs, songs[i].id) == Some(songs[i])
  {
    if i < |songs| - 1 {
      LookupIsLast(songs[..|songs| - 1], i);
    }
  }

  predicate Given(songs: seq<Song>, id: Id) {
    exists i :: 0 <= i < |songs| && songs[i].id == id
  }

  lemma {:induction false} LookupFindsGiven(songs: seq<Song>, id: Id)
    ensures Lookup(songs, id).Some? <==> Given(songs, id)
  {
  }

  // ----- Batches -----

  // The record names an album and some songs of it, all of them here.
  ghost predicate DeclaresList(record: Record, songs: seq<Song>, a: Id, ids: seq<Id>) {
    record.batch == Some(Batch(a, ids)) && a != 0 && ids != [] && forall k :: 0 <= k < |ids| ==> Given(songs, ids[k])
  }

  lemma {:induction false} DeclaresExactly(record: Record, songs: seq<Song>, a: Id, ids: seq<Id>)
    ensures DeclaresList(record, songs, a, ids) <==> record.batch == Some(Batch(a, ids)) && Declares(record, songs)
  {
    forall id ensures Lookup(songs, id).Some? <==> Given(songs, id) {
      LookupFindsGiven(songs, id);
    }
  }

  // Record i declares the list, and no later one declares the album.
  ghost predicate LastDeclares(records: seq<Record>, songs: seq<Song>, i: int, a: Id, ids: seq<Id>) {
    0 <= i < |records| && DeclaresList(records[i], songs, a, ids)
    && forall j, other :: i < j < |records| ==> !DeclaresList(records[j], songs, a, other)
  }

  // The last declaration of an album counts.
  lemma {:induction false} LastBatchCounts(records: seq<Record>, songs: seq<Song>, a: Id, ids: seq<Id>)
    ensures Get(Declared(records, songs), a) == Some(ids) <==> exists i :: LastDeclares(records, songs, i, a, ids)
  {
    if records != [] {
      var n := |records| - 1;
      var last := records[n];
      LastBatchCounts(records[..n], songs, a, ids);
      forall other ensures DeclaresList(last, songs, a, other)
                           <==> last.batch == Some(Batch(a, other)) && Declares(last, songs) {
        DeclaresExactly(last, songs, a, other);
      }
      if Declares(last, songs) && last.batch.value.albumId == a {
        assert DeclaresList(last, songs, a, last.batch.value.songIds);
        assert LastDeclares(records, songs, n, a, last.batch.value.songIds);
      } else {
        forall i ensures LastDeclares(records, songs, i, a, ids) <==> LastDeclares(records[..n], songs, i, a, ids) {
        }
      }
    }
  }

  ghost predicate HasBatch(records: seq<Record>, songs: seq<Song>, a: Id) {
    exists i, ids :: 0 <= i < |records| && DeclaresList(records[i], songs, a, ids)
  }

  lemma {:induction false} DeclaredHasBatch(records: seq<Record>, songs: seq<Song>, a: Id)
    ensures a in Declared(records, songs) <==> HasBatch(records, songs, a)
  {
    if a in Declared(records, songs) {
      var ids := Declared(records, songs)[a];
      LastBatchCounts(records, songs, a, ids);
      var i :| LastDeclares(records, songs, i, a, ids);
      assert DeclaresList(records[i], songs, a, ids);
    }
    if i, ids :| 0 <= i < |records| && DeclaresList(records[i], songs, a, ids) {
      DeclaresExactly(records[i], songs, a, ids);
      StaysDeclared(records, songs, i, a);
    }
  }

  lemma {:induction false} StaysDeclared(records: seq<Record>, songs: seq<Song>, i: nat, a: Id)
    requires i < |records| && Declares(records[i], songs) && records[i].batch.value.albumId == a
    ensures a in Declared(records, songs)
  {
    if i < |records| - 1 {
      StaysDeclared(records[..|records| - 1], songs, i, a);
    }
  }

  // ----- Folders -----

  // The record's song is here, of album a, in folder f.
  ghost predicate IsIn(record: Record, songs: seq<Song>, a: Id, f: string) {
    record.song.Some? && record.song.value.album.Some? && record.song.value.album.value.id == a && a != 0
    && record.folder == Some(f) && Given(songs, record.song.value.id)
  }

  // The songs of album a in folder f, in the order of the records.
  ghost function SongsIn(records: seq<Record>, songs: seq<Song>, a: Id, f: string): seq<Id> {
    if records == [] then []
    else
      var last := records[|records| - 1];
      SongsIn(records[..|records| - 1], songs, a, f) + if IsIn(last, songs, a, f) then [last.song.value.id] else []
  }

  ghost predicate EarlierAt(records: seq<Record>, songs: seq<Song>, a: Id, f: string, g: string, n: int) {
    0 <= n <= |records| && SongsIn(records[..n], songs, a, f) != [] && SongsIn(records[..n], songs, a, g) == []
  }

  // Folder f is seen before folder g.
  ghost predicate Earlier(records: seq<Record>, songs: seq<Song>, a: Id, f: string, g: string) {
    exists n :: EarlierAt(records, songs, a, f, g, n)
  }

  // The folders of the album: all of them, as they are seen.
  ghost predicate FoldersMatch(folders: seq<Folder>, records: seq<Record>, songs: seq<Song>, a: Id) {
    && (forall i :: 0 <= i < |folders| ==> FolderMatches(folders[i], records, songs, a))
    && (forall f :: SongsIn(records, songs, a, f) != [] ==> HasFolder(folders, f))
    && (forall i, j :: 0 <= i < j < |folders| ==> Earlier(records, songs, a, folders[i].parent, folders[j].parent))
  }

  predicate HasFolder(folders: seq<Folder>, f: string) {
    exists i :: 0 <= i < |folders| && folders[i].parent == f
  }

  ghost predicate FolderMatches(folder: Folder, records: seq<Record>, songs: seq<Song>, a: Id) {
    folder.ids == SongsIn(records, songs, a, folder.parent) && folder.ids != []
  }

  lemma {:induction false} PutsNew(folders: seq<Folder>, f: string, id: Id)
    requires forall i :: 0 <= i < |folders| ==> folders[i].parent != f
    ensures Put(folders, f, id) == folders + [Folder(f, [id])]
  {
    if folders != [] {
      PutsNew(folders[1..], f, id);
    }
  }

  lemma {:induction false} PutsInPlace(folders: seq<Folder>, f: string, id: Id, i: nat)
    requires i < |folders| && folders[i].parent == f && forall j :: 0 <= j < i ==> folders[j].parent != f
    ensures Put(folders, f, id) == folders[i := Folder(f, folders[i].ids + [id])]
  {
    if i > 0 {
      PutsInPlace(folders[1..], f, id, i - 1);
    }
  }

  lemma {:induction false} EarlierStays(records: seq<Record>, songs: seq<Song>, a: Id, f: string, g: string)
    requires records != [] && Earlier(records[..|records| - 1], songs, a, f, g)
    ensures Earlier(records, songs, a, f, g)
  {
    var n :| EarlierAt(records[..|records| - 1], songs, a, f, g, n);
    assert records[..|records| - 1][..n] == records[..n];
    assert EarlierAt(records, songs, a, f, g, n);
  }

  // One more record can only add its own song.
  lemma {:induction false} OthersMatch(folders: seq<Folder>, records: seq<Record>, songs: seq<Song>, a: Id, i: nat)
    requires records != [] && FoldersMatch(folders, records[..|records| - 1], songs, a) && i < |folders|
    requires !IsIn(records[|records| - 1], songs, a, folders[i].parent)
    ensures FolderMatches(folders[i], records, songs, a)
  {
    assert FolderMatches(folders[i], records[..|records| - 1], songs, a);
  }

  lemma {:induction false} OrderStays(folders: seq<Folder>, records: seq<Record>, songs: seq<Song>, a: Id)
    requires records != [] && FoldersMatch(folders, records[..|records| - 1], songs, a)
    ensures forall i, j :: 0 <= i < j < |folders| ==>
              Earlier(records, songs, a, folders[i].parent, folders[j].parent)
  {
    forall i, j | 0 <= i < j < |folders|
      ensures Earlier(records, songs, a, folders[i].parent, folders[j].parent)
    {
      EarlierStays(records, songs, a, folders[i].parent, folders[j].parent);
    }
  }

  lemma {:induction false} OtherRecordKeeps(folders: seq<Folder>, records: seq<Record>, songs: seq<Song>, a: Id,
                                            last: Record)
    requires records != [] && FoldersMatch(folders, records[..|records| - 1], songs, a)
    requires last == records[|records| - 1] && forall f :: !IsIn(last, songs, a, f)
    ensures FoldersMatch(folders, records, songs, a)
  {
    OrderStays(folders, records, songs, a);
    forall i | 0 <= i < |folders| ensures FolderMatches(folders[i], records, songs, a) {
      OthersMatch(folders, records, songs, a, i);
    }
  }

  lemma {:induction false} NewFolderIsLast(folders: seq<Folder>, records: seq<Record>, songs: seq<Song>, a: Id,
                                           i: nat, f: string)
    requires records != [] && FoldersMatch(folders, records[..|records| - 1], songs, a)
    requires i < |folders| && !HasFolder(folders, f)
    ensures Earlier(records, songs, a, folders[i].parent, f)
  {
    assert FolderMatches(folders[i], records[..|records| - 1], songs, a);
    assert EarlierAt(records, songs, a, folders[i].parent, f, |records| - 1);
  }

  lemma {:induction false} NewFolderMatches(folders: seq<Folder>, records: seq<Record>, songs: seq<Song>, a: Id,
                                            last: Record, f: string)
    requires records != [] && FoldersMatch(folders, records[..|records| - 1], songs, a)
    requires last == records[|records| - 1] && IsIn(last, songs, a, f) && !HasFolder(folders, f)
    ensures FoldersMatch(folders + [Folder(f, [last.song.value.id])], records, songs, a)
  {
    var added := Folder(f, [last.song.value.id]);
    var after := folders + [added];
    assert FolderMatches(added, records, songs, a);
    OrderStays(folders, records, songs, a);
    forall i | 0 <= i < |folders|
      ensures FolderMatches(folders[i], records, songs, a) && Earlier(records, songs, a, folders[i].parent, f)
    {
      OthersMatch(folders, records, songs, a, i);
      NewFolderIsLast(folders, records, songs, a, i, f);
    }
    forall g | SongsIn(records, songs, a, g) != [] ensures HasFolder(after, g) {
      FolderIsAdded(folders, added, g);
    }
  }

  lemma {:induction false} FolderIsAdded(folders: seq<Folder>, added: Folder, f: string)
    ensures HasFolder(folders, f) || added.parent == f ==> HasFolder(folders + [added], f)
  {
    var after := folders + [added];
    if added.parent == f {
      assert after[|folders|] == added;
    } else if i :| 0 <= i < |folders| && folders[i].parent == f {
      assert after[i] == folders[i];
    }
  }

  lemma {:induction false} LongerMatches(folder: Folder, records: seq<Record>, songs: seq<Song>, a: Id, last: Record)
    requires records != [] && FolderMatches(folder, records[..|records| - 1], songs, a)
    requires last == records[|records| - 1] && IsIn(last, songs, a, folder.parent)
    ensures FolderMatches(Folder(folder.parent, folder.ids + [last.song.value.id]), records, songs, a)
  {
  }

  lemma {:induction false} FolderIsChanged(folders: seq<Folder>, k: nat, changed: Folder, f: string)
    requires k < |folders| && changed.parent == folders[k].parent && HasFolder(folders, f)
    ensures HasFolder(folders[k := changed], f)
  {
    var i :| 0 <= i < |folders| && folders[i].parent == f;
    assert folders[k := changed][i].parent == f;
  }

  lemma {:induction false} OldFolderMatches(folders: seq<Folder>, records: seq<Record>, songs: seq<Song>, a: Id,
                                            last: Record, k: nat)
    requires records != [] && FoldersMatch(folders, records[..|records| - 1], songs, a)
    requires last == records[|records| - 1] && k < |folders| && IsIn(last, songs, a, folders[k].parent)
    requires forall i :: 0 <= i < |folders| && i != k ==> folders[i].parent != folders[k].parent
    ensures var longer := Folder(folders[k].parent, folders[k].ids + [last.song.value.id]);
            FoldersMatch(folders[k := longer], records, songs, a)
  {
    var longer := Folder(folders[k].parent, folders[k].ids + [last.song.value.id]);
    var after := folders[k := longer];
    OrderStays(folders, records, songs, a);
    LongerMatches(folders[k], records, songs, a, last);
    forall i | 0 <= i < |folders| && i != k ensures FolderMatches(folders[i], records, songs, a) {
      OthersMatch(folders, records, songs, a, i);
    }
    forall f | SongsIn(records, songs, a, f) != [] ensures HasFolder(after, f) {
      assert HasFolder(folders, f);
      FolderIsChanged(folders, k, longer, f);
    }
  }

  lemma {:induction false} MatchingAreDistinct(folders: seq<Folder>, records: seq<Record>, songs: seq<Song>, a: Id)
    requires FoldersMatch(folders, records, songs, a)
    ensures forall i, j :: 0 <= i < j < |folders| ==> folders[i].parent != folders[j].parent
  {
    forall i, j | 0 <= i < j < |folders| ensures folders[i].parent != folders[j].parent {
      assert Earlier(records, songs, a, folders[i].parent, folders[j].parent);
    }
  }

  // The table holds the songs of each album by folder.
  lemma {:induction false} FoldersAreExact(records: seq<Record>, songs: seq<Song>, a: Id)
    ensures FoldersMatch(FoldersOf(Folders(records, songs), a), records, songs, a)
  {
    if records != [] {
      var n := |records| - 1;
      var last, before := records[n], FoldersOf(Folders(records[..n], songs), a);
      FoldersAreExact(records[..n], songs, a);
      if last.song.Some? {
        LookupFindsGiven(songs, last.song.value.id);
      }
      if InFolder(last, songs) && AlbumId(last.song.value) == a {
        var f, id := last.folder.value, last.song.value.id;
        MatchingAreDistinct(before, records[..n], songs, a);
        if HasFolder(before, f) {
          var k :| 0 <= k < |before| && before[k].parent == f;
          PutsInPlace(before, f, id, k);
          OldFolderMatches(before, records, songs, a, last, k);
        } else {
          PutsNew(before, f, id);
          NewFolderMatches(before, records, songs, a, last, f);
        }
      } else {
        OtherRecordKeeps(before, records, songs, a, last);
      }
    }
  }

  // ----- The list of the fullest folder -----

  // Folder f holds most songs of the album, and of several that do it is seen first.
  ghost predicate Fullest(records: seq<Record>, songs: seq<Song>, a: Id, f: string) {
    forall g :: f != g ==> FullerThan(records, songs, a, f, g)
  }

  ghost predicate FullerThan(records: seq<Record>, songs: seq<Song>, a: Id, f: string, g: string) {
    var m, n := |SongsIn(records, songs, a, f)|, |SongsIn(records, songs, a, g)|;
    n < m || (n == m && Earlier(records, songs, a, f, g))
  }

  lemma {:induction false} LargestIsFirst(folders: seq<Folder>) returns (k: nat)
    requires folders != []
    ensures k < |folders| && Largest(folders) == folders[k].ids
    ensures forall i :: 0 <= i < |folders| ==> |folders[i].ids| <= |folders[k].ids|
    ensures forall i :: 0 <= i < k ==> |folders[i].ids| < |folders[k].ids|
  {
    k := 0;
    if |folders| > 1 {
      var rest := LargestIsFirst(folders[1..]);
      if |folders[0].ids| < |folders[1..][rest].ids| {
        k := rest + 1;
      }
      assert forall i :: 0 < i < |folders| ==> folders[i] == folders[1..][i - 1];
    }
  }

  lemma {:induction false} FullerThanOther(folders: seq<Folder>, records: seq<Record>, songs: seq<Song>, a: Id,
                                           k: nat, g: string)
    requires FoldersMatch(folders, records, songs, a) && k < |folders| && g != folders[k].parent
    requires forall i :: 0 <= i < |folders| ==> |folders[i].ids| <= |folders[k].ids|
    requires forall i :: 0 <= i < k ==> |folders[i].ids| < |folders[k].ids|
    ensures FullerThan(records, songs, a, folders[k].parent, g)
  {
    assert FolderMatches(folders[k], records, songs, a);
    if SongsIn(records, songs, a, g) != [] {
      assert HasFolder(folders, g);
      var i :| 0 <= i < |folders| && folders[i].parent == g;
      assert FolderMatches(folders[i], records, songs, a);
    }
  }

  lemma {:induction false} LargestIsFullest(records: seq<Record>, songs: seq<Song>, a: Id)
    ensures var folders := FoldersOf(Folders(records, songs), a);
            if folders == [] then forall f :: SongsIn(records, songs, a, f) == []
            else exists f :: Fullest(records, songs, a, f) && Largest(folders) == SongsIn(records, songs, a, f)
  {
    var folders := FoldersOf(Folders(records, songs), a);
    FoldersAreExact(records, songs, a);
    if folders == [] {
      forall f ensures SongsIn(records, songs, a, f) == [] {
        assert !HasFolder(folders, f);
      }
    } else {
      var k := LargestIsFirst(folders);
      var f := folders[k].parent;
      assert FolderMatches(folders[k], records, songs, a);
      forall g | f != g ensures FullerThan(records, songs, a, f, g) {
        FullerThanOther(folders, records, songs, a, k, g);
      }
      assert Fullest(records, songs, a, f);
    }
  }

  // A song's track number stands in the last song given with its id.
  lemma {:induction false} TrackNumberIsLast(songs: seq<Song>, i: nat)
    requires i < |songs| && forall j :: i < j < |songs| ==> songs[j].id != songs[i].id
    ensures TrackNumber(songs, songs[i].id) == songs[i].trackNumber
  {
    LookupIsLast(songs, i);
  }

  // Those of the ids with the track number, in order.
  function Numbered(ids: seq<Id>, songs: seq<Song>, number: int): seq<Id> {
    if ids == [] then []
    else (if TrackNumber(songs, ids[0]) == number then [ids[0]] else []) + Numbered(ids[1..], songs, number)
  }

  ghost predicate Ascends(ids: seq<Id>, songs: seq<Song>) {
    forall i, j :: 0 <= i < j < |ids| ==> TrackNumber(songs, ids[i]) <= TrackNumber(songs, ids[j])
  }

  // The same ids by track number; those with the same number keep their order.
  ghost predicate SortedStably(sorted: seq<Id>, ids: seq<Id>, songs: seq<Song>) {
    && multiset(sorted) == multiset(ids) && Ascends(sorted, songs)
    && forall number :: Numbered(sorted, songs, number) == Numbered(ids, songs, number)
  }

  lemma {:induction false} NumberedFirst(id: Id, ids: seq<Id>, songs: seq<Song>, number: int)
    ensures Numbered([id] + ids, songs, number)
         == if TrackNumber(songs, id) == number then [id] + Numbered(ids, songs, number)
            else Numbered(ids, songs, number)
  {
    assert ([id] + ids)[1..] == ids;
  }

  lemma {:induction false} InsertNumbers(id: Id, sorted: seq<Id>, songs: seq<Song>, number: int)
    ensures Numbered(Insert(id, sorted, songs), songs, number)
         == if TrackNumber(songs, id) == number then [id] + Numbered(sorted, songs, number)
            else Numbered(sorted, songs, number)
  {
    if sorted != [] && TrackNumber(songs, id) > TrackNumber(songs, sorted[0]) {
      assert sorted == [sorted[0]] + sorted[1..];
      NumberedFirst(sorted[0], sorted[1..], songs, number);
      NumberedFirst(sorted[0], Insert(id, sorted[1..], songs), songs, number);
      InsertNumbers(id, sorted[1..], songs, number);
    } else {
      NumberedFirst(id, sorted, songs, number);
    }
  }

  lemma {:induction false} InsertAscends(id: Id, sorted: seq<Id>, songs: seq<Song>)
    requires Ascends(sorted, songs)
    ensures Ascends(Insert(id, sorted, songs), songs)
  {
    if sorted != [] && TrackNumber(songs, id) > TrackNumber(songs, sorted[0]) {
      var rest := Insert(id, sorted[1..], songs);
      InsertAscends(id, sorted[1..], songs);
      forall j | 0 <= j < |rest| ensures TrackNumber(songs, sorted[0]) <= TrackNumber(songs, rest[j]) {
        assert rest[j] in multiset(sorted[1..]) + multiset{id};
        if rest[j] != id {
          var k :| 0 <= k < |sorted[1..]| && sorted[1..][k] == rest[j];
          assert sorted[k + 1] == rest[j];
        }
      }
    }
  }

  lemma {:induction false} ByTrackSorts(ids: seq<Id>, songs: seq<Song>)
    ensures SortedStably(ByTrack(ids, songs), ids, songs)
  {
    if ids != [] {
      var rest := ByTrack(ids[1..], songs);
      ByTrackSorts(ids[1..], songs);
      InsertAscends(ids[0], rest, songs);
      forall number ensures Numbered(ByTrack(ids, songs), songs, number) == Numbered(ids, songs, number) {
        assert ids == [ids[0]] + ids[1..];
        NumberedFirst(ids[0], ids[1..], songs, number);
        InsertNumbers(ids[0], rest, songs, number);
      }
    }
  }

  // The list of an album without a batch: of its fullest folder by track number, if any folder holds
  // more than one of its songs.
  lemma {:induction false} FullestFolderCounts(records: seq<Record>, songs: seq<Song>, a: Id)
    requires !HasBatch(records, songs, a)
    ensures a in Known(records, songs) <==> exists f :: |SongsIn(records, songs, a, f)| > 1
    ensures a in Known(records, songs) ==>
              exists f :: Fullest(records, songs, a, f)
                          && SortedStably(Known(records, songs)[a], SongsIn(records, songs, a, f), songs)
  {
    var folders := FoldersOf(Folders(records, songs), a);
    DeclaredHasBatch(records, songs, a);
    LargestIsFullest(records, songs, a);
    if folders != [] {
      var f :| Fullest(records, songs, a, f) && Largest(folders) == SongsIn(records, songs, a, f);
      ByTrackSorts(Largest(folders), songs);
      forall g ensures |SongsIn(records, songs, a, g)| <= |SongsIn(records, songs, a, f)| {
        assert f != g ==> FullerThan(records, songs, a, f, g);
      }
    }
  }

  // The list of an album with a batch is that of the last one.
  lemma {:induction false} LastBatchIsKnown(records: seq<Record>, songs: seq<Song>, a: Id)
    requires HasBatch(records, songs, a)
    ensures a in Known(records, songs)
            && exists i :: LastDeclares(records, songs, i, a, Known(records, songs)[a])
  {
    DeclaredHasBatch(records, songs, a);
    LastBatchCounts(records, songs, a, Declared(records, songs)[a]);
  }

  // ----- Complete albums -----

  // A given song makes its album complete when the album's known list, or else its own track list, is
  // not empty and names only given songs; that list is then the album's.
  lemma {:induction false} CompletesWhen(songs: seq<Song>, lists: Lists, i: nat, a: Id)
    requires i < |songs|
    ensures MakesComplete(songs, lists, i, a)
            <==> && songs[i].album.Some? && songs[i].album.value.id == a && a != 0
                 && var ids := if a in lists then lists[a] else songs[i].album.value.tracks;
                 ids != [] && forall k :: 0 <= k < |ids| ==> Given(songs, ids[k])
    ensures MakesComplete(songs, lists, i, a) ==>
              ListFor(songs[i], lists) == if a in lists then lists[a] else songs[i].album.value.tracks
  {
    forall id ensures Lookup(songs, id).Some? <==> Given(songs, id) {
      LookupFindsGiven(songs, id);
    }
  }
}
