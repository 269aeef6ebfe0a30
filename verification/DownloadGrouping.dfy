/**
 The downloaded library shown as albums and single songs. An album counts as complete when a
 download batch, a shared folder or its own track list names its songs and all of them are here.
 */
module DownloadGrouping {
  import opened Wrappers

  type Id = nat

  // The empty id.
  const NO_ID: Id := 0

  datatype Album = Album(id: Id, tracks: seq<Id>)

  datatype Song = Song(id: Id, album: Option<Album>, trackNumber: int)

  datatype Batch = Batch(albumId: Id, songIds: seq<Id>)

  // `folder` is the parent folder of the file unless that is the folder of single songs.
  datatype Record = Record(batch: Option<Batch>, song: Option<Song>, folder: Option<string>)

  datatype Folder = Folder(parent: string, ids: seq<Id>)

  datatype Item = AlbumItem(id: Id, tracks: seq<Song>) | SongItem(song: Song)

  type Lists = map<Id, seq<Id>>

  // The last of the given songs that has the id.
  function Lookup(songs: seq<Song>, id: Id): (r: Option<Song>)
    ensures r.Some? ==> r.value in songs && r.value.id == id
    ensures r.None? ==> forall i :: 0 <= i < |songs| ==> songs[i].id != id
  {
    if songs == [] then None
    else
      var last := songs[|songs| - 1];
      if last.id == id then Some(last) else Lookup(songs[..|songs| - 1], id)
  }

  predicate AllHere(songs: seq<Song>, ids: seq<Id>) {
    forall i :: 0 <= i < |ids| ==> Lookup(songs, ids[i]).Some?
  }

  function AlbumId(song: Song): Id {
    if song.album.Some? then song.album.value.id else NO_ID
  }

  // ----- Albums declared by a download batch -----

  predicate Declares(record: Record, songs: seq<Song>) {
    record.batch.Some? && record.batch.value.albumId != NO_ID && record.batch.value.songIds != []
    && AllHere(songs, record.batch.value.songIds)
  }

  function Declared(records: seq<Record>, songs: seq<Song>): Lists {
    if records == [] then map[]
    else
      var before := Declared(records[..|records| - 1], songs);
      var last := records[|records| - 1];
      if Declares(last, songs) then before[last.batch.value.albumId := last.batch.value.songIds] else before
  }

  method DeclaredAlbums(records: seq<Record>, songs: seq<Song>) returns (declared: Lists)
    ensures declared == Declared(records, songs)
  {
    declared := map[];
    for i := 0 to |records|
      invariant declared == Declared(records[..i], songs)
    {
      assert records[..i + 1][..i] == records[..i];
      if Declares(records[i], songs) {
        declared := declared[records[i].batch.value.albumId := records[i].batch.value.songIds];
      }
    }
    assert records[..|records|] == records;
  }

  // ----- Albums known by a shared folder -----

  predicate InFolder(record: Record, songs: seq<Song>) {
    record.song.Some? && AlbumId(record.song.value) != NO_ID && record.folder.Some?
        && Lookup(songs, record.song.value.id).Some?
  }

  function Put(folders: seq<Folder>, parent: string, id: Id): seq<Folder> {
    if folders == [] then [Folder(parent, [id])]
    else if folders[0].parent == parent then [Folder(parent, folders[0].ids + [id])] + folders[1..]
    else [folders[0]] + Put(folders[1..], parent, id)
  }

  function FoldersOf(table: map<Id, seq<Folder>>, albumId: Id): seq<Folder> {
    if albumId in table then table[albumId] else []
  }

  function Folders(records: seq<Record>, songs: seq<Song>): map<Id, seq<Folder>> {
    if records == [] then map[]
    else
      var before := Folders(records[..|records| - 1], songs);
      var last := records[|records| - 1];
      if InFolder(last, songs) then
        var albumId := AlbumId(last.song.value);
        before[albumId := Put(FoldersOf(before, albumId), last.folder.value, last.song.value.id)]
      else before
  }

  method LegacyAlbumFolders(records: seq<Record>, songs: seq<Song>) returns (table: map<Id, seq<Folder>>)
    ensures table == Folders(records, songs)
  {
    table := map[];
    for i := 0 to |records|
      invariant table == Folders(records[..i], songs)
    {
      assert records[..i + 1][..i] == records[..i];
      var record := records[i];
      if InFolder(record, songs) {
        var albumId := AlbumId(record.song.value);
        table := table[albumId := Put(FoldersOf(table, albumId), record.folder.value, record.song.value.id)];
      }
    }
    assert records[..|records|] == records;
  }

  // The first of the fullest folders.
  function Largest(folders: seq<Folder>): (ids: seq<Id>)
    ensures forall i :: 0 <= i < |folders| ==> |folders[i].ids| <= |ids|
    ensures ids == [] || exists i :: 0 <= i < |folders| && folders[i].ids == ids
  {
    if folders == [] then []
    else
      var rest := Largest(folders[1..]);
      assert forall i :: 0 < i < |folders| ==> folders[i] == folders[1..][i - 1];
      if |folders[0].ids| >= |rest| then folders[0].ids else rest
  }

  function TrackNumber(songs: seq<Song>, id: Id): int {
    if Lookup(songs, id).Some? then Lookup(songs, id).value.trackNumber else 0
  }

  // A stable sort by track number.
  function Insert(id: Id, sorted: seq<Id>, songs: seq<Song>): (r: seq<Id>)
    ensures multiset(r) == multiset(sorted) + multiset{id}
  {
    if sorted == [] then [id]
    else if TrackNumber(songs, id) <= TrackNumber(songs, sorted[0]) then [id] + sorted
    else
      assert sorted == [sorted[0]] + sorted[1..];
      [sorted[0]] + Insert(id, sorted[1..], songs)
  }

  function ByTrack(ids: seq<Id>, songs: seq<Song>): (r: seq<Id>)
    ensures multiset(r) == multiset(ids)
  {
    if ids == [] then []
    else
      assert ids == [ids[0]] + ids[1..];
      Insert(ids[0], ByTrack(ids[1..], songs), songs)
  }

  // A batch wins over folders; a folder counts if it holds more than one song.
  function ListOf(declared: Lists, table: map<Id, seq<Folder>>, songs: seq<Song>, a: Id): Option<seq<Id>> {
    if a in declared then Some(declared[a])
    else if a in table && |Largest(table[a])| > 1 then Some(ByTrack(Largest(table[a]), songs))
    else None
  }

  function WithFolders(declared: Lists, table: map<Id, seq<Folder>>, songs: seq<Song>): Lists {
    map a | a in declared.Keys + table.Keys && ListOf(declared, table, songs, a).Some?
      :: ListOf(declared, table, songs, a).value
  }

  method AddFolderAlbum(before: Lists, folders: seq<Folder>, songs: seq<Song>, albumId: Id) returns (lists: Lists)
    ensures lists == if albumId in before || |Largest(folders)| <= 1 then before
                     else before[albumId := ByTrack(Largest(folders), songs)]
  {
    lists := before;
    if albumId in before {
      return;
    }
    var largest := Largest(folders);
    if |largest| > 1 {
      lists := before[albumId := ByTrack(largest, songs)];
    }
  }

  lemma {:induction false} MakesWithFolders(lists: Lists, declared: Lists, table: map<Id, seq<Folder>>,
                                            songs: seq<Song>)
    requires forall a :: Get(lists, a) == ListOf(declared, table, songs, a)
    ensures lists == WithFolders(declared, table, songs)
  {
    var whole := WithFolders(declared, table, songs);
    forall a ensures a in lists <==> a in whole {
      assert Get(lists, a) == ListOf(declared, table, songs, a);
    }
    forall a | a in lists ensures lists[a] == whole[a] {
      assert Get(lists, a) == ListOf(declared, table, songs, a);
    }
  }

  method AddFolderAlbums(declared: Lists, table: map<Id, seq<Folder>>, songs: seq<Song>) returns (lists: Lists)
    ensures lists == WithFolders(declared, table, songs)
  {
    lists := declared;
    var left := table.Keys;
    while left != {}
      invariant left <= table.Keys
      invariant forall a :: Get(lists, a) == if a in left then Get(declared, a) else ListOf(declared, table, songs, a)
      decreases |left|
    {
      var albumId :| albumId in left;
      assert Get(lists, albumId) == Get(declared, albumId);
      lists := AddFolderAlbum(lists, table[albumId], songs, albumId);
      left := left - {albumId};
    }
    MakesWithFolders(lists, declared, table, songs);
  }

  // ----- Complete albums -----

  function ListFor(song: Song, lists: Lists): seq<Id> {
    if song.album.None? then [] else if AlbumId(song) in lists then lists[AlbumId(song)] else song.album.value.tracks
  }

  predicate Completes(song: Song, songs: seq<Song>, lists: Lists) {
    AlbumId(song) != NO_ID && ListFor(song, lists) != [] && AllHere(songs, ListFor(song, lists))
  }

  // The complete albums found among the first n songs, with the song ids of each.
  function Complete(songs: seq<Song>, lists: Lists, n: nat): Lists
    requires n <= |songs|
  {
    if n == 0 then map[]
    else
      var before := Complete(songs, lists, n - 1);
      var song := songs[n - 1];
      if AlbumId(song) !in before && Completes(song, songs, lists) then before[AlbumId(song) := ListFor(song, lists)]
      else before
  }

  function Tracks(songs: seq<Song>, ids: seq<Id>): seq<Song> {
    if ids == [] then []
    else
      (if Lookup(songs, ids[0]).Some? then [Lookup(songs, ids[0]).value] else []) + Tracks(songs, ids[1..])
  }

  method CompleteAlbums(songs: seq<Song>, lists: Lists) returns (complete: Lists)
    ensures complete == Complete(songs, lists, |songs|)
  {
    complete := map[];
    for i := 0 to |songs|
      invariant complete == Complete(songs, lists, i)
    {
      var song := songs[i];
      if AlbumId(song) == NO_ID || AlbumId(song) in complete {
        continue;
      }
      var ids := ListFor(song, lists);
      if ids == [] || !AllHere(songs, ids) {
        continue;
      }
      complete := complete[AlbumId(song) := ids];
    }
  }

  // ----- What is shown -----

  function Shown(songs: seq<Song>, complete: Lists, n: nat): seq<Item>
    requires n <= |songs|
  {
    if n == 0 then []
    else
      var song := songs[n - 1];
      var before := Shown(songs, complete, n - 1);
      if AlbumId(song) !in complete then before + [SongItem(song)]
      else if exists i :: 0 <= i < n - 1 && AlbumId(songs[i]) == AlbumId(song) then before
      else before + [AlbumItem(AlbumId(song), Tracks(songs, complete[AlbumId(song)]))]
  }

  function Known(records: seq<Record>, songs: seq<Song>): Lists {
    WithFolders(Declared(records, songs), Folders(records, songs), songs)
  }

  function CompleteFor(records: seq<Record>, songs: seq<Song>): Lists {
    Complete(songs, Known(records, songs), |songs|)
  }

  function AllShown(songs: seq<Song>, complete: Lists): seq<Item> {
    Shown(songs, complete, |songs|)
  }

  function Grouped(records: seq<Record>, songs: seq<Song>): seq<Item> {
    AllShown(songs, CompleteFor(records, songs))
  }

  method GroupDownloadedLibrary(records: seq<Record>, songs: seq<Song>) returns (items: seq<Item>)
    ensures items == Grouped(records, songs)
  {
    var declared := DeclaredAlbums(records, songs);
    var table := LegacyAlbumFolders(records, songs);
    var lists := AddFolderAlbums(declared, table, songs);
    var complete := CompleteAlbums(songs, lists);
    items := ShowItems(songs, complete);
  }

  // An album is shown in the place of its first song.
  method ShowItems(songs: seq<Song>, complete: Lists) returns (items: seq<Item>)
    ensures items == AllShown(songs, complete)
  {
    items := [];
    var emitted: set<Id> := {};
    for i := 0 to |songs|
      invariant items == Shown(songs, complete, i)
      invariant forall a :: a in emitted <==> a in complete && exists j :: 0 <= j < i && AlbumId(songs[j]) == a
    {
      var song := songs[i];
      var albumId := AlbumId(song);
      if albumId !in complete {
        items := items + [SongItem(song)];
      } else if albumId !in emitted {
        emitted := emitted + {albumId};
        items := items + [AlbumItem(albumId, Tracks(songs, complete[albumId]))];
      }
    }
  }

  // ----- The lists name only songs that are here -----

  ghost predicate Whole(songs: seq<Song>, lists: Lists) {
    forall a :: a in lists ==> lists[a] != [] && AllHere(songs, lists[a])
  }

  ghost predicate FoldersHere(songs: seq<Song>, folders: seq<Folder>) {
    forall i :: 0 <= i < |folders| ==> AllHere(songs, folders[i].ids)
  }

  lemma {:induction false} DeclaredIsWhole(records: seq<Record>, songs: seq<Song>)
    ensures Whole(songs, Declared(records, songs))
  {
    if records != [] {
      DeclaredIsWhole(records[..|records| - 1], songs);
    }
  }

  lemma {:induction false} PutKeepsHere(folders: seq<Folder>, parent: string, id: Id, songs: seq<Song>)
    requires FoldersHere(songs, folders) && Lookup(songs, id).Some?
    ensures FoldersHere(songs, Put(folders, parent, id))
  {
    if folders != [] && folders[0].parent != parent {
      assert FoldersHere(songs, folders[1..]);
      PutKeepsHere(folders[1..], parent, id, songs);
    }
  }

  lemma {:induction false} FoldersAreHere(records: seq<Record>, songs: seq<Song>)
    ensures forall a :: a in Folders(records, songs) ==> FoldersHere(songs, Folders(records, songs)[a])
  {
    if records != [] {
      FoldersAreHere(records[..|records| - 1], songs);
      var last := records[|records| - 1];
      if InFolder(last, songs) {
        var before := FoldersOf(Folders(records[..|records| - 1], songs), AlbumId(last.song.value));
        PutKeepsHere(before, last.folder.value, last.song.value.id, songs);
      }
    }
  }

  lemma {:induction false} PermutationIsHere(songs: seq<Song>, ids: seq<Id>, other: seq<Id>)
    requires multiset(ids) == multiset(other) && AllHere(songs, ids)
    ensures AllHere(songs, other) && |other| == |ids|
  {
    forall i | 0 <= i < |other| ensures Lookup(songs, other[i]).Some? {
      assert other[i] in multiset(ids);
    }
    assert |multiset(ids)| == |multiset(other)|;
  }

  // Every album known by a batch or a folder has all its listed songs here, so any given song of it
  // makes it complete.
  lemma {:induction false} KnownAlbumsAreWhole(records: seq<Record>, songs: seq<Song>)
    ensures Whole(songs, Known(records, songs))
  {
    var declared, table := Declared(records, songs), Folders(records, songs);
    var lists := WithFolders(declared, table, songs);
    DeclaredIsWhole(records, songs);
    FoldersAreHere(records, songs);
    forall a | a in lists ensures lists[a] != [] && AllHere(songs, lists[a]) {
      if a !in declared {
        var ids := Largest(table[a]);
        PermutationIsHere(songs, ids, ByTrack(ids, songs));
      }
    }
  }

  ghost predicate MakesComplete(songs: seq<Song>, lists: Lists, i: int, a: Id) {
    0 <= i < |songs| && AlbumId(songs[i]) == a && Completes(songs[i], songs, lists)
  }

  ghost predicate FirstCompleting(songs: seq<Song>, lists: Lists, i: int, a: Id) {
    MakesComplete(songs, lists, i, a) && forall j :: 0 <= j < i ==> !MakesComplete(songs, lists, j, a)
  }

  // An album is complete exactly when one of its given songs makes it so.
  lemma {:induction false} CompleteExactly(songs: seq<Song>, lists: Lists, n: nat, a: Id)
    requires n <= |songs|
    ensures a in Complete(songs, lists, n) <==> exists i :: 0 <= i < n && MakesComplete(songs, lists, i, a)
  {
    if n > 0 {
      CompleteExactly(songs, lists, n - 1, a);
      assert AlbumId(songs[n - 1]) == a && Completes(songs[n - 1], songs, lists)
          <==> MakesComplete(songs, lists, n - 1, a);
    }
  }

  lemma {:induction false} FirstSettlesList(songs: seq<Song>, lists: Lists, n: nat, i: nat, a: Id)
    requires i < n <= |songs| && FirstCompleting(songs, lists, i, a)
    ensures Get(Complete(songs, lists, n), a) == Some(ListFor(songs[i], lists))
  {
    var before := Complete(songs, lists, n - 1);
    if i < n - 1 {
      FirstSettlesList(songs, lists, n - 1, i, a);
      assert a in before;
    } else {
      CompleteExactly(songs, lists, n - 1, a);
      assert a !in before;
    }
  }

  lemma {:induction false} FirstAmong(songs: seq<Song>, lists: Lists, i: nat, a: Id) returns (first: nat)
    requires MakesComplete(songs, lists, i, a)
    ensures first <= i && FirstCompleting(songs, lists, first, a)
  {
    if j: nat :| j < i && MakesComplete(songs, lists, j, a) {
      first := FirstAmong(songs, lists, j, a);
    } else {
      first := i;
    }
  }

  lemma {:induction false} CompleteIsWhole(songs: seq<Song>, lists: Lists)
    ensures Whole(songs, Complete(songs, lists, |songs|))
  {
    forall a | a in Complete(songs, lists, |songs|)
      ensures var ids := Complete(songs, lists, |songs|)[a]; ids != [] && AllHere(songs, ids)
    {
      CompleteExactly(songs, lists, |songs|, a);
      var i :| 0 <= i < |songs| && MakesComplete(songs, lists, i, a);
      var first := FirstAmong(songs, lists, i, a);
      FirstSettlesList(songs, lists, |songs|, first, a);
    }
  }

  // ----- What is shown -----

  // The tracks of a complete album are the given songs its list names, in the list's order.
  lemma {:induction false} TracksFollowList(songs: seq<Song>, ids: seq<Id>)
    requires AllHere(songs, ids)
    ensures |Tracks(songs, ids)| == |ids|
    ensures forall k :: 0 <= k < |ids| ==> Tracks(songs, ids)[k].id == ids[k] && Tracks(songs, ids)[k] in songs
    ensures forall k :: 0 <= k < |ids| ==> Lookup(songs, ids[k]) == Some(Tracks(songs, ids)[k])
  {
    if ids != [] {
      assert AllHere(songs, ids[1..]);
      TracksFollowList(songs, ids[1..]);
      assert Lookup(songs, ids[0]).Some?;
    }
  }

  ghost predicate ShowsAlbum(items: seq<Item>, a: Id) {
    exists k :: 0 <= k < |items| && items[k].AlbumItem? && items[k].id == a
  }

  lemma {:induction false} ShowsAppended(items: seq<Item>, item: Item, a: Id)
    ensures ShowsAlbum(items + [item], a) <==> ShowsAlbum(items, a) || (item.AlbumItem? && item.id == a)
  {
    if ShowsAlbum(items, a) {
      var k :| 0 <= k < |items| && items[k].AlbumItem? && items[k].id == a;
      assert (items + [item])[k] == items[k];
    }
    if item.AlbumItem? && item.id == a {
      assert (items + [item])[|items|] == item;
    }
  }

  // The albums shown are the complete ones of the songs given.
  lemma {:induction false} AlbumsShownExactly(songs: seq<Song>, complete: Lists, n: nat, a: Id)
    requires n <= |songs|
    ensures ShowsAlbum(Shown(songs, complete, n), a)
            <==> a in complete && exists i :: 0 <= i < n && AlbumId(songs[i]) == a
  {
    if n > 0 {
      AlbumsShownExactly(songs, complete, n - 1, a);
      ShowsAppended(Shown(songs, complete, n - 1), SongItem(songs[n - 1]), a);
      if AlbumId(songs[n - 1]) in complete {
        var id := AlbumId(songs[n - 1]);
        ShowsAppended(Shown(songs, complete, n - 1), AlbumItem(id, Tracks(songs, complete[id])), a);
      }
    }
  }

  // What an item shows is a single song of no complete album, or a complete album's tracks.
  ghost predicate ShowsRight(item: Item, songs: seq<Song>, complete: Lists) {
    match item
    case SongItem(song) => AlbumId(song) !in complete && song in songs
    case AlbumItem(id, tracks) => id in complete && tracks == Tracks(songs, complete[id])
  }

  // Each album is shown at most once, with the tracks of its list.
  lemma {:induction false} AlbumsShownOnce(songs: seq<Song>, complete: Lists, n: nat)
    requires n <= |songs|
    ensures var items := Shown(songs, complete, n);
            forall j, k :: 0 <= j < k < |items| && items[j].AlbumItem? && items[k].AlbumItem? ==>
                  items[j].id != items[k].id
    ensures forall k :: 0 <= k < |Shown(songs, complete, n)| ==>
              ShowsRight(Shown(songs, complete, n)[k], songs, complete)
  {
    if n > 0 {
      AlbumsShownOnce(songs, complete, n - 1);
      AlbumsShownExactly(songs, complete, n - 1, AlbumId(songs[n - 1]));
    }
  }

  // Song i is the first given one of its album.
  ghost predicate LeadsAlbum(songs: seq<Song>, i: nat) {
    i < |songs| && forall j :: 0 <= j < i ==> AlbumId(songs[j]) != AlbumId(songs[i])
  }

  // What is shown in the place of song i.
  ghost predicate StandsFor(item: Item, songs: seq<Song>, complete: Lists, i: nat) {
    i < |songs| &&
    if AlbumId(songs[i]) in complete then
      item == AlbumItem(AlbumId(songs[i]), Tracks(songs, complete[AlbumId(songs[i])])) && LeadsAlbum(songs, i)
    else item == SongItem(songs[i])
  }

  // The items stand for the songs at these places: those of no complete album and the first of each.
  ghost predicate StandAt(items: seq<Item>, songs: seq<Song>, complete: Lists, at: seq<nat>, n: nat)
    requires n <= |songs|
  {
    && |at| == |items|
    && (forall k :: 0 <= k < |at| ==> at[k] < n && StandsFor(items[k], songs, complete, at[k]))
    && (forall j, k :: 0 <= j < k < |at| ==> at[j] < at[k])
    && (forall i: nat :: i < n && (AlbumId(songs[i]) in complete ==> LeadsAlbum(songs, i)) ==> i in at)
  }

  lemma {:induction false} OneMoreStands(items: seq<Item>, item: Item, songs: seq<Song>, complete: Lists,
                                         at: seq<nat>, n: nat)
    requires n < |songs| && StandAt(items, songs, complete, at, n) && StandsFor(item, songs, complete, n)
    ensures StandAt(items + [item], songs, complete, at + [n], n + 1)
  {
  }

  lemma {:induction false} NoMoreStands(items: seq<Item>, songs: seq<Song>, complete: Lists, at: seq<nat>, n: nat)
    requires n < |songs| && StandAt(items, songs, complete, at, n)
    requires AlbumId(songs[n]) in complete && !LeadsAlbum(songs, n)
    ensures StandAt(items, songs, complete, at, n + 1)
  {
  }

  lemma {:induction false} ShowsOneMore(songs: seq<Song>, complete: Lists, n: nat)
    requires n < |songs|
    ensures var a, before := AlbumId(songs[n]), Shown(songs, complete, n);
            Shown(songs, complete, n + 1)
              == if a !in complete then before + [SongItem(songs[n])]
                 else if LeadsAlbum(songs, n) then before + [AlbumItem(a, Tracks(songs, complete[a]))] else before
  {
    assert LeadsAlbum(songs, n) <==> !exists i :: 0 <= i < n && AlbumId(songs[i]) == AlbumId(songs[n]);
  }

  // The items stand in the order of the songs they stand for.
  lemma {:induction false} ItemsStandInOrder(songs: seq<Song>, complete: Lists, n: nat) returns (at: seq<nat>)
    requires n <= |songs|
    ensures StandAt(Shown(songs, complete, n), songs, complete, at, n)
  {
    at := [];
    if n > 0 {
      var m := n - 1;
      at := ItemsStandInOrder(songs, complete, m);
      ShowsOneMore(songs, complete, m);
      at := NextStands(Shown(songs, complete, m), Shown(songs, complete, m + 1), songs, complete, at, m);
    }
  }

  lemma {:induction false} NextStands(before: seq<Item>, after: seq<Item>, songs: seq<Song>, complete: Lists,
                                      at: seq<nat>, n: nat)
    returns (at': seq<nat>)
    requires n < |songs| && StandAt(before, songs, complete, at, n)
    requires var a := AlbumId(songs[n]);
             after == if a !in complete then before + [SongItem(songs[n])]
                      else if LeadsAlbum(songs, n) then before + [AlbumItem(a, Tracks(songs, complete[a]))] else before
    ensures StandAt(after, songs, complete, at', n + 1)
  {
    if AlbumId(songs[n]) !in complete || LeadsAlbum(songs, n) {
      OneMoreStands(before, after[|before|], songs, complete, at, n);
      at' := at + [n];
    } else {
      NoMoreStands(before, songs, complete, at, n);
      at' := at;
    }
  }

  function Singles(items: seq<Item>): seq<Song> {
    if items == [] then []
    else
      var last := items[|items| - 1];
      Singles(items[..|items| - 1]) + if last.SongItem? then [last.song] else []
  }

  function Loose(songs: seq<Song>, complete: Lists, n: nat): seq<Song>
    requires n <= |songs|
  {
    if n == 0 then []
    else Loose(songs, complete, n - 1) + if AlbumId(songs[n - 1]) in complete then [] else [songs[n - 1]]
  }

  // The songs of no complete album are shown one by one, each once, in the order given.
  lemma {:induction false} SinglesKeepOrder(songs: seq<Song>, complete: Lists, n: nat)
    requires n <= |songs|
    ensures Singles(Shown(songs, complete, n)) == Loose(songs, complete, n)
  {
    if n > 0 {
      SinglesKeepOrder(songs, complete, n - 1);
      var items, before := Shown(songs, complete, n), Shown(songs, complete, n - 1);
      if items != before {
        assert items[..|items| - 1] == before;
      }
    }
  }

  ghost predicate Appears(items: seq<Item>, song: Song) {
    ShowsSong(items, song) || exists k :: 0 <= k < |items| && items[k].AlbumItem? && song in items[k].tracks
  }

  // Some complete album lists the song, and no later song took its id.
  ghost predicate Listed(songs: seq<Song>, complete: Lists, song: Song) {
    Lookup(songs, song.id) == Some(song) && exists a :: a in complete && song.id in complete[a]
  }

  ghost predicate ShowsSong(items: seq<Item>, song: Song) {
    exists k :: 0 <= k < |items| && items[k] == SongItem(song)
  }

  lemma {:induction false} ShowsSongAppended(items: seq<Item>, item: Item, song: Song)
    ensures ShowsSong(items + [item], song) <==> ShowsSong(items, song) || item == SongItem(song)
  {
    var after := items + [item];
    if ShowsSong(items, song) {
      var k :| 0 <= k < |items| && items[k] == SongItem(song);
      assert after[k] == items[k];
    }
    if item == SongItem(song) {
      assert after[|items|] == item;
    }
    if ShowsSong(after, song) {
      var k :| 0 <= k < |after| && after[k] == SongItem(song);
      assert k < |items| ==> items[k] == after[k];
    }
  }

  lemma {:induction false} LooseAppears(songs: seq<Song>, complete: Lists, n: nat, song: Song)
    requires n <= |songs|
    ensures ShowsSong(Shown(songs, complete, n), song) <==> AlbumId(song) !in complete && song in songs[..n]
  {
    if n > 0 {
      LooseAppears(songs, complete, n - 1, song);
      assert songs[..n] == songs[..n - 1] + [songs[n - 1]];
      var before, last := Shown(songs, complete, n - 1), songs[n - 1];
      if AlbumId(last) !in complete {
        ShowsSongAppended(before, SongItem(last), song);
      } else {
        ShowsSongAppended(before, AlbumItem(AlbumId(last), Tracks(songs, complete[AlbumId(last)])), song);
      }
    }
  }

  lemma {:induction false} TracksHold(songs: seq<Song>, ids: seq<Id>, song: Song)
    ensures song in Tracks(songs, ids) <==> song.id in ids && Lookup(songs, song.id) == Some(song)
  {
    if ids != [] {
      TracksHold(songs, ids[1..], song);
      assert ids == [ids[0]] + ids[1..];
    }
  }

  lemma {:induction false} AppearsInAlbum(songs: seq<Song>, complete: Lists, song: Song, a: Id)
    requires a in complete && song in Tracks(songs, complete[a]) && ShowsAlbum(Shown(songs, complete, |songs|), a)
    ensures Appears(Shown(songs, complete, |songs|), song)
  {
    var items := Shown(songs, complete, |songs|);
    AlbumsShownOnce(songs, complete, |songs|);
    var k :| 0 <= k < |items| && items[k].AlbumItem? && items[k].id == a;
    assert ShowsRight(items[k], songs, complete);
  }

  lemma {:induction false} AppearsOnlyIf(songs: seq<Song>, complete: Lists, song: Song)
    requires Appears(Shown(songs, complete, |songs|), song) && AlbumId(song) in complete
    ensures Listed(songs, complete, song)
  {
    var items := Shown(songs, complete, |songs|);
    AlbumsShownOnce(songs, complete, |songs|);
    forall k | 0 <= k < |items| ensures items[k] != SongItem(song) {
      assert ShowsRight(items[k], songs, complete);
    }
    var k :| 0 <= k < |items| && items[k].AlbumItem? && song in items[k].tracks;
    assert ShowsRight(items[k], songs, complete);
    TracksHold(songs, complete[items[k].id], song);
  }

  lemma {:induction false} CompleteIsShown(songs: seq<Song>, lists: Lists, a: Id)
    requires a in Complete(songs, lists, |songs|)
    ensures ShowsAlbum(Shown(songs, Complete(songs, lists, |songs|), |songs|), a)
  {
    CompleteExactly(songs, lists, |songs|, a);
    var i :| 0 <= i < |songs| && MakesComplete(songs, lists, i, a);
    AlbumsShownExactly(songs, Complete(songs, lists, |songs|), |songs|, a);
  }

  // A given song appears exactly when its album is not complete or some complete album lists it.
  lemma {:induction false} SongAppearsExactly(songs: seq<Song>, lists: Lists, song: Song)
    requires song in songs
    ensures var complete := Complete(songs, lists, |songs|);
            Appears(Shown(songs, complete, |songs|), song)
            <==> AlbumId(song) !in complete || Listed(songs, complete, song)
  {
    var complete := Complete(songs, lists, |songs|);
    if AlbumId(song) !in complete {
      LooseAppears(songs, complete, |songs|, song);
      assert songs[..|songs|] == songs;
      assert ShowsSong(Shown(songs, complete, |songs|), song);
    } else if Listed(songs, complete, song) {
      var a :| a in complete && song.id in complete[a];
      TracksHold(songs, complete[a], song);
      CompleteIsShown(songs, lists, a);
      AppearsInAlbum(songs, complete, song, a);
    } else if Appears(Shown(songs, complete, |songs|), song) {
      AppearsOnlyIf(songs, complete, song);
    }
  }

  ghost predicate DistinctIds(songs: seq<Song>) {
    forall i, j :: 0 <= i < j < |songs| ==> songs[i].id != songs[j].id
  }

  // The list of every complete album names all given songs of that album.
  ghost predicate ListsCover(songs: seq<Song>, complete: Lists) {
    forall i :: 0 <= i < |songs| && AlbumId(songs[i]) in complete ==> songs[i].id in complete[AlbumId(songs[i])]
  }

  // Some complete album's list names the id.
  ghost predicate Named(complete: Lists, id: Id) {
    exists a :: a in complete && id in complete[a]
  }

  // With distinct ids no song is lost exactly when every song of a complete album is named by the
  // list of some complete album. The code does not check it.
  lemma {:induction false} NoSongIsLostExactly(records: seq<Record>, songs: seq<Song>)
    requires DistinctIds(songs)
    ensures (forall i :: 0 <= i < |songs| ==> Appears(Grouped(records, songs), songs[i]))
            <==> forall i :: 0 <= i < |songs| && AlbumId(songs[i]) in CompleteFor(records, songs) ==>
                  Named(CompleteFor(records, songs), songs[i].id)
  {
    var complete := CompleteFor(records, songs);
    forall i | 0 <= i < |songs|
      ensures Appears(Grouped(records, songs), songs[i])
              <==> AlbumId(songs[i]) !in complete || Named(complete, songs[i].id)
    {
      SongAppearsExactly(songs, Known(records, songs), songs[i]);
    }
  }

  // The list of every complete album naming all given songs of that album is enough.
  lemma {:induction false} NoSongIsLost(records: seq<Record>, songs: seq<Song>)
    requires DistinctIds(songs) && ListsCover(songs, CompleteFor(records, songs))
    ensures forall i :: 0 <= i < |songs| ==> Appears(Grouped(records, songs), songs[i])
  {
    var complete := CompleteFor(records, songs);
    forall i | 0 <= i < |songs| && AlbumId(songs[i]) in complete ensures Named(complete, songs[i].id) {
      assert songs[i].id in complete[AlbumId(songs[i])];
    }
    NoSongIsLostExactly(records, songs);
  }

  ghost predicate LosesSong(records: seq<Record>, songs: seq<Song>, song: Song) {
    DistinctIds(songs) && song in songs && !Appears(Grouped(records, songs), song)
  }

  // A batch of one song makes its album complete; another song of the album, downloaded on its own,
  // is then not shown anywhere.
  lemma {:induction false} SongCanBeLost()
    ensures exists records, songs, song :: LosesSong(records, songs, song)
  {
    var album := Some(Album(1, []));
    var first, second := Song(10, album, 1), Song(11, album, 2);
    var songs := [first, second];
    var records := [Record(Some(Batch(1, [10])), None, None)];
    assert records[..0] == [];
    assert Lookup(songs, 10).Some?;
    assert Declares(records[0], songs);
    assert Declared(records, songs) == map[1 := [10]];
    assert Folders(records, songs) == map[];
    var lists := Known(records, songs);
    assert lists == map[1 := [10]];
    assert Completes(first, songs, lists);
    var complete := CompleteFor(records, songs);
    assert Complete(songs, lists, 1) == map[1 := [10]];
    SongAppearsExactly(songs, lists, second);
    assert !Listed(songs, complete, second);
    assert LosesSong(records, songs, second);
  }
}
