/**
 Pages of the library catalogue: albums and songs are counted off artist by artist, and the scans
 stop once the page is full.
 */
module CatalogPager {
  import opened Wrappers

  datatype Song = Song(id: string, name: string, path: string, duration: real)

  datatype Album = Album(id: string, name: string, cover: string, released: string, songs: seq<Song>)

  datatype Artist = Artist(id: string, name: string, albums: seq<Album>)

  datatype CatalogAlbum = CatalogAlbum(
    id: string, name: string, artistId: string, artistName: string, cover: string, releaseYear: string,
    songCount: nat, firstSongId: Option<string>)

  datatype CatalogSong = CatalogSong(
    id: string, name: string, artistId: string, artistName: string, albumId: string, albumName: string,
    cover: string, path: string, duration: real)

  datatype Cache = Cache(artists: seq<Artist>, songsFlat: seq<Song>)

  datatype CatalogPage = CatalogPage(
    albums: seq<CatalogAlbum>,
    songs: seq<CatalogSong>,
    totalAlbums: nat,
    totalSongs: nat)

  // ----- What is counted off -----

  predicate IsWhitespace(c: char) {
    || '\t' <= c <= '\r' || c == ' ' || c == '\U{0085}' || c == '\U{00A0}' || c == '\U{1680}'
    || '\U{2000}' <= c <= '\U{200A}' || c == '\U{2028}' || c == '\U{2029}' || c == '\U{202F}'
    || c == '\U{205F}' || c == '\U{3000}'
  }

  predicate HasCover(album: Album) {
    exists i :: 0 <= i < |album.cover| && !IsWhitespace(album.cover[i])
  }

  predicate HasCoveredAlbum(artist: Artist) {
    exists j :: 0 <= j < |artist.albums| && HasCover(artist.albums[j])
  }

  predicate HasArtwork(artists: seq<Artist>) {
    exists i :: 0 <= i < |artists| && HasCoveredAlbum(artists[i])
  }

  function AlbumEntry(artist: Artist, album: Album): CatalogAlbum {
    CatalogAlbum(album.id, album.name, artist.id, artist.name, album.cover,
                 if |album.released| < 4 then album.released else album.released[..4],
                 |album.songs|, if album.songs == [] then None else Some(album.songs[0].id))
  }

  function SongEntry(artist: Artist, album: Album, song: Song): CatalogSong {
    CatalogSong(song.id, song.name, artist.id, artist.name, album.id, album.name, album.cover, song.path, song.duration)
  }

  function EntryOf(artist: Artist, album: Album, covered: bool): seq<CatalogAlbum> {
    if covered && !HasCover(album) then [] else [AlbumEntry(artist, album)]
  }

  // The entries of the first n albums of an artist; with `covered`, only of those with a cover.
  function AlbumsOf(artist: Artist, n: nat, covered: bool): seq<CatalogAlbum>
    requires n <= |artist.albums|
  {
    if n == 0 then []
    else
      AlbumsOf(artist, n - 1, covered) + EntryOf(artist, artist.albums[n - 1], covered)
  }

  function AlbumsOfAll(artists: seq<Artist>, n: nat, covered: bool): seq<CatalogAlbum>
    requires n <= |artists|
  {
    if n == 0 then []
    else AlbumsOfAll(artists, n - 1, covered) + AlbumsOf(artists[n - 1], |artists[n - 1].albums|, covered)
  }

  // Albums without a cover are hidden as soon as any album has one.
  function VisibleAlbums(artists: seq<Artist>): seq<CatalogAlbum> {
    AlbumsOfAll(artists, |artists|, HasArtwork(artists))
  }

  function SongsOf(artist: Artist, album: Album, n: nat): seq<CatalogSong>
    requires n <= |album.songs|
  {
    if n == 0 then [] else SongsOf(artist, album, n - 1) + [SongEntry(artist, album, album.songs[n - 1])]
  }

  function SongsOfAlbums(artist: Artist, n: nat): seq<CatalogSong>
    requires n <= |artist.albums|
  {
    if n == 0 then []
    else SongsOfAlbums(artist, n - 1) + SongsOf(artist, artist.albums[n - 1], |artist.albums[n - 1].songs|)
  }

  function SongsOfAll(artists: seq<Artist>, n: nat): seq<CatalogSong>
    requires n <= |artists|
  {
    if n == 0 then [] else SongsOfAll(artists, n - 1) + SongsOfAlbums(artists[n - 1], |artists[n - 1].albums|)
  }

  // ----- Pages -----

  function Least(a: nat, b: nat): nat {
    if a < b then a else b
  }

  // Drop `offset` items, then take `limit`.
  function Page<T>(items: seq<T>, offset: nat, limit: nat): seq<T> {
    items[Least(offset, |items|)..Least(offset + limit, |items|)]
  }

  lemma {:induction false} PageOfOneMore<T>(items: seq<T>, item: T, offset: nat, limit: nat)
    ensures Page(items + [item], offset, limit)
            == Page(items, offset, limit)
               + if offset <= |items| && |Page(items, offset, limit)| < limit then [item] else []
  {
  }

  // A full page is not changed by what follows.
  lemma {:induction false} FullPageIsFinal<T>(seen: seq<T>, rest: seq<T>, offset: nat, limit: nat)
    requires |Page(seen, offset, limit)| >= limit
    ensures Page(seen + rest, offset, limit) == Page(seen, offset, limit)
  {
  }

  lemma {:induction false} Append<T>(a: seq<T>, b: seq<T>, c: seq<T>)
    ensures a + b + c == a + (b + c)
  {
  }

  lemma {:induction false} AlbumsLeftOf(artist: Artist, j: nat, covered: bool) returns (rest: seq<CatalogAlbum>)
    requires j <= |artist.albums|
    ensures AlbumsOf(artist, |artist.albums|, covered) == AlbumsOf(artist, j, covered) + rest
    decreases |artist.albums| - j
  {
    rest := [];
    if j < |artist.albums| {
      var later := AlbumsLeftOf(artist, j + 1, covered);
      rest := EntryOf(artist, artist.albums[j], covered) + later;
      Append(AlbumsOf(artist, j, covered), EntryOf(artist, artist.albums[j], covered), later);
    }
  }

  lemma {:induction false} AlbumsLeftAfter(artists: seq<Artist>, i: nat, covered: bool)
    returns (rest: seq<CatalogAlbum>)
    requires i <= |artists|
    ensures AlbumsOfAll(artists, |artists|, covered) == AlbumsOfAll(artists, i, covered) + rest
    decreases |artists| - i
  {
    rest := [];
    if i < |artists| {
      var own := AlbumsOf(artists[i], |artists[i].albums|, covered);
      var later := AlbumsLeftAfter(artists, i + 1, covered);
      rest := own + later;
      Append(AlbumsOfAll(artists, i, covered), own, later);
    }
  }

  // What is still to come after the first j albums of artist i.
  lemma {:induction false} AlbumsToCome(artists: seq<Artist>, i: nat, j: nat, covered: bool)
    returns (rest: seq<CatalogAlbum>)
    requires i < |artists| && j <= |artists[i].albums|
    ensures AlbumsOfAll(artists, |artists|, covered)
            == AlbumsOfAll(artists, i, covered) + AlbumsOf(artists[i], j, covered) + rest
  {
    var own := AlbumsLeftOf(artists[i], j, covered);
    var later := AlbumsLeftAfter(artists, i + 1, covered);
    rest := own + later;
    Append(AlbumsOfAll(artists, i, covered), AlbumsOf(artists[i], j, covered), own);
    Append(AlbumsOfAll(artists, i, covered) + AlbumsOf(artists[i], j, covered), own, later);
  }

  // The scan has counted off `seen`.
  ghost predicate Counted<T>(items: seq<T>, position: nat, seen: seq<T>, offset: nat, limit: nat) {
    position == |seen| && items == Page(seen, offset, limit)
  }

  // One more entry is counted off.
  method CountOff(entry: CatalogAlbum, offset: nat, limit: nat, ghost seen: seq<CatalogAlbum>,
                  albums: seq<CatalogAlbum>, position: nat)
    returns (albums': seq<CatalogAlbum>, position': nat)
    requires Counted(albums, position, seen, offset, limit)
    ensures Counted(albums', position', seen + [entry], offset, limit)
  {
    PageOfOneMore(seen, entry, offset, limit);
    albums' := if position >= offset && |albums| < limit then albums + [entry] else albums;
    position' := position + 1;
  }

  // Everything counted off after n more albums.
  ghost function SeenAlbums(before: seq<CatalogAlbum>, artist: Artist, n: nat, covered: bool): seq<CatalogAlbum>
    requires n <= |artist.albums|
  {
    if n == 0 then before
    else SeenAlbums(before, artist, n - 1, covered) + EntryOf(artist, artist.albums[n - 1], covered)
  }

  lemma {:induction false} SeenAlbumsAppend(before: seq<CatalogAlbum>, artist: Artist, n: nat, covered: bool)
    requires n <= |artist.albums|
    ensures SeenAlbums(before, artist, n, covered) == before + AlbumsOf(artist, n, covered)
  {
    if n > 0 {
      SeenAlbumsAppend(before, artist, n - 1, covered);
      Append(before, AlbumsOf(artist, n - 1, covered), EntryOf(artist, artist.albums[n - 1], covered));
    }
  }

  // The entries of one artist's albums from the place the scan has got to.
  method ScanAlbums(artist: Artist, covered: bool, offset: nat, limit: nat, ghost before: seq<CatalogAlbum>,
                    albums: seq<CatalogAlbum>, position: nat)
    returns (albums': seq<CatalogAlbum>, position': nat, full: bool, ghost n: nat)
    requires Counted(albums, position, before, offset, limit)
    ensures n <= |artist.albums| && (!full ==> n == |artist.albums|)
    ensures Counted(albums', position', SeenAlbums(before, artist, n, covered), offset, limit)
    ensures full ==> |albums'| >= limit
  {
    albums', position', full, n := albums, position, false, 0;
    for j := 0 to |artist.albums|
      invariant n == j && !full && Counted(albums', position', SeenAlbums(before, artist, j, covered), offset, limit)
    {
      var album := artist.albums[j];
      ghost var seen := SeenAlbums(before, artist, j, covered);
      n := j + 1;
      if covered && !HasCover(album) {
        assert seen + [] == seen;
        continue;
      }
      albums', position' := CountOff(AlbumEntry(artist, album), offset, limit, seen, albums', position');
      if |albums'| >= limit {
        full := true;
        return;
      }
    }
  }

  method CatalogAlbumPage(artists: seq<Artist>, offset: nat, limit: nat) returns (albums: seq<CatalogAlbum>)
    ensures albums == Page(VisibleAlbums(artists), offset, limit)
  {
    albums := [];
    var position := 0;
    var hasArtwork := HasArtwork(artists);
    for i := 0 to |artists|
      invariant Counted(albums, position, AlbumsOfAll(artists, i, hasArtwork), offset, limit)
    {
      var full;
      ghost var n;
      ghost var before := AlbumsOfAll(artists, i, hasArtwork);
      albums, position, full, n := ScanAlbums(artists[i], hasArtwork, offset, limit, before, albums, position);
      SeenAlbumsAppend(before, artists[i], n, hasArtwork);
      if full {
        ghost var rest := AlbumsToCome(artists, i, n, hasArtwork);
        FullPageIsFinal(before + AlbumsOf(artists[i], n, hasArtwork), rest, offset, limit);
        return;
      }
    }
  }

  // ----- The number of visible albums -----

  function CountCovered(artist: Artist, n: nat): nat
    requires n <= |artist.albums|
  {
    if n == 0 then 0 else CountCovered(artist, n - 1) + if HasCover(artist.albums[n - 1]) then 1 else 0
  }

  function CoveredAlbums(artists: seq<Artist>, n: nat): nat
    requires n <= |artists|
  {
    if n == 0 then 0 else CoveredAlbums(artists, n - 1) + CountCovered(artists[n - 1], |artists[n - 1].albums|)
  }

  function AllAlbums(artists: seq<Artist>, n: nat): nat
    requires n <= |artists|
  {
    if n == 0 then 0 else AllAlbums(artists, n - 1) + |artists[n - 1].albums|
  }

  function CatalogVisibleAlbumCount(artists: seq<Artist>): nat {
    var covered := CoveredAlbums(artists, |artists|);
    if covered > 0 then covered else AllAlbums(artists, |artists|)
  }

  lemma {:induction false} CountsOne(artist: Artist, n: nat)
    requires n <= |artist.albums|
    ensures |AlbumsOf(artist, n, true)| == CountCovered(artist, n) && |AlbumsOf(artist, n, false)| == n
  {
    if n > 0 {
      CountsOne(artist, n - 1);
    }
  }

  lemma {:induction false} CountsSome(artist: Artist, n: nat)
    requires n <= |artist.albums|
    ensures CountCovered(artist, n) > 0 <==> exists j :: 0 <= j < n && HasCover(artist.albums[j])
  {
    if n > 0 {
      CountsSome(artist, n - 1);
    }
  }

  lemma {:induction false} CountsAll(artists: seq<Artist>, n: nat)
    requires n <= |artists|
    ensures |AlbumsOfAll(artists, n, true)| == CoveredAlbums(artists, n)
    ensures |AlbumsOfAll(artists, n, false)| == AllAlbums(artists, n)
  {
    if n > 0 {
      CountsAll(artists, n - 1);
      CountsOne(artists[n - 1], |artists[n - 1].albums|);
    }
  }

  lemma {:induction false} NoneCovered(artists: seq<Artist>, n: nat)
    requires n <= |artists| && forall i :: 0 <= i < n ==> !HasCoveredAlbum(artists[i])
    ensures CoveredAlbums(artists, n) == 0
  {
    if n > 0 {
      NoneCovered(artists, n - 1);
      CountsSome(artists[n - 1], |artists[n - 1].albums|);
      assert !HasCoveredAlbum(artists[n - 1]);
    }
  }

  lemma {:induction false} SomeCovered(artists: seq<Artist>, i: nat, n: nat)
    requires i < n <= |artists| && HasCoveredAlbum(artists[i])
    ensures CoveredAlbums(artists, n) > 0
  {
    if i < n - 1 {
      SomeCovered(artists, i, n - 1);
    } else {
      CountsSome(artists[i], |artists[i].albums|);
    }
  }

  // The total shown with a page is the length of the list the pages are cut from.
  lemma {:induction false} CountIsLengthOfVisible(artists: seq<Artist>)
    ensures CatalogVisibleAlbumCount(artists) == |VisibleAlbums(artists)|
  {
    CountsAll(artists, |artists|);
    if HasArtwork(artists) {
      var i :| 0 <= i < |artists| && HasCoveredAlbum(artists[i]);
      SomeCovered(artists, i, |artists|);
    } else {
      NoneCovered(artists, |artists|);
    }
  }

  // ----- Pages cover the list -----

  lemma {:induction false} ConsecutivePagesConcatenate<T>(items: seq<T>, offset: nat, first: nat, second: nat)
    ensures Page(items, offset, first) + Page(items, offset + first, second) == Page(items, offset, first + second)
  {
  }

  // The first `count` pages one after the other.
  function Pages<T>(items: seq<T>, limit: nat, count: nat): seq<T> {
    if count == 0 then [] else Pages(items, limit, count - 1) + Page(items, (count - 1) * limit, limit)
  }

  lemma {:induction false} PagesArePrefix<T>(items: seq<T>, limit: nat, count: nat)
    ensures Pages(items, limit, count) == items[..Least(count * limit, |items|)]
  {
    if count > 0 {
      PagesArePrefix(items, limit, count - 1);
      var last := (count - 1) * limit;
      assert count * limit == last + limit;
      assert Page(items, 0, last) == items[..Least(last, |items|)];
      ConsecutivePagesConcatenate(items, 0, last, limit);
    }
  }

  // Paging through the albums shows every visible one once, in order.
  lemma {:induction false} PagesShowEveryAlbum(artists: seq<Artist>, limit: nat, count: nat)
    requires count * limit >= CatalogVisibleAlbumCount(artists)
    ensures Pages(VisibleAlbums(artists), limit, count) == VisibleAlbums(artists)
  {
    CountIsLengthOfVisible(artists);
    PagesArePrefix(VisibleAlbums(artists), limit, count);
  }

  // ----- Songs -----

  lemma {:induction false} SongsToCome(artists: seq<Artist>, i: nat, j: nat) returns (rest: seq<CatalogSong>)
    requires i < |artists| && j <= |artists[i].albums|
    ensures SongsOfAll(artists, |artists|) == SongsOfAll(artists, i) + SongsOfAlbums(artists[i], j) + rest
    decreases |artists| - i, |artists[i].albums| - j
  {
    var seen := SongsOfAll(artists, i);
    var artist := artists[i];
    if j < |artist.albums| {
      var later := SongsToCome(artists, i, j + 1);
      var next := SongsOf(artist, artist.albums[j], |artist.albums[j].songs|);
      rest := next + later;
      Append(seen, SongsOfAlbums(artist, j), next);
      Append(seen + SongsOfAlbums(artist, j), next, later);
    } else if i + 1 < |artists| {
      rest := SongsToCome(artists, i + 1, 0);
    } else {
      rest := [];
    }
  }

  function SongPage(seen: seq<CatalogSong>, wanted: bool, offset: nat, limit: nat): seq<CatalogSong> {
    if wanted then Page(seen, offset, limit) else []
  }

  method ScanSongs(artist: Artist, album: Album, wanted: bool, offset: nat, limit: nat, ghost before: seq<CatalogSong>,
                   songs: seq<CatalogSong>, position: nat)
    returns (songs': seq<CatalogSong>, position': nat)
    requires position == |before| && songs == SongPage(before, wanted, offset, limit)
    ensures position' == |before + SongsOf(artist, album, |album.songs|)|
    ensures songs' == SongPage(before + SongsOf(artist, album, |album.songs|), wanted, offset, limit)
  {
    songs', position' := songs, position;
    ghost var seen := before;
    assert before + SongsOf(artist, album, 0) == before;
    for k := 0 to |album.songs|
      invariant seen == before + SongsOf(artist, album, k)
      invariant position' == |seen| && songs' == SongPage(seen, wanted, offset, limit)
    {
      var entry := SongEntry(artist, album, album.songs[k]);
      PageOfOneMore(seen, entry, offset, limit);
      Append(before, SongsOf(artist, album, k), [entry]);
      if wanted && position' >= offset && |songs'| < limit {
        songs' := songs' + [entry];
      }
      seen := seen + [entry];
      position' := position' + 1;
    }
  }

  // The songs of one artist's albums, up to the one after which the page needs no more.
  method ScanSongsOfAlbums(artist: Artist, wanted: bool, albumsDone: bool, offset: nat, limit: nat,
                           ghost before: seq<CatalogSong>, songs: seq<CatalogSong>, position: nat)
    returns (songs': seq<CatalogSong>, position': nat, n: nat)
    requires position == |before| && songs == SongPage(before, wanted, offset, limit)
    ensures n <= |artist.albums| && (n < |artist.albums| ==> albumsDone && (!wanted || |songs'| >= limit))
    ensures position' == |before + SongsOfAlbums(artist, n)|
    ensures songs' == SongPage(before + SongsOfAlbums(artist, n), wanted, offset, limit)
  {
    songs', position', n := songs, position, 0;
    assert before + SongsOfAlbums(artist, 0) == before;
    for j := 0 to |artist.albums|
      invariant n == j && position' == |before + SongsOfAlbums(artist, j)|
      invariant songs' == SongPage(before + SongsOfAlbums(artist, j), wanted, offset, limit)
    {
      var album := artist.albums[j];
      songs', position' := ScanSongs(artist, album, wanted, offset, limit, before + SongsOfAlbums(artist, j),
                                     songs', position');
      Append(before, SongsOfAlbums(artist, j), SongsOf(artist, album, |album.songs|));
      n := j + 1;
      if albumsDone && (!wanted || |songs'| >= limit) {
        break;
      }
    }
  }

  function Clamp(limit: nat): nat {
    if limit < 1 then 1 else if limit > 200 then 200 else limit
  }

  method CatalogPageOf(cache: Cache, offset: nat, limit: nat, includeAlbums: bool, includeSongs: bool)
    returns (page: CatalogPage)
    ensures page.albums == if includeAlbums then Page(VisibleAlbums(cache.artists), offset, Clamp(limit)) else []
    ensures page.songs
         == if includeSongs then Page(SongsOfAll(cache.artists, |cache.artists|), offset, Clamp(limit)) else []
    ensures page.totalAlbums == |VisibleAlbums(cache.artists)| && page.totalSongs == |cache.songsFlat|
  {
    var size := Clamp(limit);
    var artists := cache.artists;
    var albums := [];
    if includeAlbums {
      albums := CatalogAlbumPage(artists, offset, size);
    }
    CountIsLengthOfVisible(artists);
    var songs, position := [], 0;
    for i := 0 to |artists|
      invariant position == |SongsOfAll(artists, i)|
      invariant songs == SongPage(SongsOfAll(artists, i), includeSongs, offset, size)
    {
      ghost var before := SongsOfAll(artists, i);
      var n;
      var albumsDone := !includeAlbums || |albums| >= size;
      songs, position, n := ScanSongsOfAlbums(artists[i], includeSongs, albumsDone, offset, size, before,
                                              songs, position);
      if albumsDone && (!includeSongs || |songs| >= size) {
        ghost var rest := SongsToCome(artists, i, n);
        if includeSongs {
          FullPageIsFinal(before + SongsOfAlbums(artists[i], n), rest, offset, size);
        }
        break;
      }
    }
    page := CatalogPage(albums, songs, CatalogVisibleAlbumCount(artists), |cache.songsFlat|);
  }
}
