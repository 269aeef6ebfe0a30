/**
 What the catalogue lists, told from the library alone: which albums and songs, in which order, and
 what each entry shows.
 */
module CatalogEntries {
  import opened Wrappers
  import opened CatalogPager

  // The code points of white space in the Unicode standard.
  const WHITE_SPACE: set<int> := {
    0x09, 0x0A, 0x0B, 0x0C, 0x0D, 0x20, 0x85, 0xA0, 0x1680, 0x2000, 0x2001, 0x2002, 0x2003, 0x2004, 0x2005, 0x2006,
    0x2007, 0x2008, 0x2009, 0x200A, 0x2028, 0x2029, 0x202F, 0x205F, 0x3000}

  predicate IsBlank(text: string) {
    forall i :: 0 <= i < |text| ==> text[i] as int in WHITE_SPACE
  }

  lemma {:induction false} CoverIsNotBlank(album: Album)
    ensures HasCover(album) <==> !IsBlank(album.cover)
  {
    forall c: char ensures IsWhitespace(c) <==> c as int in WHITE_SPACE {
    }
  }

  // The page size asked for, within 1 and 200.
  lemma {:induction false} PageSizeIs(limit: nat)
    ensures 1 <= Clamp(limit) <= 200
    ensures 1 <= limit <= 200 ==> Clamp(limit) == limit
    ensures limit > 200 ==> Clamp(limit) == 200
  {
  }

  // An album by its place: the artist's and its own there.
  ghost predicate IsAlbum(artists: seq<Artist>, i: int, j: int) {
    0 <= i < |artists| && 0 <= j < |artists[i].albums|
  }

  // The album is listed: no album has a cover, or this one does.
  ghost predicate IsListed(artists: seq<Artist>, i: int, j: int) {
    IsAlbum(artists, i, j) && (AllBlank(artists) || !IsBlank(artists[i].albums[j].cover))
  }

  ghost predicate AllBlank(artists: seq<Artist>) {
    forall i, j :: IsAlbum(artists, i, j) ==> IsBlank(artists[i].albums[j].cover)
  }

  ghost predicate ShowsAlbum(entry: CatalogAlbum, artist: Artist, album: Album) {
    && entry.id == album.id && entry.name == album.name && entry.cover == album.cover
    && entry.artistId == artist.id && entry.artistName == artist.name
    && entry.releaseYear <= album.released
    && |entry.releaseYear| == (if |album.released| >= 4 then 4 else |album.released|)
    && entry.songCount == |album.songs|
    && (if album.songs == [] then entry.firstSongId == None else entry.firstSongId == Some(album.songs[0].id))
  }

  lemma {:induction false} EntryShowsAlbum(artist: Artist, album: Album)
    ensures ShowsAlbum(AlbumEntry(artist, album), artist, album)
  {
  }

  datatype Place = Place(artist: nat, album: nat)

  predicate Before(a: Place, b: Place) {
    a.artist < b.artist || (a.artist == b.artist && a.album < b.album)
  }

  // The items show the listed albums before the place `end`, each once, in the order of the library.
  ghost predicate Lists(items: seq<CatalogAlbum>, artists: seq<Artist>, at: seq<Place>, end: Place) {
    && |at| == |items|
    && (forall k :: 0 <= k < |at| ==> ListsAt(items[k], artists, at[k], end))
    && (forall k, l :: 0 <= k < l < |at| ==> Before(at[k], at[l]))
    && (forall p: Place :: IsListed(artists, p.artist, p.album) && Before(p, end) ==> p in at)
  }

  ghost predicate ListsAt(item: CatalogAlbum, artists: seq<Artist>, p: Place, end: Place) {
    IsListed(artists, p.artist, p.album) && Before(p, end)
    && ShowsAlbum(item, artists[p.artist], artists[p.artist].albums[p.album])
  }

  lemma {:induction false} ArtworkIsNotBlank(artists: seq<Artist>)
    ensures HasArtwork(artists) <==> !AllBlank(artists)
  {
    if HasArtwork(artists) {
      var i :| 0 <= i < |artists| && HasCoveredAlbum(artists[i]);
      var j :| 0 <= j < |artists[i].albums| && HasCover(artists[i].albums[j]);
      CoverIsNotBlank(artists[i].albums[j]);
      assert IsAlbum(artists, i, j);
    }
    if i, j :| IsAlbum(artists, i, j) && !IsBlank(artists[i].albums[j].cover) {
      CoverIsNotBlank(artists[i].albums[j]);
      assert HasCoveredAlbum(artists[i]);
    }
  }

  lemma {:induction false} OneMoreAlbum(items: seq<CatalogAlbum>, artists: seq<Artist>, at: seq<Place>, p: Place,
                                        next: Place)
    requires Lists(items, artists, at, p) && IsAlbum(artists, p.artist, p.album)
    requires next == Place(p.artist, p.album + 1)
    ensures var artist := artists[p.artist];
            if IsListed(artists, p.artist, p.album)
            then Lists(items + [AlbumEntry(artist, artist.albums[p.album])], artists, at + [p], next)
            else Lists(items, artists, at, next)
  {
    var artist := artists[p.artist];
    EntryShowsAlbum(artist, artist.albums[p.album]);
    forall k | 0 <= k < |at| ensures ListsAt(items[k], artists, at[k], next) && Before(at[k], p) {
      assert ListsAt(items[k], artists, at[k], p);
    }
    forall q: Place | Before(q, next) ensures Before(q, p) || q == p {
    }
  }

  lemma {:induction false} NextArtist(items: seq<CatalogAlbum>, artists: seq<Artist>, at: seq<Place>, i: nat)
    requires i < |artists| && Lists(items, artists, at, Place(i, |artists[i].albums|))
    ensures Lists(items, artists, at, Place(i + 1, 0))
  {
    forall k | 0 <= k < |at| ensures ListsAt(items[k], artists, at[k], Place(i + 1, 0)) {
      assert ListsAt(items[k], artists, at[k], Place(i, |artists[i].albums|));
    }
  }

  lemma {:induction false} EntryIsListed(items: seq<CatalogAlbum>, artists: seq<Artist>, at: seq<Place>, p: Place)
    returns (at': seq<Place>)
    requires Lists(items, artists, at, p) && IsAlbum(artists, p.artist, p.album)
    ensures var artist := artists[p.artist];
            var entry := EntryOf(artist, artist.albums[p.album], !AllBlank(artists));
            Lists(items + entry, artists, at', Place(p.artist, p.album + 1))
  {
    CoverIsNotBlank(artists[p.artist].albums[p.album]);
    OneMoreAlbum(items, artists, at, p, Place(p.artist, p.album + 1));
    if IsListed(artists, p.artist, p.album) {
      at' := at + [p];
    } else {
      at' := at;
      assert items + [] == items;
    }
  }

  // The entries with those of the artist's first n albums behind them.
  ghost predicate ListsUpTo(before: seq<CatalogAlbum>, artists: seq<Artist>, at: seq<Place>, i: nat, n: nat)
    requires i < |artists| && n <= |artists[i].albums|
  {
    Lists(before + AlbumsOf(artists[i], n, !AllBlank(artists)), artists, at, Place(i, n))
  }

  lemma {:induction false} OneMoreOfArtist(before: seq<CatalogAlbum>, artists: seq<Artist>, at: seq<Place>, i: nat,
                                           n: nat)
    returns (at': seq<Place>)
    requires i < |artists| && n < |artists[i].albums| && ListsUpTo(before, artists, at, i, n)
    ensures ListsUpTo(before, artists, at', i, n + 1)
  {
    var covered := !AllBlank(artists);
    var seen := AlbumsOf(artists[i], n, covered);
    at' := EntryIsListed(before + seen, artists, at, Place(i, n));
    Append(before, seen, EntryOf(artists[i], artists[i].albums[n], covered));
  }

  lemma {:induction false} AlbumsOfArtistAreListed(artists: seq<Artist>, before: seq<CatalogAlbum>, at: seq<Place>,
                                                   i: nat)
    returns (at': seq<Place>)
    requires i < |artists| && Lists(before, artists, at, Place(i, 0))
    ensures ListsUpTo(before, artists, at', i, |artists[i].albums|)
  {
    at' := at;
    assert before + [] == before;
    for n := 0 to |artists[i].albums|
      invariant ListsUpTo(before, artists, at', i, n)
    {
      at' := OneMoreOfArtist(before, artists, at', i, n);
    }
  }

  lemma {:induction false} AlbumsAreListed(artists: seq<Artist>, n: nat) returns (at: seq<Place>)
    requires n <= |artists|
    ensures Lists(AlbumsOfAll(artists, n, !AllBlank(artists)), artists, at, Place(n, 0))
  {
    at := [];
    if n > 0 {
      var covered := !AllBlank(artists);
      at := AlbumsAreListed(artists, n - 1);
      at := AlbumsOfArtistAreListed(artists, AlbumsOfAll(artists, n - 1, covered), at, n - 1);
      NextArtist(AlbumsOfAll(artists, n, covered), artists, at, n - 1);
    }
  }

  // Exactly the albums with a cover, or all if none has one, in the order of the library.
  lemma {:induction false} VisibleAlbumsAre(artists: seq<Artist>)
    ensures exists at :: Lists(VisibleAlbums(artists), artists, at, Place(|artists|, 0))
  {
    ArtworkIsNotBlank(artists);
    var at := AlbumsAreListed(artists, |artists|);
    assert Lists(VisibleAlbums(artists), artists, at, Place(|artists|, 0));
  }

  // ----- Songs -----

  ghost predicate IsSong(artists: seq<Artist>, i: int, j: int, k: int) {
    IsAlbum(artists, i, j) && 0 <= k < |artists[i].albums[j].songs|
  }

  ghost predicate ShowsSong(entry: CatalogSong, artist: Artist, album: Album, song: Song) {
    && entry.id == song.id && entry.name == song.name && entry.path == song.path && entry.duration == song.duration
    && entry.artistId == artist.id && entry.artistName == artist.name
    && entry.albumId == album.id && entry.albumName == album.name && entry.cover == album.cover
  }

  lemma {:induction false} EntryShowsSong(artist: Artist, album: Album, song: Song)
    ensures ShowsSong(SongEntry(artist, album, song), artist, album, song)
  {
  }

  datatype SongPlace = SongPlace(artist: nat, album: nat, song: nat)

  predicate SongBefore(a: SongPlace, b: SongPlace) {
    || a.artist < b.artist
    || (a.artist == b.artist && (a.album < b.album || (a.album == b.album && a.song < b.song)))
  }

  // The items show the songs before the place `end`, each once, in the order of the library.
  ghost predicate ListsSongs(items: seq<CatalogSong>, artists: seq<Artist>, at: seq<SongPlace>, end: SongPlace) {
    && |at| == |items|
    && (forall k :: 0 <= k < |at| ==> ListsSongAt(items[k], artists, at[k], end))
    && (forall k, l :: 0 <= k < l < |at| ==> SongBefore(at[k], at[l]))
    && (forall p: SongPlace :: IsSong(artists, p.artist, p.album, p.song) && SongBefore(p, end) ==> p in at)
  }

  ghost predicate ListsSongAt(item: CatalogSong, artists: seq<Artist>, p: SongPlace, end: SongPlace) {
    IsSong(artists, p.artist, p.album, p.song) && SongBefore(p, end)
    && var album := artists[p.artist].albums[p.album];
    ShowsSong(item, artists[p.artist], album, album.songs[p.song])
  }

  lemma {:induction false} OneMoreSong(items: seq<CatalogSong>, artists: seq<Artist>, at: seq<SongPlace>,
                                       p: SongPlace, next: SongPlace)
    requires ListsSongs(items, artists, at, p) && IsSong(artists, p.artist, p.album, p.song)
    requires next == SongPlace(p.artist, p.album, p.song + 1)
    ensures var artist := artists[p.artist];
            var album := artist.albums[p.album];
            ListsSongs(items + [SongEntry(artist, album, album.songs[p.song])], artists, at + [p], next)
  {
    var artist := artists[p.artist];
    var album := artist.albums[p.album];
    EntryShowsSong(artist, album, album.songs[p.song]);
    forall k | 0 <= k < |at| ensures ListsSongAt(items[k], artists, at[k], next) && SongBefore(at[k], p) {
      assert ListsSongAt(items[k], artists, at[k], p);
    }
    forall q: SongPlace | SongBefore(q, next) ensures SongBefore(q, p) || q == p {
    }
  }

  // Nothing stands between the end of an album or artist and the beginning of the next.
  lemma {:induction false} NoSongBetween(items: seq<CatalogSong>, artists: seq<Artist>, at: seq<SongPlace>,
                                         end: SongPlace, next: SongPlace)
    requires ListsSongs(items, artists, at, end)
    requires forall p: SongPlace :: SongBefore(p, end) ==> SongBefore(p, next)
    requires forall p: SongPlace :: SongBefore(p, next) && IsSong(artists, p.artist, p.album, p.song) ==>
               SongBefore(p, end)
    ensures ListsSongs(items, artists, at, next)
  {
    forall k | 0 <= k < |at| ensures ListsSongAt(items[k], artists, at[k], next) {
      assert ListsSongAt(items[k], artists, at[k], end);
    }
  }

  ghost predicate ListsSongsUpTo(before: seq<CatalogSong>, artists: seq<Artist>, at: seq<SongPlace>, i: nat, j: nat,
                                 n: nat)
    requires IsAlbum(artists, i, j) && n <= |artists[i].albums[j].songs|
  {
    ListsSongs(before + SongsOf(artists[i], artists[i].albums[j], n), artists, at, SongPlace(i, j, n))
  }

  lemma {:induction false} OneMoreOfAlbum(before: seq<CatalogSong>, artists: seq<Artist>, at: seq<SongPlace>, i: nat,
                                          j: nat, n: nat)
    requires IsAlbum(artists, i, j) && n < |artists[i].albums[j].songs| && ListsSongsUpTo(before, artists, at, i, j, n)
    ensures ListsSongsUpTo(before, artists, at + [SongPlace(i, j, n)], i, j, n + 1)
  {
    var artist, album := artists[i], artists[i].albums[j];
    var seen := SongsOf(artist, album, n);
    OneMoreSong(before + seen, artists, at, SongPlace(i, j, n), SongPlace(i, j, n + 1));
    Append(before, seen, [SongEntry(artist, album, album.songs[n])]);
  }

  lemma {:induction false} SongsOfAlbumAreListed(artists: seq<Artist>, before: seq<CatalogSong>, at: seq<SongPlace>,
                                                 i: nat, j: nat)
    returns (at': seq<SongPlace>)
    requires IsAlbum(artists, i, j) && ListsSongs(before, artists, at, SongPlace(i, j, 0))
    ensures ListsSongsUpTo(before, artists, at', i, j, |artists[i].albums[j].songs|)
  {
    at' := at;
    assert before + [] == before;
    for n := 0 to |artists[i].albums[j].songs|
      invariant ListsSongsUpTo(before, artists, at', i, j, n)
    {
      OneMoreOfAlbum(before, artists, at', i, j, n);
      at' := at' + [SongPlace(i, j, n)];
    }
  }

  lemma {:induction false} SongsOfArtistAreListed(artists: seq<Artist>, before: seq<CatalogSong>, at: seq<SongPlace>,
                                                  i: nat, n: nat)
    returns (at': seq<SongPlace>)
    requires i < |artists| && n <= |artists[i].albums|
    requires ListsSongs(before, artists, at, SongPlace(i, 0, 0))
    ensures ListsSongs(before + SongsOfAlbums(artists[i], n), artists, at', SongPlace(i, n, 0))
  {
    at' := at;
    var artist := artists[i];
    if n == 0 {
      assert before + SongsOfAlbums(artist, 0) == before;
    } else {
      var album, seen := artist.albums[n - 1], before + SongsOfAlbums(artist, n - 1);
      at' := SongsOfArtistAreListed(artists, before, at, i, n - 1);
      at' := SongsOfAlbumAreListed(artists, seen, at', i, n - 1);
      Append(before, SongsOfAlbums(artist, n - 1), SongsOf(artist, album, |album.songs|));
      NoSongBetween(before + SongsOfAlbums(artist, n), artists, at', SongPlace(i, n - 1, |album.songs|),
                    SongPlace(i, n, 0));
    }
  }

  lemma {:induction false} SongsAreListed(artists: seq<Artist>, n: nat) returns (at: seq<SongPlace>)
    requires n <= |artists|
    ensures ListsSongs(SongsOfAll(artists, n), artists, at, SongPlace(n, 0, 0))
  {
    at := [];
    if n > 0 {
      var artist := artists[n - 1];
      at := SongsAreListed(artists, n - 1);
      at := SongsOfArtistAreListed(artists, SongsOfAll(artists, n - 1), at, n - 1, |artist.albums|);
      NoSongBetween(SongsOfAll(artists, n), artists, at, SongPlace(n - 1, |artist.albums|, 0), SongPlace(n, 0, 0));
    }
  }

  // All songs of the library, in its order.
  lemma {:induction false} AllSongsAre(artists: seq<Artist>)
    ensures exists at :: ListsSongs(SongsOfAll(artists, |artists|), artists, at, SongPlace(|artists|, 0, 0))
  {
    var at := SongsAreListed(artists, |artists|);
    assert ListsSongs(SongsOfAll(artists, |artists|), artists, at, SongPlace(|artists|, 0, 0));
  }
}
