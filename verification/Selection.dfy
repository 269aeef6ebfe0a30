/** The greedy pick of recommendations: spaced and album-limited first, then relaxed to fill up. */
module Selection {
  import opened Ranking

  const ARTIST_SPACING := 3
  const ALBUM_LIMIT := 2
  const RELAXED_ALBUM_LIMIT := 3

  predicate Mapped(c: Ranked, cache: Cache) {
    c.songId in cache.songMap
  }

  function ArtistOf(c: Ranked, cache: Cache): string
    requires Mapped(c, cache)
  {
    cache.songMap[c.songId].0
  }

  function AlbumOf(c: Ranked, cache: Cache): string
    requires Mapped(c, cache)
  {
    cache.songMap[c.songId].1
  }

  function AlbumCount(picks: seq<Ranked>, album: string, cache: Cache): nat {
    if picks == [] then 0
    else
      var last := |picks| - 1;
      AlbumCount(picks[..last], album, cache)
      + if Mapped(picks[last], cache) && AlbumOf(picks[last], cache) == album then 1 else 0
  }

  predicate PicksSong(picks: seq<Ranked>, id: string) {
    exists i :: 0 <= i < |picks| && picks[i].songId == id
  }

  // The last three picks are by other artists.
  predicate Spaced(picks: seq<Ranked>, c: Ranked, cache: Cache)
    requires Mapped(c, cache)
  {
    forall i :: 0 <= i < |picks| && i >= |picks| - ARTIST_SPACING && Mapped(picks[i], cache) ==>
          ArtistOf(picks[i], cache) != ArtistOf(c, cache)
  }

  predicate FirstChoice(picks: seq<Ranked>, c: Ranked, cache: Cache) {
    Mapped(c, cache) && Spaced(picks, c, cache) && AlbumCount(picks, AlbumOf(c, cache), cache) < ALBUM_LIMIT
  }

  predicate SecondChoice(picks: seq<Ranked>, c: Ranked, cache: Cache) {
    !PicksSong(picks, c.songId) && Mapped(c, cache) && AlbumCount(picks, AlbumOf(c, cache), cache) < RELAXED_ALBUM_LIMIT
  }

  // Each pass walks the ranked list once and stops as soon as the limit is reached by a pick.
  function FirstPass(ranked: seq<Ranked>, picks: seq<Ranked>, cache: Cache, limit: nat): seq<Ranked> {
    if ranked == [] then picks
    else if !FirstChoice(picks, ranked[0], cache) then FirstPass(ranked[1..], picks, cache, limit)
    else if |picks| + 1 >= limit then picks + [ranked[0]]
    else FirstPass(ranked[1..], picks + [ranked[0]], cache, limit)
  }

  function SecondPass(ranked: seq<Ranked>, picks: seq<Ranked>, cache: Cache, limit: nat): seq<Ranked> {
    if ranked == [] then picks
    else if !SecondChoice(picks, ranked[0], cache) then SecondPass(ranked[1..], picks, cache, limit)
    else if |picks| + 1 >= limit then picks + [ranked[0]]
    else SecondPass(ranked[1..], picks + [ranked[0]], cache, limit)
  }

  function Selected(ranked: seq<Ranked>, cache: Cache, limit: nat): seq<Ranked> {
    var first := FirstPass(ranked, [], cache, limit);
    if |first| < limit then SecondPass(ranked, first, cache, limit) else first
  }

  // ----- The two loops -----

  // The map of album counts the loops keep.
  ghost predicate CountsAlbums(counts: map<string, nat>, picks: seq<Ranked>, cache: Cache) {
    forall album :: Count(counts, album) == AlbumCount(picks, album, cache)
  }

  function Count(counts: map<string, nat>, album: string): nat {
    if album in counts then counts[album] else 0
  }

  ghost predicate ListsArtists(artists: seq<string>, picks: seq<Ranked>, cache: Cache) {
    |artists| == |picks| && forall i :: 0 <= i < |picks| ==>
          Mapped(picks[i], cache) && artists[i] == ArtistOf(picks[i], cache)
  }

  ghost predicate KnowsSongs(ids: set<string>, picks: seq<Ranked>) {
    forall id :: id in ids <==> PicksSong(picks, id)
  }

  lemma {:induction false} PickUpdatesCounts(counts: map<string, nat>, picks: seq<Ranked>, c: Ranked, cache: Cache)
    requires CountsAlbums(counts, picks, cache) && Mapped(c, cache)
    ensures var album := AlbumOf(c, cache);
            CountsAlbums(counts[album := Count(counts, album) + 1], picks + [c], cache)
  {
    var after := picks + [c];
    assert after[..|picks|] == picks && after[|picks|] == c;
    forall album
      ensures AlbumCount(after, album, cache)
           == AlbumCount(picks, album, cache) + if AlbumOf(c, cache) == album then 1 else 0
    {
    }
  }

  lemma {:induction false} PickUpdatesSongs(ids: set<string>, picks: seq<Ranked>, c: Ranked)
    requires KnowsSongs(ids, picks)
    ensures KnowsSongs(ids + {c.songId}, picks + [c])
  {
    forall id ensures id in ids + {c.songId} <==> PicksSong(picks + [c], id) {
      if PicksSong(picks, id) {
        var i :| 0 <= i < |picks| && picks[i].songId == id;
        assert (picks + [c])[i].songId == id;
      }
      assert (picks + [c])[|picks|] == c;
    }
  }

  method SelectCandidates(ranked: seq<Ranked>, cache: Cache, limit: nat) returns (selected: seq<Ranked>)
    ensures selected == Selected(ranked, cache, limit)
  {
    selected := [];
    var selectedIds: set<string> := {};
    var recentArtists: seq<string> := [];
    var albumCounts: map<string, nat> := map[];
    var i := 0;
    while i < |ranked|
      invariant 0 <= i <= |ranked|
      invariant CountsAlbums(albumCounts, selected, cache) && KnowsSongs(selectedIds, selected)
      invariant ListsArtists(recentArtists, selected, cache)
      invariant FirstPass(ranked[i..], selected, cache, limit) == FirstPass(ranked, [], cache, limit)
    {
      var candidate := ranked[i];
      assert ranked[i..] == [candidate] + ranked[i + 1..];
      i := i + 1;
      if candidate.songId in cache.songMap {
        var (artist, album) := cache.songMap[candidate.songId];
        if (forall k :: 0 <= k < |recentArtists| && k >= |recentArtists| - ARTIST_SPACING ==>
              recentArtists[k] != artist)
           && Count(albumCounts, album) < ALBUM_LIMIT
        {
          PickUpdatesCounts(albumCounts, selected, candidate, cache);
          PickUpdatesSongs(selectedIds, selected, candidate);
          recentArtists := recentArtists + [artist];
          albumCounts := albumCounts[album := Count(albumCounts, album) + 1];
          selectedIds := selectedIds + {candidate.songId};
          selected := selected + [candidate];
          if |selected| >= limit {
            return;
          }
        }
      }
    }
    selected := Relax(ranked, cache, limit, selected, selectedIds, albumCounts);
  }

  method Relax(ranked: seq<Ranked>, cache: Cache, limit: nat, first: seq<Ranked>, ids: set<string>,
               counts: map<string, nat>)
    returns (selected: seq<Ranked>)
    requires CountsAlbums(counts, first, cache) && KnowsSongs(ids, first)
    ensures selected == if |first| < limit then SecondPass(ranked, first, cache, limit) else first
  {
    selected := first;
    if |first| >= limit {
      return;
    }
    var selectedIds: set<string> := ids;
    var albumCounts: map<string, nat> := counts;
    var i := 0;
    while i < |ranked|
      invariant 0 <= i <= |ranked|
      invariant CountsAlbums(albumCounts, selected, cache) && KnowsSongs(selectedIds, selected)
      invariant SecondPass(ranked[i..], selected, cache, limit) == SecondPass(ranked, first, cache, limit)
    {
      var candidate := ranked[i];
      assert ranked[i..] == [candidate] + ranked[i + 1..];
      i := i + 1;
      if candidate.songId !in selectedIds && candidate.songId in cache.songMap {
        var album := cache.songMap[candidate.songId].1;
        if Count(albumCounts, album) < RELAXED_ALBUM_LIMIT {
          PickUpdatesCounts(albumCounts, selected, candidate, cache);
          PickUpdatesSongs(selectedIds, selected, candidate);
          albumCounts := albumCounts[album := Count(albumCounts, album) + 1];
          selectedIds := selectedIds + {candidate.songId};
          selected := selected + [candidate];
          if |selected| >= limit {
            return;
          }
        }
      }
    }
  }
}
