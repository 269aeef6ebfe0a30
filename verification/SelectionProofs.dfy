/** What the greedy pick guarantees for every ranked list and limit. */
module SelectionProofs {
  import Wrappers
  import opened Ranking
  import opened Selection

  // Every pick was admissible when it was made: an artist not among the three picks before it,
  // and an album with fewer than two earlier picks.
  ghost predicate ChosenFirst(picks: seq<Ranked>, cache: Cache) {
    forall i :: 0 <= i < |picks| ==> FirstChoice(picks[..i], picks[i], cache)
  }

  ghost predicate ComesFrom(picks: seq<Ranked>, ranked: seq<Ranked>, cache: Cache) {
    forall c :: c in picks ==> c in ranked && Mapped(c, cache)
  }

  ghost predicate AlbumsAtMost(picks: seq<Ranked>, limit: nat, cache: Cache) {
    forall album :: AlbumCount(picks, album, cache) <= limit
  }

  ghost predicate NoneRepeats(picks: seq<Ranked>, ranked: seq<Ranked>) {
    DistinctSongs(picks) && DistinctSongs(ranked) && forall c :: c in ranked ==> !PicksSong(picks, c.songId)
  }

  lemma {:induction false} PickKeepsChosenFirst(picks: seq<Ranked>, c: Ranked, cache: Cache)
    requires ChosenFirst(picks, cache) && AlbumsAtMost(picks, ALBUM_LIMIT, cache) && FirstChoice(picks, c, cache)
    ensures ChosenFirst(picks + [c], cache) && AlbumsAtMost(picks + [c], ALBUM_LIMIT, cache)
  {
    var after := picks + [c];
    forall i | 0 <= i < |after| ensures FirstChoice(after[..i], after[i], cache) {
      assert after[..i] == picks[..i];
      assert i < |picks| ==> after[i] == picks[i];
      assert i == |picks| ==> after[i] == c && picks[..i] == picks;
    }
    forall album ensures AlbumCount(after, album, cache) <= ALBUM_LIMIT {
      PickCounts(picks, c, album, cache);
    }
  }

  lemma {:induction false} PickCounts(picks: seq<Ranked>, c: Ranked, album: string, cache: Cache)
    requires Mapped(c, cache)
    ensures AlbumCount(picks + [c], album, cache)
         == AlbumCount(picks, album, cache) + if AlbumOf(c, cache) == album then 1 else 0
  {
    assert (picks + [c])[..|picks|] == picks && (picks + [c])[|picks|] == c;
  }

  lemma {:induction false} FirstPassChooses(ranked: seq<Ranked>, picks: seq<Ranked>, cache: Cache, limit: nat)
    requires ChosenFirst(picks, cache) && AlbumsAtMost(picks, ALBUM_LIMIT, cache)
    ensures var result := FirstPass(ranked, picks, cache, limit);
            ChosenFirst(result, cache) && AlbumsAtMost(result, ALBUM_LIMIT, cache)
  {
    if ranked != [] {
      if FirstChoice(picks, ranked[0], cache) {
        PickKeepsChosenFirst(picks, ranked[0], cache);
        if |picks| + 1 < limit {
          FirstPassChooses(ranked[1..], picks + [ranked[0]], cache, limit);
        }
      } else {
        FirstPassChooses(ranked[1..], picks, cache, limit);
      }
    }
  }

  lemma {:induction false} FirstPassExtends(ranked: seq<Ranked>, picks: seq<Ranked>, cache: Cache, limit: nat)
    requires picks == [] || |picks| < limit
    ensures var result := FirstPass(ranked, picks, cache, limit);
            picks <= result && |result| <= (if limit < 1 then 1 else limit)
  {
    if ranked != [] {
      if !FirstChoice(picks, ranked[0], cache) {
        FirstPassExtends(ranked[1..], picks, cache, limit);
      } else if |picks| + 1 < limit {
        FirstPassExtends(ranked[1..], picks + [ranked[0]], cache, limit);
      }
    }
  }

  lemma {:induction false} FirstPassPicksDistinct(ranked: seq<Ranked>, picks: seq<Ranked>, all: seq<Ranked>,
                                                  cache: Cache, limit: nat)
    requires NoneRepeats(picks, ranked) && ComesFrom(picks, all, cache) && forall c :: c in ranked ==> c in all
    ensures var result := FirstPass(ranked, picks, cache, limit);
            DistinctSongs(result) && ComesFrom(result, all, cache)
  {
    if ranked != [] {
      assert forall c :: c in ranked[1..] ==> c in ranked;
      if FirstChoice(picks, ranked[0], cache) && |picks| + 1 < limit {
        FirstPassPicksDistinct(ranked[1..], picks + [ranked[0]], all, cache, limit);
      } else if !FirstChoice(picks, ranked[0], cache) {
        FirstPassPicksDistinct(ranked[1..], picks, all, cache, limit);
      }
    }
  }

  lemma {:induction false} SecondPassKeeps(ranked: seq<Ranked>, picks: seq<Ranked>, all: seq<Ranked>, cache: Cache,
                                           limit: nat)
    requires DistinctSongs(picks) && ComesFrom(picks, all, cache) && AlbumsAtMost(picks, RELAXED_ALBUM_LIMIT, cache)
    requires |picks| < limit && forall c :: c in ranked ==> c in all
    ensures var result := SecondPass(ranked, picks, cache, limit);
            && picks <= result && |result| <= limit && DistinctSongs(result) && ComesFrom(result, all, cache)
            && AlbumsAtMost(result, RELAXED_ALBUM_LIMIT, cache)
  {
    if ranked != [] {
      assert forall c :: c in ranked[1..] ==> c in ranked;
      if SecondChoice(picks, ranked[0], cache) {
        var after := picks + [ranked[0]];
        if |picks| + 1 < limit {
          SecondPassKeeps(ranked[1..], after, all, cache, limit);
        }
      } else {
        SecondPassKeeps(ranked[1..], picks, all, cache, limit);
      }
    }
  }

  lemma {:induction false} CountGrows(picks: seq<Ranked>, more: seq<Ranked>, album: string, cache: Cache)
    requires picks <= more
    ensures AlbumCount(picks, album, cache) <= AlbumCount(more, album, cache)
    decreases |more|
  {
    if |picks| < |more| {
      CountGrows(picks, more[..|more| - 1], album, cache);
    } else {
      assert picks == more;
    }
  }

  ghost predicate Settled(picks: seq<Ranked>, c: Ranked, cache: Cache) {
    PicksSong(picks, c.songId) || !Mapped(c, cache)
        || AlbumCount(picks, AlbumOf(c, cache), cache) >= RELAXED_ALBUM_LIMIT
  }

  lemma {:induction false} SettledStays(picks: seq<Ranked>, more: seq<Ranked>, c: Ranked, cache: Cache)
    requires picks <= more && Settled(picks, c, cache)
    ensures Settled(more, c, cache)
  {
    if PicksSong(picks, c.songId) {
      var i :| 0 <= i < |picks| && picks[i].songId == c.songId;
      assert more[i] == picks[i];
    } else if Mapped(c, cache) {
      CountGrows(picks, more, AlbumOf(c, cache), cache);
    }
  }

  lemma {:induction false} SecondPassExtends(ranked: seq<Ranked>, picks: seq<Ranked>, cache: Cache, limit: nat)
    ensures picks <= SecondPass(ranked, picks, cache, limit)
  {
    if ranked != [] {
      SecondPassExtends(ranked[1..], picks, cache, limit);
      SecondPassExtends(ranked[1..], picks + [ranked[0]], cache, limit);
    }
  }

  // A second pass that ends short of the limit leaves out only songs whose album is full.
  lemma {:induction false} ShortMeansFull(ranked: seq<Ranked>, picks: seq<Ranked>, cache: Cache, limit: nat, c: Ranked)
    requires c in ranked && |SecondPass(ranked, picks, cache, limit)| < limit
    ensures Settled(SecondPass(ranked, picks, cache, limit), c, cache)
  {
    var result := SecondPass(ranked, picks, cache, limit);
    var chosen := SecondChoice(picks, ranked[0], cache);
    var next := if chosen then picks + [ranked[0]] else picks;
    assert result == SecondPass(ranked[1..], next, cache, limit);
    if c == ranked[0] {
      if chosen {
        assert next[|picks|] == c;
      }
      SecondPassExtends(ranked[1..], next, cache, limit);
      SettledStays(next, result, c, cache);
    } else {
      assert ranked == [ranked[0]] + ranked[1..];
      ShortMeansFull(ranked[1..], next, cache, limit, c);
    }
  }

  // The whole guarantee: distinct songs of the ranked list, at most `limit` of them and three per
  // album; a first part that is spaced and holds at most two per album; and when the result is
  // short, every mapped candidate left out belongs to an album with three picks.
  lemma {:induction false} SelectionIsDiverse(ranked: seq<Ranked>, cache: Cache, limit: nat)
    requires DistinctSongs(ranked) && limit >= 1
    ensures var result := Selected(ranked, cache, limit);
            var first := FirstPass(ranked, [], cache, limit);
            && |result| <= limit && DistinctSongs(result) && ComesFrom(result, ranked, cache)
            && AlbumsAtMost(result, RELAXED_ALBUM_LIMIT, cache)
            && first <= result && ChosenFirst(first, cache) && AlbumsAtMost(first, ALBUM_LIMIT, cache)
            && (|result| < limit ==> forall c :: c in ranked ==> Settled(result, c, cache))
  {
    var first := FirstPass(ranked, [], cache, limit);
    FirstPassChooses(ranked, [], cache, limit);
    FirstPassExtends(ranked, [], cache, limit);
    FirstPassPicksDistinct(ranked, [], ranked, cache, limit);
    if |first| < limit {
      SecondPassKeeps(ranked, first, ranked, cache, limit);
      var result := SecondPass(ranked, first, cache, limit);
      if |result| < limit {
        forall c | c in ranked ensures Settled(result, c, cache) {
          ShortMeansFull(ranked, first, cache, limit, c);
        }
      }
    }
  }

  // The limit is checked only after a pick, so a limit of zero still picks one song; the result
  // respects the limit exactly when the limit is positive or nothing is mapped.
  lemma {:induction false} LimitIsRespected(ranked: seq<Ranked>, cache: Cache, limit: nat)
    ensures |Selected(ranked, cache, limit)| <= limit <==> limit >= 1 || forall c :: c in ranked ==> !Mapped(c, cache)
  {
    if limit >= 1 {
      FirstPassExtends(ranked, [], cache, limit);
      if |FirstPass(ranked, [], cache, limit)| < limit {
        SecondPassIsBounded(ranked, FirstPass(ranked, [], cache, limit), cache, limit);
      }
    } else {
      ZeroLimitPicks(ranked, cache);
    }
  }

  lemma {:induction false} SecondPassIsBounded(ranked: seq<Ranked>, picks: seq<Ranked>, cache: Cache, limit: nat)
    requires |picks| < limit
    ensures |SecondPass(ranked, picks, cache, limit)| <= limit
  {
    if ranked != [] {
      SecondPassIsBounded(ranked[1..], picks, cache, limit);
      if |picks| + 1 < limit {
        SecondPassIsBounded(ranked[1..], picks + [ranked[0]], cache, limit);
      }
    }
  }

  lemma {:induction false} ZeroLimitPicks(ranked: seq<Ranked>, cache: Cache)
    ensures |FirstPass(ranked, [], cache, 0)| == if exists c :: c in ranked && Mapped(c, cache) then 1 else 0
  {
    if ranked != [] {
      assert ranked == [ranked[0]] + ranked[1..];
      ZeroLimitPicks(ranked[1..], cache);
      assert Mapped(ranked[0], cache) <==> FirstChoice([], ranked[0], cache);
    }
  }

  // Ranking and selection together never recommend a song twice, the seed, or a recent song.
  lemma {:induction false} RecommendationIsFresh(order: seq<string>, candidates: map<string, Candidate>,
                                                 seed: Wrappers.Option<string>,
                              recent: set<string>, cache: Cache, limit: nat)
    requires Walks(order, candidates) && limit >= 1
    ensures var result := Selected(RankCandidates(order, candidates, seed, recent, cache), cache, limit);
            && DistinctSongs(result)
            && forall c :: c in result ==>
                   c.songId in candidates && Recommendable(c.songId, candidates[c.songId], seed, recent, cache)
  {
    RankIsExact(order, candidates, seed, recent, cache);
    SelectionIsDiverse(RankCandidates(order, candidates, seed, recent, cache), cache, limit);
  }
}
