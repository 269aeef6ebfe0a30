/**
 The picks as two greedy walks over the ranked list, told from the song map alone: what a walk takes,
 what it passes over and why, and where it stops. No other list of picks is such a walk.
 */
module GreedySelection {
  import opened Ranking
  import opened Selection

  // The places of an album's songs among the picks.
  ghost function PlacesOf(picks: seq<Ranked>, album: string, cache: Cache): set<int> {
    set i | 0 <= i < |picks| && picks[i].songId in cache.songMap && cache.songMap[picks[i].songId].1 == album
  }

  lemma {:induction false} AlbumCountIsPlaces(picks: seq<Ranked>, album: string, cache: Cache)
    ensures AlbumCount(picks, album, cache) == |PlacesOf(picks, album, cache)|
  {
    if picks != [] {
      var last := |picks| - 1;
      AlbumCountIsPlaces(picks[..last], album, cache);
      var before := PlacesOf(picks[..last], album, cache);
      assert last !in before;
      assert PlacesOf(picks, album, cache)
          == if picks[last].songId in cache.songMap && cache.songMap[picks[last].songId].1 == album
             then before + {last} else before;
    } else {
      assert PlacesOf(picks, album, cache) == {};
    }
  }

  // Passed over at first: without a place in the song map, by an artist of the last three picks, or
  // from an album that has two.
  ghost predicate PassedOver(c: Ranked, picks: seq<Ranked>, cache: Cache) {
    c.songId in cache.songMap ==>
      || (exists i :: 0 <= i < |picks| && i >= |picks| - 3 && picks[i].songId in cache.songMap
                      && cache.songMap[picks[i].songId].0 == cache.songMap[c.songId].0)
      || |PlacesOf(picks, cache.songMap[c.songId].1, cache)| >= 2
  }

  // Passed over when filling up: picked already, without a place in the song map, or from an album that
  // has three.
  ghost predicate PassedOverAgain(c: Ranked, picks: seq<Ranked>, cache: Cache) {
    || (exists i :: 0 <= i < |picks| && picks[i].songId == c.songId)
    || c.songId !in cache.songMap
    || |PlacesOf(picks, cache.songMap[c.songId].1, cache)| >= 3
  }

  ghost predicate Left(c: Ranked, picks: seq<Ranked>, cache: Cache, filling: bool) {
    if filling then PassedOverAgain(c, picks, cache) else PassedOver(c, picks, cache)
  }

  lemma {:induction false} ChoicesAreNotLeft(c: Ranked, picks: seq<Ranked>, cache: Cache)
    ensures FirstChoice(picks, c, cache) <==> !PassedOver(c, picks, cache)
    ensures SecondChoice(picks, c, cache) <==> !PassedOverAgain(c, picks, cache)
  {
    if c.songId in cache.songMap {
      AlbumCountIsPlaces(picks, cache.songMap[c.songId].1, cache);
    }
  }

  // Candidate j stands after the first n places of `at` and before the others.
  ghost predicate Between(at: seq<nat>, j: nat, n: nat) {
    n <= |at| && (n > 0 ==> at[n - 1] < j) && (n < |at| ==> j < at[n])
  }

  // The picks stand in the order of the list, among its first `seen` candidates.
  ghost predicate StandAt(ranked: seq<Ranked>, picks: seq<Ranked>, at: seq<nat>, seen: nat) {
    && |at| == |picks| && seen <= |ranked|
    && (forall i :: 0 <= i < |at| ==> at[i] < seen && picks[i] == ranked[at[i]])
    && (forall i, j :: 0 <= i < j < |at| ==> at[i] < at[j])
  }

  // Pick i could be taken when it was.
  ghost predicate TakenAt(before: seq<Ranked>, picks: seq<Ranked>, cache: Cache, filling: bool, i: int) {
    0 <= i < |picks| ==> !Left(picks[i], before + picks[..i], cache, filling)
  }

  // Candidate j had to be left if it came after n picks.
  ghost predicate LeftAt(ranked: seq<Ranked>, before: seq<Ranked>, picks: seq<Ranked>, at: seq<nat>, cache: Cache,
                         filling: bool, j: nat, n: nat)
    requires j < |ranked| && |at| == |picks|
  {
    Between(at, j, n) ==> Left(ranked[j], before + picks[..n], cache, filling)
  }

  // A walk along the first `seen` candidates, with the picks `before` made already: every pick could be
  // taken when it was, and every other candidate had to be left then.
  ghost predicate Walk(ranked: seq<Ranked>, before: seq<Ranked>, picks: seq<Ranked>, at: seq<nat>, seen: nat,
                       cache: Cache, filling: bool)
  {
    && StandAt(ranked, picks, at, seen)
    && (forall i :: TakenAt(before, picks, cache, filling, i))
    && (forall j: nat, n: nat :: j < seen ==> LeftAt(ranked, before, picks, at, cache, filling, j, n))
  }

  // It stops with the first pick that reaches the limit, else at the end of the list.
  ghost predicate Stops(ranked: seq<Ranked>, before: seq<Ranked>, picks: seq<Ranked>, at: seq<nat>, seen: nat,
                        limit: nat)
    requires |at| == |picks|
  {
    if picks == [] || |before| + |picks| < limit then seen == |ranked|
    else at[|at| - 1] == seen - 1 && (|picks| == 1 || |before| + |picks| == limit)
  }

  function Shifted(at: seq<nat>): (r: seq<nat>)
    ensures |r| == |at| && forall i :: 0 <= i < |at| ==> r[i] == at[i] + 1
  {
    seq(|at|, i requires 0 <= i < |at| => at[i] + 1)
  }

  lemma {:induction false} WalkPastOne(ranked: seq<Ranked>, before: seq<Ranked>, picks: seq<Ranked>, at: seq<nat>,
                                       seen: nat, cache: Cache, filling: bool)
    requires ranked != [] && Walk(ranked[1..], before, picks, at, seen, cache, filling)
    requires Left(ranked[0], before, cache, filling)
    ensures Walk(ranked, before, picks, Shifted(at), seen + 1, cache, filling)
  {
    forall j: nat, n: nat | j < seen + 1 ensures LeftAt(ranked, before, picks, Shifted(at), cache, filling, j, n) {
      if j > 0 {
        assert LeftAt(ranked[1..], before, picks, at, cache, filling, j - 1, n);
      } else if Between(Shifted(at), 0, n) {
        assert n == 0 && before + picks[..0] == before;
      }
    }
  }

  lemma {:induction false} StopsPastOne(ranked: seq<Ranked>, before: seq<Ranked>, picks: seq<Ranked>, at: seq<nat>,
                                        seen: nat, limit: nat)
    requires ranked != [] && |at| == |picks| && Stops(ranked[1..], before, picks, at, seen, limit)
    ensures Stops(ranked, before, picks, Shifted(at), seen + 1, limit)
  {
  }

  lemma {:induction false} StopsFromPick(ranked: seq<Ranked>, before: seq<Ranked>, picks: seq<Ranked>, at: seq<nat>,
                                         seen: nat, limit: nat)
    requires ranked != [] && |at| == |picks|
    requires if |before| + 1 < limit then Stops(ranked[1..], before + [ranked[0]], picks, at, seen, limit)
             else picks == [] && seen == 0
    requires before == [] || |before| < limit
    ensures Stops(ranked, before, [ranked[0]] + picks, [0] + Shifted(at), seen + 1, limit)
  {
  }

  lemma {:induction false} PrefixFromPick(before: seq<Ranked>, c: Ranked, picks: seq<Ranked>, n: nat)
    requires n <= |picks|
    ensures before + ([c] + picks)[..n + 1] == before + [c] + picks[..n]
  {
  }

  lemma {:induction false} TakenFromPick(before: seq<Ranked>, c: Ranked, picks: seq<Ranked>, cache: Cache,
                                         filling: bool, i: int)
    requires !Left(c, before, cache, filling) && TakenAt(before + [c], picks, cache, filling, i - 1)
    ensures TakenAt(before, [c] + picks, cache, filling, i)
  {
    if 0 < i <= |picks| {
      PrefixFromPick(before, c, picks, i - 1);
    } else if i == 0 {
      assert before + ([c] + picks)[..0] == before;
    }
  }

  lemma {:induction false} LeftFromPick(ranked: seq<Ranked>, before: seq<Ranked>, picks: seq<Ranked>, at: seq<nat>,
                                        cache: Cache, filling: bool, j: nat, n: nat)
    requires j < |ranked| && |at| == |picks|
    requires 0 < j && 0 < n ==> LeftAt(ranked[1..], before + [ranked[0]], picks, at, cache, filling, j - 1, n - 1)
    ensures LeftAt(ranked, before, [ranked[0]] + picks, [0] + Shifted(at), cache, filling, j, n)
  {
    if 0 < j && 0 < n <= |picks| + 1 {
      PrefixFromPick(before, ranked[0], picks, n - 1);
      BetweenShifted(at, j, n);
    }
  }

  lemma {:induction false} WalkFromPick(ranked: seq<Ranked>, before: seq<Ranked>, picks: seq<Ranked>, at: seq<nat>,
                                        seen: nat, cache: Cache, filling: bool)
    requires ranked != [] && Walk(ranked[1..], before + [ranked[0]], picks, at, seen, cache, filling)
    requires !Left(ranked[0], before, cache, filling)
    ensures Walk(ranked, before, [ranked[0]] + picks, [0] + Shifted(at), seen + 1, cache, filling)
  {
    var c, all, places := ranked[0], [ranked[0]] + picks, [0] + Shifted(at);
    forall i ensures TakenAt(before, all, cache, filling, i) {
      assert TakenAt(before + [c], picks, cache, filling, i - 1);
      TakenFromPick(before, c, picks, cache, filling, i);
    }
    forall j: nat, n: nat | j < seen + 1 ensures LeftAt(ranked, before, all, places, cache, filling, j, n) {
      if 0 < j && 0 < n {
        assert LeftAt(ranked[1..], before + [c], picks, at, cache, filling, j - 1, n - 1);
      }
      LeftFromPick(ranked, before, picks, at, cache, filling, j, n);
    }
  }

  lemma {:induction false} BetweenShifted(at: seq<nat>, j: nat, n: nat)
    requires 0 < j && 0 < n <= |at| + 1
    ensures Between([0] + Shifted(at), j, n) <==> Between(at, j - 1, n - 1)
  {
  }

  // A walk that stops as it should: of some places, along some of the list.
  ghost predicate Greedy(ranked: seq<Ranked>, before: seq<Ranked>, picks: seq<Ranked>, cache: Cache, limit: nat,
                         filling: bool)
  {
    exists at, seen ::
      Walk(ranked, before, picks, at, seen, cache, filling) && Stops(ranked, before, picks, at, seen, limit)
  }

  lemma {:induction false} GreedyNowhere(before: seq<Ranked>, cache: Cache, limit: nat, filling: bool)
    ensures Greedy([], before, [], cache, limit, filling)
  {
    assert Walk([], before, [], [], 0, cache, filling) && Stops([], before, [], [], 0, limit);
  }

  lemma {:induction false} GreedyPastOne(ranked: seq<Ranked>, before: seq<Ranked>, picks: seq<Ranked>, cache: Cache,
                                         limit: nat, filling: bool)
    requires ranked != [] && Greedy(ranked[1..], before, picks, cache, limit, filling)
    requires Left(ranked[0], before, cache, filling)
    ensures Greedy(ranked, before, picks, cache, limit, filling)
  {
    var at, seen :| Walk(ranked[1..], before, picks, at, seen, cache, filling)
                    && Stops(ranked[1..], before, picks, at, seen, limit);
    WalkPastOne(ranked, before, picks, at, seen, cache, filling);
    StopsPastOne(ranked, before, picks, at, seen, limit);
  }

  lemma {:induction false} GreedyFromPick(ranked: seq<Ranked>, before: seq<Ranked>, picks: seq<Ranked>, cache: Cache,
                                          limit: nat, filling: bool)
    requires ranked != [] && (before == [] || |before| < limit) && !Left(ranked[0], before, cache, filling)
    requires if |before| + 1 < limit then Greedy(ranked[1..], before + [ranked[0]], picks, cache, limit, filling)
             else picks == []
    ensures Greedy(ranked, before, [ranked[0]] + picks, cache, limit, filling)
  {
    var at: seq<nat>, seen: nat := [], 0;
    if |before| + 1 < limit {
      at, seen :| Walk(ranked[1..], before + [ranked[0]], picks, at, seen, cache, filling)
                  && Stops(ranked[1..], before + [ranked[0]], picks, at, seen, limit);
    }
    WalkFromPick(ranked, before, picks, at, seen, cache, filling);
    StopsFromPick(ranked, before, picks, at, seen, limit);
  }

  function Pass(ranked: seq<Ranked>, picks: seq<Ranked>, cache: Cache, limit: nat, filling: bool): seq<Ranked> {
    if filling then SecondPass(ranked, picks, cache, limit) else FirstPass(ranked, picks, cache, limit)
  }

  lemma {:induction false} PassTakesOrLeaves(ranked: seq<Ranked>, picks: seq<Ranked>, cache: Cache, limit: nat,
                                             filling: bool)
    ensures Pass(ranked, picks, cache, limit, filling)
         == if ranked == [] then picks
            else if Left(ranked[0], picks, cache, filling) then Pass(ranked[1..], picks, cache, limit, filling)
            else if |picks| + 1 >= limit then picks + [ranked[0]]
            else Pass(ranked[1..], picks + [ranked[0]], cache, limit, filling)
  {
    if ranked != [] {
      ChoicesAreNotLeft(ranked[0], picks, cache);
    }
  }

  // The pass adds these picks, on a greedy walk.
  ghost predicate Adds(ranked: seq<Ranked>, picks: seq<Ranked>, more: seq<Ranked>, cache: Cache, limit: nat,
                       filling: bool)
  {
    Pass(ranked, picks, cache, limit, filling) == picks + more && Greedy(ranked, picks, more, cache, limit, filling)
  }

  lemma {:induction false} LeavesOne(ranked: seq<Ranked>, picks: seq<Ranked>, more: seq<Ranked>, cache: Cache,
                                     limit: nat, filling: bool)
    requires ranked != [] && Left(ranked[0], picks, cache, filling)
    requires Adds(ranked[1..], picks, more, cache, limit, filling)
    ensures Adds(ranked, picks, more, cache, limit, filling)
  {
    PassTakesOrLeaves(ranked, picks, cache, limit, filling);
    GreedyPastOne(ranked, picks, more, cache, limit, filling);
  }

  lemma {:induction false} PassFromPick(ranked: seq<Ranked>, picks: seq<Ranked>, more: seq<Ranked>, cache: Cache,
                                        limit: nat, filling: bool)
    requires ranked != [] && !Left(ranked[0], picks, cache, filling)
    requires if |picks| + 1 >= limit then more == []
             else Pass(ranked[1..], picks + [ranked[0]], cache, limit, filling) == picks + [ranked[0]] + more
    ensures Pass(ranked, picks, cache, limit, filling) == picks + [ranked[0]] + more
  {
    PassTakesOrLeaves(ranked, picks, cache, limit, filling);
  }

  lemma {:induction false} PassIsGreedyFromPick(ranked: seq<Ranked>, picks: seq<Ranked>, more: seq<Ranked>,
                                                cache: Cache, limit: nat, filling: bool)
    requires ranked != [] && (picks == [] || |picks| < limit) && !Left(ranked[0], picks, cache, filling)
    requires if |picks| + 1 >= limit then more == []
             else Adds(ranked[1..], picks + [ranked[0]], more, cache, limit, filling)
    ensures Adds(ranked, picks, [ranked[0]] + more, cache, limit, filling)
  {
    PassFromPick(ranked, picks, more, cache, limit, filling);
    Associate(picks, ranked[0], more);
    GreedyFromPick(ranked, picks, more, cache, limit, filling);
  }

  lemma {:induction false} Associate(picks: seq<Ranked>, c: Ranked, more: seq<Ranked>)
    ensures picks + [c] + more == picks + ([c] + more)
  {
  }

  lemma {:induction false} PassIsGreedy(ranked: seq<Ranked>, picks: seq<Ranked>, cache: Cache, limit: nat,
                                        filling: bool)
    returns (more: seq<Ranked>)
    requires picks == [] || |picks| < limit
    ensures Adds(ranked, picks, more, cache, limit, filling)
  {
    more := [];
    if ranked == [] {
      PassTakesOrLeaves(ranked, picks, cache, limit, filling);
      GreedyNowhere(picks, cache, limit, filling);
    } else if Left(ranked[0], picks, cache, filling) {
      more := PassIsGreedy(ranked[1..], picks, cache, limit, filling);
      LeavesOne(ranked, picks, more, cache, limit, filling);
    } else {
      if |picks| + 1 < limit {
        more := PassIsGreedy(ranked[1..], picks + [ranked[0]], cache, limit, filling);
      }
      PassIsGreedyFromPick(ranked, picks, more, cache, limit, filling);
      more := [ranked[0]] + more;
    }
  }

  // The picks are a greedy walk and, when that falls short of the limit, a second one that fills up.
  lemma {:induction false} SelectionIsGreedy(ranked: seq<Ranked>, cache: Cache, limit: nat) returns (n: nat)
    ensures var result := Selected(ranked, cache, limit);
            && n <= |result| && Greedy(ranked, [], result[..n], cache, limit, false)
            && (if n < limit then Greedy(ranked, result[..n], result[n..], cache, limit, true) else n == |result|)
  {
    var first := PassIsGreedy(ranked, [], cache, limit, false);
    assert [] + first == first;
    n := |first|;
    if n < limit {
      var more := PassIsGreedy(ranked, first, cache, limit, true);
      assert Selected(ranked, cache, limit) == first + more;
      assert (first + more)[..n] == first && (first + more)[n..] == more;
    } else {
      assert first[..n] == first;
    }
  }

  // ----- Only one list of picks is such a walk -----

  // What one walk takes next, another with the same picks so far cannot pass by.
  lemma {:induction false} NotPassedBy(ranked: seq<Ranked>, before: seq<Ranked>, a: seq<Ranked>, b: seq<Ranked>,
                                       atA: seq<nat>, atB: seq<nat>, seenA: nat, seenB: nat, cache: Cache,
                                       filling: bool, n: nat)
    requires Walk(ranked, before, a, atA, seenA, cache, filling) && Walk(ranked, before, b, atB, seenB, cache, filling)
    requires n < |a| && n <= |b| && atA[..n] == atB[..n] && a[..n] == b[..n] && atA[n] < seenB
    ensures n < |b| && atB[n] <= atA[n]
  {
    assert TakenAt(before, a, cache, filling, n);
    assert LeftAt(ranked, before, b, atB, cache, filling, atA[n], n);
    assert n > 0 ==> atB[n - 1] == atA[..n][n - 1];
  }

  lemma {:induction false} SamePicks(ranked: seq<Ranked>, before: seq<Ranked>, a: seq<Ranked>, b: seq<Ranked>,
                                     atA: seq<nat>, atB: seq<nat>, seenA: nat, seenB: nat, cache: Cache, limit: nat,
                                     filling: bool, n: nat)
    requires Walk(ranked, before, a, atA, seenA, cache, filling) && Walk(ranked, before, b, atB, seenB, cache, filling)
    requires Stops(ranked, before, a, atA, seenA, limit) && Stops(ranked, before, b, atB, seenB, limit) && n <= |a|
    ensures n <= |b| && atA[..n] == atB[..n] && a[..n] == b[..n]
  {
    if n > 0 {
      var k := n - 1;
      SamePicks(ranked, before, a, b, atA, atB, seenA, seenB, cache, limit, filling, k);
      assert k == |b| ==> seenB == |ranked|;
      if atA[k] < seenB {
        NotPassedBy(ranked, before, a, b, atA, atB, seenA, seenB, cache, filling, k);
      }
      if atB[k] < seenA {
        NotPassedBy(ranked, before, b, a, atB, atA, seenB, seenA, cache, filling, k);
      }
      OneMorePick(atA, atB, a, b, k);
    }
  }

  lemma {:induction false} OneMorePick(atA: seq<nat>, atB: seq<nat>, a: seq<Ranked>, b: seq<Ranked>, k: nat)
    requires k < |a| == |atA| && k < |b| == |atB| && atA[..k] == atB[..k] && a[..k] == b[..k]
    requires atA[k] == atB[k] && a[k] == b[k]
    ensures atA[..k + 1] == atB[..k + 1] && a[..k + 1] == b[..k + 1]
  {
    assert atA[..k + 1] == atA[..k] + [atA[k]] && atB[..k + 1] == atB[..k] + [atB[k]];
    assert a[..k + 1] == a[..k] + [a[k]] && b[..k + 1] == b[..k] + [b[k]];
  }

  lemma {:induction false} OneGreedyWalk(ranked: seq<Ranked>, before: seq<Ranked>, a: seq<Ranked>, b: seq<Ranked>,
                                         cache: Cache, limit: nat, filling: bool)
    requires Greedy(ranked, before, a, cache, limit, filling) && Greedy(ranked, before, b, cache, limit, filling)
    ensures a == b
  {
    var atA, seenA :| Walk(ranked, before, a, atA, seenA, cache, filling)
                      && Stops(ranked, before, a, atA, seenA, limit);
    var atB, seenB :| Walk(ranked, before, b, atB, seenB, cache, filling)
                      && Stops(ranked, before, b, atB, seenB, limit);
    SamePicks(ranked, before, a, b, atA, atB, seenA, seenB, cache, limit, filling, |a|);
    SamePicks(ranked, before, b, a, atB, atA, seenB, seenA, cache, limit, filling, |b|);
    assert a == a[..|a|] && b == b[..|b|];
  }
}
