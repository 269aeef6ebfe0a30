/**
 Ranking recommendation candidates and picking among them under diversity limits.
 Scores are reals. `order` is the order in which the hash map of candidates happens to be walked.
 */
module Ranking {
  import opened Wrappers

  datatype Candidate = Candidate(score: real, sources: set<string>)

  datatype Ranked = Ranked(songId: string, score: real, reason: string)

  datatype ReleaseKind = AlbumRelease | RemixRelease | OtherRelease

  // recordingKeys holds the normalized recording key of every song of the library.
  datatype Cache = Cache(
    recordingKeys: map<string, string>,
    songMap: map<string, (string, string)>,
    releaseKinds: map<string, ReleaseKind>)

  // ----- The order of the ranked list -----

  predicate IdLess(a: string, b: string) {
    b != [] && (a == [] || a[0] < b[0] || (a[0] == b[0] && IdLess(a[1..], b[1..])))
  }

  predicate Before(x: Ranked, y: Ranked) {
    x.score > y.score || (x.score == y.score && IdLess(x.songId, y.songId))
  }

  lemma {:induction false} IdLessIsTotal(a: string, b: string)
    ensures (IdLess(a, b) && !IdLess(b, a) && a != b) || (IdLess(b, a) && !IdLess(a, b) && a != b)
         || (a == b && !IdLess(a, b))
  {
    if a != [] && b != [] && a[0] == b[0] {
      IdLessIsTotal(a[1..], b[1..]);
      assert a == [a[0]] + a[1..] && b == [b[0]] + b[1..];
    }
  }

  lemma {:induction false} IdLessIsTransitive(a: string, b: string, c: string)
    requires IdLess(a, b) && IdLess(b, c)
    ensures IdLess(a, c)
  {
    if a != [] && a[0] == b[0] && b[0] == c[0] {
      IdLessIsTransitive(a[1..], b[1..], c[1..]);
    }
  }

  lemma {:induction false} BeforeIsTotal(x: Ranked, y: Ranked)
    requires x.songId != y.songId
    ensures Before(x, y) <==> !Before(y, x)
  {
    IdLessIsTotal(x.songId, y.songId);
  }

  lemma {:induction false} BeforeIsTransitive(x: Ranked, y: Ranked, z: Ranked)
    requires Before(x, y) && Before(y, z)
    ensures Before(x, z)
  {
    if x.score == y.score == z.score {
      IdLessIsTransitive(x.songId, y.songId, z.songId);
    }
  }

  // ----- rank_candidates -----

  function SeedKey(seed: Option<string>, cache: Cache): Option<string> {
    if seed.Some? && seed.value in cache.recordingKeys then Some(cache.recordingKeys[seed.value]) else None
  }

  // A candidate that may be recommended: strong enough, in the library, and neither the seed, a
  // recent song, nor another version of the seed's recording.
  predicate Recommendable(id: string, candidate: Candidate, seed: Option<string>, recent: set<string>, cache: Cache) {
    && candidate.score >= 10.0
    && seed != Some(id)
    && id !in recent
    && id in cache.recordingKeys
    && SeedKey(seed, cache) != Some(cache.recordingKeys[id])
  }

  function ReleaseWeight(kind: ReleaseKind): real {
    match kind
    case AlbumRelease => 1.15
    case RemixRelease => 0.7
    case OtherRelease => 1.0
  }

  function FinalScore(id: string, candidate: Candidate, cache: Cache): real {
    var score := candidate.score + if |candidate.sources| > 1 then (|candidate.sources| - 1) as real * 5.0 else 0.0;
    if id in cache.songMap && cache.songMap[id].1 in cache.releaseKinds
    then score * ReleaseWeight(cache.releaseKinds[cache.songMap[id].1]) else score
  }

  function Reason(sources: set<string>): string {
    if "transition" in sources then "follows your listening"
    else if "playlist_cooccurrence" in sources then "fits your playlists"
    else if "seed_artist" in sources then "from this artist"
    else if "seed_genre" in sources then "fits this session"
    else if "favorite" in sources then "from your liked songs"
    else if "playlist_membership" in sources then "from your playlists"
    else if "artist_affinity" in sources then "from an artist you play"
    else "played before"
  }

  function RankedFor(id: string, candidate: Candidate, cache: Cache): Ranked {
    Ranked(id, FinalScore(id, candidate, cache), Reason(candidate.sources))
  }

  function Collect(order: seq<string>, candidates: map<string, Candidate>, seed: Option<string>, recent: set<string>,
                   cache: Cache): seq<Ranked>
    requires forall id :: id in order ==> id in candidates
  {
    if order == [] then []
    else
      var rest := Collect(order[1..], candidates, seed, recent, cache);
      if Recommendable(order[0], candidates[order[0]], seed, recent, cache)
      then [RankedFor(order[0], candidates[order[0]], cache)] + rest else rest
  }

  function Insert(x: Ranked, sorted: seq<Ranked>): seq<Ranked> {
    if sorted == [] || Before(x, sorted[0]) then [x] + sorted else [sorted[0]] + Insert(x, sorted[1..])
  }

  function Sort(items: seq<Ranked>): seq<Ranked> {
    if items == [] then [] else Insert(items[0], Sort(items[1..]))
  }

  function RankCandidates(order: seq<string>, candidates: map<string, Candidate>, seed: Option<string>,
                          recent: set<string>, cache: Cache)
    : seq<Ranked>
    requires forall id :: id in order ==> id in candidates
  {
    Sort(Collect(order, candidates, seed, recent, cache))
  }

  // A walk of the hash map: every key once.
  ghost predicate Walks(order: seq<string>, candidates: map<string, Candidate>) {
    && (forall i, j :: 0 <= i < j < |order| ==> order[i] != order[j])
    && (forall id :: id in order <==> id in candidates)
  }

  // Every map can be walked.
  lemma {:induction false} WalkExists(candidates: map<string, Candidate>) returns (order: seq<string>)
    ensures Walks(order, candidates)
    decreases |candidates|
  {
    order := [];
    if id :| id in candidates {
      order := WalkExists(candidates - {id});
      order := order + [id];
    }
  }

  ghost predicate Sorted(items: seq<Ranked>) {
    forall i, j :: 0 <= i < j < |items| ==> Before(items[i], items[j])
  }

  ghost predicate DistinctSongs(items: seq<Ranked>) {
    forall i, j :: 0 <= i < j < |items| ==> items[i].songId != items[j].songId
  }

  lemma {:induction false} CollectIsExact(order: seq<string>, candidates: map<string, Candidate>, seed: Option<string>,
                                          recent: set<string>, cache: Cache, r: Ranked)
    requires forall id :: id in order ==> id in candidates
    ensures r in Collect(order, candidates, seed, recent, cache) <==>
              r.songId in order && Recommendable(r.songId, candidates[r.songId], seed, recent, cache)
              && r == RankedFor(r.songId, candidates[r.songId], cache)
  {
    if order != [] {
      assert order == [order[0]] + order[1..];
      CollectIsExact(order[1..], candidates, seed, recent, cache, r);
    }
  }

  lemma {:induction false} CollectIsDistinct(order: seq<string>, candidates: map<string, Candidate>,
                                             seed: Option<string>, recent: set<string>, cache: Cache)
    requires forall id :: id in order ==> id in candidates
    requires forall i, j :: 0 <= i < j < |order| ==> order[i] != order[j]
    ensures DistinctSongs(Collect(order, candidates, seed, recent, cache))
  {
    if order != [] {
      CollectIsDistinct(order[1..], candidates, seed, recent, cache);
      var rest := Collect(order[1..], candidates, seed, recent, cache);
      forall i | 0 <= i < |rest| ensures rest[i].songId != order[0] {
        CollectIsExact(order[1..], candidates, seed, recent, cache, rest[i]);
      }
    }
  }

  lemma {:induction false} InsertSorts(x: Ranked, sorted: seq<Ranked>)
    requires Sorted(sorted) && forall r :: r in sorted ==> r.songId != x.songId
    ensures Sorted(Insert(x, sorted)) && forall r :: r in Insert(x, sorted) <==> r == x || r in sorted
  {
    if sorted != [] {
      if Before(x, sorted[0]) {
        forall j | 0 < j < |sorted| ensures Before(x, sorted[j]) {
          BeforeIsTransitive(x, sorted[0], sorted[j]);
        }
      } else {
        BeforeIsTotal(x, sorted[0]);
        assert sorted == [sorted[0]] + sorted[1..];
        InsertSorts(x, sorted[1..]);
        var rest := Insert(x, sorted[1..]);
        forall r | r in rest ensures Before(sorted[0], r) {
          if r != x {
            var j :| 0 <= j < |sorted[1..]| && sorted[1..][j] == r;
            assert Before(sorted[0], sorted[j + 1]);
          }
        }
      }
    }
  }

  lemma {:induction false} SortSorts(items: seq<Ranked>)
    requires DistinctSongs(items)
    ensures Sorted(Sort(items)) && forall r :: r in Sort(items) <==> r in items
  {
    if items != [] {
      SortSorts(items[1..]);
      assert items == [items[0]] + items[1..];
      InsertSorts(items[0], Sort(items[1..]));
    }
  }

  lemma {:induction false} NotBeforeItself(x: Ranked)
    ensures !Before(x, x)
  {
    IdLessIsTotal(x.songId, x.songId);
  }

  lemma {:induction false} SameHead(a: seq<Ranked>, b: seq<Ranked>)
    requires Sorted(a) && Sorted(b) && (forall r :: r in a <==> r in b) && a != []
    ensures b != [] && a[0] == b[0]
  {
    assert a[0] in b && b[0] in a;
    if a[0] != b[0] {
      var i :| 0 <= i < |b| && b[i] == a[0];
      var j :| 0 <= j < |a| && a[j] == b[0];
      BeforeIsTransitive(a[0], b[0], a[0]);
      NotBeforeItself(a[0]);
    }
  }

  lemma {:induction false} NonemptyHasMember(items: seq<Ranked>)
    ensures items == [] || exists r :: r in items
  {
    if items != [] {
      assert items[0] in items;
    }
  }

  lemma {:induction false} SortedIsUnique(a: seq<Ranked>, b: seq<Ranked>)
    requires Sorted(a) && Sorted(b) && forall r :: r in a <==> r in b
    ensures a == b
  {
    NonemptyHasMember(b);
    if a != [] {
      SameHead(a, b);
      forall r ensures r in a[1..] <==> r in b[1..] {
        TailHolds(a, r);
        TailHolds(b, r);
      }
      SortedIsUnique(a[1..], b[1..]);
      assert a == [a[0]] + a[1..] && b == [b[0]] + b[1..];
    }
  }

  lemma {:induction false} TailHolds(a: seq<Ranked>, r: Ranked)
    requires Sorted(a) && a != []
    ensures r in a[1..] <==> r in a && r != a[0]
  {
    assert a == [a[0]] + a[1..];
    NotBeforeItself(a[0]);
  }

  // Exactly the recommendable candidates, each once with its final score, strictly sorted.
  lemma {:induction false} RankIsExact(order: seq<string>, candidates: map<string, Candidate>, seed: Option<string>,
                                       recent: set<string>, cache: Cache)
    requires Walks(order, candidates)
    ensures var ranked := RankCandidates(order, candidates, seed, recent, cache);
            && Sorted(ranked) && DistinctSongs(ranked)
            && forall r :: r in ranked
                 <==> r.songId in candidates && Recommendable(r.songId, candidates[r.songId], seed, recent, cache)
                                            && r == RankedFor(r.songId, candidates[r.songId], cache)
  {
    var collected := Collect(order, candidates, seed, recent, cache);
    CollectIsDistinct(order, candidates, seed, recent, cache);
    SortSorts(collected);
    forall r
      ensures r in collected
              <==> r.songId in candidates && Recommendable(r.songId, candidates[r.songId], seed, recent, cache)
                                  && r == RankedFor(r.songId, candidates[r.songId], cache)
    {
      CollectIsExact(order, candidates, seed, recent, cache, r);
    }
    SortedIsDistinct(Sort(collected), candidates, cache);
  }

  lemma {:induction false} SortedIsDistinct(ranked: seq<Ranked>, candidates: map<string, Candidate>, cache: Cache)
    requires Sorted(ranked)
    requires forall r :: r in ranked ==> r.songId in candidates && r == RankedFor(r.songId, candidates[r.songId], cache)
    ensures DistinctSongs(ranked)
  {
    forall i, j | 0 <= i < j < |ranked| ensures ranked[i].songId != ranked[j].songId {
      assert ranked[i] in ranked && ranked[j] in ranked;
      NotBeforeItself(ranked[i]);
    }
  }

  // The ranked list does not depend on how the hash map was walked.
  lemma {:induction false} RankIgnoresOrder(order1: seq<string>, order2: seq<string>,
                                            candidates: map<string, Candidate>,
                         seed: Option<string>, recent: set<string>, cache: Cache)
    requires Walks(order1, candidates) && Walks(order2, candidates)
    ensures RankCandidates(order1, candidates, seed, recent, cache)
            == RankCandidates(order2, candidates, seed, recent, cache)
  {
    RankIsExact(order1, candidates, seed, recent, cache);
    RankIsExact(order2, candidates, seed, recent, cache);
    SortedIsUnique(RankCandidates(order1, candidates, seed, recent, cache),
                   RankCandidates(order2, candidates, seed, recent, cache));
  }

  // ----- What the ranked list shows -----

  // Lexicographic order: equal up to place k, where a ends or has the smaller character.
  ghost predicate Precedes(a: string, b: string) {
    exists k :: 0 <= k < |b| && k <= |a| && a[..k] == b[..k] && (k == |a| || a[k] < b[k])
  }

  lemma {:induction false} IdLessIsLexicographic(a: string, b: string)
    ensures IdLess(a, b) ==> Precedes(a, b)
  {
    if IdLess(a, b) {
      if a == [] || a[0] < b[0] {
        assert a[..0] == b[..0];
      } else {
        IdLessIsLexicographic(a[1..], b[1..]);
        var k :| 0 <= k < |b[1..]| && k <= |a[1..]| && a[1..][..k] == b[1..][..k]
                 && (k == |a[1..]| || a[1..][k] < b[1..][k]);
        assert a[..k + 1] == [a[0]] + a[1..][..k] && b[..k + 1] == [b[0]] + b[1..][..k];
      }
    }
  }

  // Higher scores first, equal scores in the order of the ids.
  lemma {:induction false} RankIsByScore(order: seq<string>, candidates: map<string, Candidate>, seed: Option<string>,
                                         recent: set<string>, cache: Cache, i: nat, j: nat)
    requires Walks(order, candidates) && i < j < |RankCandidates(order, candidates, seed, recent, cache)|
    ensures var ranked := RankCandidates(order, candidates, seed, recent, cache);
            && ranked[i].score >= ranked[j].score
            && (ranked[i].score == ranked[j].score ==> Precedes(ranked[i].songId, ranked[j].songId))
  {
    RankIsExact(order, candidates, seed, recent, cache);
    var ranked := RankCandidates(order, candidates, seed, recent, cache);
    assert Before(ranked[i], ranked[j]);
    IdLessIsLexicographic(ranked[i].songId, ranked[j].songId);
  }

  ghost predicate IsRelease(id: string, kind: ReleaseKind, cache: Cache) {
    exists album :: album in cache.releaseKinds && cache.releaseKinds[album] == kind
                    && id in cache.songMap && cache.songMap[id].1 == album
  }

  // A song is listed exactly when it scores ten or more, is in the library, is neither the seed nor
  // recent, and does not share a known seed's recording. Each source beyond the first adds five, an
  // album release counts for more and a remix for less.
  lemma {:induction false} RankMeans(order: seq<string>, candidates: map<string, Candidate>, seed: Option<string>,
                                     recent: set<string>, cache: Cache, r: Ranked)
    requires Walks(order, candidates)
    ensures (exists i :: 0 <= i < |RankCandidates(order, candidates, seed, recent, cache)|
                         && RankCandidates(order, candidates, seed, recent, cache)[i].songId == r.songId)
            <==> && r.songId in candidates && candidates[r.songId].score >= 10.0
                 && r.songId in cache.recordingKeys && r.songId !in recent && seed != Some(r.songId)
                 && (seed.Some? && seed.value in cache.recordingKeys ==>
                       cache.recordingKeys[seed.value] != cache.recordingKeys[r.songId])
    ensures r in RankCandidates(order, candidates, seed, recent, cache) ==>
              var c := candidates[r.songId];
              var plain := c.score + 5.0 * (if c.sources == {} then 0 else |c.sources| - 1) as real;
              && (IsRelease(r.songId, AlbumRelease, cache) ==> r.score == 1.15 * plain)
              && (IsRelease(r.songId, RemixRelease, cache) ==> r.score == 0.7 * plain)
              && (!IsRelease(r.songId, AlbumRelease, cache) && !IsRelease(r.songId, RemixRelease, cache) ==>
                    r.score == plain)
  {
    RankIsExact(order, candidates, seed, recent, cache);
    var ranked := RankCandidates(order, candidates, seed, recent, cache);
    if r.songId in candidates && Recommendable(r.songId, candidates[r.songId], seed, recent, cache) {
      assert RankedFor(r.songId, candidates[r.songId], cache) in ranked;
    }
    forall i | 0 <= i < |ranked| && ranked[i].songId == r.songId
      ensures r.songId in candidates && Recommendable(r.songId, candidates[r.songId], seed, recent, cache)
    {
      assert ranked[i] in ranked;
    }
  }

  // The kinds of sources, strongest first, and what is said of a song that has one.
  const REASONS: seq<(string, string)> := [
    ("transition", "follows your listening"),
    ("playlist_cooccurrence", "fits your playlists"),
    ("seed_artist", "from this artist"),
    ("seed_genre", "fits this session"),
    ("favorite", "from your liked songs"),
    ("playlist_membership", "from your playlists"),
    ("artist_affinity", "from an artist you play")]

  // The strongest source gives the reason.
  lemma {:induction false} StrongestSourceIsReason(sources: set<string>, k: nat)
    requires k < |REASONS| && REASONS[k].0 in sources && forall i :: 0 <= i < k ==> REASONS[i].0 !in sources
    ensures Reason(sources) == REASONS[k].1
  {
    assert REASONS[0].0 in sources ==> k == 0;
    assert REASONS[1].0 in sources ==> k <= 1;
    assert REASONS[2].0 in sources ==> k <= 2;
    assert REASONS[3].0 in sources ==> k <= 3;
    assert REASONS[4].0 in sources ==> k <= 4;
    assert REASONS[5].0 in sources ==> k <= 5;
  }

  lemma {:induction false} NoSourceIsPlayed(sources: set<string>)
    requires forall i :: 0 <= i < |REASONS| ==> REASONS[i].0 !in sources
    ensures Reason(sources) == "played before"
  {
    assert REASONS[0].0 !in sources && REASONS[1].0 !in sources && REASONS[2].0 !in sources;
    assert REASONS[3].0 !in sources && REASONS[4].0 !in sources && REASONS[5].0 !in sources;
    assert REASONS[6].0 !in sources;
  }
}
