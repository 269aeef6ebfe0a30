/**
 The idempotency log against the list of every accepted event, and the preference tables as
 sums over that list.
 */
module PlaybackLog {
  import opened PlaybackTables

  type EventRow = Row<Event>

  // ----- Replays -----

  // Accepted events of one user.
  ghost function CountUser(log: seq<EventRow>, user: int): nat {
    if log == [] then 0 else (if log[0].user == user then 1 else 0) + CountUser(log[1..], user)
  }

  ghost predicate IdsGrow(log: seq<EventRow>) {
    forall i, j :: 0 <= i < j < |log| ==> log[i].id < log[j].id
  }

  ghost predicate ClockNeverStepsBack(log: seq<EventRow>, user: int) {
    forall i, j :: 0 <= i < j < |log| && log[i].user == user && log[j].user == user ==> log[i].at <= log[j].at
  }

  ghost predicate InLog(events: set<EventRow>, log: seq<EventRow>) {
    forall r :: r in events ==> r in log
  }

  // So few later events of its user that the row of the k-th accepted event is still kept: fewer
  // than 20000 and those accepted since the user's rows were last cut.
  ghost predicate Kept(log: seq<EventRow>, k: nat, retention: map<int, Counters>)
    requires k < |log|
  {
    CountUser(log[k + 1..], log[k].user) < 20000 + CountersOf(retention, log[k].user).playback
  }

  // Of the user's accepted events the table holds exactly those rows.
  ghost predicate RemembersExactly(events: set<EventRow>, log: seq<EventRow>, retention: map<int, Counters>,
                                   user: int)
  {
    forall k :: 0 <= k < |log| && log[k].user == user ==> (log[k] in events <==> Kept(log, k, retention))
  }

  ghost predicate LogInv(events: set<EventRow>, log: seq<EventRow>, retention: map<int, Counters>) {
    && IdsGrow(log) && InLog(events, log)
    && forall user :: ClockNeverStepsBack(log, user) ==> RemembersExactly(events, log, retention, user)
  }

  // These are the user's rows of the log.
  ghost predicate AreRowsOf(rows: set<EventRow>, log: seq<EventRow>, user: int) {
    forall r :: r in rows <==> r in log && r.user == user
  }

  lemma {:induction false} UserRowsAreCounted(rows: set<EventRow>, log: seq<EventRow>, user: int)
    requires IdsGrow(log) && AreRowsOf(rows, log, user)
    ensures |rows| == CountUser(log, user)
    decreases |log|
  {
    if log != [] {
      UserRowsAreCounted(rows - {log[0]}, log[1..], user);
      assert log[0] in rows <==> log[0].user == user;
      if log[0] !in rows {
        assert rows - {log[0]} == rows;
      }
    } else {
      assert rows == {};
    }
  }

  // Under a clock that never steps back exactly the later accepted events of the user are newer, as
  // long as their rows are there.
  lemma {:induction false} NewerRowsAreLater(events: set<EventRow>, log: seq<EventRow>, i: nat)
    requires i < |log| && IdsGrow(log) && InLog(events, log) && ClockNeverStepsBack(log, log[i].user)
    requires forall j :: i < j < |log| && log[j].user == log[i].user ==> log[j] in events
    ensures |NewerThan(events, log[i])| == CountUser(log[i + 1..], log[i].user)
  {
    var newer, later := NewerThan(events, log[i]), log[i + 1..];
    assert IdsGrow(later);
    forall r ensures r in newer <==> r in later && r.user == log[i].user {
      if r in newer {
        var j :| 0 <= j < |log| && log[j] == r;
        assert j > i;
        assert later[j - i - 1] == r;
      }
      if r in later && r.user == log[i].user {
        var j :| 0 <= j < |later| && later[j] == r;
        assert log[j + i + 1] == r;
      }
    }
    UserRowsAreCounted(newer, later, log[i].user);
  }

  lemma {:induction false} CountUserOfAppend(log: seq<EventRow>, row: EventRow, user: int)
    ensures CountUser(log + [row], user) == CountUser(log, user) + if row.user == user then 1 else 0
  {
    if log != [] {
      assert (log + [row])[1..] == log[1..] + [row];
      CountUserOfAppend(log[1..], row, user);
    }
  }

  // Fewer events of the user come after a later one.
  lemma {:induction false} LaterHasFewer(log: seq<EventRow>, i: nat, j: nat)
    requires i < j < |log| && log[j].user == log[i].user
    ensures CountUser(log[j + 1..], log[j].user) < CountUser(log[i + 1..], log[i].user)
  {
    CountUserOfSplit(log[i + 1..], j - i, log[i].user);
    assert log[i + 1..][j - i - 1] == log[j];
    assert log[i + 1..][j - i..] == log[j + 1..];
    CountUserOfSplit(log[i + 1..], j - i - 1, log[i].user);
    assert log[i + 1..][j - i - 1..] == [log[j]] + log[j + 1..];
  }

  lemma {:induction false} CountUserOfSplit(log: seq<EventRow>, n: nat, user: int)
    requires n <= |log|
    ensures CountUser(log, user) == CountUser(log[..n], user) + CountUser(log[n..], user)
  {
    if n > 0 {
      CountUserOfSplit(log[1..], n - 1, user);
      assert log[..n] == [log[0]] + log[1..][..n - 1];
      assert log[1..][n - 1..] == log[n..];
    } else {
      assert log[0..] == log;
    }
  }

  lemma {:induction false} ClockOfPrefix(log: seq<EventRow>, row: EventRow, user: int)
    requires ClockNeverStepsBack(log + [row], user)
    ensures ClockNeverStepsBack(log, user)
  {
    forall i, j | 0 <= i < j < |log| && log[i].user == user && log[j].user == user ensures log[i].at <= log[j].at {
      assert (log + [row])[i] == log[i] && (log + [row])[j] == log[j];
    }
  }

  ghost predicate CountsOne(before: map<int, Counters>, after: map<int, Counters>, owner: int) {
    && CountersOf(after, owner).playback >= 0
    && forall user :: CountersOf(after, user).playback
                   == CountersOf(before, user).playback + if user == owner then 1 else 0
  }

  lemma {:induction false} InsertKeepsRememberingOf(events: set<EventRow>, log: seq<EventRow>, row: EventRow,
                                                    before: map<int, Counters>, after: map<int, Counters>, user: int)
    requires InLog(events, log) && forall i :: 0 <= i < |log| ==> log[i].id < row.id
    requires RemembersExactly(events, log, before, user) && CountsOne(before, after, row.user)
    ensures RemembersExactly(events + {row}, log + [row], after, user)
  {
    var longer := log + [row];
    forall k | 0 <= k < |longer| && longer[k].user == user
      ensures longer[k] in events + {row} <==> Kept(longer, k, after)
    {
      if k < |log| {
        assert longer[k + 1..] == log[k + 1..] + [row];
        CountUserOfAppend(log[k + 1..], row, log[k].user);
        assert log[k] in events <==> Kept(log, k, before);
      } else {
        assert longer[k + 1..] == [];
      }
    }
  }

  // One more event and one more on its user's counter.
  lemma {:induction false} InsertKeepsRemembering(events: set<EventRow>, log: seq<EventRow>, row: EventRow,
                                                  before: map<int, Counters>, after: map<int, Counters>)
    requires LogInv(events, log, before) && forall i :: 0 <= i < |log| ==> log[i].id < row.id
    requires CountsOne(before, after, row.user)
    ensures LogInv(events + {row}, log + [row], after)
  {
    forall user | ClockNeverStepsBack(log + [row], user)
      ensures RemembersExactly(events + {row}, log + [row], after, user)
    {
      ClockOfPrefix(log, row, user);
      InsertKeepsRememberingOf(events, log, row, before, after, user);
    }
  }

  // The counter reached the batch size: the rows are cut and the counter starts again.
  ghost predicate Restarts(before: map<int, Counters>, after: map<int, Counters>, owner: int) {
    && CountersOf(before, owner).playback >= 0 && CountersOf(after, owner).playback == 0
    && forall user :: user != owner ==> CountersOf(after, user).playback == CountersOf(before, user).playback
  }

  lemma {:induction false} CutKeepsNewest(events: set<EventRow>, log: seq<EventRow>, user: int,
                                          before: map<int, Counters>, after: map<int, Counters>)
    requires IdsGrow(log) && InLog(events, log) && Restarts(before, after, user)
    requires ClockNeverStepsBack(log, user) && RemembersExactly(events, log, before, user)
    ensures RemembersExactly(Pruned(events, user, MAX_ROWS_PER_USER), log, after, user)
  {
    var kept := Pruned(events, user, MAX_ROWS_PER_USER);
    forall k | 0 <= k < |log| && log[k].user == user ensures log[k] in kept <==> Kept(log, k, after) {
      assert log[k] in events <==> Kept(log, k, before);
      if log[k] in events {
        forall j | k < j < |log| && log[j].user == log[k].user ensures log[j] in events {
          LaterHasFewer(log, k, j);
          assert Kept(log, j, before);
        }
        NewerRowsAreLater(events, log, k);
      }
    }
  }

  lemma {:induction false} PruneKeepsRemembering(events: set<EventRow>, log: seq<EventRow>, user: int,
                                                 before: map<int, Counters>, after: map<int, Counters>)
    requires LogInv(events, log, before) && Restarts(before, after, user)
    ensures LogInv(Pruned(events, user, MAX_ROWS_PER_USER), log, after)
  {
    var kept := Pruned(events, user, MAX_ROWS_PER_USER);
    forall other | ClockNeverStepsBack(log, other) ensures RemembersExactly(kept, log, after, other) {
      if other == user {
        CutKeepsNewest(events, log, user, before, after);
      } else {
        forall k | 0 <= k < |log| && log[k].user == other ensures log[k] in kept <==> Kept(log, k, after) {
          assert log[k] in events <==> Kept(log, k, before);
        }
      }
    }
  }

  // ----- Clearing a user's history -----

  // What is left of the list of accepted events when a user's are forgotten.
  ghost function Without(log: seq<EventRow>, user: int): seq<EventRow> {
    if log == [] then []
    else
      var last := |log| - 1;
      Without(log[..last], user) + if log[last].user == user then [] else [log[last]]
  }

  lemma {:induction false} OthersAreLeft(log: seq<EventRow>, user: int, x: EventRow)
    ensures x in Without(log, user) <==> x in log && x.user != user
  {
    if log != [] {
      var last := |log| - 1;
      assert log == log[..last] + [log[last]];
      OthersAreLeft(log[..last], user, x);
    }
  }

  lemma {:induction false} WithoutLast(log: seq<EventRow>, row: EventRow, user: int)
    ensures Without(log + [row], user) == if row.user == user then Without(log, user) else Without(log, user) + [row]
  {
    assert (log + [row])[..|log|] == log;
  }

  lemma {:induction false} WithoutKeepsIds(log: seq<EventRow>, user: int)
    requires IdsGrow(log)
    ensures IdsGrow(Without(log, user))
  {
    if log != [] {
      var last := |log| - 1;
      assert log == log[..last] + [log[last]];
      WithoutKeepsIds(log[..last], user);
      forall x | x in Without(log[..last], user) ensures x.id < log[last].id {
        OthersAreLeft(log[..last], user, x);
      }
    }
  }

  lemma {:induction false} PlaceStays(log: seq<EventRow>, row: EventRow, user: int, k: nat, place: nat)
    requires k < |Without(log, user)| && place < |log| && log[place] == Without(log, user)[k]
    requires CountUser(Without(log, user)[k + 1..], log[place].user) == CountUser(log[place + 1..], log[place].user)
    requires log[place].user != user
    ensures k < |Without(log + [row], user)| && Without(log + [row], user)[k] == log[place]
    ensures CountUser(Without(log + [row], user)[k + 1..], log[place].user)
         == CountUser((log + [row])[place + 1..], log[place].user)
  {
    WithoutLast(log, row, user);
    OneMoreAfter(log, row, place);
    if row.user != user {
      OneMoreAfter(Without(log, user), row, k);
    }
  }

  // Another user's event has as many of that user's after it as before the clearing.
  lemma {:induction false} PlaceBeforeClearing(log: seq<EventRow>, user: int, k: nat) returns (place: nat)
    requires k < |Without(log, user)|
    ensures place < |log| && log[place] == Without(log, user)[k] && log[place].user != user
    ensures CountUser(Without(log, user)[k + 1..], log[place].user) == CountUser(log[place + 1..], log[place].user)
  {
    var last := |log| - 1;
    var prefix := log[..last];
    assert log == prefix + [log[last]];
    WithoutLast(prefix, log[last], user);
    if k < |Without(prefix, user)| {
      place := PlaceBeforeClearing(prefix, user, k);
      PlaceStays(prefix, log[last], user, k, place);
    } else {
      place := last;
      assert Without(log, user)[k + 1..] == [] && log[place + 1..] == [];
    }
  }

  lemma {:induction false} OneMoreAfter(log: seq<EventRow>, row: EventRow, k: nat)
    requires k < |log|
    ensures CountUser((log + [row])[k + 1..], log[k].user)
         == CountUser(log[k + 1..], log[k].user) + if row.user == log[k].user then 1 else 0
  {
    assert (log + [row])[k + 1..] == log[k + 1..] + [row];
    CountUserOfAppend(log[k + 1..], row, log[k].user);
  }

  lemma {:induction false} ClockBeforeClearing(log: seq<EventRow>, user: int, other: int)
    requires IdsGrow(log) && other != user && ClockNeverStepsBack(Without(log, user), other)
    ensures ClockNeverStepsBack(log, other)
  {
    var left := Without(log, user);
    WithoutKeepsIds(log, user);
    forall i, j | 0 <= i < j < |log| && log[i].user == other && log[j].user == other ensures log[i].at <= log[j].at {
      OthersAreLeft(log, user, log[i]);
      OthersAreLeft(log, user, log[j]);
      var a :| 0 <= a < |left| && left[a] == log[i];
      var b :| 0 <= b < |left| && left[b] == log[j];
      assert a < b;
    }
  }

  lemma {:induction false} ClearKeepsRemembering(logs: Logs, log: seq<EventRow>, user: int)
    requires LogInv(logs.events, log, logs.retention)
    ensures LogInv(WithoutUser(logs, user).events, Without(log, user), WithoutUser(logs, user).retention)
  {
    var after, left := WithoutUser(logs, user), Without(log, user);
    WithoutKeepsIds(log, user);
    forall r | r in after.events ensures r in left {
      OthersAreLeft(log, user, r);
    }
    forall other | ClockNeverStepsBack(left, other)
      ensures RemembersExactly(after.events, left, after.retention, other)
    {
      forall k | 0 <= k < |left| && left[k].user == other
        ensures left[k] in after.events <==> Kept(left, k, after.retention)
      {
        var place := PlaceBeforeClearing(log, user, k);
        ClockBeforeClearing(log, user, other);
        assert log[place] in logs.events <==> Kept(log, place, logs.retention);
      }
    }
  }

  // ----- Track preferences -----

  datatype Track = Track(
    qualifiedPlays: int,
    completions: int,
    earlySkips: int,
    queueAdds: int,
    playlistAdds: int,
    score: int)

  datatype TrackKey = TrackKey(user: int, song: string)

  const NO_TRACK := Track(0, 0, 0, 0, 0, 0)

  function Plus(a: Track, b: Track): Track {
    Track(a.qualifiedPlays + b.qualifiedPlays, a.completions + b.completions, a.earlySkips + b.earlySkips,
          a.queueAdds + b.queueAdds, a.playlistAdds + b.playlistAdds, a.score + b.score)
  }

  function TrackOf(tracks: map<TrackKey, Track>, user: int, song: string): Track {
    if TrackKey(user, song) in tracks then tracks[TrackKey(user, song)] else NO_TRACK
  }

  function UpsertedTrack(tracks: map<TrackKey, Track>, key: TrackKey, delta: Track): map<TrackKey, Track> {
    tracks[key := Plus(TrackOf(tracks, key.user, key.song), delta)]
  }

  // What one event adds to its track.
  function Delta(kind: Kind): Track {
    Track(if kind.QualifiedPlay? then 1 else 0, if kind.Completed? then 1 else 0,
          if kind.EarlySkip? || kind.Disliked? then 1 else 0, if kind.ManualQueueAdd? then 1 else 0,
          if kind.PlaylistAdd? then 1 else 0, Weight(kind))
  }

  // How often the log has the user's event of this kind on the song.
  ghost function Times(log: seq<EventRow>, user: int, song: string, kind: Kind): nat {
    if log == [] then 0
    else
      var last := log[|log| - 1];
      Times(log[..|log| - 1], user, song, kind)
      + if last.user == user && last.data.song == song && last.data.kind == kind then 1 else 0
  }

  lemma {:induction false} TrackCountsKinds(log: seq<EventRow>, user: int, song: string)
    ensures var track := TrackTotal(log, user, song);
            && track.qualifiedPlays == Times(log, user, song, QualifiedPlay)
            && track.completions == Times(log, user, song, Completed)
            && track.earlySkips == Times(log, user, song, EarlySkip) + Times(log, user, song, Disliked)
            && track.queueAdds == Times(log, user, song, ManualQueueAdd)
            && track.playlistAdds == Times(log, user, song, PlaylistAdd)
  {
    if log != [] {
      TrackCountsKinds(log[..|log| - 1], user, song);
    }
  }

  ghost function WeightedSum(log: seq<EventRow>, user: int, song: string): int {
    3 * Times(log, user, song, QualifiedPlay) + 4 * Times(log, user, song, Completed)
    + 6 * Times(log, user, song, ManualQueueAdd) + 8 * Times(log, user, song, PlaylistAdd)
    + 2 * Times(log, user, song, RecommendationSelected) + 2 * Times(log, user, song, ManualSelection)
    - 5 * Times(log, user, song, EarlySkip) - 20 * Times(log, user, song, Disliked)
  }

  lemma {:induction false} LastAddsItsWeight(log: seq<EventRow>, user: int, song: string)
    requires log != []
    ensures var last := log[|log| - 1];
            WeightedSum(log, user, song)
              == WeightedSum(log[..|log| - 1], user, song)
                 + if last.user == user && last.data.song == song then Weight(last.data.kind) else 0
  {
  }

  lemma {:induction false} ScoreIsWeightedSum(log: seq<EventRow>, user: int, song: string)
    ensures TrackTotal(log, user, song).score == WeightedSum(log, user, song)
  {
    if log != [] {
      ScoreIsWeightedSum(log[..|log| - 1], user, song);
      LastAddsItsWeight(log, user, song);
    }
  }

  function AndLast(before: Track, last: EventRow, user: int, song: string): Track {
    if last.user == user && last.data.song == song then Plus(before, Delta(last.data.kind)) else before
  }

  ghost function TrackTotal(log: seq<EventRow>, user: int, song: string): Track {
    if log == [] then NO_TRACK
    else
      AndLast(TrackTotal(log[..|log| - 1], user, song), log[|log| - 1], user, song)
  }

  ghost predicate TracksConserved(tracks: map<TrackKey, Track>, log: seq<EventRow>) {
    forall user, song :: TrackOf(tracks, user, song) == TrackTotal(log, user, song)
  }

  // ----- Artist, album and genre preferences -----

  datatype Table = Artists | Albums | Genres

  datatype EntityKey = EntityKey(table: Table, user: int, key: string)

  datatype Entity = Entity(positive: int, negative: int)

  // songMap gives a song's artist and album; genres are listed per album, maybe repeated.
  datatype Cache = Cache(songMap: map<string, (string, string)>, albumGenres: map<string, seq<string>>)

  function Keys(cache: Cache, table: Table, song: string): seq<string> {
    if song !in cache.songMap then []
    else
      var (artist, album) := cache.songMap[song];
      match table
      case Artists => [artist]
      case Albums => [album]
      case Genres => if album in cache.albumGenres then cache.albumGenres[album] else []
  }

  function EntityOf(entities: map<EntityKey, Entity>, key: EntityKey): Entity {
    if key in entities then entities[key] else Entity(0, 0)
  }

  function Upserted(entities: map<EntityKey, Entity>, key: EntityKey, positive: int, negative: int)
    : map<EntityKey, Entity>
  {
    var was := EntityOf(entities, key);
    entities[key := Entity(was.positive + positive, was.negative + negative)]
  }

  function UpsertedAll(entities: map<EntityKey, Entity>, table: Table, user: int, keys: seq<string>, positive: int,
                       negative: int)
    : map<EntityKey, Entity>
  {
    if keys == [] then entities
    else
      var last := |keys| - 1;
      Upserted(UpsertedAll(entities, table, user, keys[..last], positive, negative),
               EntityKey(table, user, keys[last]), positive, negative)
  }

  function Positive(kind: Kind): int {
    if Weight(kind) > 0 then Weight(kind) else 0
  }

  function Negative(kind: Kind): int {
    if Weight(kind) < 0 then -Weight(kind) else 0
  }

  // How often an event credits an entity: once its song's artist and its song's album, and each genre as
  // often as that album lists it.
  ghost function Credits(cache: Cache, row: EventRow, key: EntityKey): nat {
    if row.user != key.user || row.data.song !in cache.songMap then 0
    else
      match key.table
      case Artists => if cache.songMap[row.data.song].0 == key.key then 1 else 0
      case Albums => if cache.songMap[row.data.song].1 == key.key then 1 else 0
      case Genres => Listings(cache, cache.songMap[row.data.song].1, key.key)
  }

  ghost function Listings(cache: Cache, album: string, genre: string): nat {
    if album in cache.albumGenres then multiset(cache.albumGenres[album])[genre] else 0
  }

  lemma {:induction false} KeysAreCredited(cache: Cache, row: EventRow, key: EntityKey)
    requires row.user == key.user
    ensures multiset(Keys(cache, key.table, row.data.song))[key.key] == Credits(cache, row, key)
  {
  }

  // A weight is all positive or all negative.
  lemma {:induction false} WeightSplits(kind: Kind)
    ensures Positive(kind) - Negative(kind) == Weight(kind)
    ensures (Positive(kind) == 0 && Negative(kind) >= 0) || (Negative(kind) == 0 && Positive(kind) >= 0)
  {
  }

  ghost function Repeated(amount: int, times: nat): int {
    if times == 0 then 0 else Repeated(amount, times - 1) + amount
  }

  ghost function EntityTotal(cache: Cache, log: seq<EventRow>, key: EntityKey): Entity {
    if log == [] then Entity(0, 0)
    else
      var last := log[|log| - 1];
      var before := EntityTotal(cache, log[..|log| - 1], key);
      Entity(before.positive + Repeated(Positive(last.data.kind), Credits(cache, last, key)),
             before.negative + Repeated(Negative(last.data.kind), Credits(cache, last, key)))
  }

  ghost predicate EntitiesConserved(cache: Cache, entities: map<EntityKey, Entity>, log: seq<EventRow>) {
    forall key :: EntityOf(entities, key) == EntityTotal(cache, log, key)
  }

  // The preference part of one accepted event.
  function ScoredTracks(tracks: map<TrackKey, Track>, row: EventRow): map<TrackKey, Track> {
    if Weight(row.data.kind) == 0 then tracks
    else UpsertedTrack(tracks, TrackKey(row.user, row.data.song), Delta(row.data.kind))
  }

  function Credited(cache: Cache, entities: map<EntityKey, Entity>, row: EventRow): map<EntityKey, Entity> {
    if Weight(row.data.kind) == 0 then entities
    else
      CreditedEach(cache, entities, row.user, row.data.song, Positive(row.data.kind), Negative(row.data.kind))
  }

  function CreditedEach(cache: Cache, entities: map<EntityKey, Entity>, user: int, song: string, positive: int,
                        negative: int)
    : map<EntityKey, Entity>
  {
    var e1 := UpsertedAll(entities, Artists, user, Keys(cache, Artists, song), positive, negative);
    var e2 := UpsertedAll(e1, Albums, user, Keys(cache, Albums, song), positive, negative);
    UpsertedAll(e2, Genres, user, Keys(cache, Genres, song), positive, negative)
  }

  lemma {:induction false} UpsertedAllAdds(entities: map<EntityKey, Entity>, table: Table, user: int, keys: seq<string>,
                                           positive: int, negative: int, key: EntityKey)
    ensures var was := EntityOf(entities, key);
            var times := if key.table == table && key.user == user then multiset(keys)[key.key] else 0;
            EntityOf(UpsertedAll(entities, table, user, keys, positive, negative), key)
              == Entity(was.positive + Repeated(positive, times), was.negative + Repeated(negative, times))
  {
    if keys != [] {
      var last := |keys| - 1;
      assert keys == keys[..last] + [keys[last]];
      UpsertedAllAdds(entities, table, user, keys[..last], positive, negative, key);
      assert multiset(keys)[key.key] == multiset(keys[..last])[key.key] + if keys[last] == key.key then 1 else 0;
    }
  }

  lemma {:induction false} RepeatedNothing(times: nat)
    ensures Repeated(0, times) == 0
  {
    if times > 0 {
      RepeatedNothing(times - 1);
    }
  }

  lemma {:induction false} CreditedEachAdds(cache: Cache, entities: map<EntityKey, Entity>, row: EventRow, p: int,
                                            n: int, key: EntityKey)
    ensures var was := EntityOf(entities, key);
            var times := Credits(cache, row, key);
            EntityOf(CreditedEach(cache, entities, row.user, row.data.song, p, n), key)
              == Entity(was.positive + Repeated(p, times), was.negative + Repeated(n, times))
  {
    var artists, albums := Keys(cache, Artists, row.data.song), Keys(cache, Albums, row.data.song);
    var genres := Keys(cache, Genres, row.data.song);
    UpsertedAllAdds(entities, Artists, row.user, artists, p, n, key);
    var e1 := UpsertedAll(entities, Artists, row.user, artists, p, n);
    UpsertedAllAdds(e1, Albums, row.user, albums, p, n, key);
    var e2 := UpsertedAll(e1, Albums, row.user, albums, p, n);
    UpsertedAllAdds(e2, Genres, row.user, genres, p, n, key);
    assert Repeated(p, 0) == 0 == Repeated(n, 0);
    if row.user == key.user {
      KeysAreCredited(cache, row, key);
    }
    match key.table
    case Artists =>
    case Albums =>
    case Genres =>
  }

  lemma {:induction false} CreditedAdds(cache: Cache, entities: map<EntityKey, Entity>, row: EventRow, key: EntityKey)
    ensures var was := EntityOf(entities, key);
            EntityOf(Credited(cache, entities, row), key)
              == Entity(was.positive + Repeated(Positive(row.data.kind), Credits(cache, row, key)),
                        was.negative + Repeated(Negative(row.data.kind), Credits(cache, row, key)))
  {
    if Weight(row.data.kind) != 0 {
      CreditedEachAdds(cache, entities, row, Positive(row.data.kind), Negative(row.data.kind), key);
    } else {
      RepeatedNothing(Credits(cache, row, key));
    }
  }

  function Raised(was: Entity, positive: int, negative: int): Entity {
    Entity(was.positive + positive, was.negative + negative)
  }

  // The event's parts go to the row of the song's artist and to that of its album, and to the row of a
  // genre as often as the album lists it; every other row stays.
  lemma {:induction false} EventIsCreditedExactly(cache: Cache, entities: map<EntityKey, Entity>, row: EventRow,
                                                  user: int, id: string)
    ensures var after, p, n := Credited(cache, entities, row), Positive(row.data.kind), Negative(row.data.kind);
            var artist, album := EntityKey(Artists, user, id), EntityKey(Albums, user, id);
            var genre, song := EntityKey(Genres, user, id), row.data.song;
            if row.user == user && song in cache.songMap then
              && EntityOf(after, artist)
                 == (if cache.songMap[song].0 == id then Raised(EntityOf(entities, artist), p, n)
                     else EntityOf(entities, artist))
              && EntityOf(after, album)
                 == (if cache.songMap[song].1 == id then Raised(EntityOf(entities, album), p, n)
                     else EntityOf(entities, album))
              && EntityOf(after, genre) == (if cache.songMap[song].1 in cache.albumGenres then
                                              var times := multiset(cache.albumGenres[cache.songMap[song].1])[id];
                                              Raised(EntityOf(entities, genre), p * times, n * times)
                                            else EntityOf(entities, genre))
            else
              && EntityOf(after, artist) == EntityOf(entities, artist)
              && EntityOf(after, album) == EntityOf(entities, album)
              && EntityOf(after, genre) == EntityOf(entities, genre)
  {
    CreditedAdds(cache, entities, row, EntityKey(Artists, user, id));
    CreditedAdds(cache, entities, row, EntityKey(Albums, user, id));
    CreditedAdds(cache, entities, row, EntityKey(Genres, user, id));
    var p, n := Positive(row.data.kind), Negative(row.data.kind);
    assert forall amount :: Repeated(amount, 0) == 0 && Repeated(amount, 1) == Repeated(amount, 0) + amount;
    RepeatedIsProduct(p, Credits(cache, row, EntityKey(Genres, user, id)));
    RepeatedIsProduct(n, Credits(cache, row, EntityKey(Genres, user, id)));
  }

  lemma {:induction false} RepeatedIsProduct(amount: int, times: nat)
    ensures Repeated(amount, times) == amount * times
  {
    if times > 0 {
      RepeatedIsProduct(amount, times - 1);
    }
  }

  lemma {:induction false} ScoredAddsToItsTrack(tracks: map<TrackKey, Track>, row: EventRow)
    ensures TrackOf(ScoredTracks(tracks, row), row.user, row.data.song)
         == Plus(TrackOf(tracks, row.user, row.data.song), Delta(row.data.kind))
  {
    if Weight(row.data.kind) == 0 {
      WeightlessAddsNothing(row.data.kind);
      PlusNothing(TrackOf(tracks, row.user, row.data.song));
    }
  }

  lemma {:induction false} ScoredLeavesOthers(tracks: map<TrackKey, Track>, row: EventRow, key: TrackKey)
    requires key != TrackKey(row.user, row.data.song)
    ensures TrackOf(ScoredTracks(tracks, row), key.user, key.song) == TrackOf(tracks, key.user, key.song)
  {
    assert key == TrackKey(key.user, key.song);
  }

  lemma {:induction false} PlusNothing(track: Track)
    ensures Plus(track, NO_TRACK) == track
  {
  }

  lemma {:induction false} WeightlessAddsNothing(kind: Kind)
    requires Weight(kind) == 0
    ensures Delta(kind) == NO_TRACK
  {
  }

  lemma {:induction false} TrackTotalOfAppend(log: seq<EventRow>, row: EventRow, user: int, song: string)
    ensures TrackTotal(log + [row], user, song) == AndLast(TrackTotal(log, user, song), row, user, song)
  {
    assert (log + [row])[..|log|] == log;
  }

  lemma {:induction false} TrackStaysConserved(tracks: map<TrackKey, Track>, log: seq<EventRow>, row: EventRow,
                                               key: TrackKey)
    requires TrackOf(tracks, key.user, key.song) == TrackTotal(log, key.user, key.song)
    ensures TrackOf(ScoredTracks(tracks, row), key.user, key.song) == TrackTotal(log + [row], key.user, key.song)
  {
    TrackTotalOfAppend(log, row, key.user, key.song);
    if key == TrackKey(row.user, row.data.song) {
      ScoredAddsToItsTrack(tracks, row);
    } else {
      ScoredLeavesOthers(tracks, row, key);
    }
  }

  lemma {:induction false} TracksStayConserved(tracks: map<TrackKey, Track>, log: seq<EventRow>, row: EventRow)
    requires TracksConserved(tracks, log)
    ensures TracksConserved(ScoredTracks(tracks, row), log + [row])
  {
    forall user, song
      ensures TrackOf(ScoredTracks(tracks, row), user, song) == TrackTotal(log + [row], user, song)
    {
      TrackStaysConserved(tracks, log, row, TrackKey(user, song));
    }
  }

  lemma {:induction false} EntitiesStayConserved(cache: Cache, entities: map<EntityKey, Entity>, log: seq<EventRow>,
                                                 row: EventRow)
    requires EntitiesConserved(cache, entities, log)
    ensures EntitiesConserved(cache, Credited(cache, entities, row), log + [row])
  {
    forall key
      ensures EntityOf(Credited(cache, entities, row), key) == EntityTotal(cache, log + [row], key)
    {
      CreditedAdds(cache, entities, row, key);
      EntityTotalOfAppend(cache, log, row, key);
    }
  }

  // ----- Clearing a user's preferences -----

  function TracksWithout(tracks: map<TrackKey, Track>, user: int): map<TrackKey, Track> {
    map key | key in tracks && key.user != user :: tracks[key]
  }

  function EntitiesWithout(entities: map<EntityKey, Entity>, user: int): map<EntityKey, Entity> {
    map key | key in entities && key.user != user :: entities[key]
  }

  lemma {:induction false} ClearedHasNoTrack(log: seq<EventRow>, user: int, song: string)
    ensures TrackTotal(Without(log, user), user, song) == NO_TRACK
  {
    if log != [] {
      var before, last := log[..|log| - 1], log[|log| - 1];
      assert log == before + [last];
      ClearedHasNoTrack(before, user, song);
      WithoutLast(before, last, user);
      if last.user != user {
        TrackTotalOfAppend(Without(before, user), last, user, song);
      }
    }
  }

  lemma {:induction false} OthersKeepTracks(log: seq<EventRow>, user: int, other: int, song: string)
    requires other != user
    ensures TrackTotal(Without(log, user), other, song) == TrackTotal(log, other, song)
  {
    if log != [] {
      var before, last := log[..|log| - 1], log[|log| - 1];
      assert log == before + [last];
      OthersKeepTracks(before, user, other, song);
      TrackTotalOfAppend(before, last, other, song);
      WithoutLast(before, last, user);
      if last.user != user {
        TrackTotalOfAppend(Without(before, user), last, other, song);
      }
    }
  }

  lemma {:induction false} TracksStayConservedWithout(tracks: map<TrackKey, Track>, log: seq<EventRow>, user: int)
    requires TracksConserved(tracks, log)
    ensures TracksConserved(TracksWithout(tracks, user), Without(log, user))
  {
    forall owner, song
      ensures TrackOf(TracksWithout(tracks, user), owner, song) == TrackTotal(Without(log, user), owner, song)
    {
      if owner == user {
        ClearedHasNoTrack(log, user, song);
      } else {
        OthersKeepTracks(log, user, owner, song);
        assert TrackOf(tracks, owner, song) == TrackTotal(log, owner, song);
      }
    }
  }

  lemma {:induction false} EntityTotalOfAppend(cache: Cache, log: seq<EventRow>, row: EventRow, key: EntityKey)
    ensures var before := EntityTotal(cache, log, key);
            var times := Credits(cache, row, key);
            EntityTotal(cache, log + [row], key)
              == Entity(before.positive + Repeated(Positive(row.data.kind), times),
                        before.negative + Repeated(Negative(row.data.kind), times))
  {
    assert (log + [row])[..|log|] == log;
  }

  lemma {:induction false} EntityTotalWithout(cache: Cache, log: seq<EventRow>, user: int, key: EntityKey)
    ensures EntityTotal(cache, Without(log, user), key)
         == if key.user == user then Entity(0, 0) else EntityTotal(cache, log, key)
  {
    if log != [] {
      var last := log[|log| - 1];
      var before := log[..|log| - 1];
      EntityTotalWithout(cache, before, user, key);
      if last.user != user {
        EntityTotalOfAppend(cache, Without(before, user), last, key);
      } else {
        assert Without(log, user) == Without(before, user);
      }
    }
  }

  lemma {:induction false} EntitiesStayConservedWithout(cache: Cache, entities: map<EntityKey, Entity>,
                                                        log: seq<EventRow>, user: int)
    requires EntitiesConserved(cache, entities, log)
    ensures EntitiesConserved(cache, EntitiesWithout(entities, user), Without(log, user))
  {
    forall key
      ensures EntityOf(EntitiesWithout(entities, user), key) == EntityTotal(cache, Without(log, user), key)
    {
      EntityTotalWithout(cache, log, user, key);
      assert EntityOf(entities, key) == EntityTotal(cache, log, key);
    }
  }

  // ----- Conservation across tables -----

  ghost function ScoreSum(log: seq<EventRow>, user: int, songs: seq<string>): int {
    if songs == [] then 0 else TrackTotal(log, user, songs[0]).score + ScoreSum(log, user, songs[1..])
  }

  // All the songs of an artist, or of an album, each once.
  ghost predicate ListsSongsOf(cache: Cache, table: Table, key: string, songs: seq<string>) {
    && (forall i, j :: 0 <= i < j < |songs| ==> songs[i] != songs[j])
    && (forall song :: song in songs
          <==> song in cache.songMap
               && (if table.Artists? then cache.songMap[song].0 == key else cache.songMap[song].1 == key))
  }

  lemma {:induction false} ScoreSumOfAppend(log: seq<EventRow>, row: EventRow, user: int, songs: seq<string>)
    requires forall i, j :: 0 <= i < j < |songs| ==> songs[i] != songs[j]
    ensures ScoreSum(log + [row], user, songs)
         == ScoreSum(log, user, songs) + if row.user == user && row.data.song in songs then Weight(row.data.kind) else 0
  {
    if songs != [] {
      assert (log + [row])[..|log|] == log;
      assert songs == [songs[0]] + songs[1..];
      ScoreSumOfAppend(log, row, user, songs[1..]);
    }
  }

  lemma {:induction false} ScoreSumOfNothing(user: int, songs: seq<string>)
    ensures ScoreSum([], user, songs) == 0
  {
    if songs != [] {
      ScoreSumOfNothing(user, songs[1..]);
    }
  }

  // An artist's or album's positive minus negative weight is the sum of its tracks' scores.
  lemma {:induction false} NetIsSumOfTracks(cache: Cache, log: seq<EventRow>, table: Table, user: int, key: string,
                                            songs: seq<string>)
    requires table != Genres && ListsSongsOf(cache, table, key, songs)
    ensures var total := EntityTotal(cache, log, EntityKey(table, user, key));
            total.positive - total.negative == ScoreSum(log, user, songs)
  {
    if log == [] {
      ScoreSumOfNothing(user, songs);
    } else {
      var last := log[|log| - 1];
      var before := log[..|log| - 1];
      assert log == before + [last];
      NetIsSumOfTracks(cache, before, table, user, key, songs);
      ScoreSumOfAppend(before, last, user, songs);
      assert forall amount :: Repeated(amount, 1) == Repeated(amount, 0) + amount;
    }
  }
}
