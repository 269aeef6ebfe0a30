/**
 The recommendation store: one playback event updates the idempotency log, the listen history,
 the preference tables, the transition graph and the retention counters in place.
 */
module PlaybackStore {
  import opened Wrappers
  import opened PlaybackTables
  import opened PlaybackLog
  import T = Transitions

  // `accepted` lists the events accepted from each user since the user last cleared the history; no
  // table keeps it.
  datatype State = State(
    logs: Logs,
    tracks: map<TrackKey, Track>,
    entities: map<EntityKey, Entity>,
    transitions: T.Graph,
    nowPlaying: map<int, string>,
    nextEventId: nat,
    nextHistoryId: nat,
    accepted: seq<EventRow>)

  const EMPTY := State(Logs({}, {}, map[], map[]), map[], map[], map[], map[], 0, 0, [])

  predicate KeyUsed(events: set<EventRow>, key: string) {
    exists r :: r in events && r.data.key == key
  }

  // A qualified or completed play of another song in the session of the event.
  predicate PlayedBefore(r: EventRow, user: int, event: Event) {
    && r.user == user && r.data.session == event.session && r.data.song != event.song
    && (r.data.kind.QualifiedPlay? || r.data.kind.Completed?)
  }

  // The song of the newest such play, for an event that is positive or an early skip.
  function Previous(events: set<EventRow>, user: int, event: Event): (r: Option<string>)
    requires DistinctIds(events)
    ensures r.Some? <==> (IsPositive(event.kind) || event.kind.EarlySkip?) && event.session.Some?
                         && exists x :: x in events && PlayedBefore(x, user, event)
    ensures r.Some? ==> exists x :: x in events && PlayedBefore(x, user, event) && x.data.song == r.value
                                    && forall y :: y in events && PlayedBefore(y, user, event) && y != x ==> Newer(x, y)
    ensures r.Some? ==> r.value != event.song
  {
    if !(IsPositive(event.kind) || event.kind.EarlySkip?) || event.session.None? then None
    else
      var plays := set x | x in events && PlayedBefore(x, user, event);
      assert forall x :: x in events && PlayedBefore(x, user, event) ==> x in plays;
      if plays == {} then None else Some(Newest(plays).data.song)
  }

  function ListenRow(row: EventRow, historyId: nat): Option<Row<string>> {
    if row.data.kind.QualifiedPlay? then Some(Row(historyId, row.user, row.at, row.data.song)) else None
  }

  function Inserted(logs: Logs, row: EventRow, historyId: nat): Logs {
    logs.(events := logs.events + {row}, history := logs.history + Rows(ListenRow(row, historyId)))
  }

  function NowPlaying(playing: map<int, string>, row: EventRow): map<int, string> {
    if row.data.kind.PlayStarted? || row.data.kind.ManualSelection? then playing[row.user := row.data.song] else playing
  }

  // A play or early skip after another song of the session is counted on the edge between them.
  ghost predicate Follows(before: T.Graph, after: T.Graph, previous: Option<string>, row: EventRow) {
    if previous.None? then after == before
    else
      var edge := T.Edge(row.user, previous.value, row.data.song);
      T.Capped(T.Observed(before, edge, row.data.kind.EarlySkip?, row.at), after, row.user, previous.value)
  }

  // The whole effect of one accepted event.
  ghost predicate Persisted(cache: Cache, s: State, s': State, row: EventRow)
    requires DistinctIds(s.logs.events)
  {
    && s'.logs == ScheduledPlayback(Inserted(s.logs, row, s.nextHistoryId), row.user, row.data.kind.QualifiedPlay?)
    && s'.tracks == ScoredTracks(s.tracks, row)
    && s'.entities == Credited(cache, s.entities, row)
    && Follows(s.transitions, s'.transitions, Previous(s.logs.events, row.user, row.data), row)
    && s'.nowPlaying == NowPlaying(s.nowPlaying, row)
    && s'.nextEventId == s.nextEventId + 1
    && s'.nextHistoryId == s.nextHistoryId + (if row.data.kind.QualifiedPlay? then 1 else 0)
    && s'.accepted == s.accepted + [row]
  }

  // The whole effect of the history endpoint.
  function Listened(s: State, user: int, song: string, now: int): State {
    s.(logs := ScheduledListen(s.logs.(history := s.logs.history + {Row(s.nextHistoryId, user, now, song)}), user),
       nextHistoryId := s.nextHistoryId + 1)
  }

  // The whole effect of a cast session that starts a song.
  function CastListened(s: State, user: int, song: string, now: int): State {
    s.(logs := WithCast(s.logs, Row(s.nextHistoryId, user, now, song)), nextHistoryId := s.nextHistoryId + 1)
  }

  // The whole effect of a user clearing the history.
  ghost function Cleared(s: State, user: int): State {
    s.(logs := WithoutUser(s.logs, user), tracks := TracksWithout(s.tracks, user),
       entities := EntitiesWithout(s.entities, user), transitions := T.WithoutUser(s.transitions, user),
       nowPlaying := s.nowPlaying - {user}, accepted := Without(s.accepted, user))
  }

  class PlaybackStore {
    const cache: Cache
    var events: set<EventRow>
    var history: set<Row<string>>
    var retention: map<int, Counters>
    var tracks: map<TrackKey, Track>
    var entities: map<EntityKey, Entity>
    var transitions: T.Graph
    var nowPlaying: map<int, string>
    var nextEventId: nat
    var nextHistoryId: nat
    ghost var sinceCut: map<int, SinceCut>
    ghost var accepted: seq<EventRow>

    ghost function TheLogs(): Logs
      reads this
    {
      Logs(events, history, retention, sinceCut)
    }

    ghost function Snapshot(): State
      reads this
    {
      State(TheLogs(), tracks, entities, transitions, nowPlaying, nextEventId, nextHistoryId, accepted)
    }

    constructor (cache: Cache)
      ensures Snapshot() == EMPTY && this.cache == cache
    {
      this.cache := cache;
      events, history, retention := {}, {}, map[];
      tracks, entities, transitions, nowPlaying := map[], map[], map[], map[];
      nextEventId, nextHistoryId := 0, 0;
      sinceCut, accepted := map[], [];
    }

    // One accepted event, or a refused replay that changes nothing.
    method PersistPlaybackEvent(user: int, event: Event, now: int) returns (inserted: bool, qualified: bool)
      requires DistinctIds(events)
      modifies this
      ensures qualified <==> event.kind.QualifiedPlay? || event.kind.Completed? || event.kind.ManualQueueAdd?
                             || event.kind.PlaylistAdd?
      ensures inserted <==> !KeyUsed(old(events), event.key)
      ensures !inserted ==> Snapshot() == old(Snapshot())
      ensures inserted ==> Persisted(cache, old(Snapshot()), Snapshot(), Row(old(nextEventId), user, now, event))
    {
      qualified := IsPositive(event.kind);
      var previous := Previous(events, user, event);
      if KeyUsed(events, event.key) {
        return false, qualified;
      }
      inserted := true;
      ApplyEvent(Row(nextEventId, user, now, event), previous);
    }

    method ApplyEvent(row: EventRow, previous: Option<string>)
      modifies this
      ensures TheLogs() == ScheduledPlayback(Inserted(old(TheLogs()), row, old(nextHistoryId)), row.user,
                                             row.data.kind.QualifiedPlay?)
      ensures tracks == ScoredTracks(old(tracks), row) && entities == Credited(cache, old(entities), row)
      ensures Follows(old(transitions), transitions, previous, row)
      ensures nowPlaying == NowPlaying(old(nowPlaying), row)
      ensures nextEventId == old(nextEventId) + 1 && accepted == old(accepted) + [row]
      ensures nextHistoryId == old(nextHistoryId) + if row.data.kind.QualifiedPlay? then 1 else 0
    {
      InsertRows(row);
      nowPlaying := NowPlaying(nowPlaying, row);
      ScoreTrack(row);
      CreditEvent(row);
      ObserveTransition(previous, row);
      SchedulePlaybackRetention(row.user, row.data.kind.QualifiedPlay?);
    }

    method InsertRows(row: EventRow)
      modifies `events, `nextEventId, `accepted, `history, `nextHistoryId
      ensures TheLogs() == Inserted(old(TheLogs()), row, old(nextHistoryId))
      ensures nextEventId == old(nextEventId) + 1 && accepted == old(accepted) + [row]
      ensures nextHistoryId == old(nextHistoryId) + if row.data.kind.QualifiedPlay? then 1 else 0
    {
      events, nextEventId := events + {row}, nextEventId + 1;
      accepted := accepted + [row];
      if row.data.kind.QualifiedPlay? {
        history, nextHistoryId := history + {Row(nextHistoryId, row.user, row.at, row.data.song)}, nextHistoryId + 1;
      } else {
        assert history + {} == history;
      }
    }

    method ScoreTrack(row: EventRow)
      modifies `tracks
      ensures tracks == ScoredTracks(old(tracks), row)
    {
      var weight := Weight(row.data.kind);
      if weight != 0 {
        tracks := UpsertedTrack(tracks, TrackKey(row.user, row.data.song), Delta(row.data.kind));
      }
    }

    method CreditEvent(row: EventRow)
      modifies `entities
      ensures entities == Credited(cache, old(entities), row)
    {
      var weight := Weight(row.data.kind);
      if weight != 0 {
        var positive := if weight > 0 then weight else 0;
        var negative := if weight < 0 then -weight else 0;
        assert positive == Positive(row.data.kind) && negative == Negative(row.data.kind);
        CreditEntities(row.user, row.data.song, positive, negative);
      }
    }

    method CreditEntities(user: int, song: string, positive: int, negative: int)
      modifies `entities
      ensures entities == CreditedEach(cache, old(entities), user, song, positive, negative)
    {
      UpsertEntityPreferences(Artists, user, Keys(cache, Artists, song), positive, negative);
      UpsertEntityPreferences(Albums, user, Keys(cache, Albums, song), positive, negative);
      UpsertEntityPreferences(Genres, user, Keys(cache, Genres, song), positive, negative);
    }

    method UpsertEntityPreferences(table: Table, user: int, keys: seq<string>, positive: int, negative: int)
      modifies `entities
      ensures entities == UpsertedAll(old(entities), table, user, keys, positive, negative)
    {
      for i := 0 to |keys|
        invariant entities == UpsertedAll(old(entities), table, user, keys[..i], positive, negative)
      {
        assert keys[..i + 1][..i] == keys[..i];
        UpsertEntityPreference(EntityKey(table, user, keys[i]), positive, negative);
      }
      assert keys[..|keys|] == keys;
    }

    method UpsertEntityPreference(key: EntityKey, positive: int, negative: int)
      modifies `entities
      ensures entities == Upserted(old(entities), key, positive, negative)
    {
      if key in entities {
        entities := entities[key := Entity(entities[key].positive + positive, entities[key].negative + negative)];
      } else {
        entities := entities[key := Entity(positive, negative)];
      }
    }

    method ObserveTransition(previous: Option<string>, row: EventRow)
      modifies `transitions
      ensures Follows(old(transitions), transitions, previous, row)
    {
      if previous.Some? {
        var edge := T.Edge(row.user, previous.value, row.data.song);
        transitions := T.Cap(T.Observed(transitions, edge, row.data.kind.EarlySkip?, row.at), row.user, previous.value);
      }
    }

    method SchedulePlaybackRetention(user: int, includeListenHistory: bool)
      modifies `events, `history, `retention, `sinceCut
      ensures TheLogs() == ScheduledPlayback(old(TheLogs()), user, includeListenHistory)
    {
      var was := CountersOf(retention, user);
      var counters := Counters(was.playback + 1, was.history + if includeListenHistory then 1 else 0);
      retention := retention[user := counters];
      var prunePlayback := counters.playback >= RETENTION_BATCH;
      var pruneHistory := counters.history >= RETENTION_BATCH;
      if prunePlayback || pruneHistory {
        PrunePlaybackHistory(user, pruneHistory, prunePlayback);
        retention := retention[user := Counters(if prunePlayback then 0 else counters.playback,
                                                if pruneHistory then 0 else counters.history)];
      }
    }

    method PrunePlaybackHistory(user: int, includeListenHistory: bool, includePlaybackEvents: bool)
      modifies `events, `history, `sinceCut
      ensures TheLogs() == PrunedPlayback(old(TheLogs()), user, includeListenHistory, includePlaybackEvents)
    {
      if includePlaybackEvents {
        events := Pruned(events, user, MAX_ROWS_PER_USER);
      }
      if includeListenHistory {
        PruneListenHistory(user);
      }
    }

    method PruneListenHistory(user: int)
      modifies `history, `sinceCut
      ensures TheLogs() == PrunedHistory(old(TheLogs()), user)
    {
      history := Pruned(history, user, MAX_ROWS_PER_USER);
      sinceCut := sinceCut[user := SinceCut(|UserRows(history, user)|, 0)];
    }

    // The history endpoint: one listen row, then its own retention schedule.
    method AddListen(user: int, song: string, now: int)
      modifies `history, `nextHistoryId, `retention, `sinceCut
      ensures Snapshot() == Listened(old(Snapshot()), user, song, now)
    {
      history, nextHistoryId := history + {Row(nextHistoryId, user, now, song)}, nextHistoryId + 1;
      ScheduleListenHistoryRetention(user);
    }

    method ScheduleListenHistoryRetention(user: int)
      modifies `history, `retention, `sinceCut
      ensures TheLogs() == ScheduledListen(old(TheLogs()), user)
    {
      var was := CountersOf(retention, user);
      retention := retention[user := was.(history := was.history + 1)];
      if was.history + 1 >= RETENTION_BATCH {
        PruneListenHistory(user);
        retention := retention[user := was.(history := 0)];
      }
    }

    // A cast session reports that a song began to play: a listen row, and no retention schedule.
    method AddCastListen(user: int, song: string, now: int)
      modifies `history, `nextHistoryId, `sinceCut
      ensures Snapshot() == CastListened(old(Snapshot()), user, song, now)
    {
      history, nextHistoryId := history + {Row(nextHistoryId, user, now, song)}, nextHistoryId + 1;
      var since := SinceCutOf(sinceCut, user);
      sinceCut := sinceCut[user := since.(casts := since.casts + 1)];
    }

    // The user's rows are deleted table by table, the retention counters last.
    method ClearPersonalHistory(user: int)
      modifies this
      ensures Snapshot() == Cleared(old(Snapshot()), user)
    {
      ClearRows(user);
      ClearPreferences(user);
      nowPlaying := nowPlaying - {user};
      retention := retention - {user};
    }

    method ClearRows(user: int)
      modifies `history, `events, `sinceCut, `accepted
      ensures TheLogs() == WithoutUser(old(TheLogs()), user).(retention := retention)
      ensures accepted == Without(old(accepted), user)
    {
      history := history - UserRows(history, user);
      events := events - UserRows(events, user);
      sinceCut, accepted := sinceCut - {user}, Without(accepted, user);
    }

    method ClearPreferences(user: int)
      modifies `tracks, `entities, `transitions
      ensures tracks == TracksWithout(old(tracks), user) && entities == EntitiesWithout(old(entities), user)
      ensures transitions == T.WithoutUser(old(transitions), user)
    {
      tracks := TracksWithout(tracks, user);
      entities := EntitiesWithout(entities, user);
      transitions := T.WithoutUser(transitions, user);
    }
  }
}
