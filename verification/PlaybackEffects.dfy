/**
 What each call does to the rows of the store, told row by row: which are added, counted and deleted,
 and when.
 */
module PlaybackEffects {
  import opened Wrappers
  import opened PlaybackTables
  import opened PlaybackLog
  import opened PlaybackStore
  import opened PlaybackStoreProofs
  import T = Transitions

  // ----- Retention -----

  // The row has 20000 newer ones of its user.
  ghost predicate IsOld<T>(rows: set<Row<T>>, r: Row<T>) {
    |set x | x in rows && x.user == r.user && (x.at > r.at || (x.at == r.at && x.id > r.id))| >= 20000
  }

  // With `due`, the user's old rows are deleted.
  ghost predicate Cut<T(!new)>(before: set<Row<T>>, after: set<Row<T>>, user: int, due: bool) {
    forall r :: r in after <==> r in before && !(due && r.user == user && IsOld(before, r))
  }

  lemma {:induction false} PrunedIsCut<T(!new)>(rows: set<Row<T>>, user: int)
    ensures Cut(rows, Pruned(rows, user, MAX_ROWS_PER_USER), user, true)
  {
    forall r ensures r in Pruned(rows, user, MAX_ROWS_PER_USER) <==> r in rows && !(r.user == user && IsOld(rows, r)) {
      assert NewerThan(rows, r)
          == set x | x in rows && x.user == r.user && (x.at > r.at || (x.at == r.at && x.id > r.id));
    }
  }

  // How many of the user's history rows the last cut left is known, and starts again with each cut.
  ghost predicate KeepsTrack(before: Logs, after: Logs, user: int, due: bool) {
    SinceCutOf(after.sinceCut, user)
      == if due then SinceCut(|set r | r in after.history && r.user == user|, 0) else SinceCutOf(before.sinceCut, user)
  }

  // The counter after one more row that may be the 256th.
  function Counted(was: int): int {
    if was + 1 >= 256 then 0 else was + 1
  }

  // A playback event counts for the events and, with a listen row, for the history.
  lemma {:induction false} ScheduleCuts(logs: Logs, user: int, listens: bool)
    ensures var was, after := CountersOf(logs.retention, user), ScheduledPlayback(logs, user, listens);
            && Cut(logs.events, after.events, user, was.playback + 1 >= 256)
            && Cut(logs.history, after.history, user, was.history + (if listens then 1 else 0) >= 256)
            && CountersOf(after.retention, user).playback == Counted(was.playback)
            && (was.history < 256 ==>
                  CountersOf(after.retention, user).history == if listens then Counted(was.history) else was.history)
            && KeepsTrack(logs, after, user, was.history + (if listens then 1 else 0) >= 256)
            && forall other :: other != user ==>
                  CountersOf(after.retention, other) == CountersOf(logs.retention, other)
  {
    PrunedIsCut(logs.events, user);
    PrunedIsCut(logs.history, user);
  }

  // An addition to the history counts for the history alone.
  lemma {:induction false} ListenCuts(logs: Logs, user: int)
    ensures var was, after := CountersOf(logs.retention, user), ScheduledListen(logs, user);
            && after.events == logs.events
            && Cut(logs.history, after.history, user, was.history + 1 >= 256)
            && CountersOf(after.retention, user) == Counters(was.playback, Counted(was.history))
            && KeepsTrack(logs, after, user, was.history + 1 >= 256)
            && forall other :: other != user ==>
                  CountersOf(after.retention, other) == CountersOf(logs.retention, other)
  {
    PrunedIsCut(logs.history, user);
  }

  lemma {:induction false} ListenAddsRow(s: State, user: int, song: string, now: int)
    ensures Cut(s.logs.history + {Row(s.nextHistoryId, user, now, song)}, Listened(s, user, song, now).logs.history,
                user, CountersOf(s.logs.retention, user).history + 1 >= 256)
    ensures Listened(s, user, song, now).nextHistoryId == s.nextHistoryId + 1
  {
    ListenCuts(s.logs.(history := s.logs.history + {Row(s.nextHistoryId, user, now, song)}), user);
  }

  // A cast session counts for nothing.
  lemma {:induction false} CastAddsRow(s: State, user: int, song: string, now: int)
    ensures CastListened(s, user, song, now).nextHistoryId == s.nextHistoryId + 1
    ensures var logs := CastListened(s, user, song, now).logs;
            && logs.history == s.logs.history + {Row(s.nextHistoryId, user, now, song)}
            && logs.events == s.logs.events && logs.retention == s.logs.retention
            && SinceCutOf(logs.sinceCut, user).casts == SinceCutOf(s.logs.sinceCut, user).casts + 1
            && SinceCutOf(logs.sinceCut, user).left == SinceCutOf(s.logs.sinceCut, user).left
  {
  }

  // ----- One accepted event -----

  // The event's row is added; a qualified play's listen row too.
  lemma {:induction false} EventAddsRows(cache: Cache, s: State, s': State, user: int, event: Event, now: int)
    requires Inv(cache, s) && Persisted(cache, s, s', Row(s.nextEventId, user, now, event))
    ensures var was := CountersOf(s.logs.retention, user);
            && Cut(s.logs.events + {Row(s.nextEventId, user, now, event)}, s'.logs.events, user,
                   was.playback + 1 >= 256)
            && Cut(if event.kind.QualifiedPlay? then s.logs.history + {Row(s.nextHistoryId, user, now, event.song)}
                   else s.logs.history,
                   s'.logs.history, user, event.kind.QualifiedPlay? && was.history + 1 >= 256)
            && s'.nextEventId == s.nextEventId + 1
            && s'.nextHistoryId == (if event.kind.QualifiedPlay? then s.nextHistoryId + 1 else s.nextHistoryId)
  {
    assert BoundedFor(s.logs, user);
    var row := Row(s.nextEventId, user, now, event);
    ScheduleCuts(Inserted(s.logs, row, s.nextHistoryId), user, event.kind.QualifiedPlay?);
    assert s.logs.history + {} == s.logs.history;
  }

  // What a user is playing is the song last started or selected.
  lemma {:induction false} EventShowsSong(cache: Cache, s: State, s': State, user: int, event: Event, now: int)
    requires DistinctIds(s.logs.events) && Persisted(cache, s, s', Row(s.nextEventId, user, now, event))
    ensures Get(s'.nowPlaying, user) == if event.kind.PlayStarted? || event.kind.ManualSelection? then Some(event.song)
                                        else Get(s.nowPlaying, user)
    ensures forall other :: other != user ==> Get(s'.nowPlaying, other) == Get(s.nowPlaying, other)
  {
  }

  // Row x is a qualified or completed play of another song by the user in the event's session, and no
  // later such play is there.
  ghost predicate IsPlayBefore(events: set<EventRow>, x: EventRow, user: int, event: Event) {
    x in events && IsPlayOfOther(x, user, event)
    && forall y :: y in events && IsPlayOfOther(y, user, event) && y != x ==>
         y.at < x.at || (y.at == x.at && y.id < x.id)
  }

  predicate IsPlayOfOther(x: EventRow, user: int, event: Event) {
    x.user == user && event.session.Some? && x.data.session == event.session && x.data.song != event.song
    && (x.data.kind.QualifiedPlay? || x.data.kind.Completed?)
  }

  predicate MayFollow(kind: Kind) {
    kind.QualifiedPlay? || kind.Completed? || kind.ManualQueueAdd? || kind.PlaylistAdd? || kind.EarlySkip?
  }

  lemma {:induction false} PreviousIs(events: set<EventRow>, user: int, event: Event, song: string)
    requires DistinctIds(events)
    ensures Previous(events, user, event) == Some(song)
            <==> MayFollow(event.kind) && exists x :: IsPlayBefore(events, x, user, event) && x.data.song == song
  {
    if event.session.Some? {
      forall x ensures PlayedBefore(x, user, event) <==> IsPlayOfOther(x, user, event) {
      }
      if x :| IsPlayBefore(events, x, user, event) && MayFollow(event.kind) {
        assert x in events && PlayedBefore(x, user, event);
      }
    }
  }

  // The edge gains one: a skip for an early skip, else a play.
  function Gained(was: Option<T.Stats>, skip: bool, now: int): T.Stats {
    match was
    case None => if skip then T.Stats(0, 1, now) else T.Stats(1, 0, now)
    case Some(stats) =>
      if skip then T.Stats(stats.positive, stats.skipped + 1, now) else T.Stats(stats.positive + 1, stats.skipped, now)
  }

  // No other edge changes, but at most 50 edges leave the song, those with most points, later ones first;
  // a play is worth two skips.
  ghost predicate CountsEdge(before: T.Graph, after: T.Graph, edge: T.Edge, skip: bool, now: int) {
    LeavesFifty(before[edge := Gained(Get(before, edge), skip, now)], after, edge)
  }

  ghost predicate LeavesFifty(seen: T.Graph, after: T.Graph, edge: T.Edge) {
    var leaving, left := LeavingSong(seen, edge), LeavingSong(after, edge);
    && (forall e :: e in after ==> e in seen && after[e] == seen[e])
    && (forall e :: e in seen && (e.user != edge.user || e.from != edge.from) ==> e in after)
    && |left| == (if |leaving| > 50 then 50 else |leaving|)
    && (forall e, d :: e in left && d in leaving && d !in after ==> RanksBefore(seen[e], seen[d]))
  }

  predicate RanksBefore(a: T.Stats, b: T.Stats) {
    2 * a.positive - a.skipped > 2 * b.positive - b.skipped
    || (2 * a.positive - a.skipped == 2 * b.positive - b.skipped && a.at >= b.at)
  }

  function LeavingSong(graph: T.Graph, edge: T.Edge): set<T.Edge> {
    set e | e in graph && e.user == edge.user && e.from == edge.from
  }

  // A play, queue or playlist addition or early skip is counted on the edge from the play before it.
  lemma {:induction false} EventCountsEdge(cache: Cache, s: State, s': State, user: int, event: Event, now: int)
    requires DistinctIds(s.logs.events) && Persisted(cache, s, s', Row(s.nextEventId, user, now, event))
    ensures forall x :: IsPlayBefore(s.logs.events, x, user, event) && MayFollow(event.kind) ==>
              CountsEdge(s.transitions, s'.transitions, T.Edge(user, x.data.song, event.song),
                         event.kind.EarlySkip?, now)
    ensures (forall x :: !IsPlayBefore(s.logs.events, x, user, event)) || !MayFollow(event.kind) ==>
              s'.transitions == s.transitions
  {
    var previous := Previous(s.logs.events, user, event);
    if previous.Some? {
      PreviousIs(s.logs.events, user, event, previous.value);
      var edge := T.Edge(user, previous.value, event.song);
      FollowingCounts(s.transitions, s'.transitions, edge, event.kind.EarlySkip?, now);
    }
    forall x | IsPlayBefore(s.logs.events, x, user, event) && MayFollow(event.kind)
      ensures previous == Some(x.data.song)
    {
      PreviousIs(s.logs.events, user, event, x.data.song);
    }
  }

  lemma {:induction false} FollowingCounts(before: T.Graph, after: T.Graph, edge: T.Edge, skip: bool, now: int)
    requires T.Capped(T.Observed(before, edge, skip, now), after, edge.user, edge.from)
    ensures CountsEdge(before, after, edge, skip, now)
  {
    CappedLeavesFifty(T.Observed(before, edge, skip, now), after, edge);
  }

  lemma {:induction false} CappedLeavesFifty(seen: T.Graph, after: T.Graph, edge: T.Edge)
    requires T.Capped(seen, after, edge.user, edge.from)
    ensures LeavesFifty(seen, after, edge)
  {
    assert LeavingSong(seen, edge) == T.Group(seen, edge.user, edge.from);
    assert LeavingSong(after, edge) == T.Group(after, edge.user, edge.from);
  }

  // ----- Clearing -----

  // None of the user's rows is left in any table, and every row of the others is.
  lemma {:induction false} ClearingDeletesExactly(s: State, user: int)
    ensures var s' := Cleared(s, user);
            && (forall r :: r in s'.logs.events <==> r in s.logs.events && r.user != user)
            && (forall r :: r in s'.logs.history <==> r in s.logs.history && r.user != user)
            && (forall key :: Get(s'.tracks, key) == if key.user == user then None else Get(s.tracks, key))
            && (forall key :: Get(s'.entities, key) == if key.user == user then None else Get(s.entities, key))
            && (forall e :: Get(s'.transitions, e) == if e.user == user then None else Get(s.transitions, e))
            && (forall u :: Get(s'.nowPlaying, u) == if u == user then None else Get(s.nowPlaying, u))
            && (forall u :: Get(s'.logs.retention, u) == if u == user then None else Get(s.logs.retention, u))
  {
  }
}
