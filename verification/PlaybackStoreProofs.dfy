/** What every run of playback events, history additions, casts and clearings keeps in the recommendation store. */
module PlaybackStoreProofs {
  import opened Wrappers
  import opened PlaybackTables
  import opened PlaybackLog
  import opened PlaybackStore
  import T = Transitions

  ghost predicate DistinctKeys(events: set<EventRow>) {
    forall a, b :: a in events && b in events && a.data.key == b.data.key ==> a == b
  }

  // Rows are numbered below the next ids and event keys are unique.
  ghost predicate Numbered(s: State) {
    && DistinctKeys(s.logs.events)
    && (forall r :: r in s.logs.events ==> r.id < s.nextEventId)
    && (forall r :: r in s.logs.history ==> r.id < s.nextHistoryId)
    && (forall r :: r in s.accepted ==> r.id < s.nextEventId)
  }

  ghost predicate Inv(cache: Cache, s: State) {
    && Numbered(s)
    && Bounded(s.logs)
    && LogInv(s.logs.events, s.accepted, s.logs.retention)
    && TracksConserved(s.tracks, s.accepted)
    && EntitiesConserved(cache, s.entities, s.accepted)
    && T.Inv(s.transitions)
  }

  datatype Call =
    | Playback(user: int, event: Event, now: int)
    | Listen(user: int, song: string, now: int)
    | Cast(user: int, song: string, now: int)
    | Clear(user: int)

  // One call of the store, refused replays included.
  ghost predicate Step(cache: Cache, s: State, call: Call, s': State) {
    match call
    case Playback(user, event, now) =>
      DistinctIds(s.logs.events) &&
      if KeyUsed(s.logs.events, event.key) then s' == s
      else Persisted(cache, s, s', Row(s.nextEventId, user, now, event))
    case Listen(user, song, now) => s' == Listened(s, user, song, now)
    case Cast(user, song, now) => s' == CastListened(s, user, song, now)
    case Clear(user) => s' == Cleared(s, user)
  }

  ghost predicate IsRun(cache: Cache, states: seq<State>, calls: seq<Call>) {
    && |states| == |calls| + 1 && states[0] == EMPTY
    && forall i :: StepAt(cache, states, calls, i)
  }

  ghost predicate StepAt(cache: Cache, states: seq<State>, calls: seq<Call>, i: int)
    requires |states| == |calls| + 1
  {
    0 <= i < |calls| ==> Step(cache, states[i], calls[i], states[i + 1])
  }

  lemma {:induction false} InsertStaysBounded(s: State, row: EventRow)
    requires Numbered(s) && Bounded(s.logs) && row.id == s.nextEventId
    ensures Bounded(ScheduledPlayback(Inserted(s.logs, row, s.nextHistoryId), row.user, row.data.kind.QualifiedPlay?))
  {
    PlaybackStaysBounded(s.logs, row, ListenRow(row, s.nextHistoryId));
  }

  lemma {:induction false} InsertStaysNumbered(cache: Cache, s: State, s': State, row: EventRow)
    requires Numbered(s) && DistinctIds(s.logs.events) && row.id == s.nextEventId
             && !KeyUsed(s.logs.events, row.data.key)
    requires Persisted(cache, s, s', row)
    ensures Numbered(s')
  {
    assert s'.logs.events <= s.logs.events + {row};
    assert s'.logs.history <= s.logs.history + Rows(ListenRow(row, s.nextHistoryId));
  }

  // The user's event counter advances; at the batch size the user's rows are cut and it restarts.
  ghost predicate CutsWhenDue(events: set<EventRow>, kept: set<EventRow>, user: int,
                              before: map<int, Counters>, after: map<int, Counters>)
  {
    var due := CountersOf(before, user).playback + 1 >= RETENTION_BATCH;
    && kept == (if due then Pruned(events, user, MAX_ROWS_PER_USER) else events)
    && CountersOf(after, user).playback == (if due then 0 else CountersOf(before, user).playback + 1)
    && forall other :: other != user ==> CountersOf(after, other).playback == CountersOf(before, other).playback
  }

  lemma {:induction false} ScheduleCutsWhenDue(logs: Logs, user: int, includeHistory: bool)
    ensures var after := ScheduledPlayback(logs, user, includeHistory);
            CutsWhenDue(logs.events, after.events, user, logs.retention, after.retention)
  {
  }

  lemma {:induction false} CutKeepsLog(events: set<EventRow>, log: seq<EventRow>, row: EventRow, kept: set<EventRow>,
                                       before: map<int, Counters>, after: map<int, Counters>)
    requires LogInv(events, log, before) && forall i :: 0 <= i < |log| ==> log[i].id < row.id
    requires CountersOf(before, row.user).playback >= 0
    requires CutsWhenDue(events + {row}, kept, row.user, before, after)
    ensures LogInv(kept, log + [row], after)
  {
    var was := CountersOf(before, row.user);
    var counted := before[row.user := was.(playback := was.playback + 1)];
    InsertKeepsRemembering(events, log, row, before, counted);
    if was.playback + 1 >= RETENTION_BATCH {
      PruneKeepsRemembering(events + {row}, log + [row], row.user, counted, after);
    } else {
      SameCountersRemember(events + {row}, log + [row], counted, after);
    }
  }

  lemma {:induction false} InsertKeepsLog(s: State, row: EventRow)
    requires Numbered(s) && Bounded(s.logs) && row.id == s.nextEventId
    requires LogInv(s.logs.events, s.accepted, s.logs.retention)
    ensures var after := ScheduledPlayback(Inserted(s.logs, row, s.nextHistoryId), row.user,
                                           row.data.kind.QualifiedPlay?);
            LogInv(after.events, s.accepted + [row], after.retention)
  {
    var inserted := Inserted(s.logs, row, s.nextHistoryId);
    var after := ScheduledPlayback(inserted, row.user, row.data.kind.QualifiedPlay?);
    assert BoundedFor(s.logs, row.user);
    ScheduleCutsWhenDue(inserted, row.user, row.data.kind.QualifiedPlay?);
    CutKeepsLog(s.logs.events, s.accepted, row, after.events, s.logs.retention, after.retention);
  }

  lemma {:induction false} SameCountersRemember(events: set<EventRow>, log: seq<EventRow>, a: map<int, Counters>,
                                                b: map<int, Counters>)
    requires LogInv(events, log, a) && forall user :: CountersOf(a, user).playback == CountersOf(b, user).playback
    ensures LogInv(events, log, b)
  {
    forall user | ClockNeverStepsBack(log, user) ensures RemembersExactly(events, log, b, user) {
      forall k | 0 <= k < |log| && log[k].user == user ensures log[k] in events <==> Kept(log, k, b) {
        assert log[k] in events <==> Kept(log, k, a);
      }
    }
  }

  lemma {:induction false} FollowsKeepsInv(before: T.Graph, after: T.Graph, previous: Option<string>, row: EventRow)
    requires T.Inv(before) && Follows(before, after, previous, row)
             && (previous.Some? ==> previous.value != row.data.song)
    ensures T.Inv(after)
  {
    if previous.Some? {
      var edge := T.Edge(row.user, previous.value, row.data.song);
      T.ObservationKeepsInv(before, edge, row.data.kind.EarlySkip?, row.at, after);
    }
  }

  lemma {:induction false} PersistedKeepsInv(cache: Cache, s: State, s': State, row: EventRow)
    requires Inv(cache, s) && row.id == s.nextEventId && !KeyUsed(s.logs.events, row.data.key)
    requires Persisted(cache, s, s', row)
    ensures Inv(cache, s')
  {
    InsertStaysNumbered(cache, s, s', row);
    InsertStaysBounded(s, row);
    InsertKeepsLog(s, row);
    TracksStayConserved(s.tracks, s.accepted, row);
    EntitiesStayConserved(cache, s.entities, s.accepted, row);
    FollowsKeepsInv(s.transitions, s'.transitions, Previous(s.logs.events, row.user, row.data), row);
  }

  lemma {:induction false} ListenedKeepsInv(cache: Cache, s: State, user: int, song: string, now: int)
    requires Inv(cache, s)
    ensures Inv(cache, Listened(s, user, song, now))
  {
    ListenStaysBounded(s.logs, Row(s.nextHistoryId, user, now, song));
    SameCountersRemember(s.logs.events, s.accepted, s.logs.retention, Listened(s, user, song, now).logs.retention);
  }

  lemma {:induction false} CastKeepsInv(cache: Cache, s: State, user: int, song: string, now: int)
    requires Inv(cache, s)
    ensures Inv(cache, CastListened(s, user, song, now))
  {
    CastStaysBounded(s.logs, Row(s.nextHistoryId, user, now, song));
  }

  lemma {:induction false} ClearedKeepsInv(cache: Cache, s: State, user: int)
    requires Inv(cache, s)
    ensures Inv(cache, Cleared(s, user))
  {
    forall r | r in Without(s.accepted, user) ensures r.id < s.nextEventId {
      OthersAreLeft(s.accepted, user, r);
    }
    ClearStaysBounded(s.logs, user);
    ClearKeepsRemembering(s.logs, s.accepted, user);
    TracksStayConservedWithout(s.tracks, s.accepted, user);
    EntitiesStayConservedWithout(cache, s.entities, s.accepted, user);
    T.ClearKeepsInv(s.transitions, user);
  }

  lemma {:induction false} StepKeepsInv(cache: Cache, s: State, call: Call, s': State)
    requires Inv(cache, s) && Step(cache, s, call, s')
    ensures Inv(cache, s')
  {
    match call
    case Playback(user, event, now) =>
      if !KeyUsed(s.logs.events, event.key) {
        PersistedKeepsInv(cache, s, s', Row(s.nextEventId, user, now, event));
      }
    case Listen(user, song, now) => ListenedKeepsInv(cache, s, user, song, now);
    case Cast(user, song, now) => CastKeepsInv(cache, s, user, song, now);
    case Clear(user) => ClearedKeepsInv(cache, s, user);
  }

  // Conservation, retention bounds, replay memory and the transition cap hold after every call.
  lemma {:induction false} RunKeepsInv(cache: Cache, states: seq<State>, calls: seq<Call>, i: nat)
    requires IsRun(cache, states, calls) && i < |states|
    ensures Inv(cache, states[i])
  {
    if i > 0 {
      RunKeepsInv(cache, states, calls, i - 1);
      assert StepAt(cache, states, calls, i - 1);
      StepKeepsInv(cache, states[i - 1], calls[i - 1], states[i]);
    } else {
      EmptyHasInv(cache);
    }
  }

  lemma {:induction false} EmptyHasInv(cache: Cache)
    ensures Inv(cache, EMPTY)
  {
  }

  // A user's events never pass 20000 plus the user's counter. A user's history is what the last cut
  // left, at most 20000, plus the user's counter and the rows cast sessions added since, so it stays
  // within 20000 plus the counter exactly while what was left and the cast rows together do not pass
  // 20000. Either counter stays below 256.
  lemma {:induction false} RetentionBound(cache: Cache, states: seq<State>, calls: seq<Call>, i: nat, user: int)
    requires IsRun(cache, states, calls) && i < |states|
    ensures var logs := states[i].logs;
            var counters, since := CountersOf(logs.retention, user), SinceCutOf(logs.sinceCut, user);
            && 0 <= counters.playback < 256 && 0 <= counters.history < 256
            && |UserRows(logs.events, user)| <= 20000 + counters.playback
            && |UserRows(logs.history, user)| == since.left + counters.history + since.casts
            && since.left <= 20000
            && (|UserRows(logs.history, user)| <= 20000 + counters.history
                <==> since.left + since.casts <= 20000)
  {
    RunKeepsInv(cache, states, calls, i);
    assert BoundedFor(states[i].logs, user);
  }

  lemma {:induction false} OneMoreCall(cache: Cache, states: seq<State>, calls: seq<Call>, call: Call, after: State)
    requires IsRun(cache, states, calls) && Step(cache, states[|calls|], call, after)
    ensures IsRun(cache, states + [after], calls + [call])
  {
    forall i ensures StepAt(cache, states + [after], calls + [call], i) {
      assert StepAt(cache, states, calls, i);
    }
  }

  // n cast rows of one user, none of which was ever cut.
  ghost predicate OnlyCasts(s: State, n: nat) {
    CountersOf(s.logs.retention, 0) == Counters(0, 0) && SinceCutOf(s.logs.sinceCut, 0) == SinceCut(0, n)
  }

  lemma {:induction false} CastRun(cache: Cache, n: nat) returns (states: seq<State>, calls: seq<Call>)
    ensures IsRun(cache, states, calls) && |calls| == n && OnlyCasts(states[n], n)
    ensures forall k :: 0 <= k < n ==> calls[k] == Cast(0, "", 0)
  {
    states, calls := [EMPTY], [];
    for i := 0 to n
      invariant IsRun(cache, states, calls) && |calls| == i && OnlyCasts(states[i], i)
      invariant forall k :: 0 <= k < i ==> calls[k] == Cast(0, "", 0)
    {
      var after := CastListened(states[i], 0, "", 0);
      OneMoreCall(cache, states, calls, Cast(0, "", 0), after);
      states, calls := states + [after], calls + [Cast(0, "", 0)];
    }
  }

  // n calls of which each is a cast, which leave n history rows and counters at zero.
  ghost predicate CastsOnly(cache: Cache, states: seq<State>, calls: seq<Call>, n: nat) {
    && IsRun(cache, states, calls) && |calls| == n && (forall k :: 0 <= k < n ==> calls[k] == Cast(0, "", 0))
    && |UserRows(states[n].logs.history, 0)| == n && CountersOf(states[n].logs.retention, 0) == Counters(0, 0)
  }

  // Casting is never cut: for any n.
  lemma {:induction false} CastHistoryIsNeverCut(cache: Cache, n: nat)
    ensures exists states, calls :: CastsOnly(cache, states, calls, n)
  {
    var states, calls := CastRun(cache, n);
    RetentionBound(cache, states, calls, n, 0);
    assert CastsOnly(cache, states, calls, n);
  }

  // ----- Replays -----

  // The clock never stepped back between events of a user who had one with this key accepted.
  ghost predicate SteadyFor(log: seq<EventRow>, key: string) {
    forall k :: 0 <= k < |log| && log[k].data.key == key ==> ClockNeverStepsBack(log, log[k].user)
  }

  // Under such a clock, an event is refused exactly when one with its key was accepted, its user has not
  // cleared the history since and had fewer events since than the rows kept: 20000 and those accepted
  // since the user's rows were last cut.
  lemma {:induction false} ReplaysAreRefusedExactly(cache: Cache, states: seq<State>, calls: seq<Call>, i: nat,
                                                    user: int, event: Event, now: int)
    requires IsRun(cache, states, calls) && i < |calls| && calls[i] == Playback(user, event, now)
    requires SteadyFor(states[i].accepted, event.key)
    ensures states[i + 1] == states[i]
            <==> exists k :: 0 <= k < |states[i].accepted| && states[i].accepted[k].data.key == event.key
                             && Kept(states[i].accepted, k, states[i].logs.retention)
  {
    RunKeepsInv(cache, states, calls, i);
    var s := states[i];
    assert StepAt(cache, states, calls, i);
    if KeyUsed(s.logs.events, event.key) {
      var r :| r in s.logs.events && r.data.key == event.key;
      var k :| 0 <= k < |s.accepted| && s.accepted[k] == r;
      assert ClockNeverStepsBack(s.accepted, s.accepted[k].user);
      assert Kept(s.accepted, k, s.logs.retention);
    }
    if k :| 0 <= k < |s.accepted| && s.accepted[k].data.key == event.key && Kept(s.accepted, k, s.logs.retention) {
      assert ClockNeverStepsBack(s.accepted, s.accepted[k].user);
      assert s.accepted[k] in s.logs.events;
    }
  }

  // Right after a user cleared the history an event is refused exactly when a row of another user has
  // its key: all the user's own events are accepted again.
  lemma {:induction false} ClearingForgetsExactly(cache: Cache, states: seq<State>, calls: seq<Call>, i: nat,
                                                  event: Event)
    requires IsRun(cache, states, calls) && i + 1 < |calls| && calls[i].Clear?
    requires calls[i + 1].Playback? && calls[i + 1].event == event
    ensures states[i + 2] == states[i + 1]
            <==> exists r :: r in states[i].logs.events && r.user != calls[i].user && r.data.key == event.key
  {
    assert StepAt(cache, states, calls, i) && StepAt(cache, states, calls, i + 1);
    var before, cleared := states[i], states[i + 1];
    assert cleared.logs.events == before.logs.events - UserRows(before.logs.events, calls[i].user);
    if KeyUsed(cleared.logs.events, event.key) {
      var r :| r in cleared.logs.events && r.data.key == event.key;
      assert r in before.logs.events && r.user != calls[i].user;
    }
  }

  // The n-th event of one user starting song after song.
  function NthEvent(n: nat): Event {
    Event(NthKey(n), "", PlayStarted, None)
  }

  function NthKey(n: nat): (key: string)
    ensures |key| == n + 1
  {
    if n == 0 then "k" else NthKey(n - 1) + "k"
  }

  // What such an event does to a store that has not its key.
  function Started(s: State, event: Event): State {
    var row := Row(s.nextEventId, 0, 0, event);
    s.(logs := ScheduledPlayback(Inserted(s.logs, row, s.nextHistoryId), 0, false),
       nowPlaying := NowPlaying(s.nowPlaying, row), nextEventId := s.nextEventId + 1, accepted := s.accepted + [row])
  }

  lemma {:induction false} StartedIsPersisted(cache: Cache, s: State, event: Event)
    requires DistinctIds(s.logs.events) && !KeyUsed(s.logs.events, event.key) && event.kind.PlayStarted?
             && event.session.None?
    ensures Step(cache, s, Playback(0, event, 0), Started(s, event))
  {
    var row := Row(s.nextEventId, 0, 0, event);
    assert Previous(s.logs.events, 0, event) == None;
    assert Persisted(cache, s, Started(s, event), row);
  }

  // n events of the user accepted one after the other, at one time.
  ghost predicate Filled(s: State, n: nat) {
    && |s.accepted| == n && CountersOf(s.logs.retention, 0).playback == n % RETENTION_BATCH
    && forall k :: 0 <= k < n ==> s.accepted[k].user == 0 && s.accepted[k].at == 0 && s.accepted[k].data == NthEvent(k)
  }

  lemma {:induction false} FillsUp(s: State, n: nat)
    requires Filled(s, n)
    ensures Filled(Started(s, NthEvent(n)), n + 1)
  {
  }

  lemma {:induction false} KeyIsNew(cache: Cache, s: State, n: nat)
    requires Inv(cache, s) && Filled(s, n)
    ensures !KeyUsed(s.logs.events, NthEvent(n).key)
  {
    forall r | r in s.logs.events ensures r.data.key != NthEvent(n).key {
      var k :| 0 <= k < |s.accepted| && s.accepted[k] == r;
      assert r.data == NthEvent(k);
    }
  }

  lemma {:induction false} FilledRun(cache: Cache, n: nat) returns (states: seq<State>, calls: seq<Call>)
    ensures IsRun(cache, states, calls) && |calls| == n && Filled(states[n], n)
  {
    states, calls := [EMPTY], [];
    for i := 0 to n
      invariant IsRun(cache, states, calls) && |calls| == i && Filled(states[i], i)
    {
      RunKeepsInv(cache, states, calls, i);
      KeyIsNew(cache, states[i], i);
      StartedIsPersisted(cache, states[i], NthEvent(i));
      var after := Started(states[i], NthEvent(i));
      FillsUp(states[i], i);
      OneMoreCall(cache, states, calls, Playback(0, NthEvent(i), 0), after);
      states, calls := states + [after], calls + [Playback(0, NthEvent(i), 0)];
    }
  }

  lemma {:induction false} AllOfOneUser(log: seq<EventRow>, user: int)
    requires forall k :: 0 <= k < |log| ==> log[k].user == user
    ensures CountUser(log, user) == |log|
  {
    if log != [] {
      AllOfOneUser(log[1..], user);
    }
  }

  // After 79 batches the first event is forgotten.
  const FORGETTING := 79 * RETENTION_BATCH

  lemma {:induction false} FirstIsForgotten(s: State)
    requires Filled(s, FORGETTING)
    ensures !Kept(s.accepted, 0, s.logs.retention)
    ensures forall k :: 0 <= k < |s.accepted| && s.accepted[k].data.key == NthEvent(0).key ==> k == 0
  {
    AllOfOneUser(s.accepted[1..], 0);
    assert FORGETTING % RETENTION_BATCH == 0;
    forall k | 0 <= k < |s.accepted| && s.accepted[k].data.key == NthEvent(0).key ensures k == 0 {
      assert s.accepted[k].data == NthEvent(k);
    }
  }

  // The call at i repeats an accepted event of the same user and is accepted again.
  ghost predicate AcceptsReplay(cache: Cache, states: seq<State>, calls: seq<Call>, i: nat, k: nat) {
    && IsRun(cache, states, calls) && i < |calls| && calls[i].Playback?
    && k < |states[i].accepted| && states[i].accepted[k].user == calls[i].user
    && states[i].accepted[k].data == calls[i].event && SteadyFor(states[i].accepted, calls[i].event.key)
    && states[i + 1] != states[i]
  }

  lemma {:induction false} ReplayIsNotRefused(cache: Cache, states: seq<State>, calls: seq<Call>)
    requires IsRun(cache, states, calls) && |calls| == FORGETTING + 1 && Filled(states[FORGETTING], FORGETTING)
    requires calls[FORGETTING] == Playback(0, NthEvent(0), 0)
    ensures AcceptsReplay(cache, states, calls, FORGETTING, 0)
  {
    FirstIsForgotten(states[FORGETTING]);
    assert ClockNeverStepsBack(states[FORGETTING].accepted, 0);
    ReplaysAreRefusedExactly(cache, states, calls, FORGETTING, 0, NthEvent(0), 0);
  }

  // A forgotten event can be accepted twice.
  lemma {:induction false} OldReplaysCanBeAccepted(cache: Cache)
    ensures exists states, calls, i, k :: AcceptsReplay(cache, states, calls, i, k)
  {
    var states, calls := FilledRun(cache, FORGETTING);
    var s := states[FORGETTING];
    RunKeepsInv(cache, states, calls, FORGETTING);
    var after := if KeyUsed(s.logs.events, NthEvent(0).key) then s else Started(s, NthEvent(0));
    if !KeyUsed(s.logs.events, NthEvent(0).key) {
      StartedIsPersisted(cache, s, NthEvent(0));
    }
    OneMoreCall(cache, states, calls, Playback(0, NthEvent(0), 0), after);
    ReplayIsNotRefused(cache, states + [after], calls + [Playback(0, NthEvent(0), 0)]);
  }

  // ----- Conservation across tables -----

  function TableScore(tracks: map<TrackKey, Track>, user: int, songs: seq<string>): int {
    if songs == [] then 0 else TrackOf(tracks, user, songs[0]).score + TableScore(tracks, user, songs[1..])
  }

  lemma {:induction false} TableScoreIsScoreSum(tracks: map<TrackKey, Track>, log: seq<EventRow>, user: int,
                                                songs: seq<string>)
    requires TracksConserved(tracks, log)
    ensures TableScore(tracks, user, songs) == ScoreSum(log, user, songs)
  {
    if songs != [] {
      TableScoreIsScoreSum(tracks, log, user, songs[1..]);
    }
  }

  // In every state of every run an artist's or album's positive minus negative weight is the sum
  // of the preference scores of its tracks.
  lemma {:induction false} PreferencesAgree(cache: Cache, states: seq<State>, calls: seq<Call>, i: nat,
                         table: Table, user: int, key: string, songs: seq<string>)
    requires IsRun(cache, states, calls) && i < |states|
    requires table != Genres && ListsSongsOf(cache, table, key, songs)
    ensures var net := EntityOf(states[i].entities, EntityKey(table, user, key));
            net.positive - net.negative == TableScore(states[i].tracks, user, songs)
  {
    RunKeepsInv(cache, states, calls, i);
    NetIsSumOfTracks(cache, states[i].accepted, table, user, key, songs);
    TableScoreIsScoreSum(states[i].tracks, states[i].accepted, user, songs);
  }

  // In every state of every run a track's row counts the user's accepted events by kind, and its score is
  // their weighted sum.
  lemma {:induction false} TracksCountEvents(cache: Cache, states: seq<State>, calls: seq<Call>, i: nat, user: int,
                                             song: string)
    requires IsRun(cache, states, calls) && i < |states|
    ensures var log, track := states[i].accepted, TrackOf(states[i].tracks, user, song);
            && track.qualifiedPlays == Times(log, user, song, QualifiedPlay)
            && track.completions == Times(log, user, song, Completed)
            && track.earlySkips == Times(log, user, song, EarlySkip) + Times(log, user, song, Disliked)
            && track.queueAdds == Times(log, user, song, ManualQueueAdd)
            && track.playlistAdds == Times(log, user, song, PlaylistAdd)
            && track.score == WeightedSum(log, user, song)
  {
    RunKeepsInv(cache, states, calls, i);
    TrackCountsKinds(states[i].accepted, user, song);
    ScoreIsWeightedSum(states[i].accepted, user, song);
  }

  // A user's outgoing edges from one song are at most 50, never a self-loop.
  lemma {:induction false} TransitionsStayCapped(cache: Cache, states: seq<State>, calls: seq<Call>, i: nat, user: int,
                                                 from: string)
    requires IsRun(cache, states, calls) && i < |states|
    ensures |T.Group(states[i].transitions, user, from)| <= 50
    ensures forall e :: e in states[i].transitions ==> T.GoodEdge(e, states[i].transitions[e])
  {
    RunKeepsInv(cache, states, calls, i);
  }

  // ----- The store object -----

  method Serve(store: PlaybackStore, call: Call)
    requires DistinctIds(store.events)
    modifies store
    ensures Step(store.cache, old(store.Snapshot()), call, store.Snapshot())
  {
    match call
    case Playback(user, event, now) =>
      var _, _ := store.PersistPlaybackEvent(user, event, now);
    case Listen(user, song, now) => store.AddListen(user, song, now);
    case Cast(user, song, now) => store.AddCastListen(user, song, now);
    case Clear(user) => store.ClearPersonalHistory(user);
  }

  lemma {:induction false} RunHasIds(cache: Cache, states: seq<State>, calls: seq<Call>, i: nat)
    requires IsRun(cache, states, calls) && i < |states|
    ensures DistinctIds(states[i].logs.events)
  {
    RunKeepsInv(cache, states, calls, i);
  }

  // Whatever calls a new store serves, it goes through a run, and so has all that runs have.
  method ServeAll(store: PlaybackStore, calls: seq<Call>) returns (ghost states: seq<State>)
    requires store.Snapshot() == EMPTY
    modifies store
    ensures IsRun(store.cache, states, calls) && store.Snapshot() == states[|calls|]
    ensures Inv(store.cache, store.Snapshot())
  {
    states := [EMPTY];
    for i := 0 to |calls|
      invariant IsRun(store.cache, states, calls[..i]) && store.Snapshot() == states[i]
    {
      RunHasIds(store.cache, states, calls[..i], i);
      Serve(store, calls[i]);
      OneMoreCall(store.cache, states, calls[..i], calls[i], store.Snapshot());
      assert calls[..i + 1] == calls[..i] + [calls[i]];
      states := states + [store.Snapshot()];
    }
    assert calls[..|calls|] == calls;
    RunKeepsInv(store.cache, states, calls, |calls|);
  }
}
