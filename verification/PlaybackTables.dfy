/**
 The tables one playback event writes, as values: the idempotency log and listen history with
 their retention counters, track and entity preferences, and the transition graph.
 Event weights are whole numbers. A row set stands for a table; rows are ordered by time, then id.
 */
module PlaybackTables {
  import opened Wrappers

  datatype Kind =
    | PlayStarted | ManualSelection | QualifiedPlay | Completed | EarlySkip
    | ManualQueueAdd | PlaylistAdd | RecommendationImpression | RecommendationSelected | Disliked

  function Weight(kind: Kind): int {
    match kind
    case QualifiedPlay => 3
    case Completed => 4
    case ManualQueueAdd => 6
    case PlaylistAdd => 8
    case RecommendationSelected => 2
    case ManualSelection => 2
    case EarlySkip => -5
    case Disliked => -20
    case _ => 0
  }

  predicate IsPositive(kind: Kind) {
    kind.QualifiedPlay? || kind.Completed? || kind.ManualQueueAdd? || kind.PlaylistAdd?
  }

  datatype Row<T> = Row(id: nat, user: int, at: int, data: T)

  // `key` is the trimmed event key.
  datatype Event = Event(key: string, song: string, kind: Kind, session: Option<string>)

  // ----- Row sets ordered by time and id -----

  predicate Newer<T>(a: Row<T>, b: Row<T>) {
    a.at > b.at || (a.at == b.at && a.id > b.id)
  }

  ghost predicate DistinctIds<T>(rows: set<Row<T>>) {
    forall a, b :: a in rows && b in rows && a.id == b.id ==> a == b
  }

  function UserRows<T(==)>(rows: set<Row<T>>, user: int): set<Row<T>> {
    set r | r in rows && r.user == user
  }

  function NewerThan<T(==)>(rows: set<Row<T>>, r: Row<T>): set<Row<T>> {
    set x | x in rows && x.user == r.user && Newer(x, r)
  }

  // DELETE of a user's rows past the first `cap` in order of time, then id, newest first.
  function Pruned<T(==)>(rows: set<Row<T>>, user: int, cap: nat): set<Row<T>> {
    set r | r in rows && (r.user != user || |NewerThan(rows, r)| < cap)
  }

  lemma {:induction false} OldestExists<T>(rows: set<Row<T>>) returns (oldest: Row<T>)
    requires rows != {} && DistinctIds(rows)
    ensures oldest in rows && forall x :: x in rows && x != oldest ==> Newer(x, oldest)
    decreases |rows|
  {
    var r :| r in rows;
    if rows == {r} {
      oldest := r;
    } else {
      var rest := OldestExists(rows - {r});
      assert rows == rows - {r} + {r};
      oldest := if Newer(r, rest) then rest else r;
    }
  }

  lemma {:induction false} NewestExists<T>(rows: set<Row<T>>) returns (newest: Row<T>)
    requires rows != {} && DistinctIds(rows)
    ensures newest in rows && forall x :: x in rows && x != newest ==> Newer(newest, x)
    decreases |rows|
  {
    var r :| r in rows;
    if rows == {r} {
      newest := r;
    } else {
      var rest := NewestExists(rows - {r});
      assert rows == rows - {r} + {r};
      newest := if Newer(r, rest) then r else rest;
    }
  }

  function Newest<T(==)>(rows: set<Row<T>>): (newest: Row<T>)
    requires rows != {} && DistinctIds(rows)
    ensures newest in rows && forall x :: x in rows && x != newest ==> Newer(newest, x)
  {
    assert exists r :: r in rows && forall x :: x in rows && x != r ==> Newer(r, x) by {
      var r := NewestExists(rows);
    }
    var newest :| newest in rows && forall x :: x in rows && x != newest ==> Newer(newest, x);
    newest
  }

  // The kept rows of one user are those with fewer than `cap` newer ones.
  ghost function Top<T>(rows: set<Row<T>>, cap: nat): set<Row<T>> {
    set r | r in rows && |NewerThan(rows, r)| < cap
  }

  lemma {:induction false} TopHasCapRows<T>(rows: set<Row<T>>, user: int, cap: nat)
    requires DistinctIds(rows) && forall r :: r in rows ==> r.user == user
    ensures |Top(rows, cap)| == if |rows| < cap then |rows| else cap
    decreases |rows|
  {
    if |rows| <= cap {
      forall r | r in rows ensures r in Top(rows, cap) {
        SubsetIsSmaller(NewerThan(rows, r), rows - {r});
      }
      assert Top(rows, cap) == rows;
    } else {
      var oldest := OldestExists(rows);
      var rest := rows - {oldest};
      assert NewerThan(rows, oldest) == rest;
      forall r | r in rest ensures NewerThan(rows, r) == NewerThan(rest, r) {
      }
      assert Top(rows, cap) == Top(rest, cap);
      TopHasCapRows(rest, user, cap);
    }
  }

  // Pruning leaves exactly the newest `cap` rows of the user and every row of the others.
  lemma {:induction false} PruneIsExact<T>(rows: set<Row<T>>, user: int, cap: nat)
    requires DistinctIds(rows)
    ensures var kept := Pruned(rows, user, cap);
            && |UserRows(kept, user)| == (if |UserRows(rows, user)| < cap then |UserRows(rows, user)| else cap)
            && (forall other :: other != user ==> UserRows(kept, other) == UserRows(rows, other))
            && (forall k, d :: k in UserRows(kept, user) && d in UserRows(rows, user) - kept ==> Newer(k, d))
  {
    var mine := UserRows(rows, user);
    var kept := Pruned(rows, user, cap);
    forall r | r in mine ensures NewerThan(mine, r) == NewerThan(rows, r) {
    }
    assert UserRows(kept, user) == Top(mine, cap);
    TopHasCapRows(mine, user, cap);
    forall k, d | k in UserRows(kept, user) && d in mine - kept
      ensures Newer(k, d)
    {
      if !Newer(k, d) {
        assert Newer(d, k);
        SubsetIsSmaller(NewerThan(rows, d), NewerThan(rows, k));
      }
    }
  }

  // ----- Retention -----

  const MAX_ROWS_PER_USER := 20000
  const RETENTION_BATCH := 256

  datatype Counters = Counters(playback: int, history: int)

  // For the statements only, no table keeps it: the rows the last cut of a user's history left, and
  // those cast sessions added since.
  datatype SinceCut = SinceCut(left: nat, casts: nat)

  datatype Logs = Logs(
    events: set<Row<Event>>,
    history: set<Row<string>>,
    retention: map<int, Counters>,
    sinceCut: map<int, SinceCut>)

  function CountersOf(retention: map<int, Counters>, user: int): Counters {
    if user in retention then retention[user] else Counters(0, 0)
  }

  function SinceCutOf(sinceCut: map<int, SinceCut>, user: int): SinceCut {
    if user in sinceCut then sinceCut[user] else SinceCut(0, 0)
  }

  function PrunedHistory(logs: Logs, user: int): Logs {
    var kept := Pruned(logs.history, user, MAX_ROWS_PER_USER);
    logs.(history := kept, sinceCut := logs.sinceCut[user := SinceCut(|UserRows(kept, user)|, 0)])
  }

  function PrunedPlayback(logs: Logs, user: int, includeHistory: bool, includeEvents: bool): Logs {
    var cut := if includeEvents then logs.(events := Pruned(logs.events, user, MAX_ROWS_PER_USER)) else logs;
    if includeHistory then PrunedHistory(cut, user) else cut
  }

  function ScheduledPlayback(logs: Logs, user: int, includeHistory: bool): Logs {
    var was := CountersOf(logs.retention, user);
    var now := Counters(was.playback + 1, was.history + if includeHistory then 1 else 0);
    var pruneEvents, pruneHistory := now.playback >= RETENTION_BATCH, now.history >= RETENTION_BATCH;
    var after := Counters(if pruneEvents then 0 else now.playback, if pruneHistory then 0 else now.history);
    PrunedPlayback(logs, user, pruneHistory, pruneEvents).(retention := logs.retention[user := after])
  }

  function ScheduledListen(logs: Logs, user: int): Logs {
    var was := CountersOf(logs.retention, user);
    var due := was.history + 1 >= RETENTION_BATCH;
    PrunedPlayback(logs, user, due, false).(
      retention := logs.retention[user := was.(history := if due then 0 else was.history + 1)])
  }

  // A cast session adds a history row and schedules nothing.
  function WithCast(logs: Logs, row: Row<string>): Logs {
    var since := SinceCutOf(logs.sinceCut, row.user);
    logs.(history := logs.history + {row}, sinceCut := logs.sinceCut[row.user := since.(casts := since.casts + 1)])
  }

  function WithoutUser(logs: Logs, user: int): Logs {
    Logs(logs.events - UserRows(logs.events, user), logs.history - UserRows(logs.history, user),
         logs.retention - {user}, logs.sinceCut - {user})
  }

  // A user's events are at most 20000 and the user's counter, which stays below 256; the user's history
  // is what the last cut left, at most 20000, the other counter, below 256 too, and the cast rows since.
  ghost predicate Bounded(logs: Logs) {
    && DistinctIds(logs.events) && DistinctIds(logs.history)
    && forall user :: BoundedFor(logs, user)
  }

  ghost predicate BoundedFor(logs: Logs, user: int) {
    var counters, since := CountersOf(logs.retention, user), SinceCutOf(logs.sinceCut, user);
    && 0 <= counters.playback < RETENTION_BATCH && 0 <= counters.history < RETENTION_BATCH
    && |UserRows(logs.events, user)| <= MAX_ROWS_PER_USER + counters.playback
    && |UserRows(logs.history, user)| == since.left + counters.history + since.casts
    && since.left <= MAX_ROWS_PER_USER
  }

  lemma {:induction false} InsertCounts<T>(rows: set<Row<T>>, row: Row<T>, user: int)
    requires row !in rows
    ensures |UserRows(rows + {row}, user)| == |UserRows(rows, user)| + if row.user == user then 1 else 0
  {
    if row.user == user {
      assert UserRows(rows + {row}, user) == UserRows(rows, user) + {row};
    } else {
      assert UserRows(rows + {row}, user) == UserRows(rows, user);
    }
  }

  ghost predicate Fresh<T>(rows: set<Row<T>>, row: Row<T>) {
    forall r :: r in rows ==> r.id < row.id
  }

  lemma {:induction false} UserStaysBounded(logs: Logs, inserted: Logs, includeHistory: bool, owner: int, user: int)
    requires BoundedFor(logs, user) && DistinctIds(inserted.events) && DistinctIds(inserted.history)
    requires inserted.retention == logs.retention && inserted.sinceCut == logs.sinceCut
    requires |UserRows(inserted.events, user)| == |UserRows(logs.events, user)| + if user == owner then 1 else 0
    requires |UserRows(inserted.history, user)|
          == |UserRows(logs.history, user)| + if user == owner && includeHistory then 1 else 0
    ensures BoundedFor(ScheduledPlayback(inserted, owner, includeHistory), user)
  {
    PruneIsExact(inserted.events, owner, MAX_ROWS_PER_USER);
    PruneIsExact(inserted.history, owner, MAX_ROWS_PER_USER);
  }

  function Rows<T(==)>(row: Option<Row<T>>): set<Row<T>> {
    if row.Some? then {row.value} else {}
  }

  lemma {:induction false} InsertOptionalCounts<T>(rows: set<Row<T>>, row: Option<Row<T>>, user: int)
    requires row.Some? ==> row.value !in rows
    ensures |UserRows(rows + Rows(row), user)|
         == |UserRows(rows, user)| + if row.Some? && row.value.user == user then 1 else 0
  {
    if row.Some? {
      InsertCounts(rows, row.value, user);
    } else {
      assert rows + Rows(row) == rows;
    }
  }

  lemma {:induction false} ScheduleKeepsDistinct(logs: Logs, user: int, includeHistory: bool)
    requires DistinctIds(logs.events) && DistinctIds(logs.history)
    ensures var after := ScheduledPlayback(logs, user, includeHistory);
            DistinctIds(after.events) && DistinctIds(after.history)
  {
    var after := ScheduledPlayback(logs, user, includeHistory);
    assert after.events <= logs.events && after.history <= logs.history;
  }

  lemma {:induction false} PlaybackStaysBounded(logs: Logs, event: Row<Event>, listen: Option<Row<string>>)
    requires Bounded(logs) && Fresh(logs.events, event)
    requires listen.Some? ==> Fresh(logs.history, listen.value) && listen.value.user == event.user
    ensures var inserted := logs.(events := logs.events + {event}, history := logs.history + Rows(listen));
            Bounded(ScheduledPlayback(inserted, event.user, listen.Some?))
  {
    var inserted := logs.(events := logs.events + {event}, history := logs.history + Rows(listen));
    ScheduleKeepsDistinct(inserted, event.user, listen.Some?);
    forall user ensures BoundedFor(ScheduledPlayback(inserted, event.user, listen.Some?), user) {
      assert BoundedFor(logs, user);
      InsertCounts(logs.events, event, user);
      InsertOptionalCounts(logs.history, listen, user);
      UserStaysBounded(logs, inserted, listen.Some?, event.user, user);
    }
  }

  lemma {:induction false} ListenStaysBounded(logs: Logs, listen: Row<string>)
    requires Bounded(logs) && Fresh(logs.history, listen)
    ensures Bounded(ScheduledListen(logs.(history := logs.history + {listen}), listen.user))
  {
    var inserted := logs.(history := logs.history + {listen});
    var after := ScheduledListen(inserted, listen.user);
    PruneIsExact(inserted.history, listen.user, MAX_ROWS_PER_USER);
    forall user ensures BoundedFor(after, user) {
      assert BoundedFor(logs, user);
      InsertCounts(logs.history, listen, user);
    }
  }

  lemma {:induction false} CastStaysBounded(logs: Logs, cast: Row<string>)
    requires Bounded(logs) && Fresh(logs.history, cast)
    ensures Bounded(WithCast(logs, cast))
  {
    forall user ensures BoundedFor(WithCast(logs, cast), user) {
      assert BoundedFor(logs, user);
      InsertCounts(logs.history, cast, user);
    }
  }

  lemma {:induction false} WithoutRowsOf<T>(rows: set<Row<T>>, user: int, other: int)
    ensures UserRows(rows - UserRows(rows, user), other) == if other == user then {} else UserRows(rows, other)
  {
  }

  lemma {:induction false} ClearStaysBounded(logs: Logs, user: int)
    requires Bounded(logs)
    ensures Bounded(WithoutUser(logs, user))
  {
    forall other ensures BoundedFor(WithoutUser(logs, user), other) {
      assert BoundedFor(logs, other);
      WithoutRowsOf(logs.events, user, other);
      WithoutRowsOf(logs.history, user, other);
    }
  }
}
