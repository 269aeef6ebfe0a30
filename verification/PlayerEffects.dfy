/**
 What each callback of the mobile player does, told entry by entry and field by field from the state
 before it.
 */
module PlayerEffects {
  import opened Wrappers
  import opened ShuffleQueue
  import opened QueueEdits
  import opened Player

  // ----- Loading -----

  // A load of the current entry was begun: only the lists, the index and shuffle may differ otherwise.
  ghost predicate Loads(s: State, t: State, plays: bool) {
    && 0 <= t.currentIndex < |t.queue|
    && var song := t.queue[t.currentIndex];
    t == s.(queue := t.queue, originalQueue := t.originalQueue, currentIndex := t.currentIndex, shuffle := t.shuffle,
            sequence := s.sequence + 1, radioRequest := s.radioRequest + 1, desired := plays, failed := false,
            source := None, requests := s.requests + {Request(s.sequence + 1, song)}, loaded := Some(song))
  }

  // Entry k of the list is loaded and the queue shows the list as it is.
  ghost predicate Shows(s: State, t: State, songs: seq<Song>, k: int) {
    Loads(s, t, true) && t.queue == songs && t.currentIndex == k
  }

  // Entry k of the list is loaded and leads the queue, which holds the list in some order.
  ghost predicate Mixes(s: State, t: State, songs: seq<Song>, k: int) {
    Loads(s, t, true) && multiset(t.queue) == multiset(songs) && t.currentIndex == 0
    && 0 <= k < |songs| && t.queue[0] == songs[k]
  }

  // The place in a list of n entries nearest to the index.
  ghost predicate IsNearest(k: int, index: int, n: nat) {
    0 <= k < n && (index < 0 ==> k == 0) && (index >= n ==> k == n - 1) && (0 <= index < n ==> k == index)
  }

  lemma {:induction false} ShuffledLeads(songs: seq<Song>, index: int, random: nat -> real, k: int)
    requires UnitDraws(random) && IsNearest(k, index, |songs|)
    ensures var (i, shuffled) := Shuffled(songs, index, random);
            i == 0 && multiset(shuffled) == multiset(songs) && shuffled[0] == songs[k]
  {
    ShufflePermutes(songs, index, random);
  }

  lemma {:induction false} LoadShows(s: State, songs: seq<Song>, k: int, random: nat -> real)
    requires UnitDraws(random) && 0 <= k < |songs| && !s.shuffle
    ensures var t := LoadAt(s, songs, k, true, false, random);
            Shows(s, t, songs, k) && t.originalQueue == songs && t.shuffle == s.shuffle
  {
  }

  lemma {:induction false} LoadMixes(s: State, songs: seq<Song>, k: int, random: nat -> real)
    requires UnitDraws(random) && 0 <= k < |songs| && s.shuffle
    ensures var t := LoadAt(s, songs, k, true, false, random);
            Mixes(s, t, songs, k) && t.originalQueue == songs && t.shuffle == s.shuffle
  {
    assert IsNearest(k, k, |songs|);
    ShuffledLeads(songs, k, random, k);
  }

  // The first entry with the song's id is loaded, or the first entry; all of the list is remembered.
  lemma {:induction false} PlaySongLoads(s: State, song: Song, songs: seq<Song>, random: nat -> real, k: int)
    requires UnitDraws(random) && 0 <= k < |songs|
    requires if songs[k].id == song.id then forall j :: 0 <= j < k ==> songs[j].id != song.id
             else k == 0 && forall j :: 0 <= j < |songs| ==> songs[j].id != song.id
    ensures var t := PlaySong(s, song, songs, random);
            && t.originalQueue == songs && t.shuffle == s.shuffle
            && (if s.shuffle then Mixes(s, t, songs, k) else Shows(s, t, songs, k))
  {
    var found := FirstIndex(songs, song.id);
    assert (if found < 0 then 0 else found) == k;
    if s.shuffle {
      LoadMixes(s, songs, k, random);
    } else {
      LoadShows(s, songs, k, random);
    }
  }

  lemma {:induction false} PlayNothing(s: State, song: Song, random: nat -> real)
    requires UnitDraws(random)
    ensures PlaySong(s, song, [], random) == s.(originalQueue := [])
  {
  }

  lemma {:induction false} PlayShuffledLoads(s: State, songs: seq<Song>, selected: nat, random: nat -> real, k: int)
    requires UnitDraws(random) && IsNearest(k, selected, |songs|)
    ensures var t := PlayShuffled(s, songs, selected, random);
            Mixes(s, t, songs, k) && t.originalQueue == songs && t.shuffle
  {
    ShuffledLeads(songs, selected, random, k);
  }

  lemma {:induction false} ShuffleNothing(s: State, selected: nat, random: nat -> real)
    requires UnitDraws(random)
    ensures PlayShuffled(s, [], selected, random) == s
  {
  }

  // The entry is loaded in place; an index that names none does nothing.
  ghost predicate LoadsShown(s: State, t: State, index: int) {
    if 0 <= index < |s.queue|
    then Shows(s, t, s.queue, index) && t.originalQueue == s.originalQueue && t.shuffle == s.shuffle
    else t == s
  }

  lemma {:induction false} PlayAtLoads(s: State, index: int)
    ensures LoadsShown(s, Step(s, DoPlayAt(index)), index)
  {
  }

  // The current entry starts again if it has no source or failed, else it plays on.
  lemma {:induction false} PlayLoads(s: State)
    ensures var t := Step(s, DoPlay);
            if s.currentIndex < 0 || s.currentIndex >= |s.queue| then t == s
            else if s.source == None || s.failed then LoadsShown(s, t, s.currentIndex) else t == s.(desired := true)
  {
    PlayAtLoads(s, s.currentIndex);
  }

  // The entry behind the current one or, behind the last when all is repeated, the first.
  lemma {:induction false} NextLoads(s: State)
    ensures s.queue != [] ==>
              var t, last := Step(s, DoNext), s.currentIndex + 1 >= |s.queue|;
              if last && s.repeat != RepeatAll then t == s.(desired := false)
              else LoadsShown(s, t, if last then 0 else s.currentIndex + 1)
    ensures s.queue == [] ==> Step(s, DoNext) == s
  {
    PlayAtLoads(s, 0);
    PlayAtLoads(s, s.currentIndex + 1);
  }

  // The entry before the current one, if the track has only begun.
  lemma {:induction false} PreviousLoads(s: State, pastIntro: bool)
    ensures var t := Step(s, DoPrevious(pastIntro));
            if pastIntro || s.currentIndex <= 0 then t == s else LoadsShown(s, t, s.currentIndex - 1)
  {
    PlayAtLoads(s, s.currentIndex - 1);
  }

  // Pausing, and the output beginning to play, change nothing else.
  lemma {:induction false} PauseAndStart(s: State)
    ensures Step(s, DoPause) == s.(desired := false) && Step(s, DoStarted) == s.(desired := true)
  {
  }

  // The end of a track: the same entry again, the next one, the first one, or playing stops, and a ready
  // session asks for a radio queue if there was a current song.
  lemma {:induction false} EndedLoads(s: State, ready: bool)
    ensures var t, last := Step(s, DoEnded(ready)), s.currentIndex + 1 >= |s.queue|;
            if s.repeat == RepeatOne then LoadsShown(s, t, s.currentIndex)
            else if !last then LoadsShown(s, t, s.currentIndex + 1)
            else if s.repeat == RepeatAll then LoadsShown(s, t, 0)
            else if ready && 0 <= s.currentIndex < |s.queue| then
              t == s.(desired := false, radioRequest := s.radioRequest + 1, radios := s.radios + {s.radioRequest + 1})
            else t == s.(desired := false)
  {
    PlayAtLoads(s, s.currentIndex);
    PlayAtLoads(s, s.currentIndex + 1);
    PlayAtLoads(s, 0);
  }

  // The newest radio request plays its songs from the first, unshuffled; any other answer is dropped.
  lemma {:induction false} RadioReplyLoads(s: State, request: nat, songs: seq<Song>)
    ensures var t := RadioReply(s, request, songs);
            if request == s.radioRequest && songs != [] then
              Shows(s.(radios := s.radios - {request}), t, songs, 0) && t.originalQueue == songs && !t.shuffle
            else t == s.(radios := s.radios - {request})
  {
  }

  // ----- Queue edits -----

  // Only the lists, the index and shuffle may differ.
  ghost predicate Edits(s: State, t: State) {
    t == s.(queue := t.queue, originalQueue := t.originalQueue, currentIndex := t.currentIndex, shuffle := t.shuffle)
  }

  // The song stands at place k, the entries before and behind it are the old ones.
  ghost predicate Inserts(before: seq<Song>, after: seq<Song>, song: Song, k: int) {
    0 <= k <= |before| && |after| == |before| + 1 && after[k] == song
    && (forall j :: 0 <= j < k ==> after[j] == before[j])
    && (forall j :: k <= j < |before| ==> after[j + 1] == before[j])
  }

  // Behind the current entry of the queue, and in the original order behind the first entry with the
  // current id; without one, first in the queue and last in the original order.
  lemma {:induction false} AddNextInserts(s: State, song: Song, k: int)
    requires -1 <= s.currentIndex < |s.queue| && 0 <= k < |s.originalQueue|
    ensures var t := AddNext(s, song);
            && Edits(s, t) && t.currentIndex == s.currentIndex && t.shuffle == s.shuffle
            && Inserts(s.queue, t.queue, song, s.currentIndex + 1)
            && (s.currentIndex >= 0 ==>
                  var id := s.queue[s.currentIndex].id;
                  s.originalQueue[k].id == id && (forall j :: 0 <= j < k ==> s.originalQueue[j].id != id) ==>
                    Inserts(s.originalQueue, t.originalQueue, song, k + 1))
  {
  }

  lemma {:induction false} AddNextInsertsLast(s: State, song: Song)
    requires -1 <= s.currentIndex < |s.queue|
    requires s.currentIndex >= 0 ==> forall j :: 0 <= j < |s.originalQueue| ==>
                                       s.originalQueue[j].id != s.queue[s.currentIndex].id
    ensures var t := AddNext(s, song);
            && Edits(s, t) && t.currentIndex == s.currentIndex && t.shuffle == s.shuffle
            && Inserts(s.queue, t.queue, song, s.currentIndex + 1)
            && Inserts(s.originalQueue, t.originalQueue, song, |s.originalQueue|)
  {
  }

  lemma {:induction false} AddToQueueAppends(s: State, songs: seq<Song>)
    ensures var t := AddToQueue(s, songs);
            && Edits(s, t) && t.currentIndex == s.currentIndex && t.shuffle == s.shuffle
            && t.queue == s.queue + songs && t.originalQueue == s.originalQueue + songs
  {
  }

  // Entry k is gone and the others keep their order.
  ghost predicate Loses(before: seq<Song>, after: seq<Song>, k: int) {
    0 <= k < |before| && |after| == |before| - 1
    && (forall j :: 0 <= j < k ==> after[j] == before[j])
    && (forall j :: k <= j < |after| ==> after[j] == before[j + 1])
  }

  // How many of the first n entries have the id.
  ghost function CountIn(songs: seq<Song>, n: nat, id: string): nat
    requires n <= |songs|
  {
    multiset(Ids(songs[..n]))[id]
  }

  // Entry j is the count-th of its id.
  ghost predicate IsNth(songs: seq<Song>, j: int, id: string, count: nat) {
    0 <= j < |songs| && songs[j].id == id && CountIn(songs, j + 1, id) == count
  }

  lemma {:induction false} DropsNth(songs: seq<Song>, j: int, id: string, count: nat)
    requires IsNth(songs, j, id, count)
    ensures Loses(songs, WithoutOccurrence(songs, id, count), j)
  {
    OccurrencesCountIds(songs[..j + 1], id);
    DropsSameIndex(songs, j);
  }

  lemma {:induction false} NthExists(songs: seq<Song>, id: string, count: nat) returns (j: int)
    requires 1 <= count <= CountIn(songs, |songs|, id)
    ensures IsNth(songs, j, id, count)
  {
    assert songs[..|songs|] == songs;
    var n := |songs| - 1;
    assert songs == songs[..n] + [songs[n]];
    IdsOfConcat(songs[..n], [songs[n]]);
    assert Ids([songs[n]]) == [songs[n].id];
    if count <= CountIn(songs, n, id) {
      assert songs[..n][..n] == songs[..n];
      j := NthExists(songs[..n], id, count);
      assert songs[..n][..j + 1] == songs[..j + 1];
    } else {
      j := n;
    }
  }

  lemma {:induction false} NothingToDrop(songs: seq<Song>, id: string, count: nat)
    requires IdBag(songs)[id] < count
    ensures WithoutOccurrence(songs, id, count) == songs
  {
    if songs != [] {
      IdsOfHead(songs);
      NothingToDrop(songs[1..], id, if songs[0].id == id then count - 1 else count);
    }
  }

  // An entry other than the current one goes; the original order loses the entry of its id that has as
  // many before it, if there is one. Any other index changes nothing.
  lemma {:induction false} RemoveDrops(s: State, index: int)
    ensures index < 0 || index >= |s.queue| || index == s.currentIndex ==> RemoveFromQueue(s, index) == s
    ensures 0 <= index < |s.queue| && index != s.currentIndex ==>
              var t, id := RemoveFromQueue(s, index), s.queue[index].id;
              var count := CountIn(s.queue, index + 1, id);
              && Edits(s, t) && t.shuffle == s.shuffle && Loses(s.queue, t.queue, index)
              && t.currentIndex == (if index < s.currentIndex then s.currentIndex - 1 else s.currentIndex)
              && (if CountIn(s.originalQueue, |s.originalQueue|, id) >= count
                  then exists j :: IsNth(s.originalQueue, j, id, count) && Loses(s.originalQueue, t.originalQueue, j)
                  else t.originalQueue == s.originalQueue)
  {
    if 0 <= index < |s.queue| && index != s.currentIndex {
      var id := s.queue[index].id;
      var count := CountIn(s.queue, index + 1, id);
      OccursAtEnd(s.queue, index);
      OccurrencesCountIds(s.queue[..index + 1], id);
      if CountIn(s.originalQueue, |s.originalQueue|, id) >= count {
        var j := NthExists(s.originalQueue, id, count);
        DropsNth(s.originalQueue, j, id, count);
      } else {
        assert s.originalQueue[..|s.originalQueue|] == s.originalQueue;
        NothingToDrop(s.originalQueue, id, count);
      }
    }
  }

  // The entries at the given places are left, in order.
  ghost predicate Keeps(before: seq<Song>, after: seq<Song>, at: seq<nat>) {
    && |at| == |after|
    && (forall i :: 0 <= i < |at| ==> at[i] < |before| && after[i] == before[at[i]])
    && (forall i, j :: 0 <= i < j < |at| ==> at[i] < at[j])
  }

  // The id of entry j occurs up to it no more often than the budget has it.
  ghost predicate IsPaid(songs: seq<Song>, j: nat, budget: multiset<string>) {
    j < |songs| && CountIn(songs, j + 1, songs[j].id) <= budget[songs[j].id]
  }

  ghost predicate KeepsPaid(before: seq<Song>, after: seq<Song>, budget: multiset<string>, at: seq<nat>) {
    Keeps(before, after, at) && forall j: nat :: j in at <==> IsPaid(before, j, budget)
  }

  lemma {:induction false} CountFromSecond(songs: seq<Song>, n: nat, id: string)
    requires 0 < n <= |songs|
    ensures CountIn(songs, n, id) == CountIn(songs[1..], n - 1, id) + if songs[0].id == id then 1 else 0
  {
    IdsOfHead(songs[..n]);
    assert songs[..n][1..] == songs[1..][..n - 1];
  }

  function Later(at: seq<nat>): (r: seq<nat>)
    ensures |r| == |at| && forall i :: 0 <= i < |at| ==> r[i] == at[i] + 1
  {
    seq(|at|, i requires 0 <= i < |at| => at[i] + 1)
  }

  lemma {:induction false} LaterPlaces(at: seq<nat>, j: nat)
    ensures j in Later(at) <==> j > 0 && j - 1 in at
  {
    if j > 0 && j - 1 in at {
      var i :| 0 <= i < |at| && at[i] == j - 1;
      assert Later(at)[i] == j;
    }
  }

  lemma {:induction false} PaidFromSecond(songs: seq<Song>, j: nat, budget: multiset<string>)
    requires 0 < j < |songs|
    ensures IsPaid(songs, j, budget) <==> IsPaid(songs[1..], j - 1, budget - multiset{songs[0].id})
  {
    CountFromSecond(songs, j + 1, songs[j].id);
    CountsItself(songs[1..], j - 1);
  }

  lemma {:induction false} CountsItself(songs: seq<Song>, j: nat)
    requires j < |songs|
    ensures CountIn(songs, j + 1, songs[j].id) >= 1
  {
    assert Ids(songs[..j + 1])[j] == songs[j].id;
  }

  lemma {:induction false} FirstIsPaid(songs: seq<Song>, budget: multiset<string>)
    requires songs != []
    ensures IsPaid(songs, 0, budget) <==> songs[0].id in budget
  {
    assert songs[..1] == [songs[0]] && Ids([songs[0]]) == [songs[0].id];
  }

  lemma {:induction false} PaidPlaces(songs: seq<Song>, budget: multiset<string>, rest: seq<nat>, j: nat)
    requires songs != [] && forall i: nat :: i in rest <==> IsPaid(songs[1..], i, budget - multiset{songs[0].id})
    ensures j in (if songs[0].id in budget then [0] + Later(rest) else Later(rest)) <==> IsPaid(songs, j, budget)
  {
    FirstIsPaid(songs, budget);
    LaterPlaces(rest, j);
    if 0 < j < |songs| {
      PaidFromSecond(songs, j, budget);
    }
  }

  lemma {:induction false} KeepsLater(songs: seq<Song>, after: seq<Song>, at: seq<nat>)
    requires songs != [] && Keeps(songs[1..], after, at)
    ensures Keeps(songs, after, Later(at)) && Keeps(songs, [songs[0]] + after, [0] + Later(at))
  {
  }

  lemma {:induction false} BudgetKeeps(songs: seq<Song>, budget: multiset<string>) returns (at: seq<nat>)
    ensures KeepsPaid(songs, KeepWithin(songs, budget), budget, at)
  {
    at := [];
    if songs != [] {
      var rest := BudgetKeeps(songs[1..], budget - multiset{songs[0].id});
      assert songs[0].id !in budget ==> budget - multiset{songs[0].id} == budget;
      KeepsLater(songs, KeepWithin(songs[1..], budget - multiset{songs[0].id}), rest);
      at := if songs[0].id in budget then [0] + Later(rest) else Later(rest);
      forall j: nat ensures j in at <==> IsPaid(songs, j, budget) {
        PaidPlaces(songs, budget, rest, j);
      }
    }
  }

  // The queue ends with the current entry; the original order keeps the entries the ids of what is left
  // pay for, first ones first. Without an entry behind the current one nothing changes.
  lemma {:induction false} ClearCuts(s: State)
    ensures s.currentIndex < 0 || s.currentIndex >= |s.queue| - 1 ==> ClearUpcoming(s) == s
    ensures 0 <= s.currentIndex < |s.queue| - 1 ==>
              var t := ClearUpcoming(s);
              && Edits(s, t) && t.currentIndex == s.currentIndex && t.shuffle == s.shuffle
              && t.queue == s.queue[..s.currentIndex + 1]
              && exists at :: KeepsPaid(s.originalQueue, t.originalQueue, multiset(Ids(t.queue)), at)
  {
    if 0 <= s.currentIndex < |s.queue| - 1 {
      var at := BudgetKeeps(s.originalQueue, multiset(Ids(s.queue[..s.currentIndex + 1])));
    }
  }

  // Shuffling leads with the current song and remembers the order it found if none was remembered;
  // unshuffling shows the remembered order at the first entry with the current id, which is put in front
  // if the order has none.
  lemma {:induction false} ToggleShuffles(s: State, random: nat -> real, k: int)
    requires UnitDraws(random) && |s.queue| >= 2 && !s.shuffle && IsNearest(k, s.currentIndex, |s.queue|)
    ensures var t := ToggleShuffle(s, random);
            && Edits(s, t) && t.shuffle && t.currentIndex == 0 && t.queue[0] == s.queue[k]
            && multiset(t.queue) == multiset(s.queue)
            && t.originalQueue == (if s.originalQueue == [] then s.queue else s.originalQueue)
  {
    ShuffledLeads(s.queue, s.currentIndex, random, k);
  }

  lemma {:induction false} ToggleRestores(s: State, random: nat -> real, k: int)
    requires UnitDraws(random) && |s.queue| >= 2 && s.shuffle && 0 <= s.currentIndex < |s.queue|
    requires 0 <= k < |s.originalQueue| ==>
               s.originalQueue[k].id == s.queue[s.currentIndex].id
               && forall j :: 0 <= j < k ==> s.originalQueue[j].id != s.queue[s.currentIndex].id
    requires k >= |s.originalQueue| ==>
               forall j :: 0 <= j < |s.originalQueue| ==> s.originalQueue[j].id != s.queue[s.currentIndex].id
    requires k >= 0
    ensures var t := ToggleShuffle(s, random);
            && Edits(s, t) && !t.shuffle && t.originalQueue == s.originalQueue
            && (if k < |s.originalQueue| then t.queue == s.originalQueue && t.currentIndex == k
                else t.queue == [s.queue[s.currentIndex]] + s.originalQueue && t.currentIndex == 0)
  {
  }

  // A queue of fewer than two entries keeps its order, and one without a current entry starts over.
  lemma {:induction false} ToggleOthers(s: State, random: nat -> real)
    requires UnitDraws(random)
    ensures |s.queue| < 2 ==> ToggleShuffle(s, random) == s.(shuffle := !s.shuffle)
    ensures |s.queue| >= 2 && s.shuffle && !(0 <= s.currentIndex < |s.queue|) ==>
              ToggleShuffle(s, random) == s.(queue := s.originalQueue, shuffle := false,
                                             currentIndex := if s.originalQueue == [] then -1 else 0)
  {
  }

  lemma {:induction false} RepeatCycles(s: State)
    ensures var t := CycleRepeat(s);
            t == s.(repeat := t.repeat) && (s.repeat == RepeatNone <==> t.repeat == RepeatAll)
            && (s.repeat == RepeatAll <==> t.repeat == RepeatOne) && (s.repeat == RepeatOne <==> t.repeat == RepeatNone)
  {
  }

  // ----- Sources -----

  // The newest promise installs its source, or reports that it failed; an older one does nothing.
  lemma {:induction false} PromiseSettles(s: State, pending: Request, remote: bool)
    ensures var t := SourceReady(s, pending, remote);
            var source := Source(pending.key, pending.song, remote, 0);
            if pending.key == s.sequence then
              t == s.(requests := s.requests - {pending}, source := Some(source), shown := s.shown + {source})
            else t == s.(requests := s.requests - {pending})
    ensures var t := SourceFailed(s, pending);
            if pending.key == s.sequence then
              t == s.(requests := s.requests - {pending}, desired := false, failed := true)
            else t == s.(requests := s.requests - {pending})
  {
  }

  // A remote source that failed fewer than twice before, while playing is wanted, gets a timer.
  lemma {:induction false} ErrorStartsTimer(s: State, source: Source)
    ensures var t := PlaybackError(s, source);
            if s.desired && source.remote && source.retryCount < 2 then t == s.(timers := s.timers + {source.key})
            else t == s.(desired := false, failed := true)
  {
  }

  // The timer renews the source that failed under the next number, if it is still there and wanted.
  lemma {:induction false} TimerRenews(s: State, failedKey: nat)
    ensures var t := RetryTimer(s, failedKey);
            if s.desired && s.source.Some? && s.source.value.key == failedKey then
              var was := s.source.value;
              var renewed := Source(s.sequence + 1, was.song, was.remote, was.retryCount + 1);
              t == s.(source := Some(renewed), sequence := s.sequence + 1, shown := s.shown + {renewed})
            else t == s
  {
  }

  // The end of the session empties the player; what is on its way stays so.
  lemma {:induction false} ResetEmpties(s: State)
    ensures var t := Reset(s);
            t == EMPTY.(sequence := s.sequence + 1, repeat := s.repeat, radioRequest := s.radioRequest,
                        requests := s.requests, timers := s.timers, radios := s.radios, shown := s.shown)
  {
  }
}
