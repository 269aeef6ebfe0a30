/** The invariants of the mobile player over every run of its callbacks. */
module PlayerProofs {
  import opened Wrappers
  import opened ShuffleQueue
  import opened QueueEdits
  import opened Player

  // ----- Last load wins -----

  // A load leaves no source and one promise with the newest number, for the new current song.
  lemma {:induction false} LoadKeepsPending(s: State, t: State)
    requires PendingWork(s)
    requires t.sequence == s.sequence + 1 && t.source == None && t.shown == s.shown && t.timers == s.timers
    requires Current(t).Some? && t.loaded == Current(t)
    requires t.requests == s.requests + {Request(t.sequence, t.loaded.value)}
    ensures LastLoadWins(t) && PendingWork(t)
  {
  }

  ghost predicate KeepsCurrent(s: State, t: State) {
    Current(s).Some? ==> Current(t).Some? && Current(t).value.id == Current(s).value.id
  }

  // A queue edit that keeps the current id leaves loading alone.
  lemma {:induction false} EditKeepsPending(s: State, t: State)
    requires LastLoadWins(s) && PendingWork(s)
    requires t.sequence == s.sequence && t.source == s.source && t.shown == s.shown && t.timers == s.timers
    requires t.requests <= s.requests && t.loaded == s.loaded && KeepsCurrent(s, t)
    ensures LastLoadWins(t) && PendingWork(t)
  {
  }

  // Whatever list and index are given, even ones that name no song.
  lemma {:induction false} LoadKeepsInv(s: State, songs: seq<Song>, index: int, autoplay: bool, preserve: bool,
                                        random: nat -> real)
    requires UnitDraws(random) && Inv(s)
    ensures Inv(LoadAt(s, songs, index, autoplay, preserve, random))
  {
    var t := LoadAt(s, songs, index, autoplay, preserve, random);
    if t.sequence == s.sequence {
      EditKeepsPending(s, t);
    } else {
      LoadKeepsPending(s, t);
    }
  }

  lemma {:induction false} ReloadKeepsInv(s: State, index: int)
    requires Inv(s)
    ensures Inv(Reload(s, index))
  {
    LoadKeepsInv(s, s.queue, index, true, true, _ => 0.0);
  }

  // The entry of the shown queue a step loads, if it loads one.
  function Reloads(s: State, a: Action): Option<int> {
    match a
    case DoPlayAt(index) => Some(index)
    case DoPlay => if Current(s).Some? && (s.source.None? || s.failed) then Some(s.currentIndex) else None
    case DoNext => if s.queue == [] then None else Following(s)
    case DoPrevious(pastIntro) => if pastIntro || s.currentIndex - 1 < 0 then None else Some(s.currentIndex - 1)
    case DoEnded(_) => if s.repeat == RepeatOne then Some(s.currentIndex) else Following(s)
    case _ => None
  }

  function Following(s: State): Option<int> {
    if s.currentIndex + 1 < |s.queue| then Some(s.currentIndex + 1)
    else if s.repeat == RepeatAll then Some(0)
    else None
  }

  lemma {:induction false} StepReloads(s: State, a: Action)
    requires Possible(s, a) && Reloads(s, a).Some?
    ensures Step(s, a) == Reload(s, Reloads(s, a).value)
  {
  }

  lemma {:induction false} PlaySongKeepsInv(s: State, song: Song, songs: seq<Song>, random: nat -> real)
    requires Inv(s) && UnitDraws(random)
    ensures Inv(PlaySong(s, song, songs, random))
  {
    var found := FirstIndex(songs, song.id);
    LoadKeepsInv(s, songs, if found < 0 then 0 else found, true, false, random);
  }

  lemma {:induction false} PlayShuffledKeepsInv(s: State, songs: seq<Song>, selected: nat, random: nat -> real)
    requires Inv(s) && UnitDraws(random)
    ensures Inv(PlayShuffled(s, songs, selected, random))
  {
    if songs != [] {
      var (index, shuffled) := Shuffled(songs, selected, random);
      LoadKeepsInv(s.(originalQueue := songs, shuffle := true), shuffled, index, true, true, random);
    }
  }

  lemma {:induction false} RadioReplyKeepsInv(s: State, request: nat, songs: seq<Song>)
    requires Inv(s)
    ensures Inv(RadioReply(s, request, songs))
  {
    var answered := s.(radios := s.radios - {request});
    EditKeepsPending(s, answered);
    if request == s.radioRequest && songs != [] {
      LoadKeepsInv(answered.(originalQueue := songs, shuffle := false), songs, 0, true, true, _ => 0.0);
    }
  }

  lemma {:induction false} SourceReadyKeepsInv(s: State, request: Request, remote: bool)
    requires Inv(s) && request in s.requests
    ensures Inv(SourceReady(s, request, remote))
  {
    if request.key != s.sequence {
      EditKeepsPending(s, SourceReady(s, request, remote));
    }
  }

  lemma {:induction false} RetryTimerKeepsInv(s: State, failedKey: nat)
    requires Inv(s) && failedKey in s.timers
    ensures Inv(RetryTimer(s, failedKey))
  {
    var t := RetryTimer(s, failedKey);
    if t.source != s.source {
      var x :| x in s.shown && x.key == failedKey && x.retryCount < MAX_RETRIES;
      assert x == s.source.value;
    }
  }

  lemma {:induction false} PlaybackErrorKeepsInv(s: State, source: Source)
    requires Inv(s) && source in s.shown
    ensures Inv(PlaybackError(s, source))
  {
  }

  // ----- Editing the two lists -----

  lemma {:induction false} InsertKeepsBags(queue: seq<Song>, original: seq<Song>, a: nat, b: nat, song: Song)
    requires IdBag(queue) == IdBag(original) && a <= |queue| && b <= |original|
    ensures IdBag(InsertAt(queue, a, song)) == IdBag(InsertAt(original, b, song))
  {
    BagOfInsertAt(queue, a, song);
    BagOfInsertAt(original, b, song);
  }

  lemma {:induction false} AddNextKeepsLists(s: State, song: Song)
    requires IndexInRange(s)
    ensures IndexInRange(AddNext(s, song)) && KeepsCurrent(s, AddNext(s, song))
    ensures TwoLists(s) ==> TwoLists(AddNext(s, song))
  {
    if TwoLists(s) {
      InsertKeepsBags(s.queue, s.originalQueue, s.currentIndex + 1, OriginalInsertion(s), song);
    }
  }

  lemma {:induction false} AddToQueueKeepsLists(s: State, songs: seq<Song>)
    requires IndexInRange(s)
    ensures IndexInRange(AddToQueue(s, songs)) && KeepsCurrent(s, AddToQueue(s, songs))
    ensures TwoLists(s) ==> TwoLists(AddToQueue(s, songs))
    ensures InOrder(s) ==> InOrder(AddToQueue(s, songs))
  {
    IdsOfConcat(s.queue, songs);
    IdsOfConcat(s.originalQueue, songs);
  }

  lemma {:induction false} PrefixOccurrences(songs: seq<Song>, n: nat, id: string)
    requires n <= |songs|
    ensures Occurrences(songs[..n], id) <= IdBag(songs)[id]
  {
    OccurrencesCountIds(songs[..n], id);
    assert songs == songs[..n] + songs[n..];
    IdsOfConcat(songs[..n], songs[n..]);
  }

  lemma {:induction false} RemoveKeepsBags(queue: seq<Song>, original: seq<Song>, index: nat)
    requires IdBag(queue) == IdBag(original) && index < |queue|
    ensures var id := queue[index].id;
            var occurrence := Occurrences(queue[..index + 1], id);
            IdBag(RemoveAt(queue, index)) == IdBag(WithoutOccurrence(original, id, occurrence))
  {
    var id := queue[index].id;
    PrefixOccurrences(queue, index + 1, id);
    OccursAtEnd(queue, index);
    BagOfWithoutOccurrence(original, id, Occurrences(queue[..index + 1], id));
    BagOfRemoveAt(queue, index);
    assert IdBag(RemoveAt(queue, index)) == IdBag(queue) - multiset{id};
  }

  lemma {:induction false} RemoveKeepsCurrent(s: State, index: int)
    requires IndexInRange(s)
    ensures IndexInRange(RemoveFromQueue(s, index)) && KeepsCurrent(s, RemoveFromQueue(s, index))
  {
  }

  lemma {:induction false} RemoveKeepsLists(s: State, index: int)
    requires IndexInRange(s)
    ensures IndexInRange(RemoveFromQueue(s, index)) && KeepsCurrent(s, RemoveFromQueue(s, index))
    ensures TwoLists(s) ==> TwoLists(RemoveFromQueue(s, index))
  {
    RemoveKeepsCurrent(s, index);
    if TwoLists(s) && 0 <= index < |s.queue| && index != s.currentIndex {
      RemoveKeepsBags(s.queue, s.originalQueue, index);
    }
  }

  lemma {:induction false} RemoveKeepsOrder(s: State, index: int)
    requires InOrder(s)
    ensures InOrder(RemoveFromQueue(s, index))
  {
    if 0 <= index < |s.queue| && index != s.currentIndex && !s.shuffle {
      DropsSameIndex(s.queue, index);
      var id := s.queue[index].id;
      WithoutOccurrenceSeesIdsOnly(s.queue, s.originalQueue, id, Occurrences(s.queue[..index + 1], id));
    }
  }

  lemma {:induction false} KeptPrefixKeepsBags(queue: seq<Song>, original: seq<Song>, n: nat)
    requires IdBag(queue) == IdBag(original) && n <= |queue|
    ensures IdBag(KeepWithin(original, IdBag(queue[..n]))) == IdBag(queue[..n])
  {
    var kept := queue[..n];
    assert queue == kept + queue[n..];
    IdsOfConcat(kept, queue[n..]);
    BagOfKeepWithin(original, IdBag(kept));
    assert IdBag(original) * IdBag(kept) == IdBag(kept);
  }

  lemma {:induction false} ClearKeepsLists(s: State)
    requires IndexInRange(s)
    ensures IndexInRange(ClearUpcoming(s)) && KeepsCurrent(s, ClearUpcoming(s))
    ensures TwoLists(s) ==> TwoLists(ClearUpcoming(s))
  {
    if 0 <= s.currentIndex < |s.queue| - 1 {
      var n, t := s.currentIndex + 1, ClearUpcoming(s);
      assert t.queue == s.queue[..n] && t.originalQueue == KeepWithin(s.originalQueue, IdBag(s.queue[..n]));
      if TwoLists(s) {
        KeptPrefixKeepsBags(s.queue, s.originalQueue, n);
      }
    }
  }

  lemma {:induction false} KeptPrefixKeepsOrder(queue: seq<Song>, original: seq<Song>, n: nat)
    requires Ids(queue) == Ids(original) && n <= |queue|
    ensures Ids(KeepWithin(original, IdBag(queue[..n]))) == Ids(queue[..n])
  {
    KeepWithinOwnPrefix(queue, n);
    KeepWithinSeesIdsOnly(queue, original, IdBag(queue[..n]));
  }

  lemma {:induction false} ClearKeepsOrder(s: State)
    requires InOrder(s)
    ensures InOrder(ClearUpcoming(s))
  {
    if 0 <= s.currentIndex < |s.queue| - 1 && !s.shuffle {
      var n, t := s.currentIndex + 1, ClearUpcoming(s);
      KeptPrefixKeepsOrder(s.queue, s.originalQueue, n);
      assert t.queue == s.queue[..n] && t.originalQueue == KeepWithin(s.originalQueue, IdBag(s.queue[..n]));
    }
  }

  // With equal id bags, an id of one list occurs in the other.
  lemma {:induction false} IdOccursInBoth(a: seq<Song>, b: seq<Song>, index: nat)
    requires IdBag(a) == IdBag(b) && index < |a|
    ensures exists k :: 0 <= k < |b| && b[k].id == a[index].id
  {
    assert Ids(a)[index] in IdBag(b);
    var k: nat :| k < |Ids(b)| && Ids(b)[k] == a[index].id;
    assert b[k].id == a[index].id;
  }

  lemma {:induction false} ShortListsInOrder(a: seq<Song>, b: seq<Song>)
    requires IdBag(a) == IdBag(b) && |a| < 2
    ensures Ids(a) == Ids(b)
  {
    assert |Ids(a)| == |IdBag(a)| == |IdBag(b)| == |Ids(b)|;
    if |a| == 1 {
      assert Ids(a)[0] in IdBag(b);
    }
  }

  lemma {:induction false} ToggleKeepsLists(s: State, random: nat -> real)
    requires IndexInRange(s) && UnitDraws(random)
    ensures IndexInRange(ToggleShuffle(s, random)) && KeepsCurrent(s, ToggleShuffle(s, random))
    ensures TwoLists(s) ==> TwoLists(ToggleShuffle(s, random)) && InOrder(ToggleShuffle(s, random))
  {
    var t := ToggleShuffle(s, random);
    if |s.queue| < 2 {
      if TwoLists(s) {
        ShortListsInOrder(s.queue, s.originalQueue);
      }
    } else if s.shuffle {
      if TwoLists(s) && Current(s).Some? {
        IdOccursInBoth(s.queue, s.originalQueue, s.currentIndex);
      }
    } else {
      ShufflePermutes(s.queue, s.currentIndex, random);
      PermutationKeepsIdBag(s.queue, t.queue);
    }
  }

  // ----- Every step -----

  // One of the edits of the two lists that loads nothing.
  ghost predicate IsEdit(a: Action) {
    a.DoAddNext? || a.DoAddToQueue? || a.DoRemove? || a.DoClearUpcoming? || a.DoToggleShuffle?
  }

  lemma {:induction false} EditKeepsCurrent(s: State, a: Action)
    requires IndexInRange(s) && Possible(s, a) && IsEdit(a)
    ensures IndexInRange(Step(s, a)) && KeepsCurrent(s, Step(s, a))
  {
    match a
    case DoAddNext(song) => AddNextKeepsLists(s, song);
    case DoAddToQueue(songs) => AddToQueueKeepsLists(s, songs);
    case DoRemove(index) => RemoveKeepsLists(s, index);
    case DoClearUpcoming => ClearKeepsLists(s);
    case DoToggleShuffle(random) => ToggleKeepsLists(s, random);
  }

  lemma {:induction false} EditTouchesListsOnly(s: State, a: Action)
    requires Possible(s, a) && IsEdit(a)
    ensures var t := Step(s, a);
            t == s.(queue := t.queue, originalQueue := t.originalQueue, currentIndex := t.currentIndex,
                    shuffle := t.shuffle)
  {
  }

  lemma {:induction false} EditsKeepInv(s: State, a: Action)
    requires Inv(s) && Possible(s, a) && IsEdit(a)
    ensures Inv(Step(s, a))
  {
    EditKeepsCurrent(s, a);
    EditTouchesListsOnly(s, a);
    EditKeepsPending(s, Step(s, a));
  }

  // A step that loads and edits nothing and has nothing to do with sources.
  ghost predicate IsQuiet(s: State, a: Action) {
    && Reloads(s, a).None? && !IsEdit(a) && !a.DoReset? && !a.DoPlaySong? && !a.DoPlayShuffled? && !a.DoRadioReply?
    && !a.DoSourceReady? && !a.DoRetryTimer? && !a.DoPlaybackError?
  }

  lemma {:induction false} QuietStepIsSmall(s: State, a: Action)
    requires Possible(s, a) && IsQuiet(s, a)
    ensures var t := Step(s, a);
            && t.queue == s.queue && t.currentIndex == s.currentIndex && t.sequence == s.sequence
            && t.source == s.source && t.shown == s.shown && t.timers == s.timers && t.requests <= s.requests
            && t.loaded == s.loaded
  {
  }

  lemma {:induction false} QuietStepKeepsInv(s: State, a: Action)
    requires Inv(s) && Possible(s, a) && IsQuiet(s, a)
    ensures Inv(Step(s, a))
  {
    QuietStepIsSmall(s, a);
    EditKeepsPending(s, Step(s, a));
  }

  lemma {:induction false} StepKeepsInv(s: State, a: Action)
    requires Inv(s) && Possible(s, a)
    ensures Inv(Step(s, a))
  {
    if Reloads(s, a).Some? {
      StepReloads(s, a);
      ReloadKeepsInv(s, Reloads(s, a).value);
    } else if IsEdit(a) {
      EditsKeepInv(s, a);
    } else {
      match a
      case DoPlaySong(song, songs, random) => PlaySongKeepsInv(s, song, songs, random);
      case DoPlayShuffled(songs, selected, random) => PlayShuffledKeepsInv(s, songs, selected, random);
      case DoRadioReply(request, songs) => RadioReplyKeepsInv(s, request, songs);
      case DoSourceReady(pending, remote) => SourceReadyKeepsInv(s, pending, remote);
      case DoPlaybackError(source) => PlaybackErrorKeepsInv(s, source);
      case DoRetryTimer(key) => RetryTimerKeepsInv(s, key);
      case DoReset =>
      case _ => QuietStepKeepsInv(s, a);
    }
  }

  // In every state of every run the index is in range and the last load wins.
  lemma {:induction false} RunKeepsInv(states: seq<State>, actions: seq<Action>, i: nat)
    requires IsRun(states, actions) && i < |states|
    ensures Inv(states[i])
  {
    if i > 0 {
      RunKeepsInv(states, actions, i - 1);
      assert StepAt(states, actions, i - 1);
      StepKeepsInv(states[i - 1], actions[i - 1]);
    }
  }

  // What a listener sees: in every reachable state the audio source belongs to the current song,
  // carries the newest number and was retried at most twice.
  lemma {:induction false} SourceIsCurrent(states: seq<State>, actions: seq<Action>, i: nat)
    requires IsRun(states, actions) && i < |states| && states[i].source.Some?
    ensures var s := states[i];
            && Current(s).Some? && Current(s).value.id == s.source.value.song.id
            && s.source.value.key == s.sequence && s.loaded == Some(s.source.value.song)
            && s.source.value.retryCount <= MAX_RETRIES
  {
    RunKeepsInv(states, actions, i);
  }

  // ----- Two lists -----

  lemma {:induction false} LoadKeepsLists(s: State, songs: seq<Song>, index: int, autoplay: bool, preserve: bool,
                                          random: nat -> real)
    requires UnitDraws(random) && 0 <= index < |songs|
    requires preserve ==> IdBag(songs) == IdBag(s.originalQueue)
    ensures var t := LoadAt(s, songs, index, autoplay, preserve, random);
            TwoLists(t) && ((preserve && !s.shuffle ==> Ids(songs) == Ids(s.originalQueue)) ==> InOrder(t))
  {
    if !preserve && s.shuffle && |songs| > 1 {
      ShufflePermutes(songs, index, random);
      PermutationKeepsIdBag(songs, Shuffled(songs, index, random).1);
    }
  }

  lemma {:induction false} PlaySongKeepsLists(s: State, song: Song, songs: seq<Song>, random: nat -> real)
    requires UnitDraws(random) && songs != []
    ensures TwoLists(PlaySong(s, song, songs, random)) && InOrder(PlaySong(s, song, songs, random))
  {
    var found := FirstIndex(songs, song.id);
    LoadKeepsLists(s, songs, if found < 0 then 0 else found, true, false, random);
  }

  // Playing a song from a list keeps the two lists equal exactly when the list is not empty
  // or nothing was queued: an empty list replaces the original order and loads nothing.
  lemma {:induction false} PlaySongNeedsSongs(s: State, song: Song, songs: seq<Song>, random: nat -> real)
    requires UnitDraws(random)
    ensures TwoLists(PlaySong(s, song, songs, random)) <==> songs != [] || s.queue == []
  {
    if songs != [] {
      PlaySongKeepsLists(s, song, songs, random);
    } else {
      assert |Ids(s.queue)| == |IdBag(s.queue)| && |IdBag([])| == 0;
    }
  }

  ghost predicate PlaysSongs(s: State, a: Action) {
    a.DoPlaySong? ==> a.songs != [] || s.queue == []
  }

  // The step sets both lists, whatever they were.
  ghost predicate SetsLists(s: State, a: Action) {
    match a
    case DoPlaySong(_, songs, _) => songs != []
    case DoPlayShuffled(songs, _, _) => songs != []
    case DoRadioReply(request, songs) => request == s.radioRequest && songs != []
    case DoReset => true
    case _ => false
  }

  lemma {:induction false} SetListsAgree(s: State, a: Action)
    requires Possible(s, a) && SetsLists(s, a)
    ensures TwoLists(Step(s, a)) && InOrder(Step(s, a))
  {
    match a
    case DoPlaySong(song, songs, random) => PlaySongKeepsLists(s, song, songs, random);
    case DoPlayShuffled(songs, selected, random) =>
      ShufflePermutes(songs, selected, random);
      var (index, shuffled) := Shuffled(songs, selected, random);
      PermutationKeepsIdBag(songs, shuffled);
      LoadKeepsLists(s.(originalQueue := songs, shuffle := true), shuffled, index, true, true, random);
    case DoRadioReply(request, songs) =>
      var answered := s.(radios := s.radios - {request}, originalQueue := songs, shuffle := false);
      LoadKeepsLists(answered, songs, 0, true, true, _ => 0.0);
    case DoReset =>
  }

  ghost predicate LeavesLists(s: State, t: State) {
    t.queue == s.queue && t.originalQueue == s.originalQueue && t.shuffle == s.shuffle
  }

  // A step that is no edit and plays no list leaves both lists alone.
  lemma {:induction false} OtherStepsKeepLists(s: State, a: Action)
    requires Possible(s, a) && !IsEdit(a) && !SetsLists(s, a) && !a.DoPlaySong?
    ensures LeavesLists(s, Step(s, a))
  {
    if Reloads(s, a).Some? {
      StepReloads(s, a);
    }
  }

  lemma {:induction false} EditKeepsLists(s: State, a: Action)
    requires IndexInRange(s) && TwoLists(s) && Possible(s, a) && IsEdit(a)
    ensures TwoLists(Step(s, a))
  {
    match a
    case DoAddNext(song) => AddNextKeepsLists(s, song);
    case DoAddToQueue(songs) => AddToQueueKeepsLists(s, songs);
    case DoRemove(index) => RemoveKeepsLists(s, index);
    case DoClearUpcoming => ClearKeepsLists(s);
    case DoToggleShuffle(random) => ToggleKeepsLists(s, random);
  }

  lemma {:induction false} StepKeepsLists(s: State, a: Action)
    requires IndexInRange(s) && TwoLists(s) && Possible(s, a) && PlaysSongs(s, a)
    ensures TwoLists(Step(s, a))
  {
    if SetsLists(s, a) {
      SetListsAgree(s, a);
    } else if IsEdit(a) {
      EditKeepsLists(s, a);
    } else if a.DoPlaySong? {
      PlaySongNeedsSongs(s, a.song, a.songs, a.random);
    } else {
      OtherStepsKeepLists(s, a);
    }
  }

  // Step k is no playSong of an empty list while something is queued.
  ghost predicate PlaysAt(states: seq<State>, actions: seq<Action>, k: int)
    requires |states| == |actions| + 1
  {
    0 <= k < |actions| ==> PlaysSongs(states[k], actions[k])
  }

  // The run begins at h, or the step before set both lists.
  ghost predicate ListsSetAt(states: seq<State>, actions: seq<Action>, h: nat)
    requires |states| == |actions| + 1 && h < |states|
  {
    h == 0 || SetsLists(states[h - 1], actions[h - 1])
  }

  lemma {:induction false} ListsAgreeOnceSet(states: seq<State>, actions: seq<Action>, h: nat)
    requires IsRun(states, actions) && h < |states| && ListsSetAt(states, actions, h)
    ensures TwoLists(states[h]) && InOrder(states[h])
  {
    if h > 0 {
      assert StepAt(states, actions, h - 1);
      SetListsAgree(states[h - 1], actions[h - 1]);
    }
  }

  // From any state in which both lists were set, they hold the same ids for as long as no empty
  // list is played over a queue.
  lemma {:induction false} RunKeepsLists(states: seq<State>, actions: seq<Action>, h: nat, i: nat)
    requires IsRun(states, actions) && h <= i < |states| && ListsSetAt(states, actions, h)
    requires forall k :: h <= k < i ==> PlaysAt(states, actions, k)
    ensures TwoLists(states[i])
  {
    if i > h {
      RunKeepsLists(states, actions, h, i - 1);
      RunKeepsInv(states, actions, i - 1);
      assert StepAt(states, actions, i - 1) && PlaysAt(states, actions, i - 1);
      StepKeepsLists(states[i - 1], actions[i - 1]);
    } else {
      ListsAgreeOnceSet(states, actions, h);
    }
  }
}
