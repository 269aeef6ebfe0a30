/**
 The mobile player's state and what each callback does to it: the shown queue and the
 remembered original order edited in parallel, and audio sources loaded asynchronously
 under a sequence number. Callbacks are interleaved with promise results and retry timers
 in any order; each one runs to completion on the current state.
 */
module Player {
  import opened Wrappers
  import opened ShuffleQueue
  import opened QueueEdits

  datatype Repeat = RepeatNone | RepeatAll | RepeatOne

  // `remote` tells an http(s) address from a downloaded file.
  datatype Source = Source(key: nat, song: Song, remote: bool, retryCount: nat)

  datatype Request = Request(key: nat, song: Song)

  datatype State = State(
    queue: seq<Song>,
    originalQueue: seq<Song>,
    currentIndex: int,
    shuffle: bool,
    repeat: Repeat,
    sequence: nat,
    radioRequest: nat,
    desired: bool,
    failed: bool,
    source: Option<Source>,
    requests: set<Request>,  // source promises not settled yet
    timers: set<nat>,        // keys whose retry timer was started
    radios: set<nat>,        // radio requests not answered yet
    shown: set<Source>,      // every source ever handed to the audio output
    loaded: Option<Song>)    // the song of the latest load

  const EMPTY := State([], [], -1, false, RepeatNone, 0, 0, false, false, None, {}, {}, {}, {}, None)

  const MAX_RETRIES := 2

  function Current(s: State): Option<Song> {
    if 0 <= s.currentIndex < |s.queue| then Some(s.queue[s.currentIndex]) else None
  }

  function LoadAt(s: State, songs: seq<Song>, index: int, autoplay: bool, preserveOriginal: bool,
                  random: nat -> real): State
    requires UnitDraws(random)
  {
    var s' := if preserveOriginal then s else s.(originalQueue := songs);
    var (nextIndex, nextSongs) :=
      if !preserveOriginal && s.shuffle && |songs| > 1 then Shuffled(songs, index, random) else (index, songs);
    if 0 <= nextIndex < |nextSongs| then
      var key := s.sequence + 1;
      s'.(queue := nextSongs, currentIndex := nextIndex, radioRequest := s.radioRequest + 1, desired := autoplay,
          failed := false, source := None, sequence := key,
          requests := s.requests + {Request(key, nextSongs[nextIndex])}, loaded := Some(nextSongs[nextIndex]))
    else s'
  }

  // Loads an entry of the queue that is already shown.
  function Reload(s: State, index: int): State {
    LoadAt(s, s.queue, index, true, true, _ => 0.0)
  }

  function PlaySong(s: State, song: Song, songs: seq<Song>, random: nat -> real): State
    requires UnitDraws(random)
  {
    var found := FirstIndex(songs, song.id);
    LoadAt(s, songs, if found < 0 then 0 else found, true, false, random)
  }

  function PlayShuffled(s: State, songs: seq<Song>, selected: nat, random: nat -> real): State
    requires UnitDraws(random)
  {
    if songs == [] then s
    else
      var (index, shuffled) := Shuffled(songs, selected, random);
      LoadAt(s.(originalQueue := songs, shuffle := true), shuffled, index, true, true, random)
  }

  function OriginalInsertion(s: State): nat {
    var found := if Current(s).Some? then FirstIndex(s.originalQueue, Current(s).value.id) else -1;
    if found >= 0 then found + 1 else |s.originalQueue|
  }

  function AddNext(s: State, song: Song): State {
    s.(originalQueue := InsertAt(s.originalQueue, OriginalInsertion(s), song),
       queue := InsertAt(s.queue, if s.currentIndex + 1 < 0 then 0 else s.currentIndex + 1, song))
  }

  function AddToQueue(s: State, songs: seq<Song>): State {
    s.(originalQueue := s.originalQueue + songs, queue := s.queue + songs)
  }

  function RemoveFromQueue(s: State, index: int): State {
    if index < 0 || index >= |s.queue| || index == s.currentIndex then s
    else
      var id := s.queue[index].id;
      s.(originalQueue := WithoutOccurrence(s.originalQueue, id, Occurrences(s.queue[..index + 1], id)),
         queue := RemoveAt(s.queue, index),
         currentIndex := if index < s.currentIndex then s.currentIndex - 1 else s.currentIndex)
  }

  ghost function ClearUpcoming(s: State): State {
    if s.currentIndex < 0 || s.currentIndex >= |s.queue| - 1 then s
    else
      var kept := s.queue[..s.currentIndex + 1];
      s.(queue := kept, originalQueue := KeepWithin(s.originalQueue, IdBag(kept)))
  }

  function ToggleShuffle(s: State, random: nat -> real): State
    requires UnitDraws(random)
  {
    if |s.queue| < 2 then s.(shuffle := !s.shuffle)
    else if s.shuffle then
      var (index, restored) := RestoredQueue(s.originalQueue, Current(s));
      s.(queue := restored, currentIndex := index, shuffle := false)
    else
      var (index, shuffled) := Shuffled(s.queue, s.currentIndex, random);
      s.(originalQueue := if s.originalQueue == [] then s.queue else s.originalQueue,
         queue := shuffled, currentIndex := index, shuffle := true)
  }

  function CycleRepeat(s: State): State {
    s.(repeat := if s.repeat == RepeatNone then RepeatAll else if s.repeat == RepeatAll then RepeatOne else RepeatNone)
  }

  function Play(s: State): State {
    if Current(s).None? then s
    else if s.source.None? || s.failed then Reload(s, s.currentIndex)
    else s.(desired := true)
  }

  function Next(s: State): State {
    if s.queue == [] then s
    else if s.currentIndex + 1 < |s.queue| then Reload(s, s.currentIndex + 1)
    else if s.repeat == RepeatAll then Reload(s, 0)
    else s.(desired := false)
  }

  function Previous(s: State, pastIntro: bool): State {
    if pastIntro || s.currentIndex - 1 < 0 then s else Reload(s, s.currentIndex - 1)
  }

  // The track finished; at the end of the queue a ready session asks the server for a radio queue.
  function Ended(s: State, ready: bool): State {
    if s.repeat == RepeatOne then Reload(s, s.currentIndex)
    else if s.currentIndex + 1 < |s.queue| then Reload(s, s.currentIndex + 1)
    else if s.repeat == RepeatAll then Reload(s, 0)
    else if Current(s).Some? && ready then
      s.(desired := false, radioRequest := s.radioRequest + 1, radios := s.radios + {s.radioRequest + 1})
    else s.(desired := false)
  }

  function RadioReply(s: State, request: nat, songs: seq<Song>): State {
    var answered := s.(radios := s.radios - {request});
    if request != s.radioRequest || songs == [] then answered
    else LoadAt(answered.(originalQueue := songs, shuffle := false), songs, 0, true, true, _ => 0.0)
  }

  function SourceReady(s: State, request: Request, remote: bool): State {
    var s' := s.(requests := s.requests - {request});
    if request.key != s.sequence then s'
    else
      var source := Source(request.key, request.song, remote, 0);
      s'.(source := Some(source), shown := s.shown + {source})
  }

  function SourceFailed(s: State, request: Request): State {
    var s' := s.(requests := s.requests - {request});
    if request.key != s.sequence then s' else s'.(desired := false, failed := true)
  }

  // The audio output reports an error for a source it was given, maybe an old one.
  function PlaybackError(s: State, source: Source): State {
    if !s.desired || source.retryCount >= MAX_RETRIES || !source.remote then s.(desired := false, failed := true)
    else s.(timers := s.timers + {source.key})
  }

  function RetryTimer(s: State, failedKey: nat): State {
    if s.source.Some? && s.source.value.key == failedKey && s.desired then
      var source := s.source.value.(key := s.sequence + 1, retryCount := s.source.value.retryCount + 1);
      s.(source := Some(source), sequence := s.sequence + 1, shown := s.shown + {source})
    else s
  }

  // The session ended.
  function Reset(s: State): State {
    s.(sequence := s.sequence + 1, desired := false, failed := false, source := None, queue := [], originalQueue := [],
       shuffle := false, currentIndex := -1, loaded := None)
  }

  datatype Action =
    | DoPlaySong(song: Song, songs: seq<Song>, random: nat -> real)
    | DoPlayAt(index: int)
    | DoPlayShuffled(songs: seq<Song>, selected: nat, random: nat -> real)
    | DoAddNext(song: Song)
    | DoAddToQueue(songs: seq<Song>)
    | DoRemove(index: int)
    | DoClearUpcoming
    | DoToggleShuffle(random: nat -> real)
    | DoCycleRepeat
    | DoPlay
    | DoPause
    | DoStarted
    | DoNext
    | DoPrevious(pastIntro: bool)
    | DoEnded(ready: bool)
    | DoRadioReply(request: nat, songs: seq<Song>)
    | DoSourceReady(pending: Request, remote: bool)
    | DoSourceFailed(pending: Request)
    | DoPlaybackError(source: Source)
    | DoRetryTimer(failedKey: nat)
    | DoReset

  // What can happen in a state: only promises, timers and sources that exist report back.
  ghost predicate Possible(s: State, a: Action) {
    match a
    case DoPlaySong(_, _, random) => UnitDraws(random)
    case DoPlayShuffled(_, _, random) => UnitDraws(random)
    case DoToggleShuffle(random) => UnitDraws(random)
    case DoRadioReply(request, _) => request in s.radios
    case DoSourceReady(pending, _) => pending in s.requests
    case DoSourceFailed(pending) => pending in s.requests
    case DoPlaybackError(source) => source in s.shown
    case DoRetryTimer(key) => key in s.timers
    case _ => true
  }

  ghost function Step(s: State, a: Action): State
    requires Possible(s, a)
  {
    match a
    case DoPlaySong(song, songs, random) => PlaySong(s, song, songs, random)
    case DoPlayAt(index) => Reload(s, index)
    case DoPlayShuffled(songs, selected, random) => PlayShuffled(s, songs, selected, random)
    case DoAddNext(song) => AddNext(s, song)
    case DoAddToQueue(songs) => AddToQueue(s, songs)
    case DoRemove(index) => RemoveFromQueue(s, index)
    case DoClearUpcoming => ClearUpcoming(s)
    case DoToggleShuffle(random) => ToggleShuffle(s, random)
    case DoCycleRepeat => CycleRepeat(s)
    case DoPlay => Play(s)
    case DoPause => s.(desired := false)
    case DoStarted => s.(desired := true)
    case DoNext => Next(s)
    case DoPrevious(pastIntro) => Previous(s, pastIntro)
    case DoEnded(ready) => Ended(s, ready)
    case DoRadioReply(request, songs) => RadioReply(s, request, songs)
    case DoSourceReady(pending, remote) => SourceReady(s, pending, remote)
    case DoSourceFailed(pending) => SourceFailed(s, pending)
    case DoPlaybackError(source) => PlaybackError(s, source)
    case DoRetryTimer(key) => RetryTimer(s, key)
    case DoReset => Reset(s)
  }

  // A run from the empty player: consecutive states, each reached by a possible action.
  ghost predicate IsRun(states: seq<State>, actions: seq<Action>) {
    && |states| == |actions| + 1
    && states[0] == EMPTY
    && forall i :: StepAt(states, actions, i)
  }

  ghost predicate StepAt(states: seq<State>, actions: seq<Action>, i: int)
    requires |states| == |actions| + 1
  {
    0 <= i < |actions| ==> Possible(states[i], actions[i]) && states[i + 1] == Step(states[i], actions[i])
  }

  // ----- The invariants -----

  // The current index names an entry, or is -1.
  ghost predicate IndexInRange(s: State) {
    -1 <= s.currentIndex < |s.queue|
  }

  // The song of the latest load is the current one.
  ghost predicate PlaysCurrent(s: State, song: Song) {
    s.loaded == Some(song) && 0 <= s.currentIndex < |s.queue| && s.queue[s.currentIndex].id == song.id
  }

  // Last load wins: a source carries the newest sequence number, belongs to the latest load and to
  // the current song, and was retried at most twice.
  ghost predicate LastLoadWins(s: State) {
    s.source.Some? ==>
      s.source.value.key == s.sequence && s.source.value.retryCount <= MAX_RETRIES
          && PlaysCurrent(s, s.source.value.song)
  }

  // Only a promise with the newest number can still install a source, and it is for the current song.
  ghost predicate RequestsCurrent(s: State) {
    && (forall r :: r in s.requests ==>
          r.key <= s.sequence && (r.key == s.sequence ==> s.source.None? && PlaysCurrent(s, r.song)))
    && (forall r, x :: r in s.requests && x in s.shown ==> r.key != x.key)
  }

  // A key names one source for ever.
  ghost predicate SourcesKnown(s: State) {
    && (s.source.Some? ==> s.source.value in s.shown)
    && (forall x :: x in s.shown ==> x.key <= s.sequence && x.retryCount <= MAX_RETRIES)
    && (forall x, y :: x in s.shown && y in s.shown && x.key == y.key ==> x == y)
  }

  ghost predicate TimersKnown(s: State) {
    forall k :: k in s.timers ==> exists x :: x in s.shown && x.key == k && x.retryCount < MAX_RETRIES
  }

  ghost predicate PendingWork(s: State) {
    RequestsCurrent(s) && SourcesKnown(s) && TimersKnown(s)
  }

  // What every step keeps.
  ghost predicate Inv(s: State) {
    IndexInRange(s) && LastLoadWins(s) && PendingWork(s)
  }

  // The shown queue and the remembered order hold the same ids.
  ghost predicate TwoLists(s: State) {
    IdBag(s.queue) == IdBag(s.originalQueue)
  }

  // An unshuffled queue shows the original order.
  ghost predicate InOrder(s: State) {
    !s.shuffle ==> Ids(s.queue) == Ids(s.originalQueue)
  }
}
