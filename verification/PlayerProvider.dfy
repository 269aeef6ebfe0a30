/**
 The provider object whose callbacks edit the player's fields in place. Every method is proved
 to realise the transition of the same name in module Player, about which the run theorems of
 module PlayerProofs speak.
 */
module PlayerProvider {
  import opened Wrappers
  import opened ShuffleQueue
  import opened QueueEdits
  import P = Player
  import PlayerProofs

  class PlayerProvider {
    var queue: seq<Song>
    var originalQueue: seq<Song>
    var currentIndex: int
    var shuffle: bool
    var repeat: P.Repeat
    var sourceSequence: nat
    var radioRequest: nat
    var desiredPlaying: bool
    var playbackFailed: bool
    var playbackSource: Option<P.Source>
    // What is in flight outside the object, and what was handed out.
    ghost var requests: set<P.Request>
    ghost var timers: set<nat>
    ghost var radios: set<nat>
    ghost var shown: set<P.Source>
    ghost var loaded: Option<Song>

    ghost function State(): P.State
      reads this
    {
      P.State(queue, originalQueue, currentIndex, shuffle, repeat, sourceSequence, radioRequest, desiredPlaying,
              playbackFailed, playbackSource, requests, timers, radios, shown, loaded)
    }

    constructor ()
      ensures State() == P.EMPTY
    {
      queue, originalQueue, currentIndex := [], [], -1;
      shuffle, repeat, sourceSequence, radioRequest := false, P.RepeatNone, 0, 0;
      desiredPlaying, playbackFailed, playbackSource := false, false, None;
      requests, timers, radios, shown, loaded := {}, {}, {}, {}, None;
    }

    method LoadAt(songs: seq<Song>, index: int, autoplay: bool, preserveOriginal: bool, random: nat -> real)
      requires UnitDraws(random)
      modifies this
      ensures State() == P.LoadAt(old(State()), songs, index, autoplay, preserveOriginal, random)
    {
      var nextSongs, nextIndex := songs, index;
      if !preserveOriginal {
        originalQueue := songs;
        if shuffle && |songs| > 1 {
          nextIndex, nextSongs := ShuffledQueue(songs, index, random);
        }
      }
      if 0 <= nextIndex < |nextSongs| {
        BeginLoad(nextSongs, nextIndex, autoplay);
      }
    }

    method BeginLoad(songs: seq<Song>, index: nat, autoplay: bool)
      requires index < |songs|
      modifies this
      ensures queue == songs && currentIndex == index && originalQueue == old(originalQueue)
      ensures shuffle == old(shuffle) && repeat == old(repeat)
      ensures sourceSequence == old(sourceSequence) + 1 && radioRequest == old(radioRequest) + 1
      ensures desiredPlaying == autoplay && !playbackFailed && playbackSource == None
      ensures requests == old(requests) + {P.Request(sourceSequence, songs[index])} && loaded == Some(songs[index])
      ensures timers == old(timers) && radios == old(radios) && shown == old(shown)
    {
      radioRequest := radioRequest + 1;
      queue, currentIndex := songs, index;
      RequestSource(songs[index], autoplay);
    }

    // Drops the present source and asks for the song's under a new number.
    method RequestSource(song: Song, autoplay: bool)
      modifies `playbackFailed, `desiredPlaying, `playbackSource, `sourceSequence, `requests, `loaded
      ensures sourceSequence == old(sourceSequence) + 1 && desiredPlaying == autoplay && !playbackFailed
              && playbackSource == None
      ensures requests == old(requests) + {P.Request(sourceSequence, song)} && loaded == Some(song)
    {
      playbackFailed, desiredPlaying, playbackSource := false, autoplay, None;
      sourceSequence := sourceSequence + 1;
      requests, loaded := requests + {P.Request(sourceSequence, song)}, Some(song);
    }

    method PlaySong(song: Song, songs: seq<Song>, random: nat -> real)
      requires UnitDraws(random)
      modifies this
      ensures State() == P.PlaySong(old(State()), song, songs, random)
    {
      var found := FirstIndex(songs, song.id);
      LoadAt(songs, if found < 0 then 0 else found, true, false, random);
    }

    method PlayAt(index: int)
      modifies this
      ensures State() == P.Reload(old(State()), index)
    {
      LoadAt(queue, index, true, true, _ => 0.0);
    }

    method PlayShuffled(songs: seq<Song>, selected: nat, random: nat -> real)
      requires UnitDraws(random)
      modifies this
      ensures State() == P.PlayShuffled(old(State()), songs, selected, random)
    {
      if songs == [] {
        return;
      }
      originalQueue := songs;
      var index, shuffled := ShuffledQueue(songs, selected, random);
      shuffle := true;
      LoadAt(shuffled, index, true, true, random);
    }

    method AddNext(song: Song)
      requires P.IndexInRange(State())
      modifies this
      ensures State() == P.AddNext(old(State()), song)
    {
      var originalIndex := if 0 <= currentIndex then FirstIndex(originalQueue, queue[currentIndex].id) else -1;
      var insertOriginalAt := if originalIndex >= 0 then originalIndex + 1 else |originalQueue|;
      originalQueue := originalQueue[..insertOriginalAt] + [song] + originalQueue[insertOriginalAt..];
      var insert := currentIndex + 1;
      queue := queue[..insert] + [song] + queue[insert..];
    }

    method AddToQueue(songs: seq<Song>)
      modifies this
      ensures State() == P.AddToQueue(old(State()), songs)
    {
      if songs != [] {
        originalQueue := originalQueue + songs;
        queue := queue + songs;
      } else {
        assert originalQueue + songs == originalQueue && queue + songs == queue;
      }
    }

    method RemoveFromQueue(index: int)
      modifies this
      ensures State() == P.RemoveFromQueue(old(State()), index)
    {
      if index < 0 || index >= |queue| || index == currentIndex {
        return;
      }
      var id := queue[index].id;
      var occurrence := Occurrences(queue[..index + 1], id);
      OccursAtEnd(queue, index);
      var kept := DropOccurrence(originalQueue, id, occurrence);
      originalQueue := kept;
      queue := queue[..index] + queue[index + 1..];
      if index < currentIndex {
        currentIndex := currentIndex - 1;
      }
    }

    method ClearUpcoming()
      modifies this
      ensures State() == P.ClearUpcoming(old(State()))
    {
      if currentIndex < 0 || currentIndex >= |queue| - 1 {
        return;
      }
      var kept := queue[..currentIndex + 1];
      var remaining := CountIds(kept);
      var filtered := KeepRemaining(originalQueue, remaining, IdBag(kept));
      queue := kept;
      originalQueue := filtered;
    }

    method ToggleShuffle(random: nat -> real)
      requires UnitDraws(random)
      modifies this
      ensures State() == P.ToggleShuffle(old(State()), random)
    {
      if |queue| < 2 {
        shuffle := !shuffle;
        return;
      }
      var currentSong := if 0 <= currentIndex < |queue| then Some(queue[currentIndex]) else None;
      if shuffle {
        var restored := RestoredQueue(originalQueue, currentSong);
        currentIndex, queue, shuffle := restored.0, restored.1, false;
        return;
      }
      if originalQueue == [] {
        originalQueue := queue;
      }
      currentIndex, queue := ShuffledQueue(queue, currentIndex, random);
      shuffle := true;
    }

    method Play()
      modifies this
      ensures State() == P.Play(old(State()))
    {
      if currentIndex < 0 || currentIndex >= |queue| {
        return;
      }
      if playbackSource == None || playbackFailed {
        PlayAt(currentIndex);
        return;
      }
      desiredPlaying := true;
    }

    method Pause()
      modifies `desiredPlaying
      ensures !desiredPlaying
    {
      desiredPlaying := false;
    }

    // The audio output began to play.
    method OutputStarted()
      modifies `desiredPlaying
      ensures desiredPlaying
    {
      desiredPlaying := true;
    }

    method CycleRepeat()
      modifies `repeat
      ensures State() == P.CycleRepeat(old(State()))
    {
      repeat := if repeat == P.RepeatNone then P.RepeatAll
                else if repeat == P.RepeatAll then P.RepeatOne
                else P.RepeatNone;
    }

    method Next()
      modifies this
      ensures State() == P.Next(old(State()))
    {
      if queue == [] {
        return;
      }
      var nextIndex := currentIndex + 1;
      if nextIndex < |queue| {
        PlayAt(nextIndex);
      } else if repeat == P.RepeatAll {
        PlayAt(0);
      } else {
        desiredPlaying := false;
      }
    }

    method Previous(pastIntro: bool)
      modifies this
      ensures State() == P.Previous(old(State()), pastIntro)
    {
      if !pastIntro && currentIndex - 1 >= 0 {
        PlayAt(currentIndex - 1);
      }
    }

    method HandleEnded(ready: bool)
      modifies this
      ensures State() == P.Ended(old(State()), ready)
    {
      if repeat == P.RepeatOne {
        PlayAt(currentIndex);
      } else if currentIndex + 1 < |queue| {
        PlayAt(currentIndex + 1);
      } else if repeat == P.RepeatAll {
        PlayAt(0);
      } else if 0 <= currentIndex < |queue| && ready {
        desiredPlaying := false;
        radioRequest := radioRequest + 1;
        radios := radios + {radioRequest};
      } else {
        desiredPlaying := false;
      }
    }

    method RadioReplied(request: nat, songs: seq<Song>)
      modifies this
      ensures State() == P.RadioReply(old(State()), request, songs)
    {
      radios := radios - {request};
      if request != radioRequest || songs == [] {
        return;
      }
      originalQueue := songs;
      shuffle := false;
      LoadAt(songs, 0, true, true, _ => 0.0);
    }

    method SourceResolved(request: P.Request, remote: bool)
      modifies this
      ensures State() == P.SourceReady(old(State()), request, remote)
    {
      requests := requests - {request};
      if sourceSequence != request.key {
        return;
      }
      var source := P.Source(request.key, request.song, remote, 0);
      playbackSource := Some(source);
      shown := shown + {source};
    }

    method SourceRejected(request: P.Request)
      modifies this
      ensures State() == P.SourceFailed(old(State()), request)
    {
      requests := requests - {request};
      if sourceSequence == request.key {
        desiredPlaying, playbackFailed := false, true;
      }
    }

    method OutputFailed(source: P.Source)
      modifies this
      ensures State() == P.PlaybackError(old(State()), source)
    {
      var scheduled := SchedulePlaybackRetry(source);
      if !scheduled {
        desiredPlaying, playbackFailed := false, true;
      }
    }

    method SchedulePlaybackRetry(source: P.Source) returns (scheduled: bool)
      modifies `timers
      ensures scheduled <==> desiredPlaying && source.retryCount < P.MAX_RETRIES && source.remote
      ensures timers == old(timers) + (if scheduled then {source.key} else {})
    {
      if !desiredPlaying || source.retryCount >= P.MAX_RETRIES || !source.remote {
        return false;
      }
      timers := timers + {source.key};
      return true;
    }

    method RetryTimerFired(failedKey: nat)
      modifies this
      ensures State() == P.RetryTimer(old(State()), failedKey)
    {
      if playbackSource.Some? && playbackSource.value.key == failedKey && desiredPlaying {
        sourceSequence := sourceSequence + 1;
        var source := playbackSource.value.(key := sourceSequence, retryCount := playbackSource.value.retryCount + 1);
        playbackSource := Some(source);
        shown := shown + {source};
      }
    }

    method ResetSession()
      modifies this
      ensures State() == P.Reset(old(State()))
    {
      StopSource();
      ClearLists();
    }

    method StopSource()
      modifies `sourceSequence, `desiredPlaying, `playbackSource, `playbackFailed, `loaded
      ensures sourceSequence == old(sourceSequence) + 1 && !desiredPlaying && !playbackFailed
              && playbackSource == None && loaded == None
    {
      sourceSequence := sourceSequence + 1;
      desiredPlaying, playbackFailed, playbackSource, loaded := false, false, None, None;
    }

    method ClearLists()
      modifies `queue, `originalQueue, `shuffle, `currentIndex
      ensures queue == [] && originalQueue == [] && !shuffle && currentIndex == -1
    {
      queue, originalQueue, shuffle, currentIndex := [], [], false, -1;
    }

    // What the application, the audio output, a promise or a timer asks of the object.
    method Perform(a: P.Action)
      requires P.Inv(State()) && P.Possible(State(), a)
      modifies this
      ensures State() == P.Step(old(State()), a)
    {
      match a
      case DoPlaySong(song, songs, random) => PlaySong(song, songs, random);
      case DoPlayAt(index) => PlayAt(index);
      case DoPlayShuffled(songs, selected, random) => PlayShuffled(songs, selected, random);
      case DoAddNext(song) => AddNext(song);
      case DoAddToQueue(songs) => AddToQueue(songs);
      case DoRemove(index) => RemoveFromQueue(index);
      case DoClearUpcoming => ClearUpcoming();
      case DoToggleShuffle(random) => ToggleShuffle(random);
      case DoCycleRepeat => CycleRepeat();
      case DoPlay => Play();
      case DoPause => Pause();
      case DoStarted => OutputStarted();
      case DoNext => Next();
      case DoPrevious(pastIntro) => Previous(pastIntro);
      case DoEnded(ready) => HandleEnded(ready);
      case DoRadioReply(request, songs) => RadioReplied(request, songs);
      case DoSourceReady(pending, remote) => SourceResolved(pending, remote);
      case DoSourceFailed(pending) => SourceRejected(pending);
      case DoPlaybackError(source) => OutputFailed(source);
      case DoRetryTimer(key) => RetryTimerFired(key);
      case DoReset => ResetSession();
    }

    // The callbacks in the order of any run.
    method Run(actions: seq<P.Action>, ghost states: seq<P.State>)
      requires State() == P.EMPTY && P.IsRun(states, actions)
      modifies this
      ensures State() == states[|actions|] && P.Inv(State())
    {
      PlayerProofs.RunKeepsInv(states, actions, 0);
      for i := 0 to |actions|
        invariant State() == states[i] && P.Inv(states[i])
      {
        assert P.StepAt(states, actions, i);
        Perform(actions[i]);
        PlayerProofs.RunKeepsInv(states, actions, i + 1);
      }
    }
  }

  function Count(counts: map<string, nat>, id: string): nat {
    if id in counts then counts[id] else 0
  }

  ghost predicate Counts(counts: map<string, nat>, bag: multiset<string>) {
    forall id :: Count(counts, id) == bag[id]
  }

  lemma {:induction false} AppendOne(kept: seq<Song>, song: Song, rest: seq<Song>)
    ensures kept + [song] + rest == kept + ([song] + rest)
  {
  }

  method DropOccurrence(songs: seq<Song>, id: string, occurrence: nat) returns (kept: seq<Song>)
    requires occurrence >= 1
    ensures kept == WithoutOccurrence(songs, id, occurrence)
  {
    kept := [];
    var seen := 0;
    for i := 0 to |songs|
      invariant kept + WithoutOccurrence(songs[i..], id, occurrence - seen) == WithoutOccurrence(songs, id, occurrence)
    {
      var song := songs[i];
      assert songs[i..] == [song] + songs[i + 1..];
      if song.id != id {
        AppendOne(kept, song, WithoutOccurrence(songs[i + 1..], id, occurrence - seen));
        kept := kept + [song];
      } else {
        seen := seen + 1;
        if seen != occurrence {
          AppendOne(kept, song, WithoutOccurrence(songs[i + 1..], id, occurrence - seen));
          kept := kept + [song];
        } else {
          NothingLeftToDrop(songs[i + 1..], id, 0);
        }
      }
    }
  }

  lemma {:induction false} NothingLeftToDrop(songs: seq<Song>, id: string, k: int)
    requires k <= 0
    ensures WithoutOccurrence(songs, id, k) == songs
  {
    if songs != [] {
      NothingLeftToDrop(songs[1..], id, if songs[0].id == id then k - 1 else k);
    }
  }

  method CountIds(songs: seq<Song>) returns (remaining: map<string, nat>)
    ensures Counts(remaining, IdBag(songs))
  {
    remaining := map[];
    for i := 0 to |songs|
      invariant Counts(remaining, IdBag(songs[..i]))
    {
      BagGrows(songs, i);
      remaining := remaining[songs[i].id := Count(remaining, songs[i].id) + 1];
    }
    assert songs[..|songs|] == songs;
  }

  method KeepRemaining(songs: seq<Song>, counts: map<string, nat>, ghost bag: multiset<string>)
    returns (filtered: seq<Song>)
    requires Counts(counts, bag)
    ensures filtered == KeepWithin(songs, bag)
  {
    var remaining := counts;
    ghost var budget := bag;
    filtered := [];
    for i := 0 to |songs|
      invariant Counts(remaining, budget)
      invariant filtered + KeepWithin(songs[i..], budget) == KeepWithin(songs, bag)
    {
      var song := songs[i];
      assert songs[i..] == [song] + songs[i + 1..];
      var count := Count(remaining, song.id);
      if count != 0 {
        remaining := remaining[song.id := count - 1];
        budget := budget - multiset{song.id};
        AppendOne(filtered, song, KeepWithin(songs[i + 1..], budget));
        filtered := filtered + [song];
      }
    }
  }

  lemma {:induction false} BagGrows(songs: seq<Song>, i: nat)
    requires i < |songs|
    ensures IdBag(songs[..i + 1]) == IdBag(songs[..i]) + multiset{songs[i].id}
  {
    assert songs[..i + 1] == songs[..i] + [songs[i]];
    IdsOfConcat(songs[..i], [songs[i]]);
    assert Ids([songs[i]]) == [songs[i].id];
  }
}
