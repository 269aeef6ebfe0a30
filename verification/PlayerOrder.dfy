/** The order of an unshuffled player queue: it shows the remembered original order. */
module PlayerOrder {
  import opened ShuffleQueue
  import opened QueueEdits
  import opened Player
  import opened PlayerProofs

  // ----- Unshuffled order -----

  // Adding next keeps an unshuffled queue in order exactly when the songs between the first
  // one carrying the current id and the insertion point all carry the added id.
  ghost predicate LandsInOrder(s: State, song: Song) {
    if Current(s).Some? then
      var first := FirstIndex(s.queue, Current(s).value.id);
      forall i :: first < i <= s.currentIndex ==> Ids(s.queue)[i] == song.id
    else forall i :: 0 <= i < |s.queue| ==> Ids(s.queue)[i] == song.id
  }

  lemma {:induction false} AddNextInsertsTwice(s: State, song: Song)
    requires IndexInRange(s) && TwoLists(s) && InOrder(s) && !s.shuffle
    ensures InOrder(AddNext(s, song)) <==>
              InsertAt(Ids(s.queue), s.currentIndex + 1, song.id)
                  == InsertAt(Ids(s.queue), OriginalInsertion(s), song.id)
  {
    BagOfInsertAt(s.queue, s.currentIndex + 1, song);
    BagOfInsertAt(s.originalQueue, OriginalInsertion(s), song);
  }

  lemma {:induction false} AddNextInOrderWithCurrent(s: State, song: Song)
    requires IndexInRange(s) && TwoLists(s) && InOrder(s) && !s.shuffle && Current(s).Some?
    ensures InOrder(AddNext(s, song)) <==> LandsInOrder(s, song)
  {
    AddNextInsertsTwice(s, song);
    var ids, first := Ids(s.queue), FirstIndex(s.queue, Current(s).value.id);
    InsertionsAgree(ids, first + 1, s.currentIndex + 1, song.id);
    assert OriginalInsertion(s) == first + 1;
  }

  lemma {:induction false} AddNextInOrderWithoutCurrent(s: State, song: Song)
    requires IndexInRange(s) && TwoLists(s) && InOrder(s) && !s.shuffle && Current(s).None?
    ensures InOrder(AddNext(s, song)) <==> LandsInOrder(s, song)
  {
    AddNextInsertsTwice(s, song);
    var ids := Ids(s.queue);
    assert |ids| == |Ids(s.originalQueue)|;
    InsertionsAgree(ids, 0, |ids|, song.id);
  }

  lemma {:induction false} AddNextKeepsOrderExactly(s: State, song: Song)
    requires IndexInRange(s) && TwoLists(s) && InOrder(s) && !s.shuffle
    ensures InOrder(AddNext(s, song)) <==> LandsInOrder(s, song)
  {
    if Current(s).Some? {
      AddNextInOrderWithCurrent(s, song);
    } else {
      AddNextInOrderWithoutCurrent(s, song);
    }
  }

  lemma {:induction false} StepKeepsOrder(s: State, a: Action)
    requires IndexInRange(s) && TwoLists(s) && InOrder(s) && Possible(s, a) && PlaysSongs(s, a)
    requires a.DoAddNext? && !s.shuffle ==> LandsInOrder(s, a.song)
    ensures InOrder(Step(s, a))
  {
    if SetsLists(s, a) {
      SetListsAgree(s, a);
    } else if IsEdit(a) {
      EditKeepsOrder(s, a);
    } else if !a.DoPlaySong? {
      OtherStepsKeepLists(s, a);
    }
  }

  lemma {:induction false} EditKeepsOrder(s: State, a: Action)
    requires IndexInRange(s) && TwoLists(s) && InOrder(s) && Possible(s, a) && IsEdit(a)
    requires a.DoAddNext? && !s.shuffle ==> LandsInOrder(s, a.song)
    ensures InOrder(Step(s, a))
  {
    match a
    case DoAddNext(song) =>
      if !s.shuffle {
        AddNextKeepsOrderExactly(s, song);
      }
    case DoAddToQueue(songs) => AddToQueueKeepsLists(s, songs);
    case DoRemove(index) => RemoveKeepsOrder(s, index);
    case DoClearUpcoming => ClearKeepsOrder(s);
    case DoToggleShuffle(random) => ToggleKeepsLists(s, random);
  }

  ghost predicate AddsInOrder(states: seq<State>, actions: seq<Action>, j: int)
    requires |states| == |actions| + 1
  {
    0 <= j < |actions| && actions[j].DoAddNext? && !states[j].shuffle ==> LandsInOrder(states[j], actions[j].song)
  }

  // Once both lists were set, the queue shows the ids of the original order while shuffle is off, for as
  // long as additions land in order and no empty list is played over a queue.
  lemma {:induction false} RunKeepsOrder(states: seq<State>, actions: seq<Action>, h: nat, i: nat)
    requires IsRun(states, actions) && h <= i < |states| && ListsSetAt(states, actions, h)
    requires forall k :: h <= k < i ==> PlaysAt(states, actions, k)
    requires forall k :: h <= k < i ==> AddsInOrder(states, actions, k)
    ensures InOrder(states[i])
  {
    if i > h {
      RunKeepsOrder(states, actions, h, i - 1);
      RunKeepsInv(states, actions, i - 1);
      RunKeepsLists(states, actions, h, i - 1);
      assert StepAt(states, actions, i - 1) && AddsInOrder(states, actions, i - 1) && PlaysAt(states, actions, i - 1);
      StepKeepsOrder(states[i - 1], actions[i - 1]);
    } else {
      ListsAgreeOnceSet(states, actions, h);
    }
  }

  // Shuffling on and off again gives back the order and the current song.
  lemma {:induction false} TogglingTwiceRestores(s: State, r1: nat -> real, r2: nat -> real)
    requires IndexInRange(s) && TwoLists(s) && InOrder(s) && !s.shuffle && Current(s).Some?
    requires UnitDraws(r1) && UnitDraws(r2)
    ensures var t := ToggleShuffle(ToggleShuffle(s, r1), r2);
            && !t.shuffle && Ids(t.queue) == Ids(s.queue) && Ids(t.originalQueue) == Ids(s.originalQueue)
            && (s.queue == s.originalQueue ==> t.queue == s.queue && t.originalQueue == s.originalQueue)
            && Current(t).Some? && Current(t).value.id == Current(s).value.id
  {
    var mid := ToggleShuffle(s, r1);
    ToggleKeepsLists(s, r1);
    ToggleKeepsLists(mid, r2);
    assert |Ids(s.queue)| == |Ids(s.originalQueue)|;
    assert mid.originalQueue == s.originalQueue;
  }

  // ----- The same songs, not only the same ids -----

  // The two lists hold the same songs, and an unshuffled queue shows them in the original order.
  ghost predicate SameSongs(s: State) {
    && multiset(s.queue) == multiset(s.originalQueue)
    && (!s.shuffle ==> s.queue == s.originalQueue)
  }

  lemma {:induction false} LoadKeepsSongs(s: State, songs: seq<Song>, index: int, autoplay: bool, preserve: bool,
                                          random: nat -> real)
    requires UnitDraws(random) && 0 <= index < |songs|
    requires preserve ==> multiset(songs) == multiset(s.originalQueue) && (!s.shuffle ==> songs == s.originalQueue)
    ensures SameSongs(LoadAt(s, songs, index, autoplay, preserve, random))
  {
    if !preserve && s.shuffle && |songs| > 1 {
      ShufflePermutes(songs, index, random);
    }
  }

  lemma {:induction false} SetListsAreEqual(s: State, a: Action)
    requires Possible(s, a) && SetsLists(s, a)
    ensures SameSongs(Step(s, a))
  {
    match a
    case DoPlaySong(song, songs, random) =>
      var found := FirstIndex(songs, song.id);
      LoadKeepsSongs(s, songs, if found < 0 then 0 else found, true, false, random);
    case DoPlayShuffled(songs, selected, random) =>
      ShufflePermutes(songs, selected, random);
      var (index, shuffled) := Shuffled(songs, selected, random);
      LoadKeepsSongs(s.(originalQueue := songs, shuffle := true), shuffled, index, true, true, random);
    case DoRadioReply(request, songs) =>
      var answered := s.(radios := s.radios - {request}, originalQueue := songs, shuffle := false);
      LoadKeepsSongs(answered, songs, 0, true, true, _ => 0.0);
    case DoReset =>
  }

  lemma {:induction false} BagOfInsertion<T>(items: seq<T>, at: nat, item: T)
    requires at <= |items|
    ensures multiset(InsertAt(items, at, item)) == multiset(items) + multiset{item}
  {
    assert items == items[..at] + items[at..];
  }

  // Adding next keeps an unshuffled queue the same list of songs exactly when the songs between
  // the first one carrying the current id and the insertion point all are the added song.
  ghost predicate LandsInPlace(s: State, song: Song) {
    if Current(s).Some? then
      var first := FirstIndex(s.queue, Current(s).value.id);
      forall i :: first < i <= s.currentIndex ==> s.queue[i] == song
    else forall i :: 0 <= i < |s.queue| ==> s.queue[i] == song
  }

  lemma {:induction false} AddNextKeepsBag(s: State, song: Song)
    requires IndexInRange(s) && multiset(s.queue) == multiset(s.originalQueue)
    ensures multiset(AddNext(s, song).queue) == multiset(AddNext(s, song).originalQueue)
  {
    BagOfInsertion(s.queue, s.currentIndex + 1, song);
    BagOfInsertion(s.originalQueue, OriginalInsertion(s), song);
  }

  lemma {:induction false} AddNextInPlaceWithCurrent(s: State, song: Song)
    requires Current(s).Some? && s.queue == s.originalQueue
    ensures InsertAt(s.queue, s.currentIndex + 1, song) == InsertAt(s.queue, OriginalInsertion(s), song)
            <==> LandsInPlace(s, song)
  {
    var first := FirstIndex(s.queue, Current(s).value.id);
    assert 0 <= first <= s.currentIndex;
    assert OriginalInsertion(s) == first + 1;
    InsertionsAgree(s.queue, first + 1, s.currentIndex + 1, song);
  }

  lemma {:induction false} AddNextInPlace(s: State, song: Song)
    requires IndexInRange(s) && s.queue == s.originalQueue
    ensures AddNext(s, song).queue == AddNext(s, song).originalQueue <==> LandsInPlace(s, song)
  {
    if Current(s).Some? {
      AddNextInPlaceWithCurrent(s, song);
    } else {
      InsertionsAgree(s.queue, 0, |s.queue|, song);
    }
  }

  lemma {:induction false} AddNextKeepsSongsExactly(s: State, song: Song)
    requires IndexInRange(s) && SameSongs(s)
    ensures SameSongs(AddNext(s, song)) <==> s.shuffle || LandsInPlace(s, song)
  {
    AddNextKeepsBag(s, song);
    if !s.shuffle {
      AddNextInPlace(s, song);
    }
  }

  lemma {:induction false} DistinctIdsLandInPlace(s: State, song: Song)
    requires Current(s).Some? && Distinct(Ids(s.queue))
    ensures LandsInPlace(s, song)
  {
    var first := FirstIndex(s.queue, Current(s).value.id);
    assert Ids(s.queue)[first] == Ids(s.queue)[s.currentIndex];
  }

  // ----- Removing with distinct ids -----

  lemma {:induction false} OneIdOneSong(songs: seq<Song>, a: Song, b: Song)
    requires Distinct(Ids(songs)) && a in songs && b in songs && a.id == b.id
    ensures a == b
  {
    var i :| 0 <= i < |songs| && songs[i] == a;
    var j :| 0 <= j < |songs| && songs[j] == b;
    assert Ids(songs)[i] == Ids(songs)[j];
  }

  lemma {:induction false} DistinctOccursOnce(ids: seq<string>, id: string)
    requires Distinct(ids)
    ensures multiset(ids)[id] <= 1
  {
    if ids != [] {
      assert Distinct(ids[1..]) by {
        forall i, j | 0 <= i < j < |ids[1..]| ensures ids[1..][i] != ids[1..][j] {
        }
      }
      DistinctOccursOnce(ids[1..], id);
      assert ids == [ids[0]] + ids[1..];
      if ids[0] == id {
        forall k | 0 <= k < |ids[1..]| ensures ids[1..][k] != id {
        }
        assert id !in ids[1..];
      }
    }
  }

  lemma {:induction false} OnceIsDistinct(ids: seq<string>)
    requires forall id :: multiset(ids)[id] <= 1
    ensures Distinct(ids)
  {
    forall i, j | 0 <= i < j < |ids| ensures ids[i] != ids[j] {
      assert ids == ids[..j] + ids[j..];
      assert multiset(ids)[ids[j]] == multiset(ids[..j])[ids[j]] + multiset(ids[j..])[ids[j]];
      assert ids[j..][0] == ids[j];
      assert ids[..j][i] == ids[i];
    }
  }

  lemma {:induction false} SameBagIsDistinct(a: seq<Song>, b: seq<Song>)
    requires Distinct(Ids(a)) && IdBag(a) == IdBag(b)
    ensures Distinct(Ids(b))
  {
    forall id ensures multiset(Ids(b))[id] <= 1 {
      DistinctOccursOnce(Ids(a), id);
    }
    OnceIsDistinct(Ids(b));
  }

  lemma {:induction false} TailIsDistinct(songs: seq<Song>)
    requires songs != [] && Distinct(Ids(songs))
    ensures Distinct(Ids(songs[1..])) && forall x :: x in songs[1..] ==> x.id != songs[0].id
  {
    forall i, j | 0 <= i < j < |Ids(songs[1..])| ensures Ids(songs[1..])[i] != Ids(songs[1..])[j] {
      assert Ids(songs)[i + 1] != Ids(songs)[j + 1];
    }
    forall x | x in songs[1..] ensures x.id != songs[0].id {
      var i :| 0 <= i < |songs[1..]| && songs[1..][i] == x;
      assert Ids(songs)[i + 1] != Ids(songs)[0];
    }
  }

  // The only occurrence of an id is dropped with its song.
  lemma {:induction false} DropsTheSong(songs: seq<Song>, song: Song)
    requires Distinct(Ids(songs)) && song in songs
    ensures multiset(WithoutOccurrence(songs, song.id, 1)) == multiset(songs) - multiset{song}
  {
    assert songs == [songs[0]] + songs[1..];
    if songs[0].id == song.id {
      OneIdOneSong(songs, songs[0], song);
    } else {
      TailIsDistinct(songs);
      DropsTheSong(songs[1..], song);
    }
  }

  lemma {:induction false} OccursOnceUpToIndex(songs: seq<Song>, index: nat)
    requires Distinct(Ids(songs)) && index < |songs|
    ensures Occurrences(songs[..index + 1], songs[index].id) == 1
  {
    OccursAtEnd(songs, index);
    OccurrencesCountIds(songs[..index + 1], songs[index].id);
    assert songs == songs[..index + 1] + songs[index + 1..];
    IdsOfConcat(songs[..index + 1], songs[index + 1..]);
    DistinctOccursOnce(Ids(songs), songs[index].id);
  }

  // The removed entry's id is dropped with the same song from the other list.
  lemma {:induction false} RemoveDropsTheSong(queue: seq<Song>, original: seq<Song>, index: nat)
    requires multiset(queue) == multiset(original) && IdBag(queue) == IdBag(original)
    requires Distinct(Ids(queue)) && index < |queue|
    ensures var occurrence := Occurrences(queue[..index + 1], queue[index].id);
            multiset(RemoveAt(queue, index)) == multiset(WithoutOccurrence(original, queue[index].id, occurrence))
  {
    SameBagIsDistinct(queue, original);
    OccursOnceUpToIndex(queue, index);
    MultisetOfRemoveAt(queue, index);
    assert queue[index] in multiset(original);
    DropsTheSong(original, queue[index]);
  }

  lemma {:induction false} RemoveKeepsSongs(s: State, index: int)
    requires SameSongs(s) && TwoLists(s) && Distinct(Ids(s.queue))
    ensures SameSongs(RemoveFromQueue(s, index))
  {
    if 0 <= index < |s.queue| && index != s.currentIndex {
      RemoveDropsTheSong(s.queue, s.originalQueue, index);
      if !s.shuffle {
        DropsSameIndex(s.queue, index);
      }
    }
  }

  // ----- Clearing with distinct ids -----

  lemma {:induction false} KeepsWhatIsPaid(songs: seq<Song>, budget: multiset<string>, song: Song)
    requires Distinct(Ids(songs))
    ensures song in KeepWithin(songs, budget) <==> song in songs && song.id in budget
  {
    if songs != [] {
      TailIsDistinct(songs);
      assert songs == [songs[0]] + songs[1..];
      if songs[0].id in budget {
        KeepsWhatIsPaid(songs[1..], budget - multiset{songs[0].id}, song);
      } else {
        KeepsWhatIsPaid(songs[1..], budget, song);
      }
    }
  }

  lemma {:induction false} SongOccursOnce(songs: seq<Song>, song: Song)
    requires Distinct(Ids(songs))
    ensures multiset(songs)[song] == if song in songs then 1 else 0
  {
    if songs != [] {
      TailIsDistinct(songs);
      SongOccursOnce(songs[1..], song);
      assert songs == [songs[0]] + songs[1..];
    }
  }

  lemma {:induction false} SameMembersSameBag(a: seq<Song>, b: seq<Song>)
    requires Distinct(Ids(a)) && Distinct(Ids(b)) && forall song :: song in a <==> song in b
    ensures multiset(a) == multiset(b)
  {
    forall song ensures multiset(a)[song] == multiset(b)[song] {
      SongOccursOnce(a, song);
      SongOccursOnce(b, song);
    }
  }

  lemma {:induction false} ClearedHoldsKept(queue: seq<Song>, original: seq<Song>, n: nat)
    requires Distinct(Ids(queue)) && Distinct(Ids(original)) && multiset(queue) == multiset(original)
    requires IdBag(queue) == IdBag(original) && n <= |queue|
    ensures multiset(KeepWithin(original, IdBag(queue[..n]))) == multiset(queue[..n])
  {
    var kept, cleared := queue[..n], KeepWithin(original, IdBag(queue[..n]));
    KeptPrefixKeepsBags(queue, original, n);
    SameBagIsDistinct(kept, cleared);
    forall song ensures song in cleared <==> song in kept {
      KeepsWhatIsPaid(original, IdBag(kept), song);
      KeptIfIdKept(queue, original, n, song);
    }
    SameMembersSameBag(cleared, kept);
  }

  // A song of the lists is kept exactly when its id is.
  lemma {:induction false} KeptIfIdKept(queue: seq<Song>, original: seq<Song>, n: nat, song: Song)
    requires Distinct(Ids(queue)) && multiset(queue) == multiset(original) && n <= |queue|
    ensures song in original && song.id in IdBag(queue[..n]) <==> song in queue[..n]
  {
    assert song in original <==> song in multiset(queue);
    if song in original && song.id in IdBag(queue[..n]) {
      var i :| 0 <= i < |Ids(queue[..n])| && Ids(queue[..n])[i] == song.id;
      assert queue[..n][i] in queue;
      OneIdOneSong(queue, queue[..n][i], song);
    }
    if song in queue[..n] {
      var i :| 0 <= i < n && queue[..n][i] == song;
      assert queue[i] in multiset(queue);
      assert Ids(queue[..n])[i] == song.id;
    }
  }

  lemma {:induction false} ClearKeepsSongs(s: State)
    requires SameSongs(s) && TwoLists(s) && Distinct(Ids(s.queue))
    ensures SameSongs(ClearUpcoming(s))
  {
    if 0 <= s.currentIndex < |s.queue| - 1 {
      var n := s.currentIndex + 1;
      var t := ClearUpcoming(s);
      assert t.queue == s.queue[..n] && t.originalQueue == KeepWithin(s.originalQueue, IdBag(s.queue[..n]));
      SameBagIsDistinct(s.queue, s.originalQueue);
      ClearedHoldsKept(s.queue, s.originalQueue, n);
      if !s.shuffle {
        KeepWithinOwnPrefix(s.queue, n);
      }
    }
  }

  // ----- Whole runs -----

  lemma {:induction false} ShortListsAreEqual(a: seq<Song>, b: seq<Song>)
    requires multiset(a) == multiset(b) && |a| < 2
    ensures a == b
  {
    assert |a| == |multiset(a)| == |multiset(b)| == |b|;
    if |a| == 1 {
      assert a[0] in multiset(b);
    }
  }

  lemma {:induction false} ToggleKeepsSongs(s: State, random: nat -> real)
    requires IndexInRange(s) && SameSongs(s) && TwoLists(s) && UnitDraws(random)
    ensures SameSongs(ToggleShuffle(s, random))
  {
    if |s.queue| < 2 {
      ShortListsAreEqual(s.queue, s.originalQueue);
    } else if s.shuffle {
      if Current(s).Some? {
        IdOccursInBoth(s.queue, s.originalQueue, s.currentIndex);
      }
    } else {
      ShufflePermutes(s.queue, s.currentIndex, random);
    }
  }

  // Songs are added next only with a current song, while the queue is unshuffled.
  ghost predicate AddsToCurrent(s: State, a: Action) {
    a.DoAddNext? && !s.shuffle ==> Current(s).Some?
  }

  lemma {:induction false} EditKeepsSongs(s: State, a: Action)
    requires IndexInRange(s) && SameSongs(s) && Distinct(Ids(s.queue)) && Possible(s, a) && IsEdit(a)
    requires AddsToCurrent(s, a)
    ensures SameSongs(Step(s, a))
  {
    PermutationKeepsIdBag(s.queue, s.originalQueue);
    match a
    case DoAddNext(song) =>
      AddNextKeepsSongsExactly(s, song);
      if !s.shuffle {
        DistinctIdsLandInPlace(s, song);
      }
    case DoAddToQueue(songs) => assert SameSongs(AddToQueue(s, songs));
    case DoRemove(index) => RemoveKeepsSongs(s, index);
    case DoClearUpcoming => ClearKeepsSongs(s);
    case DoToggleShuffle(random) => ToggleKeepsSongs(s, random);
  }

  lemma {:induction false} StepKeepsSongs(s: State, a: Action)
    requires IndexInRange(s) && SameSongs(s) && Distinct(Ids(s.queue)) && Possible(s, a)
    requires AddsToCurrent(s, a) && PlaysSongs(s, a)
    ensures SameSongs(Step(s, a))
  {
    if SetsLists(s, a) {
      SetListsAreEqual(s, a);
    } else if IsEdit(a) {
      EditKeepsSongs(s, a);
    } else if !a.DoPlaySong? {
      OtherStepsKeepLists(s, a);
    }
  }

  ghost predicate DistinctAt(states: seq<State>, i: int) {
    0 <= i < |states| ==> Distinct(Ids(states[i].queue))
  }

  ghost predicate AddsAt(states: seq<State>, actions: seq<Action>, i: int)
    requires |states| == |actions| + 1
  {
    0 <= i < |actions| ==> AddsToCurrent(states[i], actions[i])
  }

  // Once both lists were set, they hold the same songs, and while shuffle is off the queue equals the
  // original order song by song, for as long as the queue's ids are distinct, songs are added next to a
  // current one and no empty list is played over a queue.
  lemma {:induction false} RunKeepsSongs(states: seq<State>, actions: seq<Action>, h: nat, i: nat)
    requires IsRun(states, actions) && h <= i < |states| && ListsSetAt(states, actions, h)
    requires forall k :: h <= k < i ==> PlaysAt(states, actions, k)
    requires forall k :: h <= k < i ==> DistinctAt(states, k)
    requires forall k :: h <= k < i ==> AddsAt(states, actions, k)
    ensures multiset(states[i].queue) == multiset(states[i].originalQueue)
    ensures !states[i].shuffle ==> states[i].queue == states[i].originalQueue
  {
    if i > h {
      RunKeepsSongs(states, actions, h, i - 1);
      RunKeepsInv(states, actions, i - 1);
      assert StepAt(states, actions, i - 1) && DistinctAt(states, i - 1);
      assert AddsAt(states, actions, i - 1) && PlaysAt(states, actions, i - 1);
      StepKeepsSongs(states[i - 1], actions[i - 1]);
    } else if h > 0 {
      assert StepAt(states, actions, h - 1);
      SetListsAreEqual(states[h - 1], actions[h - 1]);
    }
  }
}
