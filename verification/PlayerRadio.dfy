/** Radio questions, the numbers they and the loads take, and what becomes of the replies. */
module PlayerRadio {
  import opened Wrappers
  import opened ShuffleQueue
  import opened Player
  import opened PlayerProofs

  // ----- Numbers -----

  // The step put a new source promise in flight.
  ghost predicate Loads(s: State, a: Action)
    requires Possible(s, a)
  {
    !(Step(s, a).requests <= s.requests)
  }

  // The step put a new radio question in flight.
  ghost predicate Asks(s: State, a: Action)
    requires Possible(s, a)
  {
    !(Step(s, a).radios <= s.radios)
  }

  // Every question asked bears a number up to the newest.
  ghost predicate RadiosKnown(s: State) {
    forall r :: r in s.radios ==> r <= s.radioRequest
  }

  // A new promise and its number, or nothing.
  ghost predicate LoadsOrNot(s: State, t: State) {
    && t.radios == s.radios
    && if t.requests == s.requests then t.radioRequest == s.radioRequest
       else !(t.requests <= s.requests) && t.radioRequest == s.radioRequest + 1
  }

  lemma {:induction false} LoadAtTakesNumber(s: State, songs: seq<Song>, index: int, autoplay: bool, preserve: bool,
                                             random: nat -> real)
    requires UnitDraws(random) && RequestsCurrent(s)
    ensures LoadsOrNot(s, LoadAt(s, songs, index, autoplay, preserve, random))
  {
    var t := LoadAt(s, songs, index, autoplay, preserve, random);
    if t.sequence != s.sequence {
      var request := Request(t.sequence, t.loaded.value);
      assert request !in s.requests && request in t.requests;
    }
  }

  lemma {:induction false} PlaysTakeNumber(s: State, a: Action)
    requires RequestsCurrent(s) && Possible(s, a) && (a.DoPlaySong? || a.DoPlayShuffled?)
    ensures LoadsOrNot(s, Step(s, a))
  {
    match a
    case DoPlaySong(song, songs, random) =>
      var found := FirstIndex(songs, song.id);
      LoadAtTakesNumber(s, songs, if found < 0 then 0 else found, true, false, random);
    case DoPlayShuffled(songs, selected, random) =>
      if songs != [] {
        var (index, shuffled) := Shuffled(songs, selected, random);
        var mid := s.(originalQueue := songs, shuffle := true);
        LoadAtTakesNumber(mid, shuffled, index, true, true, random);
      }
  }

  ghost predicate CountsNumber(s: State, a: Action)
    requires Possible(s, a)
  {
    Step(s, a).radioRequest == s.radioRequest + (if Loads(s, a) || Asks(s, a) then 1 else 0) && RadiosKnown(Step(s, a))
  }

  // Neither an entry of the queue nor a new list is loaded.
  lemma {:induction false} OtherStepIsCounted(s: State, a: Action)
    requires RadiosKnown(s) && Possible(s, a) && Reloads(s, a).None?
    requires !(a.DoPlaySong? || a.DoPlayShuffled? || a.DoRadioReply?)
    ensures CountsNumber(s, a)
  {
    var t := Step(s, a);
    assert t.requests <= s.requests;
    assert t.radios == s.radios || (a.DoEnded? && s.radioRequest + 1 !in s.radios);
  }

  // A number is taken exactly by a load and by a question.
  lemma {:induction false} NumberIsTakenExactly(s: State, a: Action)
    requires RequestsCurrent(s) && RadiosKnown(s) && Possible(s, a)
    ensures Step(s, a).radioRequest == s.radioRequest + if Loads(s, a) || Asks(s, a) then 1 else 0
    ensures RadiosKnown(Step(s, a))
  {
    if Reloads(s, a).Some? {
      StepReloads(s, a);
    } else {
      match a
      case DoPlaySong(_, _, _) => PlaysTakeNumber(s, a);
      case DoPlayShuffled(_, _, _) => PlaysTakeNumber(s, a);
      case DoRadioReply(request, songs) => ReplyLoadsExactly(s, request, songs);
      case _ => OtherStepIsCounted(s, a);
    }
  }

  // A reply loads its songs exactly when its number is the newest and it brings any.
  lemma {:induction false} ReplyLoadsExactly(s: State, request: nat, songs: seq<Song>)
    requires RequestsCurrent(s) && RadiosKnown(s) && request in s.radios
    ensures var a, t := DoRadioReply(request, songs), RadioReply(s, request, songs);
            && (Loads(s, a) <==> request == s.radioRequest && songs != [])
            && (if Loads(s, a)
                then t.queue == songs && t.loaded == Some(songs[0]) && t.radioRequest == s.radioRequest + 1
                else t == s.(radios := s.radios - {request}))
            && t.radios == s.radios - {request} && !Asks(s, a)
  {
    if request == s.radioRequest && songs != [] {
      var answered := s.(radios := s.radios - {request}, originalQueue := songs, shuffle := false);
      LoadAtTakesNumber(answered, songs, 0, true, true, _ => 0.0);
    }
  }

  // ----- Whole runs -----

  lemma {:induction false} RunKeepsRadios(states: seq<State>, actions: seq<Action>, i: nat)
    requires IsRun(states, actions) && i < |states|
    ensures Inv(states[i]) && RadiosKnown(states[i])
  {
    RunKeepsInv(states, actions, i);
    if i > 0 {
      RunKeepsRadios(states, actions, i - 1);
      assert StepAt(states, actions, i - 1);
      NumberIsTakenExactly(states[i - 1], actions[i - 1]);
    }
  }

  // Neither a load nor a question from state i up to state j.
  ghost predicate NoneTaken(states: seq<State>, actions: seq<Action>, i: nat, j: nat)
    requires IsRun(states, actions) && j <= |actions|
  {
    forall k :: i <= k < j ==> !TakesAt(states, actions, k)
  }

  ghost predicate TakesAt(states: seq<State>, actions: seq<Action>, k: nat)
    requires IsRun(states, actions) && k < |actions|
  {
    assert StepAt(states, actions, k);
    Loads(states[k], actions[k]) || Asks(states[k], actions[k])
  }

  // Numbers never go back, and stay exactly when none is taken.
  lemma {:induction false} NumbersGrow(states: seq<State>, actions: seq<Action>, i: nat, j: nat)
    requires IsRun(states, actions) && i <= j < |states|
    ensures states[i].radioRequest <= states[j].radioRequest
    ensures states[i].radioRequest == states[j].radioRequest <==> NoneTaken(states, actions, i, j)
  {
    if i < j {
      NumbersGrow(states, actions, i, j - 1);
      RunKeepsRadios(states, actions, j - 1);
      assert StepAt(states, actions, j - 1);
      NumberIsTakenExactly(states[j - 1], actions[j - 1]);
      assert TakesAt(states, actions, j - 1) <==> states[j].radioRequest != states[j - 1].radioRequest;
      assert NoneTaken(states, actions, i, j)
          <==> NoneTaken(states, actions, i, j - 1) && !TakesAt(states, actions, j - 1);
    }
  }

  // Once something was loaded or asked, a reply to a question asked before it changes nothing.
  lemma {:induction false} StaleRepliesAreDropped(states: seq<State>, actions: seq<Action>, i: nat, j: nat,
                                                  request: nat, songs: seq<Song>)
    requires IsRun(states, actions) && i <= j < |actions| && request in states[i].radios
    requires actions[j] == DoRadioReply(request, songs) && !NoneTaken(states, actions, i, j)
    ensures states[j + 1] == states[j].(radios := states[j].radios - {request})
  {
    NumbersGrow(states, actions, i, j);
    RunKeepsRadios(states, actions, i);
    assert StepAt(states, actions, j);
  }

  // A question pending when the session ends: its reply still loads its songs exactly when it was
  // the newest, nothing was loaded or asked between the end and the reply, and it brings any songs.
  // Otherwise the reply changes nothing.
  lemma {:induction false} ReplyAfterResetExactly(states: seq<State>, actions: seq<Action>, i: nat, j: nat,
                                                  request: nat, songs: seq<Song>)
    requires IsRun(states, actions) && i < j < |actions| && actions[i].DoReset?
    requires request in states[i].radios && actions[j] == DoRadioReply(request, songs)
    ensures StepAt(states, actions, j) && Possible(states[j], actions[j])
    ensures Loads(states[j], actions[j])
            <==> request == states[i].radioRequest && songs != [] && NoneTaken(states, actions, i, j)
    ensures if Loads(states[j], actions[j]) then states[j + 1].queue == songs && states[j + 1].loaded == Some(songs[0])
            else states[j + 1] == states[j].(radios := states[j].radios - {request})
  {
    assert StepAt(states, actions, j);
    NumbersGrow(states, actions, i, j);
    RunKeepsRadios(states, actions, i);
    RunKeepsRadios(states, actions, j);
    ReplyLoadsExactly(states[j], request, songs);
  }

  // ----- A late reply that loads -----

  lemma {:induction false} Extend(states: seq<State>, actions: seq<Action>, a: Action)
    returns (states': seq<State>, actions': seq<Action>)
    requires IsRun(states, actions) && Possible(states[|actions|], a)
    ensures IsRun(states', actions') && |actions'| == |actions| + 1 && actions' == actions + [a]
    ensures states'[..|states|] == states && states'[|states|] == Step(states[|actions|], a)
  {
    states', actions' := states + [Step(states[|actions|], a)], actions + [a];
    forall k ensures StepAt(states', actions', k) {
      assert StepAt(states, actions, k);
    }
  }

  // The session ends while a radio question is pending, and its songs are loaded all the same.
  ghost predicate LoadsAfterReset(states: seq<State>, actions: seq<Action>, i: nat, song: Song) {
    && IsRun(states, actions) && i + 1 < |actions| && actions[i].DoReset? && actions[i + 1].DoRadioReply?
    && states[i + 1].queue == [] && states[i + 2].queue == [song] && states[i + 2].loaded == Some(song)
  }

  lemma {:induction false} PendingQuestion(song: Song) returns (states: seq<State>, actions: seq<Action>)
    ensures IsRun(states, actions) && var s := states[|actions|]; s.radios == {2} && s.radioRequest == 2
  {
    states, actions := [EMPTY], [];
    states, actions := Extend(states, actions, DoPlaySong(song, [song], _ => 0.0));
    var playing := states[|actions|];
    assert playing.queue == [song] && playing.currentIndex == 0 && playing.radioRequest == 1;
    states, actions := Extend(states, actions, DoEnded(true));
  }

  lemma {:induction false} LateReplyCanLoad(song: Song)
    ensures exists states, actions, i :: LoadsAfterReset(states, actions, i, song)
  {
    var states, actions := PendingQuestion(song);
    var i := |actions|;
    states, actions := Extend(states, actions, DoReset);
    var ended := states[i + 1];
    assert ended.queue == [] && ended.radios == {2} && ended.radioRequest == 2;
    states, actions := Extend(states, actions, DoRadioReply(2, [song]));
    assert states[i + 1] == ended;
    assert LoadsAfterReset(states, actions, i, song);
  }
}
