/**
 Listened time of one play, and when it counts as qualified, completed or skipped early.
 Times are in seconds except the clock, which is in milliseconds.
 */
module Telemetry {
  function Max(a: real, b: real): real {
    if a < b then b else a
  }

  function Min(a: real, b: real): real {
    if a < b then a else b
  }

  datatype Update = Update(position: real, nowMs: real, playing: bool)

  datatype State = State(lastPosition: real, lastUpdateMs: real, listened: real)

  function Start(position: real, nowMs: real): State {
    State(Max(0.0, position), nowMs, 0.0)
  }

  // What one update counts: nothing while paused, after a jump back or a jump too far ahead.
  function Counted(s: State, u: Update): real {
    var moved := Max(0.0, u.position) - s.lastPosition;
    var wall := Max(0.0, (u.nowMs - s.lastUpdateMs) / 1000.0);
    if u.playing && 0.0 <= moved <= Max(2.0, wall * 2.0) then Min(moved, wall * 1.25) else 0.0
  }

  function Next(s: State, u: Update): State {
    State(Max(0.0, u.position), u.nowMs, s.listened + Counted(s, u))
  }

  function After(s: State, updates: seq<Update>): State {
    if updates == [] then s else Next(After(s, updates[..|updates| - 1]), updates[|updates| - 1])
  }

  // Time the clock moved ahead, in seconds; a clock set back takes nothing away.
  function Elapsed(s: State, updates: seq<Update>): real {
    if updates == [] then 0.0
    else
      var before := updates[..|updates| - 1];
      Elapsed(s, before) + Max(0.0, (updates[|updates| - 1].nowMs - After(s, before).lastUpdateMs) / 1000.0)
  }

  // How far the position moved ahead while playing.
  function Forward(s: State, updates: seq<Update>): real {
    if updates == [] then 0.0
    else
      var before, last := updates[..|updates| - 1], updates[|updates| - 1];
      Forward(s, before)
      + if last.playing then Max(0.0, Max(0.0, last.position) - After(s, before).lastPosition) else 0.0
  }

  // An update counts exactly while playing, when the clock and the position both moved ahead and the
  // position not too far.
  lemma {:induction false} CountsExactlyPlayedTime(s: State, u: Update)
    ensures var moved, wall := Max(0.0, u.position) - s.lastPosition, (u.nowMs - s.lastUpdateMs) / 1000.0;
            Counted(s, u) > 0.0 <==> u.playing && wall > 0.0 && 0.0 < moved <= Max(2.0, wall * 2.0)
  {
  }

  // What counts then is how far the position moved, or five quarters of the time if that is less. The
  // position and the clock are remembered whether it counts or not.
  lemma {:induction false} CountsTheLesser(s: State, u: Update)
    ensures var position := if u.position < 0.0 then 0.0 else u.position;
            var moved, wall := position - s.lastPosition, (u.nowMs - s.lastUpdateMs) / 1000.0;
            var listened := Next(s, u).listened - s.listened;
            && Next(s, u).lastPosition == position && Next(s, u).lastUpdateMs == u.nowMs
            && (Counted(s, u) > 0.0 ==>
                  (4.0 * moved <= 5.0 * wall ==> listened == moved)
                  && (4.0 * moved >= 5.0 * wall ==> 4.0 * listened == 5.0 * wall))
            && (Counted(s, u) <= 0.0 ==> listened == 0.0)
  {
  }

  // Every update plays on, at most a quarter faster than the clock.
  ghost predicate PlaysSteadily(s: State, updates: seq<Update>) {
    forall k :: 0 <= k < |updates| ==>
      var before := After(s, updates[..k]);
      var moved := Max(0.0, updates[k].position) - before.lastPosition;
      updates[k].playing && 0.0 <= moved <= 1.25 * ((updates[k].nowMs - before.lastUpdateMs) / 1000.0)
  }

  // Steady play is counted in full: as much as the position moved.
  lemma {:induction false} SteadyPlayCountsInFull(s: State, updates: seq<Update>)
    requires PlaysSteadily(s, updates)
    ensures After(s, updates).listened - s.listened == After(s, updates).lastPosition - s.lastPosition
  {
    if updates != [] {
      var n := |updates| - 1;
      forall k | 0 <= k < n ensures updates[..n][..k] == updates[..k] {
      }
      SteadyPlayCountsInFull(s, updates[..n]);
      assert updates[n].playing;
    }
  }

  // For any clock: listened time is within five quarters of the time that passed and within the
  // forward movement of the position.
  lemma {:induction false} ListenedIsBounded(s: State, updates: seq<Update>)
    ensures s.listened <= After(s, updates).listened
    ensures After(s, updates).listened - s.listened <= 1.25 * Elapsed(s, updates)
    ensures After(s, updates).listened - s.listened <= Forward(s, updates)
  {
    if updates != [] {
      var before := updates[..|updates| - 1];
      ListenedIsBounded(s, before);
    }
  }

  ghost predicate ClockNeverStepsBack(s: State, updates: seq<Update>) {
    && (updates != [] ==> s.lastUpdateMs <= updates[0].nowMs)
    && forall i, j :: 0 <= i < j < |updates| ==> updates[i].nowMs <= updates[j].nowMs
  }

  lemma {:induction false} ElapsedIsWallTime(s: State, updates: seq<Update>)
    requires ClockNeverStepsBack(s, updates)
    ensures Elapsed(s, updates) == (After(s, updates).lastUpdateMs - s.lastUpdateMs) / 1000.0
  {
    if updates != [] {
      var before := updates[..|updates| - 1];
      ElapsedIsWallTime(s, before);
      if before != [] {
        assert After(s, before).lastUpdateMs == before[|before| - 1].nowMs;
      }
    }
  }

  // With a clock that never steps back, no more than five quarters of the wall time is counted.
  lemma {:induction false} ListenedWithinWallTime(s: State, updates: seq<Update>)
    requires ClockNeverStepsBack(s, updates)
    ensures After(s, updates).listened - s.listened
         <= 1.25 * ((After(s, updates).lastUpdateMs - s.lastUpdateMs) / 1000.0)
  {
    ListenedIsBounded(s, updates);
    ElapsedIsWallTime(s, updates);
  }

  // Listened time only grows along the updates.
  lemma {:induction false} ListenedNeverDecreases(s: State, updates: seq<Update>, i: nat, j: nat)
    requires i <= j <= |updates|
    ensures After(s, updates[..i]).listened <= After(s, updates[..j]).listened
  {
    if i < j {
      ListenedNeverDecreases(s, updates, i, j - 1);
      assert updates[..j][..j - 1] == updates[..j - 1];
    }
  }

  // ----- Thresholds; None is a duration that is not finite -----

  datatype Duration = Finite(seconds: real) | NotFinite

  function QualifiedPlayThreshold(duration: Duration): real {
    if duration.Finite? && duration.seconds > 0.0 then Min(duration.seconds * 0.5, 240.0) else 0.0
  }

  predicate IsEarlySkip(listened: real, duration: Duration) {
    duration.Finite? && duration.seconds > 0.0 && listened < Min(30.0, duration.seconds * 0.3)
  }

  predicate IsCompleted(listened: real, duration: Duration) {
    duration.Finite? && duration.seconds > 0.0 && listened >= duration.seconds * 0.85
  }

  // A play qualifies with half the song or four minutes, completes with seventeen twentieths of it and
  // is an early skip below half a minute and three tenths. Without a known length it has qualified.
  lemma {:induction false} ThresholdsAre(listened: real, duration: Duration)
    requires listened >= 0.0
    ensures duration.Finite? && duration.seconds > 0.0 ==>
              var seconds := duration.seconds;
              && (listened >= QualifiedPlayThreshold(duration) <==> 2.0 * listened >= seconds || listened >= 240.0)
              && (IsCompleted(listened, duration) <==> 20.0 * listened >= 17.0 * seconds)
              && (IsEarlySkip(listened, duration) <==> listened < 30.0 && 10.0 * listened < 3.0 * seconds)
    ensures duration.NotFinite? || duration.seconds <= 0.0 ==>
              QualifiedPlayThreshold(duration) == 0.0 && !IsCompleted(listened, duration)
              && !IsEarlySkip(listened, duration)
  {
  }

  // A play that has qualified or completed at some point is no early skip at any later one.
  lemma {:induction false} CountedPlaysAreNoSkips(s: State, updates: seq<Update>, i: nat, j: nat, duration: Duration)
    requires i <= j <= |updates|
    requires var then_ := After(s, updates[..i]).listened;
             then_ >= QualifiedPlayThreshold(duration) || IsCompleted(then_, duration)
    ensures !IsEarlySkip(After(s, updates[..j]).listened, duration)
  {
    ListenedNeverDecreases(s, updates, i, j);
  }

  class PlaybackTelemetry {
    var lastPosition: real
    var lastUpdateMs: real
    var listenedSeconds: real

    ghost function Now(): State
      reads this
    {
      State(lastPosition, lastUpdateMs, listenedSeconds)
    }

    constructor (position: real, nowMs: real)
      ensures Now() == Start(position, nowMs)
      ensures lastPosition == (if position < 0.0 then 0.0 else position) && lastUpdateMs == nowMs
      ensures listenedSeconds == 0.0
    {
      lastPosition := Max(0.0, position);
      lastUpdateMs := nowMs;
      listenedSeconds := 0.0;
    }

    method UpdateListenedSeconds(position: real, nowMs: real, playing: bool) returns (listened: real)
      modifies this
      ensures Now() == Next(old(Now()), Update(position, nowMs, playing)) && listened == listenedSeconds
    {
      var nextPosition := Max(0.0, position);
      var positionDelta := nextPosition - lastPosition;
      var wallDelta := Max(0.0, (nowMs - lastUpdateMs) / 1000.0);
      if playing && positionDelta >= 0.0 && positionDelta <= Max(2.0, wallDelta * 2.0) {
        listenedSeconds := listenedSeconds + Min(positionDelta, wallDelta * 1.25);
      }
      lastPosition := nextPosition;
      lastUpdateMs := nowMs;
      listened := listenedSeconds;
    }
  }
}
