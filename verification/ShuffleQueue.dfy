/**
 The mobile client's queue shuffler. The random source is any stream of draws in [0, 1);
 `random(k)` is the value the k-th call returns.
 */
module ShuffleQueue {
  import opened Wrappers

  // Two queue entries with the same id may be different objects, hence the second field.
  datatype Song = Song(id: string, name: string)

  ghost predicate UnitDraws(random: nat -> real) {
    forall k: nat :: 0.0 <= random(k) < 1.0
  }

  function Target(draw: real, index: nat): (target: nat)
    requires 0.0 <= draw < 1.0
    ensures target <= index
  {
    (draw * (index + 1) as real).Floor
  }

  // Each place up to the index is the target of an equally wide part of the draws.
  lemma {:induction false} TargetsAreEven(draw: real, index: nat, target: nat)
    requires 0.0 <= draw < 1.0 && target <= index
    ensures Target(draw, index) == target
            <==> target as real / (index + 1) as real <= draw < (target + 1) as real / (index + 1) as real
  {
    var n := (index + 1) as real;
    assert target as real / n <= draw <==> target as real <= draw * n;
    assert draw < (target + 1) as real / n <==> draw * n < (target + 1) as real;
  }

  function Swapped<T>(items: seq<T>, i: nat, j: nat): (r: seq<T>)
    requires i < |items| && j < |items|
    ensures |r| == |items|
  {
    items[i := items[j]][j := items[i]]
  }

  function FisherYates<T>(items: seq<T>, last: nat, call: nat, random: nat -> real): (r: seq<T>)
    requires last < |items| && UnitDraws(random)
    ensures |r| == |items|
    decreases last
  {
    if last == 0 then items
    else FisherYates(Swapped(items, last, Target(random(call), last)), last - 1, call + 1, random)
  }

  function SafeIndex(length: nat, currentIndex: int): (r: nat)
    requires length > 0
    ensures r < length
  {
    if currentIndex < 0 then 0 else if currentIndex > length - 1 then length - 1 else currentIndex
  }

  // The shuffled queue, with its new current index; what the method below computes.
  function Shuffled<T>(queue: seq<T>, currentIndex: int, random: nat -> real): (r: (int, seq<T>))
    requires UnitDraws(random)
    ensures |r.1| == |queue|
  {
    if queue == [] then (-1, [])
    else
      var safe := SafeIndex(|queue|, currentIndex);
      var remaining := queue[..safe] + queue[safe + 1..];
      (0, [queue[safe]] + (if remaining == [] then [] else FisherYates(remaining, |remaining| - 1, 0, random)))
  }

  method ShuffledQueue<T>(queue: seq<T>, currentIndex: int, random: nat -> real) returns (index: int, shuffled: seq<T>)
    requires UnitDraws(random)
    ensures (index, shuffled) == Shuffled(queue, currentIndex, random)
    ensures queue == [] ==> index == -1 && shuffled == []
  {
    if |queue| == 0 {
      return -1, [];
    }
    var safe := SafeIndex(|queue|, currentIndex);
    var rest := queue[..safe] + queue[safe + 1..];
    var remaining := new T[|rest|](i requires 0 <= i < |rest| => rest[i]);
    assert remaining[..] == rest;
    Shuffle(remaining, random);
    return 0, [queue[safe]] + remaining[..];
  }

  // The swaps, from the end of the array down.
  method Shuffle<T>(remaining: array<T>, random: nat -> real)
    requires UnitDraws(random)
    modifies remaining
    ensures remaining[..]
         == if old(remaining[..]) == [] then [] else FisherYates(old(remaining[..]), remaining.Length - 1, 0, random)
  {
    ghost var rest := remaining[..];
    var i, call := remaining.Length - 1, 0;
    while i > 0
      invariant rest != [] ==> 0 <= i < remaining.Length
      invariant rest != [] ==>
          FisherYates(remaining[..], i, call, random) == FisherYates(rest, |rest| - 1, 0, random)
    {
      var target := Target(random(call), i);
      ghost var before := remaining[..];
      remaining[i], remaining[target] := remaining[target], remaining[i];
      assert remaining[..] == Swapped(before, i, target);
      i, call := i - 1, call + 1;
    }
  }

  function FirstIndex(songs: seq<Song>, id: string): (r: int)
    ensures -1 <= r < |songs|
    ensures r >= 0 ==> songs[r].id == id && forall k :: 0 <= k < r ==> songs[k].id != id
    ensures r < 0 ==> forall k :: 0 <= k < |songs| ==> songs[k].id != id
  {
    if songs == [] then -1
    else if songs[0].id == id then 0
    else
      var rest := FirstIndex(songs[1..], id);
      if rest < 0 then -1 else rest + 1
  }

  function RestoredQueue(original: seq<Song>, current: Option<Song>): (r: (int, seq<Song>))
    ensures current.None? ==> r == (if original == [] then -1 else 0, original)
    ensures current.Some? ==> 0 <= r.0 < |r.1| && r.1[r.0].id == current.value.id
    ensures current.Some? ==> forall k :: 0 <= k < r.0 ==> r.1[k].id != current.value.id
    ensures current.Some? ==>
              r.1 == if exists k :: 0 <= k < |original| && original[k].id == current.value.id then original
                     else [current.value] + original
  {
    if current.None? then (if original == [] then -1 else 0, original)
    else
      var index := FirstIndex(original, current.value.id);
      if index >= 0 then (index, original) else (0, [current.value] + original)
  }

  // ----- Every shuffle is a permutation -----

  lemma {:induction false} FisherYatesPermutes<T>(items: seq<T>, last: nat, call: nat, random: nat -> real)
    requires last < |items| && UnitDraws(random)
    ensures multiset(FisherYates(items, last, call, random)) == multiset(items)
    ensures FisherYates(items, last, call, random)[last + 1..] == items[last + 1..]
    decreases last
  {
    if last > 0 {
      var next := Swapped(items, last, Target(random(call), last));
      FisherYatesPermutes(next, last - 1, call + 1, random);
      var r := FisherYates(items, last, call, random);
      assert r[last + 1..] == r[last..][1..];
      assert next[last + 1..] == items[last + 1..];
      assert next[last..][1..] == next[last + 1..];
    }
  }

  lemma {:induction false} PutInFrontPermutes<T>(queue: seq<T>, safe: nat, mixed: seq<T>)
    requires safe < |queue| && multiset(mixed) == multiset(queue[..safe] + queue[safe + 1..])
    ensures multiset([queue[safe]] + mixed) == multiset(queue)
  {
    TakingOutDropsOne(queue, safe);
  }

  lemma {:induction false} ShufflePermutes<T>(queue: seq<T>, currentIndex: int, random: nat -> real)
    requires UnitDraws(random) && queue != []
    ensures var (index, shuffled) := Shuffled(queue, currentIndex, random);
            && index == 0 && shuffled[0] == queue[SafeIndex(|queue|, currentIndex)]
            && multiset(shuffled) == multiset(queue)
  {
    var safe := SafeIndex(|queue|, currentIndex);
    var remaining := queue[..safe] + queue[safe + 1..];
    var mixed := if remaining == [] then [] else FisherYates(remaining, |remaining| - 1, 0, random);
    if remaining != [] {
      FisherYatesPermutes(remaining, |remaining| - 1, 0, random);
    }
    assert Shuffled(queue, currentIndex, random).1 == [queue[safe]] + mixed;
    PutInFrontPermutes(queue, safe, mixed);
  }

  lemma {:induction false} TakingOutDropsOne<T>(items: seq<T>, i: nat)
    requires i < |items|
    ensures multiset(items) == multiset{items[i]} + multiset(items[..i] + items[i + 1..])
  {
    assert items == items[..i] + [items[i]] + items[i + 1..];
  }

  // ----- Every permutation is reached, by exactly one sequence of swap targets -----

  function DrawFor(target: nat, index: nat): (draw: real)
    requires target <= index
    ensures 0.0 <= draw < 1.0 && Target(draw, index) == target
  {
    target as real / (index + 1) as real
  }

  lemma {:induction false} FisherYatesDependsOnLaterDraws<T>(items: seq<T>, last: nat, call: nat, r1: nat -> real,
                                                             r2: nat -> real)
    requires last < |items| && UnitDraws(r1) && UnitDraws(r2)
    requires forall k: nat :: call <= k ==> r1(k) == r2(k)
    ensures FisherYates(items, last, call, r1) == FisherYates(items, last, call, r2)
    decreases last
  {
    if last > 0 {
      FisherYatesDependsOnLaterDraws(Swapped(items, last, Target(r1(call), last)), last - 1, call + 1, r1, r2);
    }
  }

  lemma {:induction false} FisherYatesReaches<T>(items: seq<T>, last: nat, call: nat, goal: seq<T>)
    returns (random: nat -> real)
    requires last < |items| == |goal|
    requires multiset(items[..last + 1]) == multiset(goal[..last + 1]) && items[last + 1..] == goal[last + 1..]
    ensures UnitDraws(random) && FisherYates(items, last, call, random) == goal
    decreases last
  {
    if last == 0 {
      random := _ => 0.0;
      OneElementPrefix(items, goal);
    } else {
      var target := TargetOf(items, last, goal);
      var next := Swapped(items, last, target);
      SwapKeepsPrefix(items, last, target);
      DropLastOfPrefix(next, goal, last);
      var rest := FisherYatesReaches(next, last - 1, call + 1, goal);
      random := WithDraw(call, DrawFor(target, last), rest);
      FisherYatesDependsOnLaterDraws(next, last - 1, call + 1, random, rest);
    }
  }

  ghost function WithDraw(call: nat, draw: real, rest: nat -> real): (random: nat -> real)
    requires UnitDraws(rest) && 0.0 <= draw < 1.0
    ensures UnitDraws(random) && random(call) == draw && forall k: nat :: k != call ==> random(k) == rest(k)
  {
    (k: nat) => if k == call then draw else rest(k)
  }

  lemma {:induction false} OneElementPrefix<T>(items: seq<T>, goal: seq<T>)
    requires |items| == |goal| > 0 && multiset(items[..1]) == multiset(goal[..1]) && items[1..] == goal[1..]
    ensures items == goal
  {
    assert items[..1] == [items[0]] && goal[..1] == [goal[0]];
    assert items[0] in multiset{goal[0]};
    assert items == items[..1] + items[1..] && goal == goal[..1] + goal[1..];
  }

  lemma {:induction false} TargetOf<T>(items: seq<T>, last: nat, goal: seq<T>) returns (target: nat)
    requires last < |items| == |goal|
    requires multiset(items[..last + 1]) == multiset(goal[..last + 1])
    ensures target <= last && items[target] == goal[last]
  {
    assert goal[..last + 1][last] in multiset(goal[..last + 1]);
    assert goal[last] in items[..last + 1];
    target :| 0 <= target <= last && items[..last + 1][target] == goal[last];
  }

  lemma {:induction false} DropLastOfPrefix<T>(items: seq<T>, goal: seq<T>, last: nat)
    requires last < |items| == |goal| && items[last] == goal[last]
    requires multiset(items[..last + 1]) == multiset(goal[..last + 1]) && items[last + 1..] == goal[last + 1..]
    ensures multiset(items[..last]) == multiset(goal[..last]) && items[last..] == goal[last..]
  {
    assert items[..last + 1] == items[..last] + [items[last]];
    assert goal[..last + 1] == goal[..last] + [goal[last]];
    assert multiset(items[..last]) == multiset(items[..last + 1]) - multiset{items[last]};
    assert multiset(goal[..last]) == multiset(goal[..last + 1]) - multiset{goal[last]};
    assert items[last..] == [items[last]] + items[last + 1..];
    assert goal[last..] == [goal[last]] + goal[last + 1..];
  }

  lemma {:induction false} SwapKeepsPrefix<T>(items: seq<T>, last: nat, target: nat)
    requires target <= last < |items|
    ensures multiset(Swapped(items, last, target)[..last + 1]) == multiset(items[..last + 1])
  {
    assert Swapped(items, last, target)[..last + 1] == Swapped(items[..last + 1], last, target);
  }

  // Every arrangement of the other songs can come out of the shuffle.
  lemma {:induction false} ShuffleReachesEveryOrder<T>(queue: seq<T>, index: nat, goal: seq<T>)
    returns (random: nat -> real)
    requires index < |queue|
    requires multiset(goal) == multiset(queue[..index] + queue[index + 1..])
    ensures UnitDraws(random) && Shuffled(queue, index, random) == (0, [queue[index]] + goal)
  {
    var remaining := queue[..index] + queue[index + 1..];
    assert |goal| == |multiset(goal)| == |remaining|;
    if remaining == [] {
      random := _ => 0.0;
    } else {
      assert remaining[..|remaining|] == remaining && goal[..|remaining|] == goal;
      random := FisherYatesReaches(remaining, |remaining| - 1, 0, goal);
    }
  }

  ghost predicate SameTargets(r1: nat -> real, r2: nat -> real, last: nat, call: nat)
    requires UnitDraws(r1) && UnitDraws(r2)
  {
    last > 0 ==> Target(r1(call), last) == Target(r2(call), last) && SameTargets(r1, r2, last - 1, call + 1)
  }

  ghost predicate Distinct<T>(items: seq<T>) {
    forall i, j :: 0 <= i < j < |items| ==> items[i] != items[j]
  }

  // Two streams that give the same arrangement of distinct songs chose the same swap targets,
  // so no arrangement is favoured by having more target sequences than another.
  lemma {:induction false} FisherYatesIsInjective<T>(items: seq<T>, last: nat, call: nat, r1: nat -> real,
                                                     r2: nat -> real)
    requires last < |items| && UnitDraws(r1) && UnitDraws(r2) && Distinct(items)
    requires FisherYates(items, last, call, r1) == FisherYates(items, last, call, r2)
    ensures SameTargets(r1, r2, last, call)
    decreases last
  {
    if last > 0 {
      var t1, t2 := Target(r1(call), last), Target(r2(call), last);
      LastIsDrawn(items, last, call, r1);
      LastIsDrawn(items, last, call, r2);
      assert t1 == t2;
      FisherYatesIsInjective(Swapped(items, last, t1), last - 1, call + 1, r1, r2);
    }
  }

  lemma {:induction false} LastIsDrawn<T>(items: seq<T>, last: nat, call: nat, random: nat -> real)
    requires 0 < last < |items| && UnitDraws(random)
    ensures FisherYates(items, last, call, random)[last] == items[Target(random(call), last)]
  {
    var next := Swapped(items, last, Target(random(call), last));
    FisherYatesPermutes(next, last - 1, call + 1, random);
    assert FisherYates(items, last, call, random)[last..][0] == next[last..][0];
  }

  // ----- Shuffle, then restore -----

  // Restoring after a shuffle gives back the list and the current song id, and the same
  // index exactly when no earlier entry carries the current id.
  lemma {:induction false} ShuffleRoundTrip(queue: seq<Song>, index: nat, random: nat -> real)
    requires index < |queue| && UnitDraws(random)
    ensures var shuffled := Shuffled(queue, index, random).1;
            var (restoredIndex, restored) := RestoredQueue(queue, Some(shuffled[0]));
            && restored == queue
            && restored[restoredIndex].id == queue[index].id
            && (restoredIndex == index <==> forall k :: 0 <= k < index ==> queue[k].id != queue[index].id)
  {
    ShufflePermutes(queue, index, random);
  }
}
