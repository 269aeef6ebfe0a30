/**
 List edits shared by the shown queue and the remembered original order of the mobile player,
 and what they do to the bag of song ids.
 */
module QueueEdits {
  import opened ShuffleQueue

  function Ids(songs: seq<Song>): (r: seq<string>)
    ensures |r| == |songs| && forall i :: 0 <= i < |r| ==> r[i] == songs[i].id
  {
    seq(|songs|, i requires 0 <= i < |songs| => songs[i].id)
  }

  ghost function IdBag(songs: seq<Song>): multiset<string> {
    multiset(Ids(songs))
  }

  function RemoveAt<T>(items: seq<T>, index: nat): seq<T>
    requires index < |items|
  {
    items[..index] + items[index + 1..]
  }

  // Both arguments of slice(0, at) and slice(at) are clamped to the list.
  function InsertAt<T>(items: seq<T>, at: nat, item: T): seq<T> {
    var cut := if at > |items| then |items| else at;
    items[..cut] + [item] + items[cut..]
  }

  function Occurrences(songs: seq<Song>, id: string): nat {
    if songs == [] then 0 else (if songs[0].id == id then 1 else 0) + Occurrences(songs[1..], id)
  }

  // The list without the k-th (from 1) song carrying the id.
  function WithoutOccurrence(songs: seq<Song>, id: string, k: int): seq<Song> {
    if songs == [] then []
    else if songs[0].id != id then [songs[0]] + WithoutOccurrence(songs[1..], id, k)
    else if k == 1 then songs[1..]
    else [songs[0]] + WithoutOccurrence(songs[1..], id, k - 1)
  }

  // The first songs of the list that a budget of ids still pays for.
  ghost function KeepWithin(songs: seq<Song>, budget: multiset<string>): seq<Song> {
    if songs == [] then []
    else if songs[0].id in budget then [songs[0]] + KeepWithin(songs[1..], budget - multiset{songs[0].id})
    else KeepWithin(songs[1..], budget)
  }

  lemma {:induction false} IdsOfConcat(a: seq<Song>, b: seq<Song>)
    ensures Ids(a + b) == Ids(a) + Ids(b)
    ensures IdBag(a + b) == IdBag(a) + IdBag(b)
  {
    assert Ids(a + b) == Ids(a) + Ids(b);
  }

  lemma {:induction false} IdsOfHead(songs: seq<Song>)
    requires songs != []
    ensures Ids(songs) == [songs[0].id] + Ids(songs[1..])
    ensures IdBag(songs) == multiset{songs[0].id} + IdBag(songs[1..])
  {
    assert songs == [songs[0]] + songs[1..];
    IdsOfConcat([songs[0]], songs[1..]);
    assert Ids([songs[0]]) == [songs[0].id];
  }

  lemma {:induction false} OccurrencesCountIds(songs: seq<Song>, id: string)
    ensures Occurrences(songs, id) == IdBag(songs)[id]
  {
    if songs != [] {
      IdsOfHead(songs);
      OccurrencesCountIds(songs[1..], id);
    }
  }

  lemma {:induction false} OccursAtEnd(songs: seq<Song>, index: nat)
    requires index < |songs|
    ensures Occurrences(songs[..index + 1], songs[index].id) >= 1
  {
    OccurrencesCountIds(songs[..index + 1], songs[index].id);
    assert Ids(songs[..index + 1])[index] == songs[index].id;
  }

  lemma {:induction false} MultisetOfRemoveAt<T>(items: seq<T>, index: nat)
    requires index < |items|
    ensures multiset(items) == multiset(RemoveAt(items, index)) + multiset{items[index]}
  {
    assert items == items[..index] + [items[index]] + items[index + 1..];
  }

  lemma {:induction false} BagOfRemoveAt(songs: seq<Song>, index: nat)
    requires index < |songs|
    ensures IdBag(songs) == IdBag(RemoveAt(songs, index)) + multiset{songs[index].id}
    ensures Ids(RemoveAt(songs, index)) == RemoveAt(Ids(songs), index)
  {
    MultisetOfRemoveAt(Ids(songs), index);
    assert Ids(RemoveAt(songs, index)) == RemoveAt(Ids(songs), index);
  }

  lemma {:induction false} BagOfInsertAt(songs: seq<Song>, at: nat, song: Song)
    ensures IdBag(InsertAt(songs, at, song)) == IdBag(songs) + multiset{song.id}
    ensures Ids(InsertAt(songs, at, song)) == InsertAt(Ids(songs), at, song.id)
  {
    var cut := if at > |songs| then |songs| else at;
    assert songs == songs[..cut] + songs[cut..];
    IdsOfConcat(songs[..cut], songs[cut..]);
    IdsOfConcat(songs[..cut] + [song], songs[cut..]);
    IdsOfConcat(songs[..cut], [song]);
    assert Ids([song]) == [song.id];
  }

  lemma {:induction false} PermutationKeepsIdBag(a: seq<Song>, b: seq<Song>)
    requires multiset(a) == multiset(b)
    ensures IdBag(a) == IdBag(b)
  {
    if a == [] {
      assert |b| == |multiset(b)| == 0;
    } else {
      assert a[0] in multiset(b);
      var j: nat :| j < |b| && b[j] == a[0];
      MultisetOfRemoveAt(a, 0);
      MultisetOfRemoveAt(b, j);
      assert multiset(RemoveAt(a, 0)) == multiset(a) - multiset{a[0]} == multiset(RemoveAt(b, j));
      PermutationKeepsIdBag(RemoveAt(a, 0), RemoveAt(b, j));
      BagOfRemoveAt(a, 0);
      BagOfRemoveAt(b, j);
    }
  }

  lemma {:induction false} BagOfCons(song: Song, rest: seq<Song>)
    ensures IdBag([song] + rest) == multiset{song.id} + IdBag(rest)
  {
    IdsOfHead([song] + rest);
    assert ([song] + rest)[1..] == rest;
  }

  lemma {:induction false} BagOfWithoutOccurrence(songs: seq<Song>, id: string, k: int)
    requires 1 <= k <= IdBag(songs)[id]
    ensures IdBag(WithoutOccurrence(songs, id, k)) == IdBag(songs) - multiset{id}
  {
    IdsOfHead(songs);
    if songs[0].id != id || k > 1 {
      var next := if songs[0].id == id then k - 1 else k;
      var rest := WithoutOccurrence(songs[1..], id, next);
      BagOfWithoutOccurrence(songs[1..], id, next);
      assert WithoutOccurrence(songs, id, k) == [songs[0]] + rest;
      BagOfCons(songs[0], rest);
      AddThenDrop(songs[0].id, IdBag(songs[1..]), id);
    }
  }

  lemma {:induction false} AddThenDrop(added: string, bag: multiset<string>, dropped: string)
    requires dropped in bag
    ensures multiset{added} + (bag - multiset{dropped}) == (multiset{added} + bag) - multiset{dropped}
  {
  }

  // Counting occurrences up to an index and dropping that occurrence drops that index,
  // in any list with the same ids.
  lemma {:induction false} DropsSameIndex(songs: seq<Song>, index: nat)
    requires index < |songs|
    ensures WithoutOccurrence(songs, songs[index].id, Occurrences(songs[..index + 1], songs[index].id))
            == RemoveAt(songs, index)
  {
    var id := songs[index].id;
    var upTo := songs[..index + 1];
    assert upTo[1..] == songs[1..][..index];
    if index > 0 {
      DropsSameIndex(songs[1..], index - 1);
      assert songs[1..][index - 1] == songs[index];
      assert Occurrences(upTo[1..], id) >= 1 by {
        OccurrencesCountIds(upTo[1..], id);
        assert Ids(upTo[1..])[index - 1] == id;
      }
      assert RemoveAt(songs, index) == [songs[0]] + RemoveAt(songs[1..], index - 1);
    } else {
      assert Occurrences(upTo[1..], id) == 0;
      assert RemoveAt(songs, 0) == songs[1..];
    }
  }

  lemma {:induction false} WithoutOccurrenceSeesIdsOnly(a: seq<Song>, b: seq<Song>, id: string, k: int)
    requires Ids(a) == Ids(b)
    ensures Ids(WithoutOccurrence(a, id, k)) == Ids(WithoutOccurrence(b, id, k))
  {
    if a != [] {
      if a[0].id != id || k != 1 {
        var next := if a[0].id == id then k - 1 else k;
        WithoutOccurrenceSeesIdsOnly(a[1..], b[1..], id, next);
        IdsOfConcat([a[0]], WithoutOccurrence(a[1..], id, next));
        IdsOfConcat([b[0]], WithoutOccurrence(b[1..], id, next));
      }
    }
  }

  lemma {:induction false} BagOfKeepWithin(songs: seq<Song>, budget: multiset<string>)
    ensures IdBag(KeepWithin(songs, budget)) == IdBag(songs) * budget
  {
    if songs != [] {
      IdsOfHead(songs);
      var id := songs[0].id;
      if id in budget {
        var rest := KeepWithin(songs[1..], budget - multiset{id});
        BagOfKeepWithin(songs[1..], budget - multiset{id});
        BagOfCons(songs[0], rest);
      } else {
        BagOfKeepWithin(songs[1..], budget);
      }
    }
  }

  lemma {:induction false} PrefixBagOfTail(songs: seq<Song>, n: nat)
    requires 0 < n <= |songs|
    ensures songs[0].id in IdBag(songs[..n])
    ensures IdBag(songs[..n]) - multiset{songs[0].id} == IdBag(songs[1..][..n - 1])
  {
    assert songs[..n][1..] == songs[1..][..n - 1];
    IdsOfHead(songs[..n]);
  }

  // Filtering a list by the id counts of its own prefix returns exactly that prefix,
  // whether or not ids repeat.
  lemma {:induction false} KeepWithinOwnPrefix(songs: seq<Song>, n: nat)
    requires n <= |songs|
    ensures KeepWithin(songs, IdBag(songs[..n])) == songs[..n]
  {
    if n == 0 {
      assert IdBag(songs[..n]) == multiset{};
      KeepNothing(songs);
    } else {
      PrefixBagOfTail(songs, n);
      KeepWithinOwnPrefix(songs[1..], n - 1);
    }
  }

  lemma {:induction false} KeepNothing(songs: seq<Song>)
    ensures KeepWithin(songs, multiset{}) == []
  {
    if songs != [] {
      KeepNothing(songs[1..]);
    }
  }

  lemma {:induction false} KeepWithinSeesIdsOnly(a: seq<Song>, b: seq<Song>, budget: multiset<string>)
    requires Ids(a) == Ids(b)
    ensures Ids(KeepWithin(a, budget)) == Ids(KeepWithin(b, budget))
  {
    if a != [] {
      var next := if a[0].id in budget then budget - multiset{a[0].id} else budget;
      KeepWithinSeesIdsOnly(a[1..], b[1..], next);
      IdsOfConcat([a[0]], KeepWithin(a[1..], next));
      IdsOfConcat([b[0]], KeepWithin(b[1..], next));
    }
  }

  // Inserting one value at two places gives the same list exactly when every value between
  // the two places equals it.
  lemma {:induction false} InsertionsAgree<T>(items: seq<T>, a: nat, b: nat, item: T)
    requires a <= b <= |items|
    ensures InsertAt(items, a, item) == InsertAt(items, b, item) <==> forall i :: a <= i < b ==> items[i] == item
    decreases b - a
  {
    var left, right := InsertAt(items, a, item), InsertAt(items, b, item);
    if left == right {
      AllEqualBetween(items, a, b, item);
    }
    if (forall i :: a <= i < b ==> items[i] == item) && a < b {
      InsertionsAgree(items, a + 1, b, item);
      assert left == InsertAt(items, a + 1, item);
    }
  }

  lemma {:induction false} AllEqualBetween<T>(items: seq<T>, a: nat, b: nat, item: T)
    requires a <= b <= |items| && InsertAt(items, a, item) == InsertAt(items, b, item)
    ensures forall i :: a <= i < b ==> items[i] == item
    decreases b - a
  {
    if a < b {
      assert InsertAt(items, a, item)[a] == item;
      assert InsertAt(items, b, item)[a] == items[a];
      assert InsertAt(items, a, item) == InsertAt(items, a + 1, item);
      AllEqualBetween(items, a + 1, b, item);
    }
  }
}
