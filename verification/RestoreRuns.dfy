/**
 Whole restores: any number of attempts that stop before the marker is gone, each under a fresh
 time stamp, and one that gets past it.
 */
module RestoreRuns {
  import opened Wrappers
  import opened RestoreTree
  import opened RestoreSteps
  import opened RestoreSafety

  // The disk some number of steps leave.
  ghost predicate Leaves(before: Disk, after: Disk, stamp: int) {
    && before.marker && Complete(before.staged) && stamp !in before.saved
    && exists steps :: Applying(before, stamp, steps).disk == after
  }

  // An attempt that stops before the marker is gone, and one that does not.
  ghost predicate Attempt(before: Disk, after: Disk, stamp: int) {
    Leaves(before, after, stamp) && after.marker
  }

  ghost predicate Ends(before: Disk, after: Disk, stamp: int) {
    Leaves(before, after, stamp) && !after.marker
  }

  // disks[i] is the disk before attempt i, which used stamps[i] and stopped.
  ghost predicate Attempts(disks: seq<Disk>, stamps: seq<int>) {
    && |disks| == |stamps| + 1
    && forall i :: AttemptAt(disks, stamps, i)
  }

  ghost predicate AttemptAt(disks: seq<Disk>, stamps: seq<int>, i: int)
    requires |disks| == |stamps| + 1
  {
    0 <= i < |stamps| ==> Attempt(disks[i], disks[i + 1], stamps[i])
  }

  // Stamps are times of day, so each attempt's is later than every rollback's on the disk.
  ghost predicate Later(saved: set<int>, stamps: seq<int>) {
    && (forall t, i :: t in saved && 0 <= i < |stamps| ==> t < stamps[i])
    && (forall i, j :: 0 <= i < j < |stamps| ==> stamps[i] < stamps[j])
  }

  lemma {:induction false} AttemptIsSafe(before: Disk, after: Disk, stamp: int)
    requires Attempt(before, after, stamp)
    ensures StoppedEarly(before, after, stamp)
  {
    var steps :| Applying(before, stamp, steps).disk == after;
    EveryStopIsSafe(before, stamp, steps);
  }

  lemma {:induction false} EndIsFinished(before: Disk, after: Disk, stamp: int)
    requires Ends(before, after, stamp)
    ensures Finished(before, after, stamp)
  {
    var steps :| Applying(before, stamp, steps).disk == after;
    EveryStopIsSafe(before, stamp, steps);
  }

  // ----- Crash convergence -----

  lemma {:induction false} AttemptsKeepTheStage(disks: seq<Disk>, stamps: seq<int>, n: nat)
    requires Attempts(disks, stamps) && n < |disks| && disks[0].staged.Some?
    ensures disks[n].staged == disks[0].staged
    ensures SameOutside(disks[0].files, disks[n].files, disks[0].staged.value.files.Keys)
  {
    if n > 0 {
      AttemptsKeepTheStage(disks, stamps, n - 1);
      assert AttemptAt(disks, stamps, n - 1);
      AttemptIsSafe(disks[n - 1], disks[n], stamps[n - 1]);
    }
  }

  lemma {:induction false} GetsDetermine<K, V>(x: map<K, V>, y: map<K, V>)
    requires forall k :: Get(x, k) == Get(y, k)
    ensures x == y
  {
    forall k ensures k in x <==> k in y {
      assert Get(x, k) == Get(y, k);
    }
    forall k | k in x ensures x[k] == y[k] {
      assert Get(x, k) == Get(y, k);
    }
  }

  // Whatever the attempts did, the end is settled by the disk before the first one.
  lemma {:induction false} EndIsSettled(disks: seq<Disk>, stamps: seq<int>, final: Disk, stamp: int)
    requires Attempts(disks, stamps) && Ends(disks[|stamps|], final, stamp)
    ensures disks[0].staged.Some? && Complete(disks[0].staged) && Replaced(disks[0], final)
  {
    if |stamps| > 0 {
      assert AttemptAt(disks, stamps, 0);
    }
    AttemptsKeepTheStage(disks, stamps, |stamps|);
    EndIsFinished(disks[|stamps|], final, stamp);
    var databases := disks[0].staged.value.files;
    forall f ensures Get(final.files, f) == FinalFile(disks[0].files, databases, f) {
      assert Get(final.files, f) == FinalFile(disks[|stamps|].files, databases, f);
    }
  }

  // However often the restore was stopped and started again, it leaves the same databases,
  // journals and data directories as one that was never stopped.
  lemma {:induction false} StoppedRestoresConverge(disks: seq<Disk>, stamps: seq<int>, final: Disk, stamp: int,
                                                   direct: Disk, directStamp: int)
    requires Attempts(disks, stamps) && Ends(disks[|stamps|], final, stamp) && Ends(disks[0], direct, directStamp)
    ensures final.files == direct.files && final.dirs == direct.dirs
  {
    EndIsSettled(disks, stamps, final, stamp);
    EndIsFinished(disks[0], direct, directStamp);
    forall f ensures Get(final.files, f) == Get(direct.files, f) {
      assert Get(final.files, f) == FinalFile(disks[0].files, disks[0].staged.value.files, f);
    }
    GetsDetermine(final.files, direct.files);
    forall name ensures Get(final.dirs, name) == Get(direct.dirs, name) {
      assert Get(final.dirs, name) == RestoredDir(disks[0].staged.value.dirs, name);
    }
    GetsDetermine(final.dirs, direct.dirs);
  }

  // A journal of a database is kept exactly when no file is staged for the database or there was
  // none; no rollback has a place for it.
  lemma {:induction false} JournalsAreNotKept(disks: seq<Disk>, stamps: seq<int>, final: Disk, stamp: int,
                                              journal: FileName)
    requires Attempts(disks, stamps) && Ends(disks[|stamps|], final, stamp) && (journal.Wal? || journal.Shm?)
    ensures disks[0].staged.Some?
    ensures Get(final.files, journal) == Get(disks[0].files, journal)
            <==> journal.db !in disks[0].staged.value.files || journal !in disks[0].files
  {
    EndIsSettled(disks, stamps, final, stamp);
    assert Get(final.files, journal) == FinalFile(disks[0].files, disks[0].staged.value.files, journal);
  }

  // ----- Nothing is lost -----

  // What a rollback may hold.
  datatype Item = DatabaseItem(db: Database) | DirectoryItem(name: DirName)

  datatype Content = DatabaseContent(data: Bytes) | DirectoryContent(tree: Tree)

  function Lift<T>(o: Option<T>, f: T -> Content): Option<Content> {
    if o.Some? then Some(f(o.value)) else None
  }

  function LiveItem(disk: Disk, item: Item): Option<Content> {
    match item
    case DatabaseItem(db) => Lift(Get(disk.files, Live(db)), data => DatabaseContent(data))
    case DirectoryItem(name) => Lift(Get(disk.dirs, name), tree => DirectoryContent(tree))
  }

  function SavedItem(rollback: Rollback, item: Item): Option<Content> {
    match item
    case DatabaseItem(db) => Lift(Get(rollback.files, db), data => DatabaseContent(data))
    case DirectoryItem(name) => Lift(Get(rollback.dirs, name), tree => DirectoryContent(tree))
  }

  ghost predicate SavedUnder(disk: Disk, stamps: seq<int>, item: Item, content: Content) {
    exists i :: 0 <= i < |stamps| && stamps[i] in disk.saved && SavedItem(disk.saved[stamps[i]], item) == Some(content)
  }

  lemma {:induction false} AttemptKeepsItem(before: Disk, after: Disk, stamp: int, item: Item)
    requires before.staged.Some? && StoppedEarly(before, after, stamp) && LiveItem(before, item).Some?
    ensures LiveItem(after, item) == LiveItem(before, item)
            || (stamp in after.saved && SavedItem(after.saved[stamp], item) == LiveItem(before, item))
  {
    match item
    case DatabaseItem(db) => assert DatabaseSafe(before, after, stamp, db);
    case DirectoryItem(name) => assert DirectorySafe(before, after, stamp, name);
  }

  lemma {:induction false} SavedStays(before: Disk, after: Disk, stamp: int, stamps: seq<int>, item: Item,
                                      content: Content)
    requires stamp !in before.saved && OnlyTouches(before.saved, after.saved, stamp)
             && SavedUnder(before, stamps, item, content)
    ensures SavedUnder(after, stamps + [stamp], item, content)
  {
    var i :| 0 <= i < |stamps| && stamps[i] in before.saved
        && SavedItem(before.saved[stamps[i]], item) == Some(content);
    assert (stamps + [stamp])[i] == stamps[i];
  }

  lemma {:induction false} NewlySaved(after: Disk, stamp: int, stamps: seq<int>, item: Item, content: Content)
    requires stamp in after.saved && SavedItem(after.saved[stamp], item) == Some(content)
    ensures SavedUnder(after, stamps + [stamp], item, content)
  {
    assert (stamps + [stamp])[|stamps|] == stamp;
  }

  // Wherever the attempts stop, every database and directory that was there before the first one
  // is still live, unchanged, or in the rollback of one of them.
  lemma {:induction false} NothingIsLost(disks: seq<Disk>, stamps: seq<int>, n: nat, item: Item)
    requires Attempts(disks, stamps) && n <= |stamps| && LiveItem(disks[0], item).Some?
    ensures LiveItem(disks[n], item) == LiveItem(disks[0], item)
            || SavedUnder(disks[n], stamps[..n], item, LiveItem(disks[0], item).value)
  {
    if n > 0 {
      NothingIsLost(disks, stamps, n - 1, item);
      var before, after, stamp := disks[n - 1], disks[n], stamps[n - 1];
      var content := LiveItem(disks[0], item).value;
      assert AttemptAt(disks, stamps, n - 1);
      AttemptIsSafe(before, after, stamp);
      assert stamps[..n] == stamps[..n - 1] + [stamp];
      if LiveItem(before, item) == Some(content) {
        AttemptKeepsItem(before, after, stamp, item);
        if LiveItem(after, item) != Some(content) {
          NewlySaved(after, stamp, stamps[..n - 1], item, content);
        }
      } else {
        SavedStays(before, after, stamp, stamps[..n - 1], item, content);
      }
    }
  }

  lemma {:induction false} RollbacksAreFromAttempts(disks: seq<Disk>, stamps: seq<int>, n: nat)
    requires Attempts(disks, stamps) && n <= |stamps|
    ensures disks[n].saved.Keys <= disks[0].saved.Keys + (set t | t in stamps[..n])
  {
    if n > 0 {
      RollbacksAreFromAttempts(disks, stamps, n - 1);
      assert AttemptAt(disks, stamps, n - 1);
      AttemptIsSafe(disks[n - 1], disks[n], stamps[n - 1]);
      assert stamps[..n] == stamps[..n - 1] + [stamps[n - 1]];
    }
  }

  lemma {:induction false} SetIsNoLarger(items: seq<int>)
    ensures |set t | t in items| <= |items|
  {
    if items != [] {
      SetIsNoLarger(items[1..]);
      assert (set t | t in items) == {items[0]} + (set t | t in items[1..]);
    } else {
      assert (set t | t in items) == {};
    }
  }

  // Only later attempts have newer rollbacks.
  lemma {:induction false} LaterAttemptsAreNewer(old_: set<int>, stamps: seq<int>, all: set<int>, h: nat)
    requires Later(old_, stamps) && h < |stamps| && all <= old_ + (set t | t in stamps)
    ensures Rank(all, stamps[h]) < |stamps| - h
  {
    var after := stamps[h + 1..];
    var newer := set u | u in all && u > stamps[h];
    forall u | u in newer ensures u in after {
      var i :| 0 <= i < |stamps| && stamps[i] == u;
      assert h < i;
      assert after[i - h - 1] == u;
    }
    SetIsNoLarger(after);
    SubsetIsSmaller(newer, set t | t in after);
  }

  // Something on the final disk still holds the content.
  ghost predicate Survives(final: Disk, item: Item, content: Content) {
    LiveItem(final, item) == Some(content)
    || exists t :: t in final.saved && SavedItem(final.saved[t], item) == Some(content)
  }

  // At the start of attempt h the item was as in the beginning, at no later start.
  ghost predicate LastLiveAt(disks: seq<Disk>, item: Item, h: nat) {
    && h < |disks| && LiveItem(disks[h], item) == LiveItem(disks[0], item)
    && forall j :: h < j < |disks| ==> LiveItem(disks[j], item) != LiveItem(disks[0], item)
  }

  lemma {:induction false} LastLive(disks: seq<Disk>, item: Item, h: nat) returns (last: nat)
    requires h < |disks| && LiveItem(disks[h], item) == LiveItem(disks[0], item)
    ensures h <= last && LastLiveAt(disks, item, last)
    decreases |disks| - h
  {
    last := h;
    if j :| h < j < |disks| && LiveItem(disks[j], item) == LiveItem(disks[0], item) {
      last := LastLive(disks, item, j);
    }
  }

  // A rollback stays as its attempt left it.
  lemma {:induction false} RollbackStays(disks: seq<Disk>, stamps: seq<int>, i: nat, n: nat)
    requires Attempts(disks, stamps) && Later(disks[0].saved.Keys, stamps) && i < n <= |stamps|
    ensures Get(disks[n].saved, stamps[i]) == Get(disks[i + 1].saved, stamps[i])
  {
    if i + 1 < n {
      RollbackStays(disks, stamps, i, n - 1);
      assert AttemptAt(disks, stamps, n - 1);
      AttemptIsSafe(disks[n - 1], disks[n], stamps[n - 1]);
      assert stamps[i] < stamps[n - 1];
    }
  }

  // The rollback of the last attempt that found the original live is kept when fewer than three are newer.
  lemma {:induction false} LastFinderKeepsOriginal(disks: seq<Disk>, stamps: seq<int>, final: Disk, stamp: int,
                                                   item: Item, h: nat)
    requires Attempts(disks, stamps) && disks[|stamps|].staged.Some? && Finished(disks[|stamps|], final, stamp)
    requires Later(disks[0].saved.Keys, stamps + [stamp])
    requires LiveItem(disks[0], item).Some? && LastLiveAt(disks, item, h)
    requires Rank(disks[|stamps|].saved.Keys + {stamp}, (stamps + [stamp])[h]) < ROLLBACKS_KEPT
    ensures SavedUnder(final, stamps + [stamp], item, LiveItem(disks[0], item).value)
  {
    var n, used, last := |stamps|, stamps + [stamp], disks[|stamps|];
    var content := LiveItem(disks[0], item).value;
    var all := last.saved.Keys + {stamp};
    if h == n {
      assert used[h] in NewestStamps(all, ROLLBACKS_KEPT);
      assert HoldsAll(final.saved[stamp], last);
      assert SavedItem(final.saved[used[h]], item) == Some(content);
    } else {
      assert used[h] == stamps[h] < used[n];
      assert AttemptAt(disks, stamps, h);
      AttemptIsSafe(disks[h], disks[h + 1], stamps[h]);
      AttemptKeepsItem(disks[h], disks[h + 1], stamps[h], item);
      LaterPrefix(disks[0].saved.Keys, stamps, stamp);
      RollbackStays(disks, stamps, h, n);
      assert stamps[h] in last.saved && SavedItem(last.saved[stamps[h]], item) == Some(content);
      assert used[h] in NewestStamps(all, ROLLBACKS_KEPT);
      assert used[h] in final.saved && final.saved[used[h]] == last.saved[used[h]];
    }
  }

  lemma {:induction false} LaterPrefix(old_: set<int>, stamps: seq<int>, stamp: int)
    requires Later(old_, stamps + [stamp])
    ensures Later(old_, stamps) && forall i :: 0 <= i < |stamps| ==> stamps[i] < stamp
  {
    var used := stamps + [stamp];
    forall i | 0 <= i < |stamps| ensures used[i] == stamps[i] && stamps[i] < stamp {
      assert used[i] < used[|stamps|];
    }
  }

  // However often a restore was stopped: if the original was still live, unchanged, at the start of one of
  // the last three attempts, a kept rollback holds it.
  lemma {:induction false} OriginalsSurvivePruning(disks: seq<Disk>, stamps: seq<int>, final: Disk, stamp: int,
                                                   item: Item, h: nat)
    requires Attempts(disks, stamps) && Ends(disks[|stamps|], final, stamp)
    requires Later(disks[0].saved.Keys, stamps + [stamp]) && h <= |stamps| < h + 3
    requires LiveItem(disks[0], item).Some? && LiveItem(disks[h], item) == LiveItem(disks[0], item)
    ensures SavedUnder(final, stamps + [stamp], item, LiveItem(disks[0], item).value)
  {
    var n, used := |stamps|, stamps + [stamp];
    var last := LastLive(disks, item, h);
    RollbacksAreFromAttempts(disks, stamps, n);
    assert stamps[..n] == stamps && used[n] == stamp;
    var all := disks[n].saved.Keys + {stamp};
    assert all <= disks[0].saved.Keys + (set t | t in used);
    LaterAttemptsAreNewer(disks[0].saved.Keys, used, all, last);
    EndIsFinished(disks[n], final, stamp);
    LastFinderKeepsOriginal(disks, stamps, final, stamp, item, last);
  }

  // ----- Exactly when an original survives -----

  // The content can come from the staged backup: a beginning of its database, or a part of the copy of
  // its directory.
  ghost predicate MadeFrom(staged: Staged, item: Item, content: Content) {
    match item
    case DatabaseItem(db) => content.DatabaseContent? && db in staged.files && content.data <= staged.files[db]
    case DirectoryItem(name) => content.DirectoryContent? && PartlyCopied(staged.dirs, name, content.tree)
  }

  ghost predicate NothingButMade(live: Option<Content>, staged: Staged, item: Item) {
    live.Some? ==> MadeFrom(staged, item, live.value)
  }

  lemma {:induction false} StepMakes(before: Disk, after: Disk, stamp: int, item: Item)
    requires before.staged.Some? && StoppedEarly(before, after, stamp)
    requires LiveItem(after, item) != LiveItem(before, item)
    ensures NothingButMade(LiveItem(after, item), before.staged.value, item)
  {
    match item
    case DatabaseItem(db) => assert DatabaseSafe(before, after, stamp, db);
    case DirectoryItem(name) => assert DirectorySafe(before, after, stamp, name);
  }

  // Once gone, the item is nothing but what the backup makes of it.
  lemma {:induction false} LaterIsMade(disks: seq<Disk>, stamps: seq<int>, item: Item, h: nat, j: nat)
    requires Attempts(disks, stamps) && disks[0].staged.Some? && LastLiveAt(disks, item, h) && h < j <= |stamps|
    ensures NothingButMade(LiveItem(disks[j], item), disks[0].staged.value, item)
  {
    assert AttemptAt(disks, stamps, j - 1);
    AttemptsKeepTheStage(disks, stamps, j - 1);
    AttemptIsSafe(disks[j - 1], disks[j], stamps[j - 1]);
    if LiveItem(disks[j], item) == LiveItem(disks[j - 1], item) {
      assert j - 1 != h;
      LaterIsMade(disks, stamps, item, h, j - 1);
    } else {
      StepMakes(disks[j - 1], disks[j], stamps[j - 1], item);
    }
  }

  lemma {:induction false} LaterRollbackIsMade(disks: seq<Disk>, stamps: seq<int>, item: Item, h: nat, j: nat)
    requires Attempts(disks, stamps) && Later(disks[0].saved.Keys, stamps) && disks[0].staged.Some?
    requires LastLiveAt(disks, item, h) && h < j < |stamps| && stamps[j] in disks[|stamps|].saved
    ensures NothingButMade(SavedItem(disks[|stamps|].saved[stamps[j]], item), disks[0].staged.value, item)
  {
    assert AttemptAt(disks, stamps, j);
    var before, after, stamp := disks[j], disks[j + 1], stamps[j];
    RollbackStays(disks, stamps, j, |stamps|);
    var steps :| Applying(before, stamp, steps).disk == after;
    RollbackIsTaken(before, stamp, steps);
    LaterIsMade(disks, stamps, item, h, j);
  }

  // An end that also got through the pruning.
  ghost predicate EndsPruned(before: Disk, after: Disk, stamp: int) {
    Ends(before, after, stamp) && after.saved.Keys == NewestStamps(before.saved.Keys + {stamp}, ROLLBACKS_KEPT)
  }

  lemma {:induction false} NewerRanksLower(stamps: set<int>, a: int, b: int)
    requires a <= b
    ensures Rank(stamps, b) <= Rank(stamps, a)
  {
    SubsetIsSmaller((set u | u in stamps && u > b), set u | u in stamps && u > a);
  }

  // The final disk has nothing but what the backup makes of a lost item.
  lemma {:induction false} EndMakes(disks: seq<Disk>, stamps: seq<int>, final: Disk, stamp: int, item: Item, h: nat)
    requires Attempts(disks, stamps) && disks[|stamps|].staged.Some? && Finished(disks[|stamps|], final, stamp)
    requires disks[0].staged.Some? && LastLiveAt(disks, item, h) && h < |stamps|
    ensures NothingButMade(LiveItem(final, item), disks[0].staged.value, item)
    ensures stamp in final.saved ==> NothingButMade(SavedItem(final.saved[stamp], item), disks[0].staged.value, item)
  {
    var last, staged := disks[|stamps|], disks[0].staged.value;
    AttemptsKeepTheStage(disks, stamps, |stamps|);
    LaterIsMade(disks, stamps, item, h, |stamps|);
    assert LiveItem(last, item) != LiveItem(disks[0], item);
    match item
    case DatabaseItem(db) =>
      assert Get(final.files, Live(db)) == FinalFile(last.files, staged.files, Live(db));
    case DirectoryItem(name) =>
      assert Get(final.dirs, name) == RestoredDir(staged.dirs, name);
      if name in staged.dirs {
        var cost := TreeCost(staged.dirs[name], [], map[]);
        CopiedTreeWorks(staged.dirs[name], [], map[], cost);
        assert CopiedTree(staged.dirs[name], [], map[], cost).value == final.dirs[name];
      }
  }

  lemma {:induction false} StampOfAttempt(disks: seq<Disk>, stamps: seq<int>, h: nat, t: int) returns (j: nat)
    requires Attempts(disks, stamps) && Later(disks[0].saved.Keys, stamps)
    requires h < |stamps| && t in disks[|stamps|].saved && t > stamps[h]
    ensures h < j < |stamps| && stamps[j] == t
  {
    RollbacksAreFromAttempts(disks, stamps, |stamps|);
    assert stamps[..|stamps|] == stamps;
    assert t !in disks[0].saved.Keys;
    j :| 0 <= j < |stamps| && stamps[j] == t;
  }

  // A rollback newer than that of the last attempt that found the original live holds nothing but what
  // the backup makes.
  lemma {:induction false} NewerHolderIsMade(disks: seq<Disk>, stamps: seq<int>, final: Disk, stamp: int, item: Item,
                                             h: nat, t: int)
    requires Attempts(disks, stamps) && Later(disks[0].saved.Keys, stamps)
    requires disks[|stamps|].staged.Some? && Finished(disks[|stamps|], final, stamp)
    requires disks[0].staged.Some? && LastLiveAt(disks, item, h) && h < |stamps|
    requires t in final.saved && t > stamps[h]
    ensures NothingButMade(SavedItem(final.saved[t], item), disks[0].staged.value, item)
  {
    if t == stamp {
      EndMakes(disks, stamps, final, stamp, item, h);
    } else {
      assert t in disks[|stamps|].saved && final.saved[t] == disks[|stamps|].saved[t];
      var j := StampOfAttempt(disks, stamps, h, t);
      LaterRollbackIsMade(disks, stamps, item, h, j);
    }
  }

  lemma {:induction false} NewestRanksFirst(disks: seq<Disk>, stamps: seq<int>, stamp: int)
    requires Attempts(disks, stamps) && Later(disks[0].saved.Keys, stamps + [stamp])
    ensures Rank(disks[|stamps|].saved.Keys + {stamp}, stamp) == 0
  {
    var n, used := |stamps|, stamps + [stamp];
    RollbacksAreFromAttempts(disks, stamps, n);
    assert stamps[..n] == stamps && used[n] == stamp;
    LaterAttemptsAreNewer(disks[0].saved.Keys, used, disks[n].saved.Keys + {stamp}, n);
  }

  // A kept rollback with an original the backup cannot make again is no newer than that of the last
  // attempt that found it live, which then is kept too.
  lemma {:induction false} HolderIsOld(disks: seq<Disk>, stamps: seq<int>, final: Disk, stamp: int, item: Item, h: nat)
    requires Attempts(disks, stamps) && disks[|stamps|].staged.Some? && Finished(disks[|stamps|], final, stamp)
    requires final.saved.Keys == NewestStamps(disks[|stamps|].saved.Keys + {stamp}, ROLLBACKS_KEPT)
    requires Later(disks[0].saved.Keys, stamps) && disks[0].staged.Some?
    requires LiveItem(disks[0], item).Some? && LastLiveAt(disks, item, h) && h < |stamps|
    requires !MadeFrom(disks[0].staged.value, item, LiveItem(disks[0], item).value)
    requires Survives(final, item, LiveItem(disks[0], item).value)
    ensures Rank(disks[|stamps|].saved.Keys + {stamp}, stamps[h]) < ROLLBACKS_KEPT
  {
    EndMakes(disks, stamps, final, stamp, item, h);
    var t :| t in final.saved && SavedItem(final.saved[t], item) == LiveItem(disks[0], item);
    if t > stamps[h] {
      NewerHolderIsMade(disks, stamps, final, stamp, item, h, t);
      assert false;
    }
    NewerRanksLower(disks[|stamps|].saved.Keys + {stamp}, t, stamps[h]);
  }

  // An original the backup cannot make again survives a whole restore exactly when fewer than three
  // rollbacks are newer than that of the last attempt that found it live.
  lemma {:induction false} OriginalSurvivesExactly(disks: seq<Disk>, stamps: seq<int>, final: Disk, stamp: int,
                                                   item: Item, h: nat)
    requires Attempts(disks, stamps) && EndsPruned(disks[|stamps|], final, stamp)
    requires Later(disks[0].saved.Keys, stamps + [stamp]) && disks[0].staged.Some?
    requires LiveItem(disks[0], item).Some? && LastLiveAt(disks, item, h)
    requires !MadeFrom(disks[0].staged.value, item, LiveItem(disks[0], item).value)
    ensures Survives(final, item, LiveItem(disks[0], item).value)
            <==> Rank(disks[|stamps|].saved.Keys + {stamp}, (stamps + [stamp])[h]) < 3
  {
    var used, content := stamps + [stamp], LiveItem(disks[0], item).value;
    EndIsFinished(disks[|stamps|], final, stamp);
    if Rank(disks[|stamps|].saved.Keys + {stamp}, used[h]) < ROLLBACKS_KEPT {
      LastFinderKeepsOriginal(disks, stamps, final, stamp, item, h);
      var i :| 0 <= i < |used| && used[i] in final.saved && SavedItem(final.saved[used[i]], item) == Some(content);
    }
    if Survives(final, item, content) {
      LaterPrefix(disks[0].saved.Keys, stamps, stamp);
      if h < |stamps| {
        HolderIsOld(disks, stamps, final, stamp, item, h);
      } else {
        NewestRanksFirst(disks, stamps, stamp);
      }
    }
  }

  // ----- More attempts than rollbacks are kept -----

  const OLD_MUSIC: Bytes := [0]
  const NEW_MUSIC: Bytes := [1]

  function Backup(data: Bytes): Rollback {
    Rollback(map[MusicDatabase := data], map[])
  }

  function WitnessSaved(n: nat): (saved: map<int, Rollback>)
    ensures forall t :: t in saved <==> 1 <= t <= n
    ensures forall t :: t in saved ==> saved[t] == Backup(if t == 1 then OLD_MUSIC else NEW_MUSIC)
  {
    if n == 0 then map[] else WitnessSaved(n - 1)[n := Backup(if n == 1 then OLD_MUSIC else NEW_MUSIC)]
  }

  // After n attempts that stopped with the music database replaced: the first one saved the
  // original, each later one the replacement.
  function WitnessDisk(n: nat): Disk {
    Disk(true,
         Some(Staged(true, map[MusicDatabase := NEW_MUSIC], map[])),
         map[Live(MusicDatabase) := if n == 0 then OLD_MUSIC else NEW_MUSIC],
         map[],
         WitnessSaved(n))
  }

  // Nine steps save the database and replace it.
  lemma {:induction false} WitnessStops(n: nat, stamp: int)
    requires stamp == n + 1
    ensures Attempt(WitnessDisk(n), WitnessDisk(n + 1), stamp)
  {
    var before, after := WitnessDisk(n), WitnessDisk(n + 1);
    var live := before.files[Live(MusicDatabase)];
    assert DATABASES[0] == MusicDatabase && DATABASES[1] == CoreDatabase;
    var copies := SavedFrom(map[], before.files, 0, 8);
    assert SavedOne(map[], before.files, MusicDatabase, 8) == Ran(map[MusicDatabase := live], 6, true);
    assert copies == SavedFrom(map[MusicDatabase := live], before.files, 1, 6);
    assert copies == Ran(map[MusicDatabase := live], 6, true);
    var saved := Saving(before, stamp, 9);
    assert saved.value.saved == after.saved;
    WitnessSwaps(before.files, live);
    var swapped := Swapping(saved.value, 6);
    assert swapped == Ran(saved.value.(files := after.files), 0, true);
    var restored := Restoring(swapped.value, stamp, 0);
    assert restored.value.saved == after.saved;
    assert restored == Ran(after, 0, true);
    assert Applying(before, stamp, 9).disk == after;
  }

  lemma {:induction false} WitnessSwaps(files: map<FileName, Bytes>, live: Bytes)
    requires files == map[Live(MusicDatabase) := live] && |live| == 1
    ensures SwappedFrom(files, map[MusicDatabase := NEW_MUSIC], 0, 6)
            == Ran(map[Live(MusicDatabase) := NEW_MUSIC], 0, true)
  {
    var databases := map[MusicDatabase := NEW_MUSIC];
    SwappedOneWorks(files, MusicDatabase, NEW_MUSIC, 6);
    var one := SwappedOne(files, MusicDatabase, NEW_MUSIC, 6);
    assert (files - {Temporary(MusicDatabase), Wal(MusicDatabase), Shm(MusicDatabase)}) == files;
    assert one.value == map[Live(MusicDatabase) := NEW_MUSIC];
    assert SwappedFrom(files, databases, 0, 6) == SwappedFrom(one.value, databases, 1, 0);
    assert SwappedFrom(one.value, databases, 1, 0) == SwappedFrom(one.value, databases, 2, 0);
  }

  // A run of n stops and an end after which the original is nowhere.
  ghost predicate LosesOriginal(disks: seq<Disk>, stamps: seq<int>, final: Disk, stamp: int, item: Item, n: nat) {
    && |stamps| == n && Attempts(disks, stamps) && Ends(disks[n], final, stamp)
    && Later(disks[0].saved.Keys, stamps + [stamp])
    && LiveItem(disks[0], item).Some? && LiveItem(final, item) != LiveItem(disks[0], item)
    && forall t :: t in final.saved ==> SavedItem(final.saved[t], item) != LiveItem(disks[0], item)
  }

  lemma {:induction false} WitnessEnds(n: nat) returns (final: Disk)
    ensures Ends(WitnessDisk(n), final, n + 1) && Finished(WitnessDisk(n), final, n + 1)
    ensures final.saved.Keys == NewestStamps(WitnessSaved(n).Keys + {n + 1}, ROLLBACKS_KEPT)
  {
    var before, stamp := WitnessDisk(n), n + 1;
    assert AllCopy(before);
    var steps := RestoreCost(before);
    RestoreEndsExactly(before, stamp, steps);
    EndIsClean(before, stamp, steps);
    EveryStopIsSafe(before, stamp, steps);
    final := Applying(before, stamp, steps).disk;
  }

  // Nothing but the replacement is left.
  lemma {:induction false} OnlyNewIsLeft(n: nat, final: Disk)
    requires n >= ROLLBACKS_KEPT && Finished(WitnessDisk(n), final, n + 1)
    requires final.saved.Keys == NewestStamps(WitnessSaved(n).Keys + {n + 1}, ROLLBACKS_KEPT)
    ensures Get(final.files, Live(MusicDatabase)) == Some(NEW_MUSIC)
    ensures forall t :: t in final.saved ==> Get(final.saved[t].files, MusicDatabase) == Some(NEW_MUSIC)
  {
    var before := WitnessDisk(n);
    assert Get(final.files, Live(MusicDatabase))
        == FinalFile(before.files, before.staged.value.files, Live(MusicDatabase));
    FirstIsOld(WitnessSaved(n).Keys + {n + 1}, n);
    forall t | t in final.saved ensures Get(final.saved[t].files, MusicDatabase) == Some(NEW_MUSIC) {
      if t == n + 1 {
        assert Get(final.saved[t].files, MusicDatabase) == Get(before.files, Live(MusicDatabase));
      } else {
        assert t != 1 && final.saved[t] == WitnessSaved(n)[t];
      }
    }
  }

  // Of the stamps 1 to n + 1 the first has n newer ones.
  lemma {:induction false} FirstIsOld(stamps: set<int>, n: nat)
    requires n >= ROLLBACKS_KEPT && forall t :: t in stamps <==> 1 <= t <= n + 1
    ensures 1 !in NewestStamps(stamps, ROLLBACKS_KEPT)
  {
    SubsetIsSmaller({2, 3, 4}, set u | u in stamps && u > 1);
  }

  lemma {:induction false} OneMoreAttempt(disks: seq<Disk>, stamps: seq<int>, after: Disk, stamp: int)
    requires Attempts(disks, stamps) && Attempt(disks[|stamps|], after, stamp)
    ensures Attempts(disks + [after], stamps + [stamp])
  {
    forall i ensures AttemptAt(disks + [after], stamps + [stamp], i) {
      assert AttemptAt(disks, stamps, i);
    }
  }

  lemma {:induction false} WitnessRun(n: nat) returns (disks: seq<Disk>, stamps: seq<int>)
    ensures |stamps| == n && Attempts(disks, stamps) && disks[0] == WitnessDisk(0) && disks[n] == WitnessDisk(n)
    ensures forall i :: 0 <= i < n ==> stamps[i] == i + 1
  {
    disks, stamps := [WitnessDisk(0)], [];
    for i := 0 to n
      invariant |stamps| == i && Attempts(disks, stamps) && disks[0] == WitnessDisk(0) && disks[i] == WitnessDisk(i)
      invariant forall j :: 0 <= j < i ==> stamps[j] == j + 1
    {
      WitnessStops(i, i + 1);
      OneMoreAttempt(disks, stamps, WitnessDisk(i + 1), i + 1);
      disks, stamps := disks + [WitnessDisk(i + 1)], stamps + [i + 1];
    }
  }

  lemma {:induction false} LosesOldMusic(disks: seq<Disk>, stamps: seq<int>, final: Disk, n: nat)
    requires |stamps| == n && Attempts(disks, stamps) && Ends(disks[n], final, n + 1)
    requires forall i :: 0 <= i < n ==> stamps[i] == i + 1
    requires disks[0].saved == map[] && Get(disks[0].files, Live(MusicDatabase)) == Some(OLD_MUSIC)
    requires Get(final.files, Live(MusicDatabase)) == Some(NEW_MUSIC)
    requires forall t :: t in final.saved ==> Get(final.saved[t].files, MusicDatabase) == Some(NEW_MUSIC)
    ensures LosesOriginal(disks, stamps, final, n + 1, DatabaseItem(MusicDatabase), n)
  {
    var item := DatabaseItem(MusicDatabase);
    assert LiveItem(disks[0], item) == Some(DatabaseContent(OLD_MUSIC));
    assert LiveItem(final, item) == Some(DatabaseContent(NEW_MUSIC));
    assert Later(disks[0].saved.Keys, stamps + [n + 1]);
  }

  lemma {:induction false} ManyAttemptsCanLose(n: nat)
    requires n >= ROLLBACKS_KEPT
    ensures exists disks, stamps, final, stamp, item :: LosesOriginal(disks, stamps, final, stamp, item, n)
  {
    var disks, stamps := WitnessRun(n);
    var final := WitnessEnds(n);
    OnlyNewIsLeft(n, final);
    LosesOldMusic(disks, stamps, final, n);
  }

  // Stopped n times, a restore can lose data for good exactly when n is at least three.
  lemma {:induction false} OriginalsCanBeLostExactly(n: nat)
    ensures (exists disks, stamps, final, stamp, item :: LosesOriginal(disks, stamps, final, stamp, item, n))
            <==> n >= 3
  {
    if n >= 3 {
      ManyAttemptsCanLose(n);
    } else if disks, stamps, final, stamp, item :| LosesOriginal(disks, stamps, final, stamp, item, n) {
      OriginalsSurvivePruning(disks, stamps, final, stamp, item, 0);
      assert false;
    }
  }
}
