/**
 A reset of the data directory requested by a marker file, on a disk that may stop between any
 two removals.
 */
module DataReset {
  datatype Name =
    | Database | Config | ProfilePictures | AlbumCovers | ArtistIcons | Artwork
    | Cache | Discovery | Recovery | Restore | Secrets
    | Reset | Unlisted(name: string)

  const LISTED := [Database, Config, ProfilePictures, AlbumCovers, ArtistIcons, Artwork,
                   Cache, Discovery, Recovery, Restore, Secrets]

  const READY := "READY"

  // A directory lists the paths below it in the order they are removed.
  datatype Node = PlainFile | Directory(below: seq<string>)

  type Root = map<Name, Node>

  datatype Outcome = NothingToReset | Stopped | Done

  predicate Marked(root: Root) {
    Reset in root && root[Reset].Directory? && READY in root[Reset].below
  }

  function WithoutData(root: Root): Root {
    map name | name in root && name.Unlisted? :: root[name]
  }

  predicate Same(before: Root, after: Root, name: Name) {
    (name in before <==> name in after) && (name in before ==> after[name] == before[name])
  }

  // Gone, or what is left of the directory after some removals.
  predicate Shrunk(before: Root, after: Root, name: Name) {
    || name !in after
    || Same(before, after, name)
    || (name in before && after[name].Directory? && before[name].Directory?
        && EndOf(after[name].below, before[name].below))
  }

  predicate EndOf(end: seq<string>, whole: seq<string>) {
    |end| <= |whole| && end == whole[|whole| - |end|..]
  }

  ghost predicate DataGone(root: Root) {
    forall name: Name :: !name.Unlisted? && name != Reset ==> name !in root
  }

  // What a stop leaves: nothing else is touched, and while any data is left the marker is too.
  ghost predicate PartlyReset(before: Root, after: Root) {
    && (forall name: Name :: if name.Unlisted? then Same(before, after, name) else Shrunk(before, after, name))
    && (Marked(after) || DataGone(after))
  }

  ghost function FirstNames(n: nat): (names: set<Name>)
    requires n <= |LISTED|
    ensures forall name :: name in names ==> !name.Unlisted? && name != Reset
  {
    set j | 0 <= j < n :: LISTED[j]
  }

  lemma {:induction false} EveryNameIsListed()
    ensures forall name: Name :: !name.Unlisted? && name != Reset ==> name in FirstNames(|LISTED|)
  {
    forall name: Name | !name.Unlisted? && name != Reset ensures name in FirstNames(|LISTED|) {
      var j := match name
        case Database => 0
        case Config => 1
        case ProfilePictures => 2
        case AlbumCovers => 3
        case ArtistIcons => 4
        case Artwork => 5
        case Cache => 6
        case Discovery => 7
        case Recovery => 8
        case Restore => 9
        case _ => 10;
      assert LISTED[j] == name;
    }
  }

  // ----- What it takes -----

  function NodeCost(root: Root, name: Name): nat {
    if name !in root then 0 else if root[name].Directory? then |root[name].below| + 1 else 1
  }

  function FirstCost(root: Root, n: nat): nat
    requires n <= |LISTED|
  {
    if n == 0 then 0 else FirstCost(root, n - 1) + NodeCost(root, LISTED[n - 1])
  }

  function ResetCost(root: Root): nat {
    FirstCost(root, |LISTED|) + NodeCost(root, Reset)
  }

  lemma {:induction false} FirstCostGrows(root: Root, m: nat, n: nat)
    requires m <= n <= |LISTED|
    ensures FirstCost(root, m) <= FirstCost(root, n)
  {
    if m < n {
      FirstCostGrows(root, m, n - 1);
    }
  }

  lemma {:induction false} NextIsStillThere(root: Root, i: nat)
    requires i < |LISTED|
    ensures LISTED[i] !in FirstNames(i) && NodeCost(root - FirstNames(i), LISTED[i]) == NodeCost(root, LISTED[i])
  {
    assert forall j :: 0 <= j < i ==> LISTED[j] != LISTED[i];
  }

  class DataRoot {
    var root: Root
    var steps: nat

    method Remove(name: Name) returns (ok: bool)
      modifies this
      ensures ok <==> old(steps) >= NodeCost(old(root), name)
      ensures if ok then root == old(root) - {name} && steps == old(steps) - NodeCost(old(root), name)
              else steps == 0 && name in root && root == old(root)[name := root[name]] && Shrunk(old(root), root, name)
    {
      ok := true;
      if name !in root {
        return;
      }
      if root[name].Directory? {
        ok := Empty(name);
        if !ok {
          return;
        }
      }
      ok := steps > 0;
      if ok {
        steps := steps - 1;
        root := root - {name};
      }
    }

    method Empty(name: Name) returns (ok: bool)
      requires name in root && root[name].Directory?
      modifies this
      ensures name in root && root == old(root)[name := root[name]]
      ensures root[name].Directory? && EndOf(root[name].below, old(root)[name].below)
      ensures ok <==> old(steps) >= |old(root)[name].below|
      ensures if ok then root[name].below == [] && steps == old(steps) - |old(root)[name].below| else steps == 0
    {
      ok := true;
      var whole := root[name].below;
      for i := 0 to |whole|
        invariant root == old(root)[name := Directory(whole[i..])] && steps + i == old(steps)
      {
        if steps == 0 {
          return false;
        }
        steps := steps - 1;
        root := root[name := Directory(whole[i + 1..])];
      }
    }

    method RemoveListed() returns (ok: bool)
      requires Marked(root)
      modifies this
      ensures ok <==> old(steps) >= FirstCost(old(root), |LISTED|)
      ensures if ok then root == old(root) - FirstNames(|LISTED|)
              && steps == old(steps) - FirstCost(old(root), |LISTED|)
              else PartlyReset(old(root), root) && steps == 0
    {
      for i := 0 to |LISTED|
        invariant root == old(root) - FirstNames(i)
        invariant steps + FirstCost(old(root), i) == old(steps)
      {
        NextIsStillThere(old(root), i);
        FirstCostGrows(old(root), i + 1, |LISTED|);
        ok := Remove(LISTED[i]);
        if !ok {
          return;
        }
      }
      ok := true;
    }

    // The listed names go first and the marker's directory last.
    method ApplyReset() returns (outcome: Outcome)
      modifies this
      ensures outcome.NothingToReset? <==> !Marked(old(root))
      ensures outcome.NothingToReset? ==> root == old(root)
      ensures outcome.Done? <==> Marked(old(root)) && old(steps) >= ResetCost(old(root))
      ensures outcome.Done? ==> root == WithoutData(old(root))
      ensures outcome.Stopped? ==> PartlyReset(old(root), root) && steps == 0
    {
      if !Marked(root) {
        return NothingToReset;
      }
      var ok := RemoveListed();
      if !ok {
        return Stopped;
      }
      EveryNameIsListed();
      ok := Remove(Reset);
      if !ok {
        return Stopped;
      }
      return Done;
    }
  }

  // roots[i + 1] is what a stopped reset left of roots[i].
  ghost predicate Attempts(roots: seq<Root>) {
    |roots| > 0 && forall i :: 0 <= i < |roots| - 1 ==> PartlyReset(roots[i], roots[i + 1])
  }

  lemma {:induction false} AttemptsKeepTheRest(roots: seq<Root>, name: Name)
    requires Attempts(roots) && name.Unlisted?
    ensures Same(roots[0], roots[|roots| - 1], name)
  {
    if |roots| > 1 {
      var n := |roots| - 1;
      AttemptsKeepTheRest(roots[..n], name);
      assert PartlyReset(roots[n - 1], roots[n]);
    }
  }

  // However often it was stopped, a reset that finishes leaves exactly what one unstopped would, and
  // one that will not be resumed has already removed all the data.
  lemma {:induction false} StoppedResetsConverge(roots: seq<Root>)
    requires Attempts(roots)
    ensures WithoutData(roots[|roots| - 1]) == WithoutData(roots[0])
    ensures |roots| > 1 && !Marked(roots[|roots| - 1]) ==> DataGone(roots[|roots| - 1])
  {
    var n := |roots| - 1;
    forall name: Name | name.Unlisted? ensures Same(roots[0], roots[n], name) {
      AttemptsKeepTheRest(roots, name);
    }
    if n > 0 {
      assert PartlyReset(roots[n - 1], roots[n]);
    }
  }
}
