/** What a swap does in terms of the names in the two directories. */
module SwapNames {
  import opened Swap
  import opened SwapCollision

  /** The program and a file of the name it runs under are staged side by side. */
  predicate Clash(listing: seq<string>, stagedExe: string, exeName: string) {
    stagedExe != exeName && stagedExe != ".previous" && exeName != ".previous" && stagedExe in listing && exeName in listing
  }

  lemma NoTwoAlike(listing: seq<string>, i: nat, j: nat)
    requires i < j < |listing| && forall p, q :: 0 <= p < q < |listing| ==> listing[p] != listing[q]
    ensures listing[i] != listing[j]
  {
  }

  /** Targets are distinct exactly when the program and a file of its name are not staged side by side. */
  lemma ClashExactly(fs: Files, listing: seq<string>, stagedExe: string, exeName: string)
    requires Ready(fs, listing)
    ensures Distinct(Wanted(listing), stagedExe, exeName) <==> !Clash(listing, stagedExe, exeName)
  {
    if !Distinct(Wanted(listing), stagedExe, exeName) {
      var i, j := SomeCollide(listing, stagedExe, exeName);
      NoTwoAlike(listing, i, j);
    }
    if Clash(listing, stagedExe, exeName) {
      var names := Wanted(listing);
      assert stagedExe in names && exeName in names;
      var i :| 0 <= i < |names| && names[i] == stagedExe;
      var j :| 0 <= j < |names| && names[j] == exeName;
      assert Target(names[i], stagedExe, exeName) == exeName == Target(names[j], stagedExe, exeName);
      assert if i < j then !Distinct(names, stagedExe, exeName) else !Distinct(names, stagedExe, exeName);
    }
  }

  /** The name an entry has once installed: the program's own, or as staged. */
  function Installs(name: string, stagedExe: string, exeName: string): string { if name == stagedExe then exeName else name }

  /** Every staged entry but .previous is installed, what had its name is in .previous, and everything else is as it was. */
  ghost predicate AllInstalled(a: Files, b: Files, listing: seq<string>, stagedExe: string, exeName: string) {
    && (forall name :: name in listing && name != ".previous" ==>
          var to := Installs(name, stagedExe, exeName);
          && Place(Staged, name) in a && Place(Staged, name) !in b
          && Place(Installed, to) in b && b[Place(Installed, to)] == a[Place(Staged, name)]
          && (if Place(Installed, to) in a then Place(Previous, to) in b && b[Place(Previous, to)] == a[Place(Installed, to)]
              else Place(Previous, to) !in b))
    && (forall other: string :: (forall name :: name in listing && name != ".previous" ==> other != Installs(name, stagedExe, exeName)) ==>
          SameAt(a, b, Place(Installed, other)) && Place(Previous, other) !in b)
    && (forall other: string :: other !in listing || other == ".previous" ==> SameAt(a, b, Place(Staged, other)))
  }

  predicate SameAt(a: Files, b: Files, p: Place) { (p in b <==> p in a) && (p in a ==> b[p] == a[p]) }

  lemma InPlaceInstalls(a: Files, b: Files, listing: seq<string>, stagedExe: string, exeName: string)
    requires InPlace(a, b, Wanted(listing), stagedExe, exeName) && forall p :: p in a ==> !p.dir.Previous?
    ensures AllInstalled(a, b, listing, stagedExe, exeName)
  {
    var names := Wanted(listing);
    forall name | name in listing && name != ".previous"
      ensures var to := Installs(name, stagedExe, exeName);
              && Place(Staged, name) in a && Place(Staged, name) !in b
              && Place(Installed, to) in b && b[Place(Installed, to)] == a[Place(Staged, name)]
              && (if Place(Installed, to) in a then Place(Previous, to) in b && b[Place(Previous, to)] == a[Place(Installed, to)]
                  else Place(Previous, to) !in b)
    {
      assert name in names;
      var i :| 0 <= i < |names| && names[i] == name;
      assert Target(names[i], stagedExe, exeName) == Installs(name, stagedExe, exeName);
    }
    forall other: string | forall name :: name in listing && name != ".previous" ==> other != Installs(name, stagedExe, exeName)
      ensures SameAt(a, b, Place(Installed, other)) && Place(Previous, other) !in b
    {
      forall i | 0 <= i < |names| ensures Target(names[i], stagedExe, exeName) != other {
        assert names[i] in names;
      }
      assert Place(Installed, other) !in Touched(names, stagedExe, exeName);
      assert Place(Previous, other) !in Touched(names, stagedExe, exeName);
    }
    forall other: string | other !in listing || other == ".previous" ensures SameAt(a, b, Place(Staged, other)) {
      assert Place(Staged, other) !in Touched(names, stagedExe, exeName) by {
        assert forall i :: 0 <= i < |names| ==> names[i] in names;
      }
    }
  }

  /**
   * Unless the program and another file of its name are staged side by side, a
   * swap installs everything, the program under the name it runs under, or
   * leaves every file where it was.
   */
  lemma SwapsByName(fs: Files, listing: seq<string>, works: seq<(bool, bool)>, stagedExe: string, exeName: string)
    requires |works| >= |listing| && Ready(fs, listing) && !Clash(listing, stagedExe, exeName)
    ensures var (after, ok) := Swapped(fs, listing, works, stagedExe, exeName);
            if ok then AllInstalled(fs, after, listing, stagedExe, exeName) else after == fs
  {
    ClashExactly(fs, listing, stagedExe, exeName);
    DistinctSwaps(fs, listing, works, stagedExe, exeName);
    var (after, ok) := Swapped(fs, listing, works, stagedExe, exeName);
    if ok {
      InPlaceInstalls(fs, after, listing, stagedExe, exeName);
    }
  }

  lemma NextStaged(fs: Files, before: seq<string>, last: string, works: seq<(bool, bool)>, stagedExe: string, exeName: string)
    requires |works| >= |before| && Ready(fs, before + [last]) && !Clash(before + [last], stagedExe, exeName) && last != ".previous"
    requires Ready(fs, before) && Moves(fs, before, works, stagedExe, exeName).ok
    ensures var m := Moves(fs, before, works, stagedExe, exeName);
            Place(Staged, last) in m.fs && Place(Previous, Target(last, stagedExe, exeName)) !in m.fs
  {
    var listing := before + [last];
    assert listing[..|before|] == before;
    ClashExactly(fs, listing, stagedExe, exeName);
    ClashExactly(fs, before, stagedExe, exeName);
    MovesKeep(fs, before, works, stagedExe, exeName);
    assert Wanted(listing) == Wanted(before) + [last];
    assert Place(Staged, last) in fs by {
      assert listing[|before|] == last;
    }
    OneMoreInPlace(fs, Moves(fs, before, works, stagedExe, exeName).fs, Wanted(before), last, stagedExe, exeName);
  }

  /** Where every rename works, the swap goes through. */
  lemma {:induction false} WorkingSwapGoesThrough(fs: Files, listing: seq<string>, works: seq<(bool, bool)>,
      stagedExe: string, exeName: string)
    requires |works| >= |listing| && Ready(fs, listing) && !Clash(listing, stagedExe, exeName)
    requires forall k :: 0 <= k < |listing| ==> works[k] == (true, true)
    ensures Moves(fs, listing, works, stagedExe, exeName).ok
  {
    if listing != [] {
      var k := |listing| - 1;
      var before, last := listing[..k], listing[k];
      assert listing == before + [last];
      WorkingSwapGoesThrough(fs, before, works, stagedExe, exeName);
      var m := Moves(fs, before, works, stagedExe, exeName);
      if last != ".previous" {
        assert Place(Staged, last) in m.fs && Place(Previous, Target(last, stagedExe, exeName)) !in m.fs by {
          NextStaged(fs, before, last, works, stagedExe, exeName);
        }
      }
    }
  }
}
