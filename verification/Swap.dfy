/** Putting a staged set of files in place of the installed ones, all of it or none. */
module Swap {
  import opened Wrappers

  datatype Dir = Installed | Staged | Previous

  datatype Place = Place(dir: Dir, name: string)

  /** Everything in the three directories; a sub-directory counts as one entry. */
  type Files = map<Place, seq<char>>

  datatype Move = Move(from: Place, to: Place)

  const PREVIOUS_NAME := ".previous"

  /** A rename that works: what was there is replaced. */
  function Renamed(fs: Files, from: Place, to: Place): Files
    requires from in fs
  {
    (fs - {from})[to := fs[from]]
  }

  /** The moves undone, the last one first. */
  function Undone(fs: Files, done: seq<Move>): Files
    decreases |done|
  {
    if done == [] then fs
    else
      var last := done[|done| - 1];
      Undone(if last.to in fs then Renamed(fs, last.to, last.from) else fs, done[..|done| - 1])
  }

  /** The name a staged entry is installed under: the program keeps the name it runs under. */
  function Target(name: string, stagedExe: string, exeName: string): string { if name == stagedExe then exeName else name }

  /** No two of the entries are installed under one name. */
  predicate Distinct(names: seq<string>, stagedExe: string, exeName: string) {
    forall i, j :: 0 <= i < j < |names| ==> Target(names[i], stagedExe, exeName) != Target(names[j], stagedExe, exeName)
  }

  /** A move to a free place is undone by moving back. */
  lemma MovesBack(fs: Files, from: Place, to: Place)
    requires from in fs && to !in fs
    ensures to in Renamed(fs, from, to) && Renamed(Renamed(fs, from, to), to, from) == fs
  {
  }

  lemma UndoneOne(fs: Files, done: seq<Move>, from: Place, to: Place)
    requires from in fs && to !in fs
    ensures Undone(Renamed(fs, from, to), done + [Move(from, to)]) == Undone(fs, done)
  {
    MovesBack(fs, from, to);
    assert (done + [Move(from, to)])[..|done|] == done;
  }

  /**
   * b is a with these entries put in place: each at its target, what it
   * displaced aside, and nothing else moved.
   */
  ghost predicate InPlace(a: Files, b: Files, names: seq<string>, stagedExe: string, exeName: string) {
    && (forall i {:trigger names[i]} :: 0 <= i < |names| ==>
          var target := Target(names[i], stagedExe, exeName);
          && Place(Staged, names[i]) in a && Place(Staged, names[i]) !in b
          && Place(Installed, target) in b && b[Place(Installed, target)] == a[Place(Staged, names[i])]
          && (Place(Installed, target) in a ==> Place(Previous, target) in b && b[Place(Previous, target)] == a[Place(Installed, target)])
          && (Place(Installed, target) !in a ==> Place(Previous, target) !in b))
    && (forall p :: p !in Touched(names, stagedExe, exeName) ==> (p in b <==> p in a) && (p in a ==> b[p] == a[p]))
  }

  function Touched(names: seq<string>, stagedExe: string, exeName: string): set<Place> {
    (set i | 0 <= i < |names| :: Place(Staged, names[i]))
    + (set i | 0 <= i < |names| :: Place(Installed, Target(names[i], stagedExe, exeName)))
    + (set i | 0 <= i < |names| :: Place(Previous, Target(names[i], stagedExe, exeName)))
  }

  /** The entries to move, in the order the directory lists them. */
  function Wanted(listing: seq<string>): (names: seq<string>)
    ensures forall n :: n in names <==> n in listing && n != PREVIOUS_NAME
  {
    if listing == [] then []
    else
      var before, last := Wanted(listing[..|listing| - 1]), listing[|listing| - 1];
      if last == PREVIOUS_NAME then before else before + [last]
  }

  /** Adding one more entry in place. */
  lemma OneMoreInPlace(a: Files, b: Files, names: seq<string>, name: string, stagedExe: string, exeName: string)
    requires Distinct(names + [name], stagedExe, exeName) && InPlace(a, b, names, stagedExe, exeName)
    requires Place(Staged, name) in a && forall t :: Place(Previous, t) !in a
    ensures var target := Target(name, stagedExe, exeName);
            && Place(Staged, name) in b && Place(Previous, target) !in b
            && (Place(Installed, target) in b <==> Place(Installed, target) in a)
            && InPlace(a, WithEntry(b, name, target), names + [name], stagedExe, exeName)
  {
    var target := Target(name, stagedExe, exeName);
    var all := names + [name];
    forall i | 0 <= i < |names| ensures names[i] != name && Target(names[i], stagedExe, exeName) != target {
      assert all[i] == names[i] && all[|names|] == name;
    }
    assert Place(Staged, name) !in Touched(names, stagedExe, exeName);
    assert Place(Installed, target) !in Touched(names, stagedExe, exeName);
    assert Place(Previous, target) !in Touched(names, stagedExe, exeName);
    var c := WithEntry(b, name, target);
    forall i {:trigger all[i]} | 0 <= i < |all|
      ensures var t := Target(all[i], stagedExe, exeName);
              && Place(Staged, all[i]) in a && Place(Staged, all[i]) !in c
              && Place(Installed, t) in c && c[Place(Installed, t)] == a[Place(Staged, all[i])]
              && (Place(Installed, t) in a ==> Place(Previous, t) in c && c[Place(Previous, t)] == a[Place(Installed, t)])
              && (Place(Installed, t) !in a ==> Place(Previous, t) !in c)
    {
      if i < |names| { assert all[i] == names[i]; }
    }
    forall p | p !in Touched(all, stagedExe, exeName) ensures (p in c <==> p in a) && (p in a ==> c[p] == a[p]) {
      TouchedGrows(names, name, stagedExe, exeName, p);
    }
  }

  lemma TouchedGrows(names: seq<string>, name: string, stagedExe: string, exeName: string, p: Place)
    requires p !in Touched(names + [name], stagedExe, exeName)
    ensures p !in Touched(names, stagedExe, exeName) && p != Place(Staged, name)
    ensures p != Place(Installed, Target(name, stagedExe, exeName)) && p != Place(Previous, Target(name, stagedExe, exeName))
  {
    var all := names + [name];
    assert all[|names|] == name;
    forall q | q in Touched(names, stagedExe, exeName) ensures q in Touched(all, stagedExe, exeName) {
      var i :| 0 <= i < |names| && (q == Place(Staged, names[i]) || q == Place(Installed, Target(names[i], stagedExe, exeName))
                                    || q == Place(Previous, Target(names[i], stagedExe, exeName)));
      assert all[i] == names[i];
    }
  }

  /** An entry moved in, what it displaces moved aside first. */
  function WithEntry(fs: Files, name: string, target: string): Files
    requires Place(Staged, name) in fs
  {
    var aside := if Place(Installed, target) in fs then Renamed(fs, Place(Installed, target), Place(Previous, target)) else fs;
    Renamed(aside, Place(Staged, name), Place(Installed, target))
  }

  /** .previous removed. */
  function Cleared(fs: Files): Files { map p | p in fs && !p.dir.Previous? :: fs[p] }

  // ---- a swap, entry by entry ----------------------------------------------------------

  /** How far a swap has got: the files, the log of its moves, and whether every rename so far worked. */
  datatype Swapping = Swapping(fs: Files, done: seq<Move>, ok: bool)

  /** One rename, logged when it works. */
  function Moved(m: Swapping, from: Place, to: Place, works: bool): Swapping {
    if works && from in m.fs then Swapping(Renamed(m.fs, from, to), m.done + [Move(from, to)], true) else m.(ok := false)
  }

  /** One entry: what it displaces moved aside, then itself moved in. */
  function Entry(m: Swapping, name: string, target: string, works: (bool, bool)): Swapping {
    var cur := Place(Installed, target);
    if cur !in m.fs then Moved(m, Place(Staged, name), cur, works.1)
    else
      var aside := Moved(m, cur, Place(Previous, target), works.0);
      if aside.ok then Moved(aside, Place(Staged, name), cur, works.1) else aside
  }

  /** The entries in the order listed, up to the first rename that fails. */
  function Moves(fs: Files, listing: seq<string>, works: seq<(bool, bool)>, stagedExe: string, exeName: string): Swapping
    requires |works| >= |listing|
  {
    if listing == [] then Swapping(fs, [], true)
    else
      var k := |listing| - 1;
      var m := Moves(fs, listing[..k], works, stagedExe, exeName);
      if !m.ok || listing[k] == PREVIOUS_NAME then m else Entry(m, listing[k], Target(listing[k], stagedExe, exeName), works[k])
  }

  /** The files after the swap, and whether it went through; if not, its moves are undone and .previous is removed. */
  function Swapped(fs: Files, listing: seq<string>, works: seq<(bool, bool)>, stagedExe: string, exeName: string): (Files, bool)
    requires |works| >= |listing|
  {
    var m := Moves(fs, listing, works, stagedExe, exeName);
    if m.ok then (m.fs, true) else (Cleared(Undone(m.fs, m.done)), false)
  }

  /** The installer, its renames working or not as rename says, in turn. */
  class Installer {
    const exeName: string
    const stagedExe: string
    var fs: Files
    var done: seq<Move>

    constructor (files: Files, exe: string, staged: string)
      ensures fs == files && done == [] && exeName == exe && stagedExe == staged
    {
      fs, done, exeName, stagedExe := files, [], exe, staged;
    }

    /** One rename, logged when it works. */
    method Mv(from: Place, to: Place, works: bool) returns (ok: bool)
      modifies this
      ensures ok == (works && from in old(fs))
      ensures fs == (if ok then Renamed(old(fs), from, to) else old(fs))
      ensures done == (if ok then old(done) + [Move(from, to)] else old(done))
    {
      ok := works && from in fs;
      if ok {
        fs := Renamed(fs, from, to);
        done := done + [Move(from, to)];
      }
    }

    /** The log undone from its end, every rename of it working, and .previous removed. */
    method Undo()
      modifies this
      ensures fs == Cleared(Undone(old(fs), old(done)))
    {
      var k := |done|;
      assert done[..k] == done;
      while k > 0
        invariant 0 <= k <= |done| && done == old(done)
        invariant Undone(fs, done[..k]) == Undone(old(fs), old(done))
      {
        assert done[..k][..k - 1] == done[..k - 1];
        k := k - 1;
        if done[k].to in fs {
          fs := Renamed(fs, done[k].to, done[k].from);
        }
      }
      fs := Cleared(fs);
      done := [];
    }

    /** One entry, up to the rename that fails. */
    method PutInPlace(name: string, asideWorks: bool, inWorks: bool) returns (ok: bool)
      modifies this
      ensures Swapping(fs, done, ok) == Entry(Swapping(old(fs), old(done), true), name, Target(name, stagedExe,
              exeName), (asideWorks, inWorks))
    {
      var target := Target(name, stagedExe, exeName);
      var cur := Place(Installed, target);
      if cur in fs {
        ok := Mv(cur, Place(Previous, target), asideWorks);
        if !ok {
          return;
        }
      }
      ok := Mv(Place(Staged, name), cur, inWorks);
    }

    /** The whole swap. */
    method SwapFiles(listing: seq<string>, works: seq<(bool, bool)>) returns (ok: bool)
      requires |works| >= |listing| && done == []
      modifies this
      ensures (fs, ok) == Swapped(old(fs), listing, works, stagedExe, exeName)
    {
      ghost var was := fs;
      ok := true;
      for i := 0 to |listing|
        invariant ok && Swapping(fs, done, true) == Moves(was, listing[..i], works, stagedExe, exeName)
      {
        assert listing[..i + 1][..i] == listing[..i];
        if listing[i] != PREVIOUS_NAME {
          ok := PutInPlace(listing[i], works[i].0, works[i].1);
          if !ok {
            FailedStays(was, listing, works, stagedExe, exeName, i + 1);
            Undo();
            return;
          }
        }
      }
      assert listing[..|listing|] == listing;
    }
  }

  /** After a rename that failed nothing more is moved. */
  lemma {:induction false} FailedStays(fs: Files, listing: seq<string>, works: seq<(bool, bool)>, stagedExe: string,
      exeName: string, k: nat)
    requires |works| >= |listing| && k <= |listing| && !Moves(fs, listing[..k], works, stagedExe, exeName).ok
    ensures Moves(fs, listing, works, stagedExe, exeName) == Moves(fs, listing[..k], works, stagedExe, exeName)
  {
    if k == |listing| {
      assert listing[..k] == listing;
    } else {
      var before := listing[..|listing| - 1];
      assert before[..k] == listing[..k];
      FailedStays(fs, before, works, stagedExe, exeName, k);
    }
  }

  lemma {:induction false} WantedFront(listing: seq<string>, i: nat)
    requires i <= |listing|
    ensures Wanted(listing[..i]) <= Wanted(listing)
  {
    if i < |listing| {
      var before := listing[..|listing| - 1];
      WantedFront(before, i);
      assert before[..i] == listing[..i];
    } else {
      assert listing[..i] == listing;
    }
  }

  // ---- with distinct targets ------------------------------------------------------------

  /** The staged directory as it is listed, with no swap's leavings. */
  predicate Ready(fs: Files, listing: seq<string>) {
    && (forall i :: 0 <= i < |listing| ==> Place(Staged, listing[i]) in fs)
    && (forall i, j :: 0 <= i < j < |listing| ==> listing[i] != listing[j])
    && (forall p :: p in fs ==> !p.dir.Previous?)
  }

  /** Every entry is in place and nothing else moved, or everything is where it was. */
  ghost predicate AllOrNothing(fs: Files, listing: seq<string>, works: seq<(bool, bool)>, stagedExe: string, exeName: string)
    requires |works| >= |listing|
  {
    var (after, ok) := Swapped(fs, listing, works, stagedExe, exeName);
    if ok then InPlace(fs, after, Wanted(listing), stagedExe, exeName) else after == fs
  }

  /** An entry with its target free behind it: put in place, or with a log that still leads back. */
  lemma EntryKeeps(fs: Files, m: Swapping, name: string, target: string, works: (bool, bool))
    requires m.ok && Undone(m.fs, m.done) == fs && Place(Staged, name) in m.fs && Place(Previous, target) !in m.fs
    ensures var n := Entry(m, name, target, works);
            Undone(n.fs, n.done) == fs && (n.ok ==> n.fs == WithEntry(m.fs, name, target))
  {
    var cur, aside := Place(Installed, target), Place(Previous, target);
    if cur in m.fs {
      UndoneOne(m.fs, m.done, cur, aside);
      var n := Moved(m, cur, aside, works.0);
      if n.ok {
        UndoneOne(n.fs, n.done, Place(Staged, name), cur);
      }
    } else {
      UndoneOne(m.fs, m.done, Place(Staged, name), cur);
    }
  }

  lemma {:induction false} MovesKeep(fs: Files, listing: seq<string>, works: seq<(bool, bool)>, stagedExe: string,
      exeName: string)
    requires |works| >= |listing| && Ready(fs, listing) && Distinct(Wanted(listing), stagedExe, exeName)
    ensures var m := Moves(fs, listing, works, stagedExe, exeName);
            Undone(m.fs, m.done) == fs && (m.ok ==> InPlace(fs, m.fs, Wanted(listing), stagedExe, exeName))
  {
    if listing != [] {
      var k := |listing| - 1;
      var before, last := listing[..k], listing[k];
      WantedFront(listing, k);
      assert Distinct(Wanted(before), stagedExe, exeName) by {
        assert forall i :: 0 <= i < |Wanted(before)| ==> Wanted(before)[i] == Wanted(listing)[i];
      }
      MovesKeep(fs, before, works, stagedExe, exeName);
      var m := Moves(fs, before, works, stagedExe, exeName);
      if m.ok && last != PREVIOUS_NAME {
        OneMoreInPlace(fs, m.fs, Wanted(before), last, stagedExe, exeName);
        EntryKeeps(fs, m, last, Target(last, stagedExe, exeName), works[k]);
      }
    }
  }

  lemma DistinctSwaps(fs: Files, listing: seq<string>, works: seq<(bool, bool)>, stagedExe: string, exeName: string)
    requires |works| >= |listing| && Ready(fs, listing) && Distinct(Wanted(listing), stagedExe, exeName)
    ensures AllOrNothing(fs, listing, works, stagedExe, exeName)
  {
    MovesKeep(fs, listing, works, stagedExe, exeName);
    assert Cleared(fs) == fs;
  }
}
