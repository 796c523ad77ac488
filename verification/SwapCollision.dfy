/**
 * Why a swap needs distinct targets: whenever two staged entries share one,
 * some course of the renames ends neither in place nor as it was.
 */
module SwapCollision {
  import opened Swap

  /** Two entries listed that are installed under one name. */
  predicate Collide(listing: seq<string>, stagedExe: string, exeName: string, i: nat, j: nat) {
    && i < j < |listing| && listing[i] != PREVIOUS_NAME && listing[j] != PREVIOUS_NAME
    && Target(listing[i], stagedExe, exeName) == Target(listing[j], stagedExe, exeName)
  }

  lemma {:induction false} SomeCollide(listing: seq<string>, stagedExe: string, exeName: string) returns (i: nat, j: nat)
    requires !Distinct(Wanted(listing), stagedExe, exeName)
    ensures Collide(listing, stagedExe, exeName, i, j)
  {
    var before, last := listing[..|listing| - 1], listing[|listing| - 1];
    if !Distinct(Wanted(before), stagedExe, exeName) {
      i, j := SomeCollide(before, stagedExe, exeName);
    } else {
      var names := Wanted(before);
      var p, q :| 0 <= p < q < |Wanted(listing)|
                  && Target(Wanted(listing)[p], stagedExe, exeName) == Target(Wanted(listing)[q], stagedExe, exeName);
      assert q == |names| && Wanted(listing)[q] == last && Wanted(listing)[p] == names[p];
      assert names[p] in before;
      i :| 0 <= i < |before| && before[i] == names[p];
      j := |before|;
    }
  }

  // ---- the places the two share -------------------------------------------------------------

  /** The places of the collision: the shared target, what it displaces, and the two entries. */
  predicate Shared(p: Place, x: string, a: string, b: string) {
    p == Place(Installed, x) || p == Place(Previous, x) || p == Place(Staged, a) || p == Place(Staged, b)
  }

  ghost predicate Agree(f: Files, g: Files, x: string, a: string, b: string) {
    forall p :: Shared(p, x, a, b) ==> (p in f <==> p in g) && (p in f ==> f[p] == g[p])
  }

  /** The moves keep clear of them. */
  predicate Clear(moves: seq<Move>, x: string, a: string, b: string) {
    forall k :: 0 <= k < |moves| ==> !Shared(moves[k].from, x, a, b) && !Shared(moves[k].to, x, a, b)
  }

  /** Undoing moves that keep clear changes nothing there. */
  lemma {:induction false} UndoneClear(fs: Files, before: seq<Move>, moves: seq<Move>, x: string, a: string,
      b: string) returns (g: Files)
    requires Clear(moves, x, a, b)
    ensures Agree(fs, g, x, a, b) && Undone(fs, before + moves) == Undone(g, before)
    decreases |moves|
  {
    if moves == [] {
      assert before + moves == before;
      g := fs;
    } else {
      var last := moves[|moves| - 1];
      var h := if last.to in fs then Renamed(fs, last.to, last.from) else fs;
      var all := before + moves;
      assert all[..|all| - 1] == before + moves[..|moves| - 1] && all[|all| - 1] == last;
      g := UndoneClear(h, before, moves[..|moves| - 1], x, a, b);
    }
  }

  /** Undoing one move. */
  lemma UndoneLast(fs: Files, before: seq<Move>, last: Move)
    ensures Undone(fs, before + [last]) == Undone(if last.to in fs then Renamed(fs, last.to, last.from) else fs, before)
  {
    assert (before + [last])[..|before|] == before;
  }

  /** The log of a swap stopped at the second entry, the first one in place and its displaced file overwritten. */
  function Log(x: string, a: string, l1: seq<Move>, l2: seq<Move>): seq<Move> {
    var cur, aside := Place(Installed, x), Place(Previous, x);
    l1 + [Move(cur, aside)] + [Move(Place(Staged, a), cur)] + l2 + [Move(cur, aside)]
  }

  /** Undone, nothing is left under the shared name. */
  lemma NothingComesBack(fs: Files, x: string, a: string, b: string, l1: seq<Move>, l2: seq<Move>)
    requires Clear(l1, x, a, b) && Clear(l2, x, a, b)
    requires Place(Installed, x) !in fs && Place(Previous, x) in fs
    ensures Place(Installed, x) !in Undone(fs, Log(x, a, l1, l2))
  {
    var cur, aside := Place(Installed, x), Place(Previous, x);
    var first := l1 + [Move(cur, aside)];
    var second := first + [Move(Place(Staged, a), cur)];
    UndoneLast(fs, second + l2, Move(cur, aside));
    var g := UndoneClear(Renamed(fs, aside, cur), second, l2, x, a, b);
    UndoneLast(g, first, Move(Place(Staged, a), cur));
    var h := Renamed(g, cur, Place(Staged, a));
    UndoneLast(h, l1, Move(cur, aside));
    var rest := UndoneClear(h, [], l1, x, a, b);
    assert [] + l1 == l1;
  }

  // ---- the run up to the collision ---------------------------------------------------------

  /** Every rename works, but for moving the second entry in, if the shared target was installed. */
  function Plan(n: nat, j: nat, installed: bool): seq<(bool, bool)> { seq(n, k => (true, !(installed && k == j))) }

  /** The entries not yet moved are still staged. */
  predicate Waiting(m: Swapping, listing: seq<string>, k: nat) {
    forall q :: k <= q < |listing| ==> Place(Staged, listing[q]) in m.fs
  }

  /** An entry that shares no target with them. */
  lemma OtherEntry(m: Swapping, name: string, x: string, a: string, b: string) returns (n: Swapping, moves: seq<Move>)
    requires m.ok && Place(Staged, name) in m.fs && name != x && name != a && name != b
    ensures n == Entry(m, name, name, (true, true)) && n.ok && n.done == m.done + moves && Clear(moves, x, a, b)
    ensures Agree(m.fs, n.fs, x, a, b)
    ensures forall q: string :: q != name ==> (Place(Staged, q) in n.fs <==> Place(Staged, q) in m.fs)
  {
    var cur, aside, staged := Place(Installed, name), Place(Previous, name), Place(Staged, name);
    n := Entry(m, name, name, (true, true));
    if cur in m.fs {
      moves := [Move(cur, aside), Move(staged, cur)];
      assert m.done + moves == m.done + [Move(cur, aside)] + [Move(staged, cur)];
    } else {
      moves := [Move(staged, cur)];
    }
  }

  /** What the two entries, and every other, are named. */
  lemma Names(listing: seq<string>, stagedExe: string, exeName: string, i: nat, j: nat, k: nat)
    requires Collide(listing, stagedExe, exeName, i, j) && k < |listing| && k != i && k != j
    requires forall p, q :: 0 <= p < q < |listing| ==> listing[p] != listing[q]
    ensures var x := Target(listing[i], stagedExe, exeName);
            && x == exeName && {listing[i], listing[j]} == {stagedExe, exeName}
            && Target(listing[k], stagedExe, exeName) == listing[k]
            && listing[k] != x && listing[k] != listing[i] && listing[k] != listing[j]
  {
    assert listing[i] != listing[j];
    assert if k < i then listing[k] != listing[i] else listing[i] != listing[k];
    assert if k < j then listing[k] != listing[j] else listing[j] != listing[k];
  }

  /** The files, the listing, the two names, and which entries they are. */
  predicate Case(fs: Files, listing: seq<string>, stagedExe: string, exeName: string, i: nat, j: nat) {
    Ready(fs, listing) && Collide(listing, stagedExe, exeName, i, j)
  }

  function RunTo(fs: Files, listing: seq<string>, stagedExe: string, exeName: string, j: nat, k: nat): Swapping
    requires k <= |listing|
  {
    var installed := Place(Installed, exeName) in fs;
    Moves(fs, listing[..k], Plan(|listing|, j, installed), stagedExe, exeName)
  }

  lemma RunOn(fs: Files, listing: seq<string>, stagedExe: string, exeName: string, j: nat, k: nat)
    requires k < |listing|
    ensures var m := RunTo(fs, listing, stagedExe, exeName, j, k);
            RunTo(fs, listing, stagedExe, exeName, j, k + 1)
            == if !m.ok || listing[k] == PREVIOUS_NAME then m
               else Entry(m, listing[k], Target(listing[k], stagedExe, exeName), (true, !(Place(Installed,
                   exeName) in fs && k == j)))
  {
    assert listing[..k + 1][..k] == listing[..k];
  }

  /** One entry that is neither of the two. */
  lemma OtherStep(fs: Files, listing: seq<string>, stagedExe: string, exeName: string, i: nat, j: nat, k: nat)
      returns (n: Swapping, moves: seq<Move>)
    requires Case(fs, listing, stagedExe, exeName, i, j) && k < |listing| && k != i && k != j
    requires var m := RunTo(fs, listing, stagedExe, exeName, j, k); m.ok && Waiting(m, listing, k)
    ensures n == RunTo(fs, listing, stagedExe, exeName, j, k + 1) && n.ok && Waiting(n, listing, k + 1)
    ensures var m := RunTo(fs, listing, stagedExe, exeName, j, k);
            && n.done == m.done + moves && Clear(moves, exeName, listing[i], listing[j])
            && Agree(m.fs, n.fs, exeName, listing[i], listing[j])
  {
    var m := RunTo(fs, listing, stagedExe, exeName, j, k);
    RunOn(fs, listing, stagedExe, exeName, j, k);
    Names(listing, stagedExe, exeName, i, j, k);
    if listing[k] == PREVIOUS_NAME {
      n, moves := m, [];
      assert m.done + [] == m.done;
    } else {
      n, moves := OtherEntry(m, listing[k], exeName, listing[i], listing[j]);
      forall q | k + 1 <= q < |listing| ensures Place(Staged, listing[q]) in n.fs {
        assert listing[k] != listing[q];
      }
    }
  }

  /** Up to the first of the two nothing touches what they share. */
  lemma {:induction false} BeforeBoth(fs: Files, listing: seq<string>, stagedExe: string, exeName: string, i: nat, j: nat, k: nat)
    requires Case(fs, listing, stagedExe, exeName, i, j) && k <= i
    ensures var m := RunTo(fs, listing, stagedExe, exeName, j, k);
            && m.ok && Waiting(m, listing, k) && Clear(m.done, exeName, listing[i], listing[j])
            && Agree(fs, m.fs, exeName, listing[i], listing[j])
  {
    if k > 0 {
      BeforeBoth(fs, listing, stagedExe, exeName, i, j, k - 1);
      var n, moves := OtherStep(fs, listing, stagedExe, exeName, i, j, k - 1);
    }
  }

  /** The log between the two: the first entry's moves among others that keep clear. */
  function Pair(x: string, a: string, installed: bool): seq<Move> {
    var cur := Place(Installed, x);
    (if installed then [Move(cur, Place(Previous, x))] else []) + [Move(Place(Staged, a), cur)]
  }

  /** The first of the two is put in place. */
  lemma FirstIn(fs: Files, listing: seq<string>, stagedExe: string, exeName: string, i: nat, j: nat) returns (l1: seq<Move>)
    requires Case(fs, listing, stagedExe, exeName, i, j)
    ensures var m := RunTo(fs, listing, stagedExe, exeName, j, i + 1);
            && m.ok && Waiting(m, listing, i + 1) && Place(Installed, exeName) in m.fs
            && Clear(l1, exeName, listing[i], listing[j])
            && m.done == l1 + Pair(exeName, listing[i], Place(Installed, exeName) in fs)
  {
    var a := listing[i];
    BeforeBoth(fs, listing, stagedExe, exeName, i, j, i);
    RunOn(fs, listing, stagedExe, exeName, j, i);
    TheTwo(listing, stagedExe, exeName, i, j);
    var m := RunTo(fs, listing, stagedExe, exeName, j, i);
    assert Shared(Place(Installed, exeName), exeName, a, listing[j]);
    l1 := m.done;
    var n := RunTo(fs, listing, stagedExe, exeName, j, i + 1);
    assert n == Entry(m, a, exeName, (true, true));
    forall q | i + 1 <= q < |listing| ensures Place(Staged, listing[q]) in n.fs {
      assert listing[i] != listing[q];
    }
  }

  /** After the first entry and up to the second: the first holds the shared target. */
  lemma {:induction false} BetweenBoth(fs: Files, listing: seq<string>, stagedExe: string, exeName: string, i: nat,
      j: nat, k: nat)
      returns (l1: seq<Move>, l2: seq<Move>)
    requires Case(fs, listing, stagedExe, exeName, i, j) && i < k <= j
    ensures var m := RunTo(fs, listing, stagedExe, exeName, j, k);
            && m.ok && Waiting(m, listing, k) && Place(Installed, exeName) in m.fs
            && Clear(l1, exeName, listing[i], listing[j]) && Clear(l2, exeName, listing[i], listing[j])
            && m.done == l1 + Pair(exeName, listing[i], Place(Installed, exeName) in fs) + l2
  {
    var a, b := listing[i], listing[j];
    var installed := Place(Installed, exeName) in fs;
    if k == i + 1 {
      l1 := FirstIn(fs, listing, stagedExe, exeName, i, j);
      l2 := [];
      assert l1 + Pair(exeName, a, installed) + [] == l1 + Pair(exeName, a, installed);
    } else {
      l1, l2 := BetweenBoth(fs, listing, stagedExe, exeName, i, j, k - 1);
      var n, moves := OtherStep(fs, listing, stagedExe, exeName, i, j, k - 1);
      assert Shared(Place(Installed, exeName), exeName, a, b);
      assert l1 + Pair(exeName, a, installed) + (l2 + moves) == l1 + Pair(exeName, a, installed) + l2 + moves;
      l2 := l2 + moves;
    }
  }

  lemma TheTwo(listing: seq<string>, stagedExe: string, exeName: string, i: nat, j: nat)
    requires Collide(listing, stagedExe, exeName, i, j)
    requires forall p, q :: 0 <= p < q < |listing| ==> listing[p] != listing[q]
    ensures Target(listing[i], stagedExe, exeName) == Target(listing[j], stagedExe, exeName) == exeName
    ensures listing[i] != listing[j]
  {
  }

  // ---- with the shared target installed ----------------------------------------------------

  /** The second entry's own move fails: undoing loses what was installed. */
  lemma FailureLoses(fs: Files, listing: seq<string>, stagedExe: string, exeName: string, i: nat, j: nat)
    requires Case(fs, listing, stagedExe, exeName, i, j) && Place(Installed, exeName) in fs
    ensures var (after, ok) := Swapped(fs, listing, Plan(|listing|, j, true), stagedExe, exeName);
            !ok && Place(Installed, exeName) !in after
  {
    var a, b := listing[i], listing[j];
    var cur, aside := Place(Installed, exeName), Place(Previous, exeName);
    var l1, l2 := BetweenBoth(fs, listing, stagedExe, exeName, i, j, j);
    var m := RunTo(fs, listing, stagedExe, exeName, j, j);
    RunOn(fs, listing, stagedExe, exeName, j, j);
    TheTwo(listing, stagedExe, exeName, i, j);
    var n := RunTo(fs, listing, stagedExe, exeName, j, j + 1);
    assert n == Swapping(Renamed(m.fs, cur, aside), m.done + [Move(cur, aside)], false);
    assert n.done == Log(exeName, a, l1, l2);
    NothingComesBack(n.fs, exeName, a, b, l1, l2);
    FailedStays(fs, listing, Plan(|listing|, j, true), stagedExe, exeName, j + 1);
  }

  // ---- with it free -------------------------------------------------------------------------

  /** From the second entry on: it has the shared target, and the first lies where only a displaced file belongs. */
  lemma {:induction false} AfterBoth(fs: Files, listing: seq<string>, stagedExe: string, exeName: string, i: nat, j: nat, k: nat)
    requires Case(fs, listing, stagedExe, exeName, i, j) && Place(Installed, exeName) !in fs && j < k <= |listing|
    ensures var m := RunTo(fs, listing, stagedExe, exeName, j, k);
            m.ok && Waiting(m, listing, k) && Place(Previous, exeName) in m.fs
  {
    if k == j + 1 {
      var l1, l2 := BetweenBoth(fs, listing, stagedExe, exeName, i, j, j);
      RunOn(fs, listing, stagedExe, exeName, j, j);
      TheTwo(listing, stagedExe, exeName, i, j);
      var n := RunTo(fs, listing, stagedExe, exeName, j, k);
      forall q | k <= q < |listing| ensures Place(Staged, listing[q]) in n.fs {
        assert listing[j] != listing[q];
      }
    } else {
      AfterBoth(fs, listing, stagedExe, exeName, i, j, k - 1);
      var n, moves := OtherStep(fs, listing, stagedExe, exeName, i, j, k - 1);
      assert Shared(Place(Previous, exeName), exeName, listing[i], listing[j]);
    }
  }

  /** Every rename works, and one of the two entries has ended up in .previous. */
  lemma SuccessMisplaces(fs: Files, listing: seq<string>, stagedExe: string, exeName: string, i: nat, j: nat)
    requires Case(fs, listing, stagedExe, exeName, i, j) && Place(Installed, exeName) !in fs
    ensures var (after, ok) := Swapped(fs, listing, Plan(|listing|, j, false), stagedExe, exeName);
            ok && !InPlace(fs, after, Wanted(listing), stagedExe, exeName)
  {
    AfterBoth(fs, listing, stagedExe, exeName, i, j, |listing|);
    assert listing[..|listing|] == listing;
    TheTwo(listing, stagedExe, exeName, i, j);
    assert listing[j] in Wanted(listing);
    var q :| 0 <= q < |Wanted(listing)| && Wanted(listing)[q] == listing[j];
  }

  // ---- exactly ------------------------------------------------------------------------------

  /** A collision breaks the swap for some course of its renames. */
  lemma CollisionLosesFile(fs: Files, listing: seq<string>, stagedExe: string, exeName: string) returns (works: seq<(bool, bool)>)
    requires Ready(fs, listing) && !Distinct(Wanted(listing), stagedExe, exeName)
    ensures |works| == |listing| && !AllOrNothing(fs, listing, works, stagedExe, exeName)
  {
    var i, j := SomeCollide(listing, stagedExe, exeName);
    works := Plan(|listing|, j, Place(Installed, exeName) in fs);
    if Place(Installed, exeName) in fs {
      FailureLoses(fs, listing, stagedExe, exeName, i, j);
    } else {
      SuccessMisplaces(fs, listing, stagedExe, exeName, i, j);
    }
  }

  /**
   * Whichever renames fail, a swap of a staged directory is all or nothing,
   * exactly when no two of its entries are installed under one name.
   */
  lemma AllOrNothingExactly(fs: Files, listing: seq<string>, stagedExe: string, exeName: string)
    requires Ready(fs, listing)
    ensures Distinct(Wanted(listing), stagedExe, exeName) <==>
            forall works: seq<(bool, bool)> :: |works| >= |listing| ==> AllOrNothing(fs, listing, works, stagedExe, exeName)
  {
    if Distinct(Wanted(listing), stagedExe, exeName) {
      forall works: seq<(bool, bool)> | |works| >= |listing| ensures AllOrNothing(fs, listing, works, stagedExe, exeName) {
        DistinctSwaps(fs, listing, works, stagedExe, exeName);
      }
    } else {
      var works := CollisionLosesFile(fs, listing, stagedExe, exeName);
    }
  }
}
