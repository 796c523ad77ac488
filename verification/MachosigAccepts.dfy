/** Which Mach-O files are stripped, in terms of the load commands they are made of. */
module MachosigAccepts {
  import opened Wrappers
  import opened Bytes
  import opened Machosig
  import opened MachosigTables
  import Signing = MachosigSigning

  lemma OffsetTold(d: seq<byte>, ls: seq<Load>, k: nat) returns (v: Walked)
    requires Begins(d, ls) && k <= |ls| && SignedUpTo(ls, k)
    ensures Walk(d, |ls|, k) == Ok(v) && v.off == 32 + Length(ls, k)
  {
    v := WalkTold(d, ls, k);
  }

  /** The first signature's command that is not the last command. */
  lemma {:induction false} EarlySignature(ls: seq<Load>, k: nat) returns (i: nat)
    requires k <= |ls| && !SignedUpTo(ls, k)
    ensures i < k && i + 1 < |ls| && ls[i].CodeSignature? && SignedUpTo(ls, i)
  {
    if k > 0 && SignedUpTo(ls, k - 1) {
      i := k - 1;
    } else {
      i := EarlySignature(ls, k - 1);
    }
  }

  lemma StepFails(d: seq<byte>, n: nat, i: nat, v: Walked, c: seq<byte>)
    requires Walk(d, n, i) == Ok(v) && CommandAt(d, v.off) && Command(d, v.off) == c && IsSignature(c) && i + 1 != n
    ensures Walk(d, n, i + 1).Err?
  {
  }

  /** The walk stops there. */
  lemma StopsThere(d: seq<byte>, ls: seq<Load>, i: nat)
    requires Begins(d, ls) && i + 1 < |ls| && ls[i].CodeSignature? && SignedUpTo(ls, i)
    ensures Walk(d, |ls|, i + 1).Err?
  {
    var v := OffsetTold(d, ls, i);
    CommandThere(d, ls, i);
    SignatureCommand(ls[i]);
    StepFails(d, |ls|, i, v, Encoded(ls[i]));
  }

  /** The walk over a file's commands goes through exactly when only the last may be the signature's. */
  lemma WalksExactly(d: seq<byte>, ls: seq<Load>)
    requires Begins(d, ls)
    ensures Walk(d, |ls|, |ls|).Ok? <==> SignedLast(ls)
  {
    if SignedLast(ls) {
      var w := OffsetTold(d, ls, |ls|);
    } else {
      var i := EarlySignature(ls, |ls|);
      StopsThere(d, ls, i);
      WalkStops(d, |ls|, i + 1, |ls|);
    }
  }

  /** Where the file ends without its signature. */
  function EndOf(d: seq<byte>, ls: seq<Load>): nat {
    if ls != [] && ls[|ls| - 1].CodeSignature? then ls[|ls| - 1].data.offset else |d|
  }

  /** The segment at fileOff, size bytes long, ends the file; the signature ends it too; and every table lies before it. */
  ghost predicate WellPlaced(d: seq<byte>, ls: seq<Load>, fileOff: nat, size: nat) {
    && ls != [] && fileOff < 0x8000_0000_0000_0000 && size < 0x8000_0000_0000_0000 && fileOff + size == |d|
    && fileOff <= EndOf(d, ls) <= |d| && (forall e: nat :: SomeEndsAt(ls, |ls|, e) ==> e <= EndOf(d, ls))
    && (ls[|ls| - 1].CodeSignature? ==> ls[|ls| - 1].data.offset + ls[|ls| - 1].data.count == |d|)
  }

  lemma PlacedExactly(d: seq<byte>, ls: seq<Load>, w: Walked, n: nat)
    requires |d| >= 32 && Reached(w, ls, |ls|) && |ls| > 0 && (w.linkedit.Some? ==> w.linkedit.value + 72 <= |d|)
    ensures Found(d, n, w).Ok? <==>
            && w.off == 32 + ReadLE(d, 20, 4) && w.linkedit.Some?
            && WellPlaced(d, ls, LinkeditOffset(d, w.linkedit.value), LinkeditSize(d, w.linkedit.value))
  {
    assert w.tableEnd == 0 || SomeEndsAt(ls, |ls|, w.tableEnd);
  }

  /** As many bytes of commands as the header says, and the __LINKEDIT segment at the end. */
  ghost predicate Placed(d: seq<byte>, ls: seq<Load>)
    requires |d| >= 32
  {
    && ReadLE(d, 20, 4) == Length(ls, |ls|) && LinkeditAt(ls, |ls|).Some?
    && var at := LinkeditAt(ls, |ls|).value;
       at + 72 <= |d| && WellPlaced(d, ls, ReadLE(d, at + 40, 8), ReadLE(d, at + 48, 8))
  }

  /** A 64-bit Mach-O file of these commands, as many bytes as the header says, with its __LINKEDIT segment at the end. */
  ghost predicate Acceptable(loads: Reader, d: seq<byte>, ls: seq<Load>) {
    && |d| >= 32 && d[..4] != [0xca, 0xfe, 0xba, 0xbe] && ReadLE(d, 0, 4) == 0xfeedfacf && loads(d) == Some(|ls|) && |ls| > 0
    && SignedLast(ls) && Placed(d, ls)
  }

  lemma WalkedPlaced(d: seq<byte>, ls: seq<Load>) returns (w: Walked)
    requires Begins(d, ls) && SignedLast(ls) && |ls| > 0
    ensures Walk(d, |ls|, |ls|) == Ok(w) && |d| >= 32 && (w.linkedit.Some? ==> w.linkedit.value + 72 <= |d|)
    ensures Found(d, |ls|, w).Ok? <==> Placed(d, ls)
  {
    w := WalkTold(d, ls, |ls|);
    WalkBounds(d, |ls|, |ls|);
    PlacedExactly(d, ls, w, |ls|);
  }

  lemma LayoutAccepted(loads: Reader, d: seq<byte>, ls: seq<Load>)
    requires Begins(d, ls) && ReadLE(d, 16, 4) == |ls|
    ensures LayoutOf(loads, d).Ok? <==> Acceptable(loads, d, ls)
  {
    WalksExactly(d, ls);
    if SignedLast(ls) && |ls| > 0 {
      var w := WalkedPlaced(d, ls);
      LayoutWhen(loads, d, |ls|, w);
    } else {
      LayoutNeedsWalk(loads, d, |ls|);
    }
  }

  /** A file made of these commands is stripped exactly when they and its header place everything as they must. */
  lemma AcceptsExactly(loads: Reader, d: seq<byte>, ls: seq<Load>)
    requires Begins(d, ls) && ReadLE(d, 16, 4) == |ls|
    ensures Stripped(loads, d).Ok? <==> Acceptable(loads, d, ls)
  {
    StrippedWhen(loads, d);
    LayoutAccepted(loads, d, ls);
  }

  lemma StrippedWhen(loads: Reader, d: seq<byte>)
    ensures Stripped(loads, d).Ok? <==> LayoutOf(loads, d).Ok?
  {
  }

  lemma LayoutWhen(loads: Reader, d: seq<byte>, n: nat, w: Walked)
    requires |d| >= 32 && ReadLE(d, 16, 4) == n > 0 && Walk(d, n, n) == Ok(w) && (w.linkedit.Some? ==> w.linkedit.value + 72 <= |d|)
    ensures LayoutOf(loads, d).Ok? <==>
            d[..4] != [0xca, 0xfe, 0xba, 0xbe] && ReadLE(d, 0, 4) == 0xfeedfacf && loads(d) == Some(n) && Found(d, n, w).Ok?
  {
  }

  lemma LayoutNeedsWalk(loads: Reader, d: seq<byte>, n: nat)
    requires |d| >= 32 && ReadLE(d, 16, 4) == n && (n == 0 || Walk(d, n, n).Err?)
    ensures LayoutOf(loads, d).Err?
  {
  }
}
