/** What signing does to a Mach-O executable, and that stripping forgets it. */
module MachosigSigning {
  import opened Wrappers
  import opened Bytes
  import opened Machosig

  /** Position i lies in one of the two sizes of the segment whose command is at at: the only ones Strip recomputes. */
  predicate InSizes(at: nat, i: nat) { at + 32 <= i < at + 40 || at + 48 <= i < at + 56 }

  /** y has x's load commands up to hi, but for those sizes. */
  predicate Alike(x: seq<byte>, y: seq<byte>, at: nat, hi: nat) {
    hi <= |x| && hi <= |y| && forall i :: HEADER_SIZE <= i < hi && !InSizes(at, i) ==> y[i] == x[i]
  }

  lemma SameSlice(x: seq<byte>, y: seq<byte>, at: nat, hi: nat, from: nat, to: nat)
    requires Alike(x, y, at, hi) && HEADER_SIZE <= from <= to <= hi && (to <= at + 32 || at + 56 <= from)
    ensures y[from..to] == x[from..to]
  {
  }

  /** A command is read the same when the sizes changed are not in it, or are the sizes of the segment it describes. */
  lemma SameCommand(x: seq<byte>, y: seq<byte>, at: nat, hi: nat, w: Walked)
    requires Alike(x, y, at, hi) && HEADER_SIZE <= w.off && CommandAt(x, w.off) && w.off + |Command(x, w.off)| <= hi
    requires w.off + |Command(x, w.off)| <= at || at + SEGMENT64 <= w.off
    ensures CommandAt(y, w.off) && Command(y, w.off) == Command(x, w.off)
  {
    var to := w.off + |Command(x, w.off)|;
    SameSlice(x, y, at, hi, w.off + 4, w.off + 8);
    SameSlice(x, y, at, hi, w.off, to);
  }

  lemma SameSegment(x: seq<byte>, y: seq<byte>, at: nat, hi: nat)
    requires Alike(x, y, at, hi) && HEADER_SIZE <= at && CommandAt(x, at) && at + |Command(x, at)| <= hi
             && IsLinkedit(Command(x, at))
    ensures CommandAt(y, at) && |Command(y, at)| == |Command(x, at)| && IsLinkedit(Command(y, at))
    ensures !IsSignature(Command(y, at)) && TablesEnd(Command(y, at)) == 0 && TablesEnd(Command(x, at)) == 0
  {
    SameSlice(x, y, at, hi, at + 4, at + 8);
    SameSlice(x, y, at, hi, at, at + 24);
    var c, d := Command(x, at), Command(y, at);
    assert c[..24] == x[at..at + 24] && d[..24] == y[at..at + 24];
    assert c[0..4] == c[..24][0..4] && d[0..4] == d[..24][0..4];
    assert c[8..18] == c[..24][8..18] && d[8..18] == d[..24][8..18];
    assert c[18..24] == c[..24][18..24] && d[18..24] == d[..24][18..24];
  }

  /** The segment at at is the one the walk has, or lies ahead. */
  predicate Placed(at: nat, w: Walked) { (w.linkedit == Some(at) && at + SEGMENT64 <= w.off) || w.off <= at }

  /** A command taken in from either file leads to the same place. */
  lemma StepAlike(x: seq<byte>, y: seq<byte>, at: nat, hi: nat, nx: nat, ny: nat, i: nat, w: Walked)
    requires Alike(x, y, at, hi) && HEADER_SIZE <= w.off && (w.linkedit.Some? ==> w.linkedit.value + SEGMENT64 <= w.off)
    requires StepCommand(x, nx, i, w).Ok? && StepCommand(x, nx, i, w).value.signature.None?
    requires StepCommand(x, nx, i, w).value.off <= hi && Placed(at, StepCommand(x, nx, i, w).value)
    ensures StepCommand(y, ny, i, w) == StepCommand(x, nx, i, w)
  {
    var c := Command(x, w.off);
    assert !IsSignature(c);
    if at == w.off {
      assert IsLinkedit(c);
      SameSegment(x, y, at, hi);
    } else {
      SameCommand(x, y, at, hi, w);
    }
  }

  /** Walking y over commands like x's finds what it found in x, however many commands follow in either. */
  lemma {:induction false} WalkAlike(x: seq<byte>, y: seq<byte>, at: nat, hi: nat, nx: nat, ny: nat, k: nat)
    requires k <= nx && Walk(x, nx, k).Ok? && Walk(x, nx, k).value.signature.None?
    requires Alike(x, y, at, hi) && Walk(x, nx, k).value.off <= hi && Placed(at, Walk(x, nx, k).value)
    ensures Walk(y, ny, k) == Walk(x, nx, k)
  {
    if k > 0 {
      var w := Walk(x, nx, k - 1).value;
      WalkBounds(x, nx, k - 1);
      PlacedBefore(x, nx, k - 1, w, at);
      WalkAlike(x, y, at, hi, nx, ny, k - 1);
      StepAlike(x, y, at, hi, nx, ny, k - 1, w);
    }
  }

  lemma PlacedBefore(d: seq<byte>, n: nat, i: nat, w: Walked, at: nat)
    requires w.linkedit.Some? ==> w.linkedit.value + SEGMENT64 <= w.off
    requires StepCommand(d, n, i, w).Ok? && Placed(at, StepCommand(d, n, i, w).value)
    requires StepCommand(d, n, i, w).value.signature.None?
    ensures Placed(at, w) && w.signature.None?
  {
  }

  // ---- signing -------------------------------------------------------------------------

  /** There is zeroed room for one more command, ahead of everything in __LINKEDIT. */
  predicate Room(x: seq<byte>, l: Layout) {
    var end := l.CommandsEnd();
    && HEADER_SIZE <= l.linkedit && l.linkedit + SEGMENT64 <= end
    && end + SIGNATURE_COMMAND <= l.fileOff <= |x| && AllZero(x[end..end + SIGNATURE_COMMAND])
  }

  /** Position i is not in the counts, the room for the command, or the two sizes. */
  predicate LeftAlone(l: Layout, i: nat) {
    var end := l.CommandsEnd();
    !(16 <= i < 24) && !InSizes(l.linkedit, i) && !(end <= i < end + SIGNATURE_COMMAND)
  }

  /** The load command at at names the signature. */
  predicate NamesSignature(y: seq<byte>, at: nat, offset: nat, size: nat)
    requires at + SIGNATURE_COMMAND <= |y|
  {
    && ReadLE(y, at, 4) == LC_CODE_SIGNATURE && ReadLE(y, at + 4, 4) == SIGNATURE_COMMAND
    && ReadLE(y, at + 8, 4) == offset && ReadLE(y, at + 12, 4) == size
  }

  /**
   * y is x signed: one command more, naming size bytes of signature behind
   * x and zero filler, its segment reaching to their end, vmsize anything.
   */
  predicate SignedForm(x: seq<byte>, y: seq<byte>, l: Layout, filler: nat, size: nat) {
    var end := l.CommandsEnd();
    && Room(x, l) && |y| == |x| + filler + size < 0x1_0000_0000 && l.commands + 1 < 0x1_0000_0000
    && (forall i :: 0 <= i < |x| && LeftAlone(l, i) ==> y[i] == x[i])
    && (forall i :: |x| <= i < |x| + filler ==> y[i] == 0)
    && ReadLE(y, 16, 4) == l.commands + 1 && ReadLE(y, 20, 4) == l.commandBytes + SIGNATURE_COMMAND
    && NamesSignature(y, end, |x| + filler, size)
    && LinkeditSize(y, l.linkedit) == |y| - l.fileOff
  }

  lemma WritesReadBack(d: seq<byte>, at: nat, n: nat, k: nat)
    requires at + k <= |d| && n < Pow256(k)
    ensures ReadLE(Patch(d, at, LE(n, k)), at, k) == n
  {
  }

  lemma WritesElsewhere(d: seq<byte>, at: nat, v: seq<byte>, from: nat, k: nat)
    requires at + |v| <= |d| && from + k <= |d| && (from + k <= at || at + |v| <= from)
    ensures ReadLE(Patch(d, at, v), from, k) == ReadLE(d, from, k)
  {
    assert Patch(d, at, v)[from..from + k] == d[from..from + k];
  }

  /** The four numbers of a signature command, written one after another. */
  function NamingSignature(d: seq<byte>, at: nat, offset: nat, size: nat): (r: seq<byte>)
    requires at + SIGNATURE_COMMAND <= |d|
    ensures |r| == |d| && forall i :: 0 <= i < |d| && !(at <= i < at + SIGNATURE_COMMAND) ==> r[i] == d[i]
  {
    Patch(Patch(Patch(Patch(d, at, LE(LC_CODE_SIGNATURE, 4)), at + 4, LE(SIGNATURE_COMMAND, 4)), at + 8, LE(offset,
        4)), at + 12, LE(size, 4))
  }

  lemma NamedSignature(d: seq<byte>, at: nat, offset: nat, size: nat)
    requires at + SIGNATURE_COMMAND <= |d| && offset < 0x1_0000_0000 && size < 0x1_0000_0000
    ensures NamesSignature(NamingSignature(d, at, offset, size), at, offset, size)
  {
    Pow256Values();
    var a := Patch(d, at, LE(LC_CODE_SIGNATURE, 4));
    var b := Patch(a, at + 4, LE(SIGNATURE_COMMAND, 4));
    var c := Patch(b, at + 8, LE(offset, 4));
    WritesReadBack(d, at, LC_CODE_SIGNATURE, 4);
    WritesElsewhere(a, at + 4, LE(SIGNATURE_COMMAND, 4), at, 4);
    WritesElsewhere(b, at + 8, LE(offset, 4), at, 4);
    WritesElsewhere(c, at + 12, LE(size, 4), at, 4);
    WritesReadBack(a, at + 4, SIGNATURE_COMMAND, 4);
    WritesElsewhere(b, at + 8, LE(offset, 4), at + 4, 4);
    WritesElsewhere(c, at + 12, LE(size, 4), at + 4, 4);
    WritesReadBack(b, at + 8, offset, 4);
    WritesElsewhere(c, at + 12, LE(size, 4), at + 8, 4);
    WritesReadBack(c, at + 12, size, 4);
  }

  /** The numbers of the signed file that do not change with signing. */
  lemma SignedReads(x: seq<byte>, y: seq<byte>, l: Layout, filler: nat, size: nat)
    requires SignedForm(x, y, l, filler, size)
    ensures LinkeditOffset(y, l.linkedit) == LinkeditOffset(x, l.linkedit)
    ensures ReadLE(y, 0, 4) == ReadLE(x, 0, 4) && y[..4] == x[..4]
  {
    assert y[l.linkedit + 40..l.linkedit + 40 + 8] == x[l.linkedit + 40..l.linkedit + 40 + 8];
    assert forall i :: 0 <= i < 4 ==> LeftAlone(l, i) && y[i] == x[i];
    assert y[..4] == x[..4] && y[0..0 + 4] == y[..4] && x[0..0 + 4] == x[..4];
  }

  lemma ReadsThrough(d: seq<byte>, at: nat, to: nat, from: nat, k: nat)
    requires at <= to <= |d| && from + k <= to - at
    ensures ReadLE(d[at..to], from, k) == ReadLE(d, at + from, k)
  {
    Inside(d, at, d[at..to], from, from + k);
  }

  /** The new command, taken in by the walk. */
  lemma SignatureTaken(y: seq<byte>, w: Walked, offset: nat, size: nat, n: nat)
    requires w.off + SIGNATURE_COMMAND <= |y| && NamesSignature(y, w.off, offset, size)
    ensures StepCommand(y, n + 1, n, w) == Ok(SignedWalked(w, offset, size))
  {
    var c := y[w.off..w.off + SIGNATURE_COMMAND];
    ReadsThrough(y, w.off, w.off + SIGNATURE_COMMAND, 0, 4);
    ReadsThrough(y, w.off, w.off + SIGNATURE_COMMAND, 8, 4);
    ReadsThrough(y, w.off, w.off + SIGNATURE_COMMAND, 12, 4);
    assert Command(y, w.off) == c;
  }

  /** The numbers in the header and the segment's command agree with a walk and with the file's length. */
  predicate Agrees(d: seq<byte>, w: Walked, l: Layout) {
    && HEADER_SIZE <= l.linkedit && l.linkedit + SEGMENT64 <= w.off <= |d| && w.off == l.CommandsEnd()
    && ReadLE(d, 16, 4) == l.commands && ReadLE(d, 20, 4) == l.commandBytes
    && w.linkedit == Some(l.linkedit) && w.signature == l.signature
    && l.fileOff == LinkeditOffset(d, l.linkedit) && l.fileOff + LinkeditSize(d, l.linkedit) == |d|
    && l.fileOff < 0x8000_0000_0000_0000 && LinkeditSize(d, l.linkedit) < 0x8000_0000_0000_0000
    && l.tableEnd == Max(w.tableEnd, l.fileOff)
    && (l.signature.Some? ==> l.signature.value.offset >= l.fileOff && l.signature.value.offset + l.signature.value.size == |d|)
    && l.tableEnd <= l.End(|d|)
  }

  /** A 64-bit Mach-O with this many load commands, by its header and by the system's reader. */
  predicate Opens(loads: Reader, d: seq<byte>, n: nat) {
    |d| >= HEADER_SIZE && ReadLE(d, 0, 4) == MAGIC64 && d[..4] != FAT_MAGIC && loads(d) == Some(n) && n > 0
        && ReadLE(d, 16, 4) == n
  }

  lemma FoundAgrees(d: seq<byte>, n: nat, w: Walked, l: Layout)
    requires |d| >= HEADER_SIZE && ReadLE(d, 16, 4) == n && w.off <= |d|
    requires w.linkedit.Some? ==> HEADER_SIZE <= w.linkedit.value && w.linkedit.value + SEGMENT64 <= w.off
    ensures Found(d, n, w) == Ok(l) ==> Agrees(d, w, l) && l.commands == n
    ensures Agrees(d, w, l) ==> Found(d, n, w) == Ok(l)
  {
  }

  /** What LayoutOf checked, and the walk it did. */
  lemma LayoutWalked(loads: Reader, d: seq<byte>) returns (w: Walked)
    requires LayoutOf(loads, d).Ok?
    ensures var l := LayoutOf(loads, d).value;
            Opens(loads, d, l.commands) && Walk(d, l.commands, l.commands) == Ok(w) && Agrees(d, w, l)
  {
    var n := ReadLE(d, 16, 4);
    w := Walk(d, n, n).value;
    WalkBounds(d, n, n);
    FoundAgrees(d, n, w, LayoutOf(loads, d).value);
  }

  /** And the other way: a walk that passes every check. */
  lemma LayoutFrom(loads: Reader, d: seq<byte>, w: Walked, l: Layout)
    requires Opens(loads, d, l.commands) && Walk(d, l.commands, l.commands) == Ok(w) && Agrees(d, w, l)
    ensures LayoutOf(loads, d) == Ok(l)
  {
  }

  /** The layout of the signed file: the same tables and segment, one command more, and the signature. */
  function SignedAs(x: seq<byte>, l: Layout, filler: nat, size: nat): Layout {
    l.(commands := l.commands + 1, commandBytes := l.commandBytes + SIGNATURE_COMMAND,
       signature := Some(Signature(l.CommandsEnd(), |x| + filler, size)))
  }

  function SignedWalked(w: Walked, offset: nat, size: nat): Walked {
    Walked(w.off + SIGNATURE_COMMAND, w.linkedit, w.tableEnd, Some(Signature(w.off, offset, size)))
  }

  lemma WalkOn(d: seq<byte>, n: nat, k: nat, w: Walked)
    requires Walk(d, n, k) == Ok(w)
    ensures Walk(d, n, k + 1) == StepCommand(d, n, k, w)
  {
  }

  lemma WalkWithSignature(x: seq<byte>, y: seq<byte>, w: Walked, n: nat, at: nat, offset: nat, size: nat)
    requires Walk(x, n, n) == Ok(w) && w.signature.None? && w.linkedit == Some(at) && at + SEGMENT64 <= w.off
    requires Alike(x, y, at, w.off) && w.off + SIGNATURE_COMMAND <= |y| && NamesSignature(y, w.off, offset, size)
    ensures Walk(y, n + 1, n + 1) == Ok(SignedWalked(w, offset, size))
  {
    assert Walk(y, n + 1, n) == Ok(w) by { WalkAlike(x, y, at, w.off, n, n + 1, n); }
    assert StepCommand(y, n + 1, n, w) == Ok(SignedWalked(w, offset, size)) by { SignatureTaken(y, w, offset, size, n); }
    WalkOn(y, n + 1, n, w);
  }

  lemma SignedFits(x: seq<byte>, y: seq<byte>, l: Layout, filler: nat, size: nat, off: nat)
    requires SignedForm(x, y, l, filler, size) && off == l.CommandsEnd()
    ensures Alike(x, y, l.linkedit, off) && off + SIGNATURE_COMMAND <= |y| && NamesSignature(y, off, |x| + filler, size)
  {
  }

  lemma SignedAgrees(x: seq<byte>, y: seq<byte>, w: Walked, l: Layout, filler: nat, size: nat)
    requires SignedForm(x, y, l, filler, size) && Agrees(x, w, l) && l.signature.None?
    ensures Agrees(y, SignedWalked(w, |x| + filler, size), SignedAs(x, l, filler, size))
  {
    SignedReads(x, y, l, filler, size);
  }

  lemma SignedLayout(loads: Reader, x: seq<byte>, y: seq<byte>, w: Walked, l: Layout, filler: nat, size: nat)
    requires Opens(loads, x, l.commands) && Walk(x, l.commands, l.commands) == Ok(w) && Agrees(x, w, l) && l.signature.None?
    requires SignedForm(x, y, l, filler, size) && loads(y) == Some(l.commands + 1)
    ensures LayoutOf(loads, y) == Ok(SignedAs(x, l, filler, size))
  {
    SignedReads(x, y, l, filler, size);
    SignedFits(x, y, l, filler, size, w.off);
    WalkWithSignature(x, y, w, l.commands, l.linkedit, |x| + filler, size);
    SignedAgrees(x, y, w, l, filler, size);
    LayoutFrom(loads, y, SignedWalked(w, |x| + filler, size), SignedAs(x, l, filler, size));
  }

  /** The signed file of a file with room, for any filler, signature and vmsize. */
  function Sign(x: seq<byte>, l: Layout, filler: nat, sig: seq<byte>, vmsize: seq<byte>): seq<byte>
    requires Room(x, l) && |vmsize| == 8
  {
    var counted := Patch(Patch(x, 16, LE(l.commands + 1, 4)), 20, LE(l.commandBytes + SIGNATURE_COMMAND, 4));
    var named := NamingSignature(counted, l.CommandsEnd(), |x| + filler, |sig|);
    Patch(Patch(named, l.linkedit + 32, vmsize), l.linkedit + 48, LE(|x| + filler + |sig| - l.fileOff, 8)) + (Zeros(filler) + sig)
  }

  /** Two files that agree on k bytes read the same there. */
  lemma ReadsAlike(a: seq<byte>, b: seq<byte>, at: nat, k: nat)
    requires at + k <= |a| && at + k <= |b| && forall i :: at <= i < at + k ==> a[i] == b[i]
    ensures ReadLE(a, at, k) == ReadLE(b, at, k)
  {
    assert a[at..at + k] == b[at..at + k];
  }

  lemma NamesAlike(a: seq<byte>, b: seq<byte>, end: nat, offset: nat, size: nat)
    requires end + SIGNATURE_COMMAND <= |a| && end + SIGNATURE_COMMAND <= |b| && NamesSignature(a, end, offset, size)
    requires forall i :: end <= i < end + SIGNATURE_COMMAND ==> a[i] == b[i]
    ensures NamesSignature(b, end, offset, size)
  {
    ReadsAlike(a, b, end, 4);
    ReadsAlike(a, b, end + 4, 4);
    ReadsAlike(a, b, end + 8, 4);
    ReadsAlike(a, b, end + 12, 4);
  }

  lemma CountsWritten(x: seq<byte>, n: nat, size: nat)
    requires |x| >= HEADER_SIZE && n < 0x1_0000_0000 && size < 0x1_0000_0000
    ensures var c := Patch(Patch(x, 16, LE(n, 4)), 20, LE(size, 4)); ReadLE(c, 16, 4) == n && ReadLE(c, 20, 4) == size
  {
    Pow256Values();
    var a := Patch(x, 16, LE(n, 4));
    WritesReadBack(x, 16, n, 4);
    WritesElsewhere(a, 20, LE(size, 4), 16, 4);
    WritesReadBack(a, 20, size, 4);
  }

  /** The bytes of the signed file, region by region. */
  lemma SignedBytes(x: seq<byte>, l: Layout, filler: nat, sig: seq<byte>, vmsize: seq<byte>)
    requires Room(x, l) && |vmsize| == 8
    ensures var y := Sign(x, l, filler, sig, vmsize);
            && |y| == |x| + filler + |sig|
            && (forall i :: 0 <= i < |x| && LeftAlone(l, i) ==> y[i] == x[i])
            && (forall i :: |x| <= i < |x| + filler ==> y[i] == 0)
  {
  }

  lemma SignedEnds(x: seq<byte>, l: Layout, filler: nat, sig: seq<byte>, vmsize: seq<byte>)
    requires Room(x, l) && |vmsize| == 8
    ensures var y := Sign(x, l, filler, sig, vmsize);
            |y| == |x| + filler + |sig| && y[|x| + filler..] == sig && y[l.linkedit + 32..l.linkedit + 40] == vmsize
  {
  }

  lemma SignedCounts(x: seq<byte>, l: Layout, filler: nat, sig: seq<byte>, vmsize: seq<byte>)
    requires Room(x, l) && |vmsize| == 8 && l.commandBytes + SIGNATURE_COMMAND < 0x1_0000_0000 && l.commands + 1 < 0x1_0000_0000
    ensures var y := Sign(x, l, filler, sig, vmsize);
            ReadLE(y, 16, 4) == l.commands + 1 && ReadLE(y, 20, 4) == l.commandBytes + SIGNATURE_COMMAND
  {
    var counted := Patch(Patch(x, 16, LE(l.commands + 1, 4)), 20, LE(l.commandBytes + SIGNATURE_COMMAND, 4));
    CountsWritten(x, l.commands + 1, l.commandBytes + SIGNATURE_COMMAND);
    ReadsAlike(counted, Sign(x, l, filler, sig, vmsize), 16, 4);
    ReadsAlike(counted, Sign(x, l, filler, sig, vmsize), 20, 4);
  }

  lemma SignedNames(x: seq<byte>, l: Layout, filler: nat, sig: seq<byte>, vmsize: seq<byte>)
    requires Room(x, l) && |vmsize| == 8 && |x| + filler < 0x1_0000_0000 && |sig| < 0x1_0000_0000
    ensures NamesSignature(Sign(x, l, filler, sig, vmsize), l.CommandsEnd(), |x| + filler, |sig|)
  {
    var counted := Patch(Patch(x, 16, LE(l.commands + 1, 4)), 20, LE(l.commandBytes + SIGNATURE_COMMAND, 4));
    var named := NamingSignature(counted, l.CommandsEnd(), |x| + filler, |sig|);
    var y := Sign(x, l, filler, sig, vmsize);
    assert NamesSignature(named, l.CommandsEnd(), |x| + filler, |sig|) by { NamedSignature(counted, l.CommandsEnd(),
        |x| + filler, |sig|); }
    assert forall i :: l.CommandsEnd() <= i < l.CommandsEnd() + SIGNATURE_COMMAND ==> named[i] == y[i];
    NamesAlike(named, y, l.CommandsEnd(), |x| + filler, |sig|);
  }

  lemma LastWrite(d: seq<byte>, at: nat, n: nat, more: seq<byte>)
    requires at + 8 <= |d| && n < 0x1_0000_0000_0000_0000
    ensures ReadLE(Patch(d, at, LE(n, 8)) + more, at, 8) == n
  {
    Pow256Values();
    WritesReadBack(d, at, n, 8);
    ReadsAlike(Patch(d, at, LE(n, 8)), Patch(d, at, LE(n, 8)) + more, at, 8);
  }

  lemma SignedSize(x: seq<byte>, l: Layout, filler: nat, sig: seq<byte>, vmsize: seq<byte>)
    requires Room(x, l) && |vmsize| == 8 && |x| + filler + |sig| < 0x1_0000_0000
    ensures LinkeditSize(Sign(x, l, filler, sig, vmsize), l.linkedit) == |x| + filler + |sig| - l.fileOff
  {
    var counted := Patch(Patch(x, 16, LE(l.commands + 1, 4)), 20, LE(l.commandBytes + SIGNATURE_COMMAND, 4));
    var named := NamingSignature(counted, l.CommandsEnd(), |x| + filler, |sig|);
    LastWrite(Patch(named, l.linkedit + 32, vmsize), l.linkedit + 48, |x| + filler + |sig| - l.fileOff, Zeros(filler) + sig);
  }

  /** A file with room can be signed, with any filler, signature and vmsize. */
  lemma CanBeSigned(x: seq<byte>, l: Layout, filler: nat, sig: seq<byte>, vmsize: seq<byte>) returns (y: seq<byte>)
    requires Room(x, l) && |vmsize| == 8 && |x| + filler + |sig| < 0x1_0000_0000 && l.commands + 1 < 0x1_0000_0000
    ensures SignedForm(x, y, l, filler, |sig|) && y[|x| + filler..] == sig && y[l.linkedit + 32..l.linkedit + 40] == vmsize
  {
    y := Sign(x, l, filler, sig, vmsize);
    SignedBytes(x, l, filler, sig, vmsize);
    SignedEnds(x, l, filler, sig, vmsize);
    SignedCounts(x, l, filler, sig, vmsize);
    SignedNames(x, l, filler, sig, vmsize);
    SignedSize(x, l, filler, sig, vmsize);
  }

  // ---- stripping again ----------------------------------------------------------------

  /** Once the two sizes are recomputed it does not matter what they were. */
  lemma ResizedAlike(a: seq<byte>, b: seq<byte>, at: nat, fileOff: nat, end: nat)
    requires at + SEGMENT64 <= |a| && at + SEGMENT64 <= |b| && fileOff <= end <= |a| && end <= |b|
    requires forall i :: 0 <= i < end && !InSizes(at, i) ==> a[i] == b[i]
    ensures Resized(a, at, fileOff, end) == Resized(b, at, fileOff, end)
  {
  }

  lemma CountsRead(x: seq<byte>)
    requires |x| >= HEADER_SIZE
    ensures Counts(ReadLE(x, 16, 4), ReadLE(x, 20, 4)) == x[16..24]
  {
    FromLERoundTrip(x[16..16 + 4]);
    FromLERoundTrip(x[20..20 + 4]);
  }

  lemma TakenOut(y: seq<byte>, signed: Layout, counts: seq<byte>, at: nat, i: nat)
    requires |y| >= HEADER_SIZE && signed.signature.Some? && signed.signature.value.commandAt == at
    requires HEADER_SIZE <= at && at + SIGNATURE_COMMAND <= |y| && i < |y|
    requires signed.commands > 0 && signed.commandBytes >= SIGNATURE_COMMAND
    requires counts == Counts(signed.commands - 1, signed.commandBytes - SIGNATURE_COMMAND)
    ensures Unsigned(y, signed)[i]
            == if 16 <= i < 24 then counts[i - 16] else if at <= i < at + SIGNATURE_COMMAND then 0 else y[i]
  {
  }

  /** With its signature's command taken out again, the signed file is the file and its filler, but for the two sizes. */
  lemma UnsignedKeeps(x: seq<byte>, y: seq<byte>, l: Layout, filler: nat, size: nat, i: nat)
    requires SignedForm(x, y, l, filler, size)
    requires l.signature.None? && l.commands == ReadLE(x, 16, 4) && l.commandBytes == ReadLE(x, 20, 4)
    requires i < |x| + filler && !InSizes(l.linkedit, i)
    ensures Unsigned(y, SignedAs(x, l, filler, size))[i] == if i < |x| then x[i] else 0
  {
    var end := l.CommandsEnd();
    CountsRead(x);
    TakenOut(y, SignedAs(x, l, filler, size), x[16..24], end, i);
    if end <= i < end + SIGNATURE_COMMAND {
      assert x[end..end + SIGNATURE_COMMAND][i - end] == x[i];
    } else if i < |x| && !(16 <= i < 24) {
      assert LeftAlone(l, i);
    }
  }

  /** The file without its signature, cut and with its segment resized. */
  function StrippedTo(u: seq<byte>, linkedit: nat, fileOff: nat, tableEnd: nat, end: nat): seq<byte>
    requires linkedit + SEGMENT64 <= |u| && fileOff <= tableEnd <= end <= |u|
  {
    Resized(u, linkedit, fileOff, CutAt(u, tableEnd, end))
  }

  lemma StrippedFrom(loads: Reader, d: seq<byte>, l: Layout)
    requires LayoutOf(loads, d) == Ok(l)
    ensures |d| >= HEADER_SIZE && l.linkedit + SEGMENT64 <= |d| && l.fileOff <= l.tableEnd <= l.End(|d|) <= |d|
    ensures l.signature.Some? ==> l.signature.value.commandAt + SIGNATURE_COMMAND <= |d| && l.commands > 0 && l.commandBytes >= SIGNATURE_COMMAND
    ensures Stripped(loads, d) == Ok(StrippedTo(Unsigned(d, l), l.linkedit, l.fileOff, l.tableEnd, l.End(|d|)))
  {
    LayoutBounds(loads, d);
  }

  /** Bytes u that are x's up to |x| and zeros from there to end, but for the two sizes. */
  predicate Continued(x: seq<byte>, u: seq<byte>, at: nat, end: nat) {
    |x| <= end <= |u| && forall i :: 0 <= i < end && !InSizes(at, i) ==> u[i] == if i < |x| then x[i] else 0
  }

  /** They strip to what x strips to when x ends in zeros past its tables, or nothing was added. */
  lemma CutsAlike(x: seq<byte>, u: seq<byte>, at: nat, fileOff: nat, tableEnd: nat, end: nat)
    requires at + SEGMENT64 <= |x| && at + 56 <= fileOff <= tableEnd <= |x| && Continued(x, u, at, end)
    requires AllZero(x[tableEnd..]) || end == |x|
    ensures StrippedTo(u, at, fileOff, tableEnd, end) == StrippedTo(x, at, fileOff, tableEnd, |x|)
  {
    assert x[tableEnd..|x|] == x[tableEnd..];
    if AllZero(x[tableEnd..]) {
      forall i | tableEnd <= i < end ensures u[i] == 0 {
        if i < |x| { assert x[tableEnd..][i - tableEnd] == x[i]; }
      }
      assert AllZero(u[tableEnd..end]);
      ResizedAlike(u, x, at, fileOff, tableEnd);
    } else {
      var k :| 0 <= k < |x| - tableEnd && x[tableEnd..][k] != 0;
      assert u[tableEnd..end][k] == x[tableEnd + k] != 0;
      ResizedAlike(u, x, at, fileOff, end);
    }
  }

  /** Otherwise what was added stays. */
  lemma CutsDiffer(x: seq<byte>, u: seq<byte>, at: nat, fileOff: nat, tableEnd: nat, end: nat)
    requires at + SEGMENT64 <= |x| && at + 56 <= fileOff <= tableEnd <= |x| && Continued(x, u, at, end)
    requires !AllZero(x[tableEnd..]) && end != |x|
    ensures |StrippedTo(u, at, fileOff, tableEnd, end)| == end && |StrippedTo(x, at, fileOff, tableEnd, |x|)| == |x|
  {
    assert x[tableEnd..|x|] == x[tableEnd..];
    var k :| 0 <= k < |x| - tableEnd && x[tableEnd..][k] != 0;
    assert u[tableEnd..end][k] == x[tableEnd + k] != 0;
  }

  lemma SignedTakenOut(x: seq<byte>, y: seq<byte>, l: Layout, filler: nat, size: nat)
    requires SignedForm(x, y, l, filler, size) && l.signature.None?
    requires l.commands == ReadLE(x, 16, 4) && l.commandBytes == ReadLE(x, 20, 4)
    ensures Continued(x, Unsigned(y, SignedAs(x, l, filler, size)), l.linkedit, |x| + filler)
  {
    forall i | 0 <= i < |x| + filler && !InSizes(l.linkedit, i)
      ensures Unsigned(y, SignedAs(x, l, filler, size))[i] == if i < |x| then x[i] else 0
    {
      UnsignedKeeps(x, y, l, filler, size, i);
    }
  }

  lemma SignedStripped(loads: Reader, y: seq<byte>, l: Layout, signed: Layout, end: nat) returns (a: seq<byte>)
    requires LayoutOf(loads, y) == Ok(signed) && signed.End(|y|) == end
    requires signed.linkedit == l.linkedit && signed.fileOff == l.fileOff && signed.tableEnd == l.tableEnd
    requires signed.signature.Some? ==> signed.signature.value.commandAt + SIGNATURE_COMMAND <= |y| && signed.commands > 0
                                        && signed.commandBytes >= SIGNATURE_COMMAND
    ensures |y| >= HEADER_SIZE && l.linkedit + SEGMENT64 <= |y| && l.fileOff <= l.tableEnd <= end <= |y|
    ensures Stripped(loads, y) == Ok(a) && a == StrippedTo(Unsigned(y, signed), l.linkedit, l.fileOff, l.tableEnd, end)
  {
    StrippedFrom(loads, y, signed);
    a := Stripped(loads, y).value;
  }

  /** The signed file, stripped. */
  lemma SignedStrips(loads: Reader, x: seq<byte>, y: seq<byte>, l: Layout, filler: nat,
      size: nat) returns (u: seq<byte>, a: seq<byte>)
    requires LayoutOf(loads, x) == Ok(l) && l.signature.None? && SignedForm(x, y, l, filler, size)
    requires loads(y) == Some(l.commands + 1)
    ensures l.fileOff <= l.tableEnd <= |x| && Continued(x, u, l.linkedit, |x| + filler)
    ensures Stripped(loads, y) == Ok(a) && a == StrippedTo(u, l.linkedit, l.fileOff, l.tableEnd, |x| + filler)
  {
    var w := LayoutWalked(loads, x);
    var signed := SignedAs(x, l, filler, size);
    u := Unsigned(y, signed);
    assert Continued(x, u, l.linkedit, |x| + filler) by { SignedTakenOut(x, y, l, filler, size); }
    assert LayoutOf(loads, y) == Ok(signed) by { SignedLayout(loads, x, y, w, l, filler, size); }
    a := SignedStripped(loads, y, l, signed, |x| + filler);
  }

  /** Only zeros follow the last table. */
  predicate EndsInTables(x: seq<byte>, tableEnd: nat)
    requires tableEnd <= |x|
  {
    AllZero(x[tableEnd..])
  }

  /** The same, or told apart by their lengths. */
  predicate Alternative(a: seq<byte>, b: seq<byte>, same: bool) { if same then a == b else |a| != |b| }

  lemma CutsCompared(x: seq<byte>, u: seq<byte>, at: nat, fileOff: nat, tableEnd: nat, end: nat, a: seq<byte>, b: seq<byte>)
    requires at + SEGMENT64 <= |x| && at + 56 <= fileOff <= tableEnd <= |x| && Continued(x, u, at, end)
    requires a == StrippedTo(u, at, fileOff, tableEnd, end) && b == StrippedTo(x, at, fileOff, tableEnd, |x|)
    ensures Alternative(a, b, EndsInTables(x, tableEnd) || end == |x|)
  {
    if EndsInTables(x, tableEnd) || end == |x| {
      CutsAlike(x, u, at, fileOff, tableEnd, end);
    } else {
      CutsDiffer(x, u, at, fileOff, tableEnd, end);
    }
  }

  lemma ResultsCompared(x: seq<byte>, u: seq<byte>, l: Layout, filler: nat, a: seq<byte>, b: seq<byte>,
                        p: Result<seq<byte>, Error>, q: Result<seq<byte>, Error>)
    requires l.linkedit + SEGMENT64 <= |x| && l.linkedit + 56 <= l.fileOff <= l.tableEnd <= |x| && Continued(x, u,
             l.linkedit, |x| + filler)
    requires a == StrippedTo(u, l.linkedit, l.fileOff, l.tableEnd, |x| + filler) && p == Ok(a)
    requires b == StrippedTo(x, l.linkedit, l.fileOff, l.tableEnd, |x|) && q == Ok(b)
    ensures p == q <==> EndsInTables(x, l.tableEnd) || filler == 0
  {
    CutsCompared(x, u, l.linkedit, l.fileOff, l.tableEnd, |x| + filler, a, b);
    SameOrNot(p, q, a, b, EndsInTables(x, l.tableEnd) || filler == 0);
  }

  /**
   * Stripping forgets a signature, whatever filler, signature and vmsize:
   * exactly when only zeros follow the file's last table, or no filler was
   * put in.
   */
  lemma StripForgetsSignature(loads: Reader, x: seq<byte>, y: seq<byte>, l: Layout, filler: nat, size: nat)
    requires LayoutOf(loads, x) == Ok(l) && l.signature.None? && SignedForm(x, y, l, filler, size)
    requires loads(y) == Some(l.commands + 1)
    ensures Stripped(loads, y) == Stripped(loads, x) <==> EndsInTables(x, l.tableEnd) || filler == 0
  {
    var u, a := SignedStrips(loads, x, y, l, filler, size);
    var b := PlainStrips(loads, x, l);
    ResultsCompared(x, u, l, filler, a, b, Stripped(loads, y), Stripped(loads, x));
  }

  lemma PlainStrips(loads: Reader, x: seq<byte>, l: Layout) returns (b: seq<byte>)
    requires LayoutOf(loads, x) == Ok(l) && l.signature.None?
    ensures l.linkedit + SEGMENT64 <= |x| && l.fileOff <= l.tableEnd <= |x|
    ensures Stripped(loads, x) == Ok(b) && b == StrippedTo(x, l.linkedit, l.fileOff, l.tableEnd, |x|)
  {
    StrippedFrom(loads, x, l);
    b := Stripped(loads, x).value;
  }

  lemma SameOrNot(p: Result<seq<byte>, Error>, q: Result<seq<byte>, Error>, a: seq<byte>, b: seq<byte>, same: bool)
    requires p == Ok(a) && q == Ok(b) && Alternative(a, b, same)
    ensures p == q <==> same
  {
  }

  // ---- stripping twice, and stripping nothing --------------------------------------------

  /** The layout of a stripped file. */
  function StrippedAs(l: Layout): Layout {
    if l.signature.None? || l.commands == 0 || l.commandBytes < SIGNATURE_COMMAND then l
    else l.(commands := l.commands - 1, commandBytes := l.commandBytes - SIGNATURE_COMMAND, signature := None)
  }

  /** The walk short of the signature command. */
  lemma WalkShort(d: seq<byte>, n: nat, w: Walked, at: nat)
    requires n > 0 && Walk(d, n, n) == Ok(w) && w.linkedit == Some(at) && w.signature.Some?
    ensures n > 1 && w.off >= SIGNATURE_COMMAND
    ensures Walk(d, n, n - 1) == Ok(Walked(w.off - SIGNATURE_COMMAND, w.linkedit, w.tableEnd, None))
  {
    WalkBounds(d, n, n);
    WalkBounds(d, n, n - 1);
    var v := Walk(d, n, n - 1).value;
    assert IsSignature(Command(d, v.off));
  }

  /** z is the front of d as Strip leaves it: the counts without the signature, the commands, the segment ending with the file. */
  predicate StrippedForm(d: seq<byte>, z: seq<byte>, l: Layout) {
    var t := StrippedAs(l);
    && HEADER_SIZE <= l.linkedit && l.linkedit + SEGMENT64 <= t.CommandsEnd() <= |z| <= |d| && l.fileOff <= l.tableEnd <= |z|
    && z[..4] == d[..4] && ReadLE(z, 16, 4) == t.commands && ReadLE(z, 20, 4) == t.commandBytes
    && Alike(d, z, l.linkedit, t.CommandsEnd())
    && LinkeditSize(z, l.linkedit) == |z| - l.fileOff && LinkeditOffset(z, l.linkedit) == l.fileOff
  }

  /** The walk without the signature command. */
  function Short(w: Walked): Walked
    requires w.signature.Some? ==> w.off >= SIGNATURE_COMMAND
  {
    if w.signature.None? then w else Walked(w.off - SIGNATURE_COMMAND, w.linkedit, w.tableEnd, None)
  }

  lemma StrippedAgrees(d: seq<byte>, z: seq<byte>, w: Walked, l: Layout)
    requires Agrees(d, w, l) && StrippedForm(d, z, l) && l.commands > 0 && (w.signature.Some? ==> w.off >= SIGNATURE_COMMAND)
    requires l.linkedit + SEGMENT64 <= Short(w).off
    ensures Agrees(z, Short(w), StrippedAs(l))
  {
  }

  /** Walking a stripped file finds what walking the file found, short of the signature. */
  lemma StrippedWalks(d: seq<byte>, z: seq<byte>, w: Walked, l: Layout) returns (v: Walked)
    requires Walk(d, l.commands, l.commands) == Ok(w) && l.commands > 0 && Agrees(d, w, l) && StrippedForm(d, z, l)
    ensures Walk(z, StrippedAs(l).commands, StrippedAs(l).commands) == Ok(v) && Agrees(z, v, StrippedAs(l))
    ensures StrippedAs(l).commands > 0
  {
    var n := l.commands;
    if l.signature.None? {
      v := w;
      WalkAlike(d, z, l.linkedit, w.off, n, n, n);
    } else {
      v := ShortWalks(d, z, w, l.linkedit, n);
    }
    StrippedAgrees(d, z, w, l);
  }

  lemma ShortWalks(d: seq<byte>, z: seq<byte>, w: Walked, at: nat, n: nat) returns (v: Walked)
    requires n > 0 && Walk(d, n, n) == Ok(w) && w.linkedit == Some(at) && w.signature.Some? && w.off >= SIGNATURE_COMMAND
    requires Alike(d, z, at, w.off - SIGNATURE_COMMAND)
    ensures n > 1 && Walk(z, n - 1, n - 1) == Ok(v) && v == Short(w) && at + SEGMENT64 <= v.off
  {
    v := Short(w);
    WalkShort(d, n, w, at);
    BeforeSignature(d, n, w, at);
    WalkAlike(d, z, at, v.off, n, n - 1, n - 1);
  }

  lemma StrippedLayout(loads: Reader, d: seq<byte>, z: seq<byte>, l: Layout)
    requires LayoutOf(loads, d) == Ok(l) && StrippedForm(d, z, l) && loads(z) == Some(StrippedAs(l).commands)
    ensures LayoutOf(loads, z) == Ok(StrippedAs(l))
  {
    var w := LayoutWalked(loads, d);
    var v := StrippedWalks(d, z, w, l);
    assert z[0..0 + 4] == z[..4] && d[0..0 + 4] == d[..4];
    LayoutFrom(loads, z, v, StrippedAs(l));
  }

  lemma ResizedReads(u: seq<byte>, at: nat, fileOff: nat, end: nat)
    requires at + SEGMENT64 <= end <= |u| && fileOff <= end && end - fileOff < 0x1_0000_0000_0000_0000
    ensures LinkeditSize(Resized(u, at, fileOff, end), at) == end - fileOff
    ensures ReadLE(Resized(u, at, fileOff, end), at + 32, 8) == end - fileOff
    ensures LinkeditOffset(Resized(u, at, fileOff, end), at) == LinkeditOffset(u, at)
    ensures forall i :: 0 <= i < end && !InSizes(at, i) ==> Resized(u, at, fileOff, end)[i] == u[i]
  {
    var z := Resized(u, at, fileOff, end);
    Pow256Values();
    LERoundTrip(end - fileOff, 8);
    assert z[at + 48..at + 48 + 8] == LE(end - fileOff, 8);
    assert z[at + 32..at + 32 + 8] == LE(end - fileOff, 8);
    assert z[at + 40..at + 40 + 8] == u[at + 40..at + 40 + 8];
  }

  lemma UnsignedReads(d: seq<byte>, l: Layout)
    requires |d| >= HEADER_SIZE && ReadLE(d, 16, 4) == l.commands && ReadLE(d, 20, 4) == l.commandBytes
    requires HEADER_SIZE <= l.linkedit && l.linkedit + SEGMENT64 <= StrippedAs(l).CommandsEnd() <= l.CommandsEnd() <= |d|
    requires l.signature.Some? ==> l.signature.value.commandAt + SIGNATURE_COMMAND == l.CommandsEnd() && l.commands > 0
                                   && l.commandBytes >= SIGNATURE_COMMAND && l.commands < 0x1_0000_0000
                                       && l.commandBytes < 0x1_0000_0000
    ensures var u := Unsigned(d, l); var t := StrippedAs(l);
            && ReadLE(u, 16, 4) == t.commands && ReadLE(u, 20, 4) == t.commandBytes && u[..4] == d[..4]
            && LinkeditOffset(u, l.linkedit) == LinkeditOffset(d, l.linkedit)
            && (forall i :: HEADER_SIZE <= i < t.CommandsEnd() ==> u[i] == d[i])
  {
    var u, t := Unsigned(d, l), StrippedAs(l);
    if l.signature.Some? {
      Pow256Values();
      LERoundTrip(t.commands, 4);
      LERoundTrip(t.commandBytes, 4);
      assert u[16..16 + 4] == LE(t.commands, 4) && u[20..20 + 4] == LE(t.commandBytes, 4);
      assert u[l.linkedit + 40..l.linkedit + 40 + 8] == d[l.linkedit + 40..l.linkedit + 40 + 8];
    }
  }

  /** What Strip makes of a file has the form it expects, and nothing more to cut. */
  lemma StrippedHasForm(d: seq<byte>, w: Walked, l: Layout) returns (z: seq<byte>)
    requires Agrees(d, w, l) && l.commands > 0 && |d| >= HEADER_SIZE && l.CommandsEnd() <= l.fileOff
    requires HEADER_SIZE + 8 * l.commands <= l.CommandsEnd() && |d| < 0x1_0000_0000_0000_0000
    requires l.signature.Some? ==> l.signature.value.commandAt + SIGNATURE_COMMAND == l.CommandsEnd()
                                   && l.linkedit + SEGMENT64 <= l.CommandsEnd() - SIGNATURE_COMMAND
                                   && l.commands < 0x1_0000_0000 && l.commandBytes < 0x1_0000_0000
    ensures z == StrippedTo(Unsigned(d, l), l.linkedit, l.fileOff, l.tableEnd, l.End(|d|))
    ensures StrippedForm(d, z, l) && Settled(z, l.linkedit, l.tableEnd)
  {
    var u := Unsigned(d, l);
    var end := CutAt(u, l.tableEnd, l.End(|d|));
    z := Resized(u, l.linkedit, l.fileOff, end);
    FormKept(d, u, z, w, l, end);
    assert AllZero(z[l.tableEnd..]) ==> |z| == l.tableEnd by {
      ResizedReads(u, l.linkedit, l.fileOff, end);
      TailKept(u, z, l.linkedit, l.tableEnd, end, l.End(|d|));
    }
  }

  lemma FormKept(d: seq<byte>, u: seq<byte>, z: seq<byte>, w: Walked, l: Layout, end: nat)
    requires Agrees(d, w, l) && |d| >= HEADER_SIZE && l.CommandsEnd() <= l.fileOff <= l.tableEnd <= end <= |d|
    requires |d| < 0x1_0000_0000_0000_0000
    requires l.signature.Some? ==> l.signature.value.commandAt + SIGNATURE_COMMAND == l.CommandsEnd() && l.commands > 0
                                   && l.linkedit + SEGMENT64 <= l.CommandsEnd() - SIGNATURE_COMMAND
                                   && l.commands < 0x1_0000_0000 && l.commandBytes < 0x1_0000_0000
    requires u == Unsigned(d, l) && z == Resized(u, l.linkedit, l.fileOff, end)
    ensures StrippedForm(d, z, l) && ReadLE(z, l.linkedit + 32, 8) == LinkeditSize(z, l.linkedit)
  {
    assert ReadLE(u, 16, 4) == StrippedAs(l).commands && ReadLE(u, 20, 4) == StrippedAs(l).commandBytes && u[..4] == d[..4]
        && LinkeditOffset(u, l.linkedit) == l.fileOff && (forall i :: HEADER_SIZE <= i < StrippedAs(l).CommandsEnd() ==> u[i] == d[i])
      by { UnsignedReads(d, l); }
    ResizedReads(u, l.linkedit, l.fileOff, end);
    FrontKept(u, z, l.linkedit, end);
  }

  lemma FrontKept(u: seq<byte>, z: seq<byte>, at: nat, end: nat)
    requires HEADER_SIZE <= at && at + SEGMENT64 <= end == |z| <= |u|
    requires forall i :: 0 <= i < end && !InSizes(at, i) ==> z[i] == u[i]
    ensures z[..4] == u[..4] && ReadLE(z, 16, 4) == ReadLE(u, 16, 4) && ReadLE(z, 20, 4) == ReadLE(u, 20, 4)
  {
    assert z[16..16 + 4] == u[16..16 + 4] && z[20..20 + 4] == u[20..20 + 4];
  }

  lemma TailKept(u: seq<byte>, z: seq<byte>, at: nat, tableEnd: nat, end: nat, whole: nat)
    requires at + 56 <= tableEnd <= whole <= |u| && end == CutAt(u, tableEnd, whole) == |z|
    requires forall i :: 0 <= i < end && !InSizes(at, i) ==> z[i] == u[i]
    ensures AllZero(z[tableEnd..]) ==> end == tableEnd
  {
  }

  lemma SameBytes(d: seq<byte>, at: nat, fileOff: nat, tableEnd: nat)
    requires at + SEGMENT64 <= fileOff <= tableEnd <= |d| && fileOff + LinkeditSize(d, at) == |d|
    ensures StrippedTo(d, at, fileOff, tableEnd, |d|) == d
            <==> (|d| == tableEnd || !AllZero(d[tableEnd..])) && ReadLE(d, at + 32, 8) == LinkeditSize(d, at)
  {
    assert d[tableEnd..|d|] == d[tableEnd..];
    var z := StrippedTo(d, at, fileOff, tableEnd, |d|);
    if |z| == |d| {
      Rewritten(d, at, |d| - fileOff);
    }
  }

  lemma Rewritten(d: seq<byte>, at: nat, size: nat)
    requires at + SEGMENT64 <= |d| && size == LinkeditSize(d, at)
    ensures Patch(Patch(d, at + 32, LE(size, 8)), at + 48, LE(size, 8))[..|d|] == d <==> ReadLE(d, at + 32, 8) == size
  {
    FromLERoundTrip(d[at + 32..at + 32 + 8]);
    FromLERoundTrip(d[at + 48..at + 48 + 8]);
    var z := Patch(Patch(d, at + 32, LE(size, 8)), at + 48, LE(size, 8));
    assert z[at + 32..at + 32 + 8] == LE(size, 8);
    assert z[..|d|] == z;
    if z == d {
      assert d[at + 32..at + 32 + 8] == LE(size, 8);
      Pow256Values();
      LERoundTrip(size, 8);
    }
  }

  /** A file in the form Strip leaves is left as it is. */
  lemma StripsNoFurther(loads: Reader, d: seq<byte>, z: seq<byte>, l: Layout)
    requires LayoutOf(loads, d) == Ok(l) && StrippedForm(d, z, l) && loads(z) == Some(StrippedAs(l).commands)
    requires l.CommandsEnd() <= l.fileOff && Settled(z, l.linkedit, l.tableEnd)
    ensures Stripped(loads, z) == Ok(z)
  {
    var w := LayoutWalked(loads, d);
    var t := StrippedAs(l);
    HeaderFits(d, w, l);
    assert LayoutOf(loads, z) == Ok(t) by { StrippedLayout(loads, d, z, l); }
    var r := PlainStrips(loads, z, t);
    Unchanged(z, l.linkedit, l.fileOff, l.tableEnd, r);
  }

  /**
   * Nothing to cut and nothing to resize: the file ends with its tables, or in something else than
   * zeros, and vmsize is filesize.
   */
  predicate Settled(d: seq<byte>, at: nat, tableEnd: nat)
    requires at + SEGMENT64 <= |d| && tableEnd <= |d|
  {
    (|d| == tableEnd || !AllZero(d[tableEnd..])) && ReadLE(d, at + 32, 8) == LinkeditSize(d, at)
  }

  lemma Unchanged(d: seq<byte>, at: nat, fileOff: nat, tableEnd: nat, r: seq<byte>)
    requires at + SEGMENT64 <= fileOff <= tableEnd <= |d| && fileOff + LinkeditSize(d, at) == |d|
    requires r == StrippedTo(d, at, fileOff, tableEnd, |d|)
    ensures r == d <==> Settled(d, at, tableEnd)
  {
    SameBytes(d, at, fileOff, tableEnd);
  }

  lemma FormAfterStrip(loads: Reader, d: seq<byte>, l: Layout) returns (z: seq<byte>)
    requires LayoutOf(loads, d) == Ok(l) && l.CommandsEnd() <= l.fileOff
    ensures Stripped(loads, d) == Ok(z) && StrippedForm(d, z, l) && Settled(z, l.linkedit, l.tableEnd)
  {
    var w := LayoutWalked(loads, d);
    HeaderFits(d, w, l);
    z := StrippedHasForm(d, w, l);
    StrippedFrom(loads, d, l);
  }

  /** Without its signature command the header still holds the segment's. */
  lemma BeforeSignature(d: seq<byte>, n: nat, w: Walked, at: nat)
    requires n > 0 && Walk(d, n, n) == Ok(w) && w.linkedit == Some(at) && w.signature.Some?
    ensures w.signature.value.commandAt + SIGNATURE_COMMAND == w.off && at + SEGMENT64 <= w.off - SIGNATURE_COMMAND
  {
    assert w.signature.value.commandAt + SIGNATURE_COMMAND == w.off by { WalkBounds(d, n, n); }
    WalkShort(d, n, w, at);
    WalkBounds(d, n, n - 1);
  }

  lemma CountsBounded(d: seq<byte>)
    requires |d| >= HEADER_SIZE
    ensures ReadLE(d, 16, 4) < 0x1_0000_0000 && ReadLE(d, 20, 4) < 0x1_0000_0000
  {
    Pow256Values();
  }

  lemma HeaderFits(d: seq<byte>, w: Walked, l: Layout)
    requires l.commands > 0 && Walk(d, l.commands, l.commands) == Ok(w) && Agrees(d, w, l)
    ensures |d| >= HEADER_SIZE && HEADER_SIZE + 8 * l.commands <= l.CommandsEnd() && |d| < 0x1_0000_0000_0000_0000
    ensures l.commands < 0x1_0000_0000 && l.commandBytes < 0x1_0000_0000
    ensures l.signature.Some? ==> l.signature.value.commandAt + SIGNATURE_COMMAND == l.CommandsEnd()
                                  && l.linkedit + SEGMENT64 <= l.CommandsEnd() - SIGNATURE_COMMAND
  {
    assert HEADER_SIZE + 8 * l.commands <= w.off by { WalkBounds(d, l.commands, l.commands); }
    CountsBounded(d);
    if l.signature.Some? {
      BeforeSignature(d, l.commands, w, l.linkedit);
    }
  }

  /** Strip is idempotent: what it gave, it gives back. */
  lemma StripIdempotent(loads: Reader, d: seq<byte>, l: Layout, z: seq<byte>)
    requires LayoutOf(loads, d) == Ok(l) && l.CommandsEnd() <= l.fileOff && Stripped(loads, d) == Ok(z)
    requires loads(z) == Some(StrippedAs(l).commands)
    ensures Stripped(loads, z) == Ok(z)
  {
    var y := FormAfterStrip(loads, d, l);
    assert y == z;
    StripsNoFurther(loads, d, z, l);
  }

  /**
   * Without a signature, Strip changes nothing exactly when the file ends
   * with its tables, or in something else than zeros, and vmsize is filesize.
   */
  lemma StripChangesNothing(loads: Reader, d: seq<byte>, l: Layout)
    requires LayoutOf(loads, d) == Ok(l) && l.signature.None? && l.CommandsEnd() <= l.fileOff
    ensures Stripped(loads, d) == Ok(d) <==> Settled(d, l.linkedit, l.tableEnd)
  {
    var w := LayoutWalked(loads, d);
    var r := PlainStrips(loads, d, l);
    Unchanged(d, l.linkedit, l.fileOff, l.tableEnd, r);
  }
}
