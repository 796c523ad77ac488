/**
 * Taking the code signature off a Mach-O executable: the walk over its load
 * commands, the edits to its header, and where the file is cut.
 */
module Machosig {
  import opened Wrappers
  import opened Bytes

  const MAGIC64 := 0xfeedfacf
  const FAT_MAGIC: seq<byte> := [0xca, 0xfe, 0xba, 0xbe]
  const HEADER_SIZE := 32
  const SIGNATURE_COMMAND := 16
  const SEGMENT64 := 72

  const LC_SYMTAB := 0x2
  const LC_DYSYMTAB := 0xb
  const LC_SEGMENT_64 := 0x19
  const LC_CODE_SIGNATURE := 0x1d
  const LC_DYLD_INFO := 0x22
  const LC_DYLD_INFO_ONLY := 0x8000_0022
  /** The commands whose payload is one offset and one size in __LINKEDIT. */
  const ONE_TABLE := {0x1e, 0x26, 0x29, 0x2b, 0x2e, 0x8000_0033, 0x8000_0034, 0x36}
  const LINKEDIT: seq<byte> := [95, 95, 76, 73, 78, 75, 69, 68, 73, 84]

  datatype Error =
    | Universal | NotMachO | Unreadable | NoCommands | CountMismatch | CommandsOverrun | MalformedCommand
    | SignatureNotLastCommand | SizeMismatch | NoLinkedit | LinkeditNotLast | SignatureNotLast | TableOverlaps

  /** What reading a whole file with the system's Mach-O reader says: how many load commands, if it reads at all. */
  type Reader = seq<byte> -> Option<nat>

  datatype Signature = Signature(commandAt: nat, offset: nat, size: nat)

  /** The walk so far: where it stands, the last __LINKEDIT segment, the end of the furthest table, the signature command. */
  datatype Walked = Walked(off: nat, linkedit: Option<nat>, tableEnd: nat, signature: Option<Signature>)

  function Max(a: nat, b: nat): nat { if a < b then b else a }

  /** Where a command of this kind and size gives a table: the place of its offset and count, and the bytes of an item. */
  function TableFields(cmd: nat, size: nat): (f: seq<(nat, nat)>)
    ensures forall k :: 0 <= k < |f| ==> f[k].0 + 8 <= size
  {
    if cmd == LC_SYMTAB && size >= 24 then [(8, 16), (16, 1)]
    else if cmd == LC_DYSYMTAB && size >= 80 then [(32, 8), (40, 56), (48, 4), (56, 4), (64, 8), (72, 8)]
    else if (cmd == LC_DYLD_INFO || cmd == LC_DYLD_INFO_ONLY) && size >= 48 then [(8, 1), (16, 1), (24, 1), (32, 1), (40, 1)]
    else if cmd in ONE_TABLE && size >= 16 then [(8, 1)]
    else []
  }

  /** The end of the table a command gives at at as an offset and a count of items of this size. */
  function TableEnd(c: seq<byte>, at: nat, item: nat): nat
    requires at + 8 <= |c|
  {
    ReadLE(c, at, 4) + ReadLE(c, at + 4, 4) * item
  }

  /** The end of the furthest of these tables; 0 without any. */
  function Furthest(c: seq<byte>, f: seq<(nat, nat)>): nat
    requires forall k :: 0 <= k < |f| ==> f[k].0 + 8 <= |c|
  {
    if f == [] then 0
    else Max(TableEnd(c, f[0].0, f[0].1), Furthest(c, f[1..]))
  }

  function TablesEnd(c: seq<byte>): nat
    requires |c| >= 8
  {
    Furthest(c, TableFields(ReadLE(c, 0, 4), |c|))
  }

  predicate IsLinkedit(c: seq<byte>)
    requires |c| >= 8
  {
    ReadLE(c, 0, 4) == LC_SEGMENT_64 && |c| >= SEGMENT64 && c[8..18] == LINKEDIT && AllZero(c[18..24])
  }

  predicate IsSignature(c: seq<byte>)
    requires |c| >= 8
  {
    ReadLE(c, 0, 4) == LC_CODE_SIGNATURE
  }

  /** A load command is at off, whole. */
  predicate CommandAt(d: seq<byte>, off: nat) {
    off + 8 <= |d| && ReadLE(d, off + 4, 4) >= 8 && off + ReadLE(d, off + 4, 4) <= |d|
  }

  function Command(d: seq<byte>, off: nat): (c: seq<byte>)
    requires CommandAt(d, off)
    ensures |c| >= 8
  {
    d[off..off + ReadLE(d, off + 4, 4)]
  }

  /** One command taken in; last says whether it is the last. */
  function Take(w: Walked, c: seq<byte>, last: bool): (r: Result<Walked, Error>)
    requires |c| >= 8
    ensures r.Ok? ==> r.value.off == w.off + |c|
  {
    if IsSignature(c) && (|c| != SIGNATURE_COMMAND || !last) then Err(SignatureNotLastCommand)
    else Ok(Walked(w.off + |c|, if IsLinkedit(c) then Some(w.off) else w.linkedit, Max(w.tableEnd, TablesEnd(c)),
                   if IsSignature(c) then Some(Signature(w.off, ReadLE(c, 8, 4), ReadLE(c, 12, 4))) else w.signature))
  }

  function StepCommand(d: seq<byte>, n: nat, i: nat, w: Walked): (r: Result<Walked, Error>)
    ensures r.Ok? ==> w.off + 8 <= r.value.off <= |d|
  {
    if w.off + 8 > |d| then Err(CommandsOverrun)
    else if !CommandAt(d, w.off) then Err(MalformedCommand)
    else Take(w, Command(d, w.off), i + 1 == n)
  }

  /** The first k of n load commands, walked. */
  function Walk(d: seq<byte>, n: nat, k: nat): Result<Walked, Error> {
    if k == 0 then Ok(Walked(HEADER_SIZE, None, 0, None))
    else match Walk(d, n, k - 1)
      case Err(e) => Err(e)
      case Ok(w) => StepCommand(d, n, k - 1, w)
  }

  lemma {:induction false} WalkBounds(d: seq<byte>, n: nat, k: nat)
    requires k <= n && Walk(d, n, k).Ok?
    ensures var w := Walk(d, n, k).value;
            && HEADER_SIZE + 8 * k <= w.off && (k > 0 ==> w.off <= |d|)
            && (w.linkedit.Some? ==> HEADER_SIZE <= w.linkedit.value && w.linkedit.value + SEGMENT64 <= w.off)
            && (w.signature.Some? ==> && HEADER_SIZE <= w.signature.value.commandAt
                                      && w.signature.value.commandAt + SIGNATURE_COMMAND == w.off && k == n > 0)
  {
    if k > 0 {
      WalkBounds(d, n, k - 1);
    }
  }

  /** Where __LINKEDIT is in the file, from its command. */
  function LinkeditOffset(d: seq<byte>, at: nat): nat
    requires at + SEGMENT64 <= |d|
  {
    ReadLE(d, at + 40, 8)
  }

  function LinkeditSize(d: seq<byte>, at: nat): nat
    requires at + SEGMENT64 <= |d|
  {
    ReadLE(d, at + 48, 8)
  }

  /** What the header says and the walk found, once every check on it has passed. */
  datatype Layout = Layout(commands: nat, commandBytes: nat, linkedit: nat, fileOff: nat, tableEnd: nat,
      signature: Option<Signature>) {
    /** Where the load commands end. */
    function CommandsEnd(): nat { HEADER_SIZE + commandBytes }

    /** Where the file ends without the signature. */
    function End(size: nat): nat { if signature.Some? then signature.value.offset else size }
  }

  function Found(d: seq<byte>, n: nat, w: Walked): (r: Result<Layout, Error>)
    requires |d| >= HEADER_SIZE
    requires w.linkedit.Some? ==> w.linkedit.value + SEGMENT64 <= |d|
    ensures r.Ok? ==> r.value.fileOff <= r.value.tableEnd <= r.value.End(|d|) <= |d| && r.value.linkedit + SEGMENT64 <= |d|
  {
    if w.off != HEADER_SIZE + ReadLE(d, 20, 4) then Err(SizeMismatch)
    else if w.linkedit.None? then Err(NoLinkedit)
    else
      var at := w.linkedit.value;
      var off := LinkeditOffset(d, at);
      if off >= 0x8000_0000_0000_0000 || LinkeditSize(d, at) >= 0x8000_0000_0000_0000 || off + LinkeditSize(d, at) != |d| then
        Err(LinkeditNotLast)
      else if w.signature.Some? && (w.signature.value.offset < off
          || w.signature.value.offset + w.signature.value.size != |d|) then
        Err(SignatureNotLast)
      else
        var l := Layout(n, ReadLE(d, 20, 4), at, off, Max(w.tableEnd, off), w.signature);
        if l.tableEnd > l.End(|d|) then Err(TableOverlaps) else Ok(l)
  }

  function LayoutOf(loads: Reader, d: seq<byte>): (r: Result<Layout, Error>)
    ensures r.Ok? ==> r.value.fileOff <= r.value.tableEnd <= r.value.End(|d|) <= |d| && r.value.linkedit + SEGMENT64 <= |d|
  {
    if |d| >= 8 && d[..4] == FAT_MAGIC then Err(Universal)
    else if |d| < HEADER_SIZE || ReadLE(d, 0, 4) != MAGIC64 then Err(NotMachO)
    else match loads(d)
      case None => Err(Unreadable)
      case Some(count) =>
        var n := ReadLE(d, 16, 4);
        if count == 0 then Err(NoCommands)
        else if n != count then Err(CountMismatch)
        else match Walk(d, n, n)
          case Err(e) => Err(e)
          case Ok(w) =>
            WalkBounds(d, n, n);
            Found(d, n, w)
  }

  /** The count and the size of the load commands, as the header has them. */
  function Counts(n: nat, size: nat): (b: seq<byte>)
    ensures |b| == 8
  {
    LE(n, 4) + LE(size, 4)
  }

  /** The signature command taken out of the header. */
  function Unsigned(d: seq<byte>, l: Layout): (r: seq<byte>)
    requires |d| >= HEADER_SIZE
    requires l.signature.Some? ==> l.signature.value.commandAt + SIGNATURE_COMMAND <= |d| && l.commands > 0 && l.commandBytes >= SIGNATURE_COMMAND
    ensures |r| == |d|
  {
    if l.signature.None? then d
    else Patch(Patch(d, 16, Counts(l.commands - 1, l.commandBytes - SIGNATURE_COMMAND)), l.signature.value.commandAt,
        Zeros(SIGNATURE_COMMAND))
  }

  /** Where the file is cut: at its last table when only zeros follow. */
  function CutAt(u: seq<byte>, tableEnd: nat, end: nat): (e: nat)
    requires tableEnd <= end <= |u|
    ensures tableEnd <= e <= end
  {
    if AllZero(u[tableEnd..end]) then tableEnd else end
  }

  /** The segment resized to end with the file, which is cut. */
  function Resized(u: seq<byte>, linkedit: nat, fileOff: nat, end: nat): (r: seq<byte>)
    requires linkedit + SEGMENT64 <= |u| && fileOff <= end <= |u|
    ensures |r| == end
  {
    Patch(Patch(u, linkedit + 32, LE(end - fileOff, 8)), linkedit + 48, LE(end - fileOff, 8))[..end]
  }

  lemma LayoutBounds(loads: Reader, d: seq<byte>)
    requires LayoutOf(loads, d).Ok?
    ensures var l := LayoutOf(loads, d).value;
            && |d| >= HEADER_SIZE && l.linkedit + SEGMENT64 <= HEADER_SIZE + l.commandBytes <= |d| && HEADER_SIZE <= l.linkedit
            && l.fileOff <= l.tableEnd <= l.End(|d|) <= |d|
            && (l.signature.Some? ==> && l.signature.value.commandAt + SIGNATURE_COMMAND == HEADER_SIZE + l.commandBytes
                                      && l.commands > 0 && l.signature.value.commandAt >= HEADER_SIZE)
  {
    var n := ReadLE(d, 16, 4);
    WalkBounds(d, n, n);
  }

  function Stripped(loads: Reader, d: seq<byte>): Result<seq<byte>, Error> {
    match LayoutOf(loads, d)
    case Err(e) => Err(e)
    case Ok(l) =>
      LayoutBounds(loads, d);
      var u := Unsigned(d, l);
      Ok(Resized(u, l.linkedit, l.fileOff, CutAt(u, l.tableEnd, l.End(|d|))))
  }

  // ---- the loops ----------------------------------------------------------------------

  method Overwrite(out: array<byte>, at: nat, v: seq<byte>)
    requires at + |v| <= out.Length
    modifies out
    ensures out[..] == Patch(old(out[..]), at, v)
  {
    for i := 0 to |v|
      invariant forall k :: 0 <= k < out.Length ==> out[k] == if at <= k < at + i then v[k - at] else old(out[k])
    {
      out[at + i] := v[i];
    }
  }

  /** One load command read off the file. */
  method ReadCommand(d: seq<byte>, off: nat) returns (r: Result<seq<byte>, Error>)
    ensures r.Ok? ==> CommandAt(d, off) && r.value == Command(d, off)
    ensures r.Err? ==> r.error == if off + 8 > |d| then CommandsOverrun else MalformedCommand
    ensures r.Err? <==> !CommandAt(d, off)
  {
    if off + 8 > |d| {
      return Err(CommandsOverrun);
    }
    var size := ReadLE(d, off + 4, 4);
    if size < 8 || off + size > |d| {
      return Err(MalformedCommand);
    }
    return Ok(d[off..off + size]);
  }

  method FurthestTable(c: seq<byte>, fields: seq<(nat, nat)>) returns (end: nat)
    requires forall k :: 0 <= k < |fields| ==> fields[k].0 + 8 <= |c|
    ensures end == Furthest(c, fields)
  {
    end := 0;
    for k := 0 to |fields|
      invariant Furthest(c, fields) == Max(end, Furthest(c, fields[k..]))
    {
      assert fields[k..][1..] == fields[k + 1..];
      end := Max(end, TableEnd(c, fields[k].0, fields[k].1));
    }
  }

  /** What one command adds to the walk. */
  method TakeCommand(w: Walked, c: seq<byte>, last: bool) returns (r: Result<Walked, Error>)
    requires |c| >= 8
    ensures r == Take(w, c, last)
  {
    var linkedit, signature := w.linkedit, w.signature;
    if IsSignature(c) {
      if |c| != SIGNATURE_COMMAND || !last {
        return Err(SignatureNotLastCommand);
      }
      signature := Some(Signature(w.off, ReadLE(c, 8, 4), ReadLE(c, 12, 4)));
    }
    if IsLinkedit(c) {
      linkedit := Some(w.off);
    }
    var end := FurthestTable(c, TableFields(ReadLE(c, 0, 4), |c|));
    return Ok(Walked(w.off + |c|, linkedit, Max(w.tableEnd, end), signature));
  }

  /** The walk, command by command. */
  method WalkCommands(d: seq<byte>, n: nat) returns (r: Result<Walked, Error>)
    ensures r == Walk(d, n, n)
  {
    var w := Walked(HEADER_SIZE, None, 0, None);
    for i := 0 to n
      invariant Walk(d, n, i) == Ok(w)
    {
      assert Walk(d, n, i + 1) == StepCommand(d, n, i, w);
      var read := ReadCommand(d, w.off);
      if read.Err? {
        WalkStops(d, n, i + 1, n);
        return Err(read.error);
      }
      var taken := TakeCommand(w, read.value, i == n - 1);
      if taken.Err? {
        WalkStops(d, n, i + 1, n);
        return taken;
      }
      w := taken.value;
    }
    return Ok(w);
  }

  lemma {:induction false} WalkStops(d: seq<byte>, n: nat, k: nat, m: nat)
    requires k <= m && Walk(d, n, k).Err?
    ensures Walk(d, n, m) == Walk(d, n, k)
  {
    if k < m {
      WalkStops(d, n, k, m - 1);
    }
  }

  method ReadLayout(loads: Reader, d: seq<byte>) returns (r: Result<Layout, Error>)
    ensures r == LayoutOf(loads, d)
  {
    if |d| >= 8 && d[..4] == FAT_MAGIC {
      return Err(Universal);
    }
    if |d| < HEADER_SIZE || ReadLE(d, 0, 4) != MAGIC64 {
      return Err(NotMachO);
    }
    var count := loads(d);
    if count.None? {
      return Err(Unreadable);
    }
    if count.value == 0 {
      return Err(NoCommands);
    }
    var n := ReadLE(d, 16, 4);
    if n != count.value {
      return Err(CountMismatch);
    }
    var walked := WalkCommands(d, n);
    if walked.Err? {
      return Err(walked.error);
    }
    WalkBounds(d, n, n);
    r := Found(d, n, walked.value);
  }

  method Strip(loads: Reader, d: seq<byte>) returns (r: Result<seq<byte>, Error>)
    ensures r == Stripped(loads, d)
  {
    var layout := ReadLayout(loads, d);
    if layout.Err? {
      return Err(layout.error);
    }
    LayoutBounds(loads, d);
    var out := Edit(d, layout.value);
    return Ok(out);
  }

  /** The signature command, taken out in place. */
  method TakeOut(out: array<byte>, l: Layout)
    requires out.Length >= HEADER_SIZE
    requires l.signature.Some? ==> l.signature.value.commandAt + SIGNATURE_COMMAND <= out.Length && l.commands > 0 && l.commandBytes >= SIGNATURE_COMMAND
    modifies out
    ensures out[..] == Unsigned(old(out[..]), l)
  {
    if l.signature.Some? {
      Overwrite(out, 16, Counts(l.commands - 1, l.commandBytes - SIGNATURE_COMMAND));
      Overwrite(out, l.signature.value.commandAt, Zeros(SIGNATURE_COMMAND));
    }
  }

  method Resize(out: array<byte>, linkedit: nat, fileOff: nat, end: nat) returns (r: seq<byte>)
    requires linkedit + SEGMENT64 <= out.Length && fileOff <= end <= out.Length
    modifies out
    ensures r == Resized(old(out[..]), linkedit, fileOff, end)
  {
    Overwrite(out, linkedit + 32, LE(end - fileOff, 8));
    Overwrite(out, linkedit + 48, LE(end - fileOff, 8));
    r := out[..][..end];
  }

  /** The edits, made in a copy of the file. */
  method Edit(d: seq<byte>, l: Layout) returns (r: seq<byte>)
    requires |d| >= HEADER_SIZE && l.linkedit + SEGMENT64 <= |d| && l.fileOff <= l.tableEnd <= l.End(|d|) <= |d|
    requires l.signature.Some? ==> l.signature.value.commandAt + SIGNATURE_COMMAND <= |d| && l.commands > 0 && l.commandBytes >= SIGNATURE_COMMAND
    ensures var u := Unsigned(d, l); r == Resized(u, l.linkedit, l.fileOff, CutAt(u, l.tableEnd, l.End(|d|)))
  {
    var out := new byte[|d|](i requires 0 <= i < |d| => d[i]);
    assert out[..] == d;
    TakeOut(out, l);
    var end := l.End(|d|);
    var zero := ScanZeros(out[..][l.tableEnd..end]);
    if zero {
      end := l.tableEnd;
    }
    r := Resize(out, l.linkedit, l.fileOff, end);
  }
}
