/**
 * The load commands that name tables in __LINKEDIT, as loader.h declares
 * them: records with their own fields, their bytes, and what the walk over
 * those bytes comes to.
 */
module MachosigTables {
  import opened Wrappers
  import opened Bytes
  import opened Machosig
  import Signing = MachosigSigning

  /** Where a table starts and how many items it has. */
  datatype Table = Table(offset: uint32, count: uint32)

  datatype Load =
    | Segment64(name: seq<byte>, fields: seq<byte>)
    | Symtab(symbols: Table, strings: Table, more: seq<byte>)
    | Dysymtab(groups: seq<uint32>, toc: Table, modules: Table, references: Table, indirect: Table,
               external: Table, local: Table, more: seq<byte>)
    | DyldInfo(only: bool, rebase: Table, bind: Table, weak: Table, lazy: Table, exports: Table, more: seq<byte>)
    | LinkeditData(kind: Kind, data: Table, more: seq<byte>)
    | CodeSignature(data: Table)
    | Other(cmd: uint32, body: seq<byte>)

  datatype Kind =
    | SegmentSplitInfo | FunctionStarts | DataInCode | DylibCodeSignDRs
    | LinkerOptimization | DyldExportsTrie | DyldChainedFixups | AtomInfo

  function KindCommand(k: Kind): uint32 {
    match k
    case SegmentSplitInfo => 0x1e case FunctionStarts => 0x26 case DataInCode => 0x29 case DylibCodeSignDRs => 0x2b
    case LinkerOptimization => 0x2e case DyldExportsTrie => 0x8000_0033 case DyldChainedFixups =>
        0x8000_0034 case AtomInfo => 0x36
  }

  /** The number a command goes by. */
  function Number(l: Load): uint32 {
    match l
    case Segment64(_, _) => 0x19 case Symtab(_, _, _) => 0x2 case Dysymtab(_, _, _, _, _, _, _, _) => 0xb
    case DyldInfo(only, _, _, _, _, _, _) => if only then 0x8000_0022 else 0x22
    case LinkeditData(k, _, _) => KindCommand(k) case CodeSignature(_) => 0x1d case Other(cmd, _) => cmd
  }

  /** The least size at which a command of this number is more than a number and a size to the walk. */
  function Least(cmd: uint32): Option<nat> {
    if cmd == 0x19 then Some(72) else if cmd == 0x2 then Some(24) else if cmd == 0xb then Some(80)
    else if cmd == 0x22 || cmd == 0x8000_0022 then Some(48) else if cmd == 0x1d then Some(0)
    else if cmd in {0x1e, 0x26, 0x29, 0x2b, 0x2e, 0x8000_0033, 0x8000_0034, 0x36} then Some(16)
    else None
  }

  /** 32-bit words, least significant byte first. */
  function Words(ws: seq<uint32>): (b: seq<byte>)
    ensures |b| == 4 * |ws|
  {
    if ws == [] then [] else LE(ws[0], 4) + Words(ws[1..])
  }

  function Pair(t: Table): seq<uint32> { [t.offset, t.count] }

  /** The words behind a command's number and size. */
  function Fields(l: Load): seq<uint32> {
    match l
    case Segment64(_, _) => []
    case Symtab(symbols, strings, _) => Pair(symbols) + Pair(strings)
    case Dysymtab(groups, toc, modules, references, indirect, external, local, _) =>
      groups + Pair(toc) + Pair(modules) + Pair(references) + Pair(indirect) + Pair(external) + Pair(local)
    case DyldInfo(_, rebase, bind, weak, lazy, exports, _) => Pair(rebase) + Pair(bind) + Pair(weak) + Pair(lazy) + Pair(exports)
    case LinkeditData(_, data, _) => Pair(data)
    case CodeSignature(data) => Pair(data)
    case Other(_, _) => []
  }

  function Rest(l: Load): seq<byte> {
    match l
    case Segment64(name, fields) => name + fields
    case CodeSignature(_) => []
    case Other(_, body) => body
    case _ => l.more
  }

  function Size(l: Load): nat {
    match l
    case Segment64(name, fields) => 8 + |name| + |fields|
    case Symtab(_, _, more) => 24 + |more|
    case Dysymtab(groups, _, _, _, _, _, _, more) => 56 + 4 * |groups| + |more|
    case DyldInfo(_, _, _, _, _, _, more) => 48 + |more|
    case LinkeditData(_, _, more) => 16 + |more|
    case CodeSignature(_) => 16
    case Other(_, body) => 8 + |body|
  }

  predicate Proper(l: Load) {
    && Size(l) < 0x1_0000_0000
    && (l.Segment64? ==> |l.name| == 16 && |l.fields| >= 48)
    && (l.Dysymtab? ==> |l.groups| == 6)
    && (l.Other? ==> match Least(l.cmd) case None => true case Some(least) => Size(l) < least)
  }

  function Encoded(l: Load): (b: seq<byte>)
    requires Proper(l)
    ensures |b| == Size(l)
  {
    Words([Number(l), Size(l)] + Fields(l)) + Rest(l)
  }

  /** Where the tables a command names end: an offset and as many items of the table's kind, of the size each has. */
  function Ends(l: Load): seq<nat> {
    match l
    case Symtab(symbols, strings, _) => [symbols.offset + symbols.count * 16, strings.offset + strings.count]
    case Dysymtab(_, toc, modules, references, indirect, external, local, _) =>
      [toc.offset + toc.count * 8, modules.offset + modules.count * 56, references.offset + references.count * 4,
       indirect.offset + indirect.count * 4, external.offset + external.count * 8, local.offset + local.count * 8]
    case DyldInfo(_, rebase, bind, weak, lazy, exports, _) =>
      [rebase.offset + rebase.count, bind.offset + bind.count, weak.offset + weak.count, lazy.offset + lazy.count,
          exports.offset + exports.count]
    case LinkeditData(_, data, _) => [data.offset + data.count]
    case _ => []
  }

  // ---- reading a command back ----------------------------------------------------------------

  lemma {:induction false} WordAt(ws: seq<uint32>, rest: seq<byte>, i: nat)
    requires i < |ws|
    ensures ReadLE(Words(ws) + rest, 4 * i, 4) == ws[i]
  {
    var b := Words(ws) + rest;
    if i == 0 {
      Pow256Values();
      LERoundTrip(ws[0], 4);
      assert b[0..4] == LE(ws[0], 4);
    } else {
      WordAt(ws[1..], rest, i - 1);
      var tail := Words(ws[1..]) + rest;
      assert b == LE(ws[0], 4) + tail;
      assert b[4 * i..4 * i + 4] == tail[4 * (i - 1)..4 * (i - 1) + 4];
    }
  }

  lemma WordBehind(ws: seq<uint32>, rest: seq<byte>, i: nat)
    requires i + 2 < |ws|
    ensures ReadLE(Words(ws) + rest, 8 + 4 * i, 4) == ws[i + 2]
  {
    WordAt(ws, rest, i + 2);
  }

  lemma WordsAhead(a: uint32, b: uint32, fields: seq<uint32>, rest: seq<byte>)
    ensures ReadLE(Words([a, b] + fields) + rest, 0, 4) == a && ReadLE(Words([a, b] + fields) + rest, 4, 4) == b
  {
    WordAt([a, b] + fields, rest, 0);
    WordAt([a, b] + fields, rest, 1);
  }

  /** Word i of a command, counted behind its number and size. */
  lemma FieldRead(l: Load, i: nat)
    requires Proper(l) && i < |Fields(l)|
    ensures ReadLE(Encoded(l), 8 + 4 * i, 4) == Fields(l)[i]
  {
    var ws := [Number(l), Size(l)] + Fields(l);
    WordBehind(ws, Rest(l), i);
    assert ws[i + 2] == Fields(l)[i];
  }

  lemma HeadRead(l: Load)
    requires Proper(l)
    ensures ReadLE(Encoded(l), 0, 4) == Number(l) && ReadLE(Encoded(l), 4, 4) == Size(l)
  {
    WordsAhead(Number(l), Size(l), Fields(l), Rest(l));
  }

  predicate Tops(m: nat, ends: seq<nat>) { (forall e :: e in ends ==> e <= m) && (m == 0 || m in ends) }

  lemma TopOfOneMore(a: nat, rest: nat, ends: seq<nat>)
    requires Tops(rest, ends)
    ensures Tops(Max(a, rest), [a] + ends)
  {
    assert forall e :: e in [a] + ends <==> e == a || e in ends;
  }

  lemma {:induction false} FurthestTop(c: seq<byte>, f: seq<(nat, nat)>, ends: seq<nat>)
    requires |f| == |ends| && forall k :: 0 <= k < |f| ==> f[k].0 + 8 <= |c| && TableEnd(c, f[k].0, f[k].1) == ends[k]
    ensures Tops(Furthest(c, f), ends)
  {
    if f != [] {
      FurthestTop(c, f[1..], ends[1..]);
      TopOfOneMore(ends[0], Furthest(c, f[1..]), ends[1..]);
      assert [ends[0]] + ends[1..] == ends;
    }
  }

  /** The command's words are ws. */
  predicate Holds(c: seq<byte>, ws: seq<uint32>) {
    8 + 4 * |ws| <= |c| && forall i :: 0 <= i < |ws| ==> ReadLE(c, 8 + 4 * i, 4) == ws[i]
  }

  lemma FieldsHeld(l: Load)
    requires Proper(l)
    ensures Holds(Encoded(l), Fields(l))
  {
    forall i | 0 <= i < |Fields(l)| ensures ReadLE(Encoded(l), 8 + 4 * i, 4) == Fields(l)[i] {
      FieldRead(l, i);
    }
  }

  /** A table read off words i and i + 1 of a command. */
  lemma OneEnd(c: seq<byte>, ws: seq<uint32>, i: nat, t: Table, item: nat)
    requires Holds(c, ws) && i + 2 <= |ws| && ws[i] == t.offset && ws[i + 1] == t.count
    ensures TableEnd(c, 8 + 4 * i, item) == t.offset + t.count * item
  {
    assert ReadLE(c, 8 + 4 * i, 4) == ws[i] && ReadLE(c, 8 + 4 * (i + 1), 4) == ws[i + 1];
  }

  /** Words are pairs for these tables from word first on. */
  predicate PairsFrom(ws: seq<uint32>, first: nat, ts: seq<Table>) {
    first + 2 * |ts| <= |ws| && forall k :: 0 <= k < |ts| ==> ws[first + 2 * k] == ts[k].offset && ws[first + 2 * k + 1] == ts[k].count
  }

  lemma {:induction false} PairsTop(c: seq<byte>, ws: seq<uint32>, first: nat, ts: seq<Table>, f: seq<(nat, nat)>, ends: seq<nat>)
    requires Holds(c, ws) && PairsFrom(ws, first, ts) && |f| == |ts| == |ends|
    requires forall k :: 0 <= k < |ts| ==> f[k].0 == 8 + 4 * (first + 2 * k) && ends[k] == ts[k].offset + ts[k].count * f[k].1
    ensures (forall k :: 0 <= k < |f| ==> f[k].0 + 8 <= |c|) && Tops(Furthest(c, f), ends)
  {
    forall k | 0 <= k < |ts| ensures f[k].0 + 8 <= |c| && TableEnd(c, f[k].0, f[k].1) == ends[k] {
      OneEnd(c, ws, first + 2 * k, ts[k], f[k].1);
    }
    FurthestTop(c, f, ends);
  }

  /** The tables a command names, the word its first one is at, and the bytes of an item of each. */
  function Tables(l: Load): (seq<Table>, nat, seq<nat>) {
    match l
    case Symtab(symbols, strings, _) => ([symbols, strings], 0, [16, 1])
    case Dysymtab(_, toc, modules, references, indirect, external, local, _) =>
      ([toc, modules, references, indirect, external, local], 6, [8, 56, 4, 4, 8, 8])
    case DyldInfo(_, rebase, bind, weak, lazy, exports, _) => ([rebase, bind, weak, lazy, exports], 0, [1, 1, 1, 1, 1])
    case LinkeditData(_, data, _) => ([data], 0, [1])
    case _ => ([], 0, [])
  }

  lemma EndsOfTables(l: Load)
    ensures var (ts, first, items) := Tables(l);
            |ts| == |items| == |Ends(l)| && forall k :: 0 <= k < |ts| ==> Ends(l)[k] == ts[k].offset + ts[k].count * items[k]
  {
  }

  lemma PlacesOfTables(l: Load)
    requires Proper(l)
    ensures var (ts, first, items) := Tables(l); var f := TableFields(Number(l), Size(l));
            |f| == |items| && forall k :: 0 <= k < |f| ==> f[k] == (8 + 4 * (first + 2 * k), items[k])
  {
  }

  lemma FieldsOfTables(l: Load)
    requires Proper(l)
    ensures var (ts, first, _) := Tables(l); PairsFrom(Fields(l), first, ts)
  {
    if l.Dysymtab? {
      DysymtabPairs(l);
    }
  }

  lemma DysymtabPairs(l: Load)
    requires Proper(l) && l.Dysymtab?
    ensures PairsFrom(Fields(l), 6, [l.toc, l.modules, l.references, l.indirect, l.external, l.local])
  {
    var ws := Pair(l.toc) + Pair(l.modules) + Pair(l.references) + Pair(l.indirect) + Pair(l.external) + Pair(l.local);
    assert Fields(l) == l.groups + ws;
    assert forall k :: 6 <= k < 18 ==> (l.groups + ws)[k] == ws[k - 6];
  }

  /** What the walk takes a command's tables to end at is the furthest end its record names. */
  lemma CommandTop(l: Load)
    requires Proper(l)
    ensures Tops(TablesEnd(Encoded(l)), Ends(l))
  {
    HeadRead(l);
    FieldsHeld(l);
    FieldsOfTables(l);
    EndsOfTables(l);
    PlacesOfTables(l);
    var (ts, first, items) := Tables(l);
    PairsTop(Encoded(l), Fields(l), first, ts, TableFields(Number(l), Size(l)), Ends(l));
  }

  // ---- all the commands --------------------------------------------------------------------

  predicate AllProper(ls: seq<Load>) { forall i :: 0 <= i < |ls| ==> Proper(ls[i]) }

  /** The bytes of the first k commands, one behind the other. */
  function Joined(cs: seq<seq<byte>>, k: nat): seq<byte>
    requires k <= |cs|
  {
    if k == 0 then [] else Joined(cs, k - 1) + cs[k - 1]
  }

  /** The bytes of each command. */
  function Commands(ls: seq<Load>): (cs: seq<seq<byte>>)
    requires AllProper(ls)
    ensures |cs| == |ls|
  {
    seq(|ls|, i requires 0 <= i < |ls| => Encoded(ls[i]))
  }

  /** The bytes the first k commands take. */
  function Length(ls: seq<Load>, k: nat): nat
    requires k <= |ls|
  {
    if k == 0 then 0 else Length(ls, k - 1) + Size(ls[k - 1])
  }

  /** A table the command names ends at e. */
  predicate EndsAt(l: Load, e: nat) { e in Ends(l) }

  /** One of the first k commands names a table that ends at e. */
  predicate SomeEndsAt(ls: seq<Load>, k: nat, e: nat)
    requires k <= |ls|
  {
    exists i :: 0 <= i < k && EndsAt(ls[i], e)
  }

  /** top is the end of the furthest table the first k commands name, 0 without any. */
  ghost predicate Top(top: nat, ls: seq<Load>, k: nat)
    requires k <= |ls|
  {
    (forall e: nat :: SomeEndsAt(ls, k, e) ==> e <= top) && (top == 0 || SomeEndsAt(ls, k, top))
  }

  /** "__LINKEDIT", filled up with zeros. */
  predicate NamesLinkedit(l: Load) {
    l.Segment64? && l.name == [95, 95, 76, 73, 78, 75, 69, 68, 73, 84, 0, 0, 0, 0, 0, 0]
  }

  /** Where the last __LINKEDIT segment's command is, of the first k. */
  function LinkeditAt(ls: seq<Load>, k: nat): Option<nat>
    requires k <= |ls|
  {
    if k == 0 then None
    else if NamesLinkedit(ls[k - 1]) then Some(32 + Length(ls, k - 1))
    else LinkeditAt(ls, k - 1)
  }

  /** The signature that command k - 1 names, and where that command is. */
  function SignatureOf(ls: seq<Load>, k: nat): Option<Signature>
    requires k <= |ls|
  {
    if k > 0 && ls[k - 1].CodeSignature?
    then Some(Signature(32 + Length(ls, k - 1), ls[k - 1].data.offset, ls[k - 1].data.count))
    else None
  }

  /** Only the last command may be the signature's. */
  predicate SignedLast(ls: seq<Load>) { SignedUpTo(ls, |ls|) }

  /** Of the first k commands only the last of all may be the signature's. */
  predicate SignedUpTo(ls: seq<Load>, k: nat)
    requires k <= |ls|
  {
    forall i :: 0 <= i < k && i + 1 < |ls| ==> !ls[i].CodeSignature?
  }

  lemma {:induction false} JoinedPart(cs: seq<seq<byte>>, k: nat, n: nat)
    requires k < n <= |cs|
    ensures var off := |Joined(cs, k)|; off + |cs[k]| <= |Joined(cs, n)| && Joined(cs, n)[off..off + |cs[k]|] == cs[k]
  {
    if k < n - 1 {
      JoinedPart(cs, k, n - 1);
      var off := |Joined(cs, k)|;
      assert Joined(cs, n)[off..off + |cs[k]|] == Joined(cs, n - 1)[off..off + |cs[k]|];
    }
  }

  lemma {:induction false} JoinedLength(ls: seq<Load>, k: nat)
    requires AllProper(ls) && k <= |ls|
    ensures |Joined(Commands(ls), k)| == Length(ls, k)
  {
    if k > 0 {
      JoinedLength(ls, k - 1);
      assert |Commands(ls)[k - 1]| == Size(ls[k - 1]);
    }
  }

  /** The file begins with a header of 32 bytes and these commands. */
  predicate Begins(d: seq<byte>, ls: seq<Load>) {
    AllProper(ls) && Holding(d, Commands(ls))
  }

  predicate Holding(d: seq<byte>, cs: seq<seq<byte>>) {
    var all := Joined(cs, |cs|);
    32 + |all| <= |d| && d[32..32 + |all|] == all
  }

  /** Bytes of a command that says its own size. */
  predicate Sized(c: seq<byte>) { |c| >= 8 && ReadLE(c, 4, 4) == |c| }

  lemma PartThere(d: seq<byte>, cs: seq<seq<byte>>, k: nat)
    requires Holding(d, cs) && k < |cs| && Sized(cs[k])
    ensures var off := 32 + |Joined(cs, k)|; CommandAt(d, off) && Command(d, off) == cs[k]
  {
    JoinedPart(cs, k, |cs|);
    var off, c := |Joined(cs, k)|, cs[k];
    Inside(d, 32, Joined(cs, |cs|), off, off + |c|);
    assert d[32 + off..32 + off + |c|] == c;
    Inside(d, 32 + off, c, 4, 8);
  }

  lemma SizeSaid(l: Load)
    requires Proper(l)
    ensures Sized(Encoded(l))
  {
    HeadRead(l);
  }

  lemma CommandThere(d: seq<byte>, ls: seq<Load>, k: nat)
    requires Begins(d, ls) && k < |ls|
    ensures var off := 32 + Length(ls, k); CommandAt(d, off) && Command(d, off) == Encoded(ls[k])
  {
    var cs := Commands(ls);
    assert Sized(cs[k]) by {
      SizeSaid(ls[k]);
    }
    PartThere(d, cs, k);
    JoinedLength(ls, k);
  }

  lemma LinkeditCommand(l: Load)
    requires Proper(l)
    ensures IsLinkedit(Encoded(l)) <==> NamesLinkedit(l)
  {
    HeadRead(l);
    if l.Segment64? {
      NameRead(Words([0x19, Size(l)]), l.name, l.fields);
      assert Fields(l) == [];
      assert [Number(l), Size(l)] + Fields(l) == [0x19, Size(l)];
      assert Encoded(l) == Words([0x19, Size(l)]) + (l.name + l.fields);
    }
  }

  lemma NameRead(head: seq<byte>, name: seq<byte>, fields: seq<byte>)
    requires |head| == 8 && |name| == 16 && |fields| >= 48
    ensures var c := head + (name + fields);
            c[8..18] == LINKEDIT && AllZero(c[18..24]) <==> name == [95, 95, 76, 73, 78, 75, 69, 68, 73, 84, 0, 0, 0, 0, 0, 0]
  {
    var c := head + (name + fields);
    assert c[8..18] == name[..10] && c[18..24] == name[10..];
    assert name == name[..10] + name[10..];
    var full: seq<byte> := [95, 95, 76, 73, 78, 75, 69, 68, 73, 84, 0, 0, 0, 0, 0, 0];
    assert full == full[..10] + full[10..] && full[..10] == LINKEDIT && AllZero(full[10..]);
    if c[8..18] == LINKEDIT && AllZero(c[18..24]) {
      assert name[10..] == full[10..];
    }
  }

  lemma SignatureCommand(l: Load)
    requires Proper(l)
    ensures IsSignature(Encoded(l)) <==> l.CodeSignature?
    ensures l.CodeSignature? ==> |Encoded(l)| == 16 && ReadLE(Encoded(l), 8, 4) == l.data.offset && ReadLE(Encoded(l), 12, 4) == l.data.count
  {
    HeadRead(l);
    if l.CodeSignature? {
      FieldRead(l, 0);
      FieldRead(l, 1);
    }
  }

  /** w is what v comes to behind one command of this record. */
  predicate Onward(v: Walked, l: Load, w: Walked) {
    && w.off == v.off + Size(l)
    && w.linkedit == (if NamesLinkedit(l) then Some(v.off) else v.linkedit)
    && w.signature == if l.CodeSignature? then Some(Signature(v.off, l.data.offset, l.data.count)) else v.signature
  }

  /** One command taken in. */
  lemma TakeTold(v: Walked, l: Load, last: bool) returns (w: Walked)
    requires Proper(l) && (l.CodeSignature? ==> last)
    ensures Take(v, Encoded(l), last) == Ok(w) && Onward(v, l, w)
    ensures exists end: nat :: Tops(end, Ends(l)) && w.tableEnd == Max(v.tableEnd, end)
  {
    LinkeditCommand(l);
    SignatureCommand(l);
    assert Tops(TablesEnd(Encoded(l)), Ends(l)) by {
      CommandTop(l);
    }
    w := Take(v, Encoded(l), last).value;
  }

  lemma SomeOn(ls: seq<Load>, k: nat, e: nat)
    requires k < |ls|
    ensures SomeEndsAt(ls, k + 1, e) <==> SomeEndsAt(ls, k, e) || EndsAt(ls[k], e)
  {
  }

  lemma TopOn(top: nat, ls: seq<Load>, k: nat, end: nat)
    requires k < |ls| && Top(top, ls, k) && Tops(end, Ends(ls[k]))
    ensures Top(Max(top, end), ls, k + 1)
  {
    assert forall e: nat :: EndsAt(ls[k], e) ==> e <= end;
    var n := k + 1;
    forall e: nat ensures SomeEndsAt(ls, n, e) <==> SomeEndsAt(ls, k, e) || EndsAt(ls[k], e) {
      SomeOn(ls, k, e);
    }
    SomeOn(ls, k, Max(top, end));
  }

  /** What the walk over the first k commands comes to, in the records' own terms. */
  ghost predicate Reached(w: Walked, ls: seq<Load>, k: nat)
    requires k <= |ls|
  {
    w.off == 32 + Length(ls, k) && w.linkedit == LinkeditAt(ls, k) && Top(w.tableEnd, ls, k) && w.signature == SignatureOf(ls, k)
  }

  lemma {:induction false} WalkTold(d: seq<byte>, ls: seq<Load>, k: nat) returns (w: Walked)
    requires Begins(d, ls) && k <= |ls| && SignedUpTo(ls, k)
    ensures Walk(d, |ls|, k) == Ok(w) && Reached(w, ls, k)
  {
    if k == 0 {
      w := Walked(HEADER_SIZE, None, 0, None);
      assert Walk(d, |ls|, 0) == Ok(w);
    } else {
      var v := WalkTold(d, ls, k - 1);
      w := OneTold(d, ls, k - 1, v);
    }
  }

  lemma StepTold(d: seq<byte>, n: nat, i: nat, v: Walked, c: seq<byte>, w: Walked)
    requires Walk(d, n, i) == Ok(v) && CommandAt(d, v.off) && Command(d, v.off) == c && Take(v, c, i + 1 == n) == Ok(w)
    ensures Walk(d, n, i + 1) == Ok(w)
  {
  }

  lemma OneTaken(d: seq<byte>, ls: seq<Load>, i: nat, v: Walked) returns (w: Walked, end: nat)
    requires Begins(d, ls) && i < |ls| && SignedUpTo(ls, i + 1) && Walk(d, |ls|, i) == Ok(v) && v.off == 32 + Length(ls, i)
    ensures Walk(d, |ls|, i + 1) == Ok(w) && Onward(v, ls[i], w)
    ensures Tops(end, Ends(ls[i])) && w.tableEnd == Max(v.tableEnd, end)
  {
    w := TakeTold(v, ls[i], i + 1 == |ls|);
    end :| Tops(end, Ends(ls[i])) && w.tableEnd == Max(v.tableEnd, end);
    assert Walk(d, |ls|, i + 1) == Ok(w) by {
      CommandThere(d, ls, i);
      StepTold(d, |ls|, i, v, Encoded(ls[i]), w);
    }
  }

  lemma OneTold(d: seq<byte>, ls: seq<Load>, i: nat, v: Walked) returns (w: Walked)
    requires Begins(d, ls) && i < |ls| && SignedUpTo(ls, i + 1) && Walk(d, |ls|, i) == Ok(v) && Reached(v, ls, i)
    ensures Walk(d, |ls|, i + 1) == Ok(w) && Reached(w, ls, i + 1)
  {
    var end;
    w, end := OneTaken(d, ls, i, v);
    ReachedOn(v, w, ls, i, end);
  }

  lemma ReachedOn(v: Walked, w: Walked, ls: seq<Load>, i: nat, end: nat)
    requires i < |ls| && Reached(v, ls, i) && Onward(v, ls[i], w) && v.signature.None?
    requires Tops(end, Ends(ls[i])) && w.tableEnd == Max(v.tableEnd, end)
    ensures Reached(w, ls, i + 1)
  {
    TopOn(v.tableEnd, ls, i, end);
  }

  // ---- where the file is cut ----------------------------------------------------------------

  /** The end of the furthest table that a command names, or the start of the segment when none lies in it. */
  ghost predicate Furthermost(e: nat, ls: seq<Load>, fileOff: nat) {
    && fileOff <= e && (forall x: nat :: SomeEndsAt(ls, |ls|, x) ==> x <= e)
    && (e == fileOff || SomeEndsAt(ls, |ls|, e))
  }

  lemma TopAbove(top: nat, ls: seq<Load>, off: nat)
    requires Top(top, ls, |ls|)
    ensures Furthermost(Max(top, off), ls, off)
  {
  }

  /** A layout that says what the walk found. */
  predicate Drawn(l: Layout, w: Walked) {
    && w.linkedit == Some(l.linkedit) && l.signature == w.signature && l.tableEnd == Max(w.tableEnd, l.fileOff)
    && l.CommandsEnd() == w.off
  }

  /** The checks behind the walk keep what it found. */
  lemma LayoutWalks(loads: Reader, d: seq<byte>, n: nat, w: Walked)
    requires LayoutOf(loads, d).Ok? && ReadLE(d, 16, 4) == n && Walk(d, n, n) == Ok(w)
    ensures Drawn(LayoutOf(loads, d).value, w)
  {
    WalkBounds(d, n, n);
  }

  lemma SegmentRead(loads: Reader, d: seq<byte>, l: Layout)
    requires LayoutOf(loads, d) == Ok(l)
    ensures l.linkedit + 72 <= |d| && l.fileOff == ReadLE(d, l.linkedit + 40, 8)
  {
    var w := Signing.LayoutWalked(loads, d);
    OffsetRead(d, w, l);
  }

  lemma OffsetRead(d: seq<byte>, w: Walked, l: Layout)
    requires Signing.Agrees(d, w, l)
    ensures l.linkedit + 72 <= |d| && l.fileOff == ReadLE(d, l.linkedit + 40, 8)
  {
  }

  /** The layout says what the commands' records do. */
  ghost predicate Told(ls: seq<Load>, l: Layout) {
    && LinkeditAt(ls, |ls|) == Some(l.linkedit) && l.signature == SignatureOf(ls, |ls|)
    && Furthermost(l.tableEnd, ls, l.fileOff) && l.CommandsEnd() == 32 + Length(ls, |ls|)
  }

  lemma DrawnTold(ls: seq<Load>, w: Walked, l: Layout)
    requires Drawn(l, w) && Reached(w, ls, |ls|)
    ensures Told(ls, l)
  {
    TopAbove(w.tableEnd, ls, l.fileOff);
  }

  /** What a header with these commands behind it is read as, when it is. */
  lemma LayoutTold(loads: Reader, d: seq<byte>, ls: seq<Load>, l: Layout)
    requires Begins(d, ls) && SignedLast(ls) && LayoutOf(loads, d) == Ok(l) && ReadLE(d, 16, 4) == |ls|
    ensures Told(ls, l)
  {
    var w := WalkTold(d, ls, |ls|);
    assert Drawn(l, w) by {
      LayoutWalks(loads, d, |ls|, w);
    }
    DrawnTold(ls, w, l);
  }

  predicate OnlyZeros(d: seq<byte>, from: nat, to: nat)
    requires from <= to <= |d|
  {
    forall i :: from <= i < to ==> d[i] == 0
  }

  /**
   * A file made of these commands is cut behind every table they name: at the
   * end e of the furthest one, or at the segment's start, or else where its
   * signature began, or not at all. When that end lies behind the commands,
   * it is cut there exactly when only zeros follow.
   */
  lemma CutExactly(loads: Reader, d: seq<byte>, ls: seq<Load>, z: seq<byte>) returns (e: nat)
    requires Begins(d, ls) && SignedLast(ls) && |ls| > 0 && ReadLE(d, 16, 4) == |ls|
    requires Stripped(loads, d) == Ok(z)
    ensures LinkeditAt(ls, |ls|).Some? && LinkeditAt(ls, |ls|).value + 72 <= |d|
    ensures Furthermost(e, ls, ReadLE(d, LinkeditAt(ls, |ls|).value + 40, 8))
    ensures var end := if ls[|ls| - 1].CodeSignature? then ls[|ls| - 1].data.offset else |d|;
            && e <= end <= |d| && (|z| == e || |z| == end)
            && (32 + Length(ls, |ls|) <= e ==> |z| == if OnlyZeros(d, e, end) then e else end)
  {
    var l := LayoutOf(loads, d).value;
    LayoutTold(loads, d, ls, l);
    SegmentRead(loads, d, l);
    e := l.tableEnd;
    CutLength(loads, d, l, z);
  }

  /** Byte i of a stripped file of size bytes, whose segment's command is at at and starts the segment at fileOff. */
  function StrippedByte(d: seq<byte>, ls: seq<Load>, at: nat, fileOff: nat, size: nat, i: nat): byte
    requires i < |d| && fileOff <= size && |ls| > 0
  {
    var n := |ls|;
    if at + 32 <= i < at + 40 then LE(size - fileOff, 8)[i - at - 32]
    else if at + 48 <= i < at + 56 then LE(size - fileOff, 8)[i - at - 48]
    else if !ls[n - 1].CodeSignature? then d[i]
    else if 16 <= i < 20 then LE(n - 1, 4)[i - 16]
    else if 20 <= i < 24 then LE(Length(ls, n - 1), 4)[i - 20]
    else if 32 + Length(ls, n - 1) <= i < 48 + Length(ls, n - 1) then 0
    else d[i]
  }

  /** Every byte of z is what the records say. */
  ghost predicate BytesAs(d: seq<byte>, ls: seq<Load>, at: nat, fileOff: nat, z: seq<byte>) {
    && fileOff <= |z| <= |d| && |ls| > 0
    && forall i :: 0 <= i < |z| ==> z[i] == StrippedByte(d, ls, at, fileOff, |z|, i)
  }

  /**
   * What is left is the file's, but for the segment's two sizes and, without the signature's command,
   * the counts and its place.
   */
  lemma BytesExactly(loads: Reader, d: seq<byte>, ls: seq<Load>, z: seq<byte>) returns (at: nat)
    requires Begins(d, ls) && SignedLast(ls) && |ls| > 0 && ReadLE(d, 16, 4) == |ls|
    requires Stripped(loads, d) == Ok(z)
    ensures LinkeditAt(ls, |ls|) == Some(at) && at + 72 <= |d| && BytesAs(d, ls, at, ReadLE(d, at + 40, 8), z)
  {
    var l := LayoutOf(loads, d).value;
    at := l.linkedit;
    LayoutTold(loads, d, ls, l);
    SegmentRead(loads, d, l);
    CountRead(loads, d, l);
    var u, end := StrippedParts(loads, d, l, z);
    BytesTold(d, ls, l, u, end, z);
  }

  lemma BytesTold(d: seq<byte>, ls: seq<Load>, l: Layout, u: seq<byte>, end: nat, z: seq<byte>)
    requires |d| >= 32 && |ls| > 0 && l.commands == |ls| && Told(ls, l) && l.linkedit + 72 <= |d|
             && l.fileOff <= end <= |d| == |u|
    requires l.signature.Some? ==> l.signature.value.commandAt + 16 <= |d| && l.commands > 0 && l.commandBytes >= 16
    requires u == Unsigned(d, l) && z == Resized(u, l.linkedit, l.fileOff, end)
    ensures BytesAs(d, ls, l.linkedit, l.fileOff, z)
  {
    ResizedBytes(u, l, end, z);
    forall i | 0 <= i < |z| ensures z[i] == StrippedByte(d, ls, l.linkedit, l.fileOff, |z|, i) {
      UnsignedBytes(d, l, ls, u, i);
    }
  }

  lemma CountRead(loads: Reader, d: seq<byte>, l: Layout)
    requires LayoutOf(loads, d) == Ok(l)
    ensures l.commands == ReadLE(d, 16, 4)
  {
  }

  lemma StrippedParts(loads: Reader, d: seq<byte>, l: Layout, z: seq<byte>) returns (u: seq<byte>, end: nat)
    requires LayoutOf(loads, d) == Ok(l) && Stripped(loads, d) == Ok(z)
    ensures |d| >= 32 && l.linkedit + 72 <= |d| && l.fileOff <= end <= |d| == |u|
    ensures l.signature.Some? ==> l.signature.value.commandAt + 16 <= |d| && l.commands > 0 && l.commandBytes >= 16
    ensures u == Unsigned(d, l) && z == Resized(u, l.linkedit, l.fileOff, end)
  {
    LayoutBounds(loads, d);
    u := Unsigned(d, l);
    end := CutAt(u, l.tableEnd, l.End(|d|));
  }

  lemma ResizedBytes(u: seq<byte>, l: Layout, end: nat, z: seq<byte>)
    requires l.linkedit + 72 <= |u| && l.fileOff <= end <= |u| && z == Resized(u, l.linkedit, l.fileOff, end)
    ensures |z| == end
    ensures forall i :: 0 <= i < end ==>
              z[i] == if l.linkedit + 32 <= i < l.linkedit + 40 then LE(end - l.fileOff, 8)[i - l.linkedit - 32]
                      else if l.linkedit + 48 <= i < l.linkedit + 56 then LE(end - l.fileOff, 8)[i - l.linkedit - 48]
                      else u[i]
  {
  }

  lemma UnsignedBytes(d: seq<byte>, l: Layout, ls: seq<Load>, u: seq<byte>, i: nat)
    requires |d| >= 32 && i < |d| && |ls| > 0 && l.commands == |ls| && Told(ls, l)
    requires l.signature.Some? ==> l.signature.value.commandAt + 16 <= |d| && l.commands > 0 && l.commandBytes >= 16
    requires u == Unsigned(d, l)
    ensures u[i] == if !ls[|ls| - 1].CodeSignature? then d[i]
                    else if 16 <= i < 20 then LE(|ls| - 1, 4)[i - 16]
                    else if 20 <= i < 24 then LE(Length(ls, |ls| - 1), 4)[i - 20]
                    else if 32 + Length(ls, |ls| - 1) <= i < 48 + Length(ls, |ls| - 1) then 0
                    else d[i]
  {
    if ls[|ls| - 1].CodeSignature? {
      assert l.commandBytes == Length(ls, |ls|) == Length(ls, |ls| - 1) + 16;
      assert Counts(l.commands - 1, l.commandBytes - 16) == LE(|ls| - 1, 4) + LE(Length(ls, |ls| - 1), 4);
    }
  }

  lemma CutLength(loads: Reader, d: seq<byte>, l: Layout, z: seq<byte>)
    requires LayoutOf(loads, d) == Ok(l) && Stripped(loads, d) == Ok(z)
    ensures |z| == l.tableEnd || |z| == l.End(|d|)
    ensures l.CommandsEnd() <= l.tableEnd ==> |z| == if OnlyZeros(d, l.tableEnd, l.End(|d|)) then l.tableEnd else l.End(|d|)
  {
    LayoutBounds(loads, d);
    if l.CommandsEnd() <= l.tableEnd {
      TablesUntouched(d, l, l.End(|d|));
    }
  }

  /** Taking the signature's command out changes nothing past the commands. */
  lemma TablesUntouched(d: seq<byte>, l: Layout, end: nat)
    requires |d| >= HEADER_SIZE && l.tableEnd <= end <= |d|
    requires l.signature.Some? ==> && l.signature.value.commandAt + SIGNATURE_COMMAND <= |d| && l.commands > 0
                                   && l.commandBytes >= SIGNATURE_COMMAND
                                       && l.signature.value.commandAt + SIGNATURE_COMMAND <= l.tableEnd
                                   && 24 <= l.tableEnd
    ensures AllZero(Unsigned(d, l)[l.tableEnd..end]) <==> OnlyZeros(d, l.tableEnd, end)
  {
    var u := Unsigned(d, l);
    forall i | l.tableEnd <= i < end ensures u[i] == d[i] {
    }
    if AllZero(u[l.tableEnd..end]) {
      forall i | l.tableEnd <= i < end ensures d[i] == 0 {
        assert u[l.tableEnd..end][i - l.tableEnd] == u[i];
      }
    }
  }

  // ---- every file is made of such commands --------------------------------------------------------

  /** The first n words of these bytes. */
  function ReadWords(c: seq<byte>, n: nat): (ws: seq<uint32>)
    requires 4 * n <= |c|
    ensures |ws| == n
  {
    seq(n, i requires 0 <= i < n => ReadWord(c[4 * i..]))
  }

  function ReadWord(c: seq<byte>): (w: uint32)
    requires |c| >= 4
    ensures LE(w, 4) == c[..4]
  {
    Pow256Values();
    FromLERoundTrip(c[..4]);
    FromLE(c[..4])
  }

  lemma WordsNext(c: seq<byte>, n: nat)
    requires 0 < n && 4 * n <= |c|
    ensures ReadWords(c, n) == [ReadWord(c)] + ReadWords(c[4..], n - 1)
  {
    forall i | 0 <= i < n - 1 ensures c[4..][4 * i..] == c[4 * (i + 1)..] {
    }
    assert c[4 * 0..] == c;
  }

  lemma WordsJoin(w: uint32, ws: seq<uint32>, rest: seq<byte>)
    ensures Words([w] + ws) + rest == LE(w, 4) + (Words(ws) + rest)
  {
    assert ([w] + ws)[1..] == ws;
  }

  lemma {:induction false} WordsReadBack(c: seq<byte>, n: nat)
    requires 4 * n <= |c|
    ensures Words(ReadWords(c, n)) + c[4 * n..] == c
    decreases n
  {
    if n > 0 {
      var rest := c[4..];
      WordsReadBack(rest, n - 1);
      WordsNext(c, n);
      assert rest[4 * (n - 1)..] == c[4 * n..];
      WordsJoin(ReadWord(c), ReadWords(rest, n - 1), c[4 * n..]);
      assert c == c[..4] + rest;
    }
  }

  /** Bytes that begin with a record's words and end with its rest are the record's. */
  lemma RecordBytes(l: Load, c: seq<byte>, n: nat)
    requires Proper(l) && 4 * n <= |c| && [Number(l), Size(l)] + Fields(l) == ReadWords(c, n) && Rest(l) == c[4 * n..]
    ensures Encoded(l) == c
  {
    WordsReadBack(c, n);
  }

  /** The record of a command. */
  function Record(c: seq<byte>): (l: Load)
    requires Sized(c)
  {
    var cmd := ReadWord(c);
    if Least(cmd).None? || |c| < Least(cmd).value then Other(cmd, c[8..])
    else if cmd == 0x19 then Segment64(c[8..24], c[24..])
    else if cmd == 0x2 then
      var ws := ReadWords(c, 6);
      Symtab(Table(ws[2], ws[3]), Table(ws[4], ws[5]), c[24..])
    else if cmd == 0xb then
      DysymtabOf(ReadWords(c, 20), c[80..])
    else if cmd == 0x22 || cmd == 0x8000_0022 then
      var ws := ReadWords(c, 12);
      DyldInfo(cmd == 0x8000_0022, Table(ws[2], ws[3]), Table(ws[4], ws[5]), Table(ws[6], ws[7]), Table(ws[8], ws[9]),
               Table(ws[10], ws[11]), c[48..])
    else if |c| < 16 then Other(cmd, c[8..])
    else
      var ws := ReadWords(c, 4);
      if cmd == 0x1d then CodeSignature(Table(ws[2], ws[3])) else LinkeditData(KindOf(cmd), Table(ws[2], ws[3]), c[16..])
  }

  function KindOf(cmd: uint32): Kind {
    if cmd == 0x1e then SegmentSplitInfo else if cmd == 0x26 then FunctionStarts else if cmd == 0x29 then DataInCode
    else if cmd == 0x2b then DylibCodeSignDRs else if cmd == 0x2e then LinkerOptimization
    else if cmd == 0x8000_0033 then DyldExportsTrie else if cmd == 0x8000_0034 then DyldChainedFixups else AtomInfo
  }

  lemma TwoWords(c: seq<byte>, n: nat)
    requires Sized(c) && 2 <= n && 4 * n <= |c| < 0x1_0000_0000
    ensures ReadWords(c, n)[0] == ReadWord(c) && ReadWords(c, n)[1] == |c|
  {
    assert ReadWords(c, n)[1] == ReadWord(c[4..]);
    assert c[4..][..4] == c[4..8];
  }

  lemma RecordOfOther(c: seq<byte>)
    requires Sized(c) && |c| < 0x1_0000_0000
    ensures Words([ReadWord(c), |c|]) + c[8..] == c
  {
    WordsReadBack(c, 2);
    TwoWords(c, 2);
    assert ReadWords(c, 2) == [ReadWord(c), |c|];
  }

  lemma RecordOfSymtab(c: seq<byte>)
    requires Sized(c) && |c| < 0x1_0000_0000 && ReadWord(c) == 0x2 && |c| >= 24
    ensures Proper(Record(c)) && Encoded(Record(c)) == c
  {
    var ws, l := ReadWords(c, 6), Record(c);
    TwoWords(c, 6);
    assert [Number(l), Size(l)] + Fields(l) == ws;
    RecordBytes(l, c, 6);
  }

  lemma SixPairs(ws: seq<uint32>)
    requires |ws| == 12
    ensures Pair(Table(ws[0], ws[1])) + Pair(Table(ws[2], ws[3])) + Pair(Table(ws[4], ws[5])) + Pair(Table(ws[6], ws[7]))
            + Pair(Table(ws[8], ws[9])) + Pair(Table(ws[10], ws[11])) == ws
  {
  }

  function DysymtabOf(ws: seq<uint32>, more: seq<byte>): Load
    requires |ws| == 20
  {
    Dysymtab(ws[2..8], Table(ws[8], ws[9]), Table(ws[10], ws[11]), Table(ws[12], ws[13]), Table(ws[14], ws[15]),
             Table(ws[16], ws[17]), Table(ws[18], ws[19]), more)
  }

  lemma DysymtabFields(ws: seq<uint32>, more: seq<byte>)
    requires |ws| == 20
    ensures [ws[0], ws[1]] + Fields(DysymtabOf(ws, more)) == ws
  {
    var l, pairs := DysymtabOf(ws, more), ws[8..];
    SixPairs(pairs);
    assert Fields(l) == l.groups + (Pair(l.toc) + Pair(l.modules) + Pair(l.references) + Pair(l.indirect) + Pair(l.external) + Pair(l.local));
    assert Fields(l) == ws[2..8] + pairs;
    assert ws == [ws[0], ws[1]] + (ws[2..8] + pairs);
  }

  lemma RecordOfDysymtab(c: seq<byte>)
    requires Sized(c) && |c| < 0x1_0000_0000 && ReadWord(c) == 0xb && |c| >= 80
    ensures Proper(Record(c)) && Encoded(Record(c)) == c
  {
    var ws, l := ReadWords(c, 20), Record(c);
    TwoWords(c, 20);
    assert l == DysymtabOf(ws, c[80..]);
    assert [Number(l), Size(l)] + Fields(l) == ws by {
      DysymtabFields(ws, c[80..]);
    }
    RecordBytes(l, c, 20);
  }

  lemma RecordOfDyld(c: seq<byte>)
    requires Sized(c) && |c| < 0x1_0000_0000 && ReadWord(c) in {0x22, 0x8000_0022} && |c| >= 48
    ensures Proper(Record(c)) && Encoded(Record(c)) == c
  {
    var ws, l := ReadWords(c, 12), Record(c);
    TwoWords(c, 12);
    assert [Number(l), Size(l)] + Fields(l) == ws;
    RecordBytes(l, c, 12);
  }

  lemma RecordOfData(c: seq<byte>)
    requires Sized(c) && |c| < 0x1_0000_0000 && Least(ReadWord(c)) == Some(16) && |c| >= 16
    ensures Proper(Record(c)) && Encoded(Record(c)) == c
  {
    var ws, l := ReadWords(c, 4), Record(c);
    TwoWords(c, 4);
    assert [Number(l), Size(l)] + Fields(l) == ws;
    RecordBytes(l, c, 4);
  }

  lemma RecordOfSignature(c: seq<byte>)
    requires Sized(c) && ReadWord(c) == 0x1d && |c| == 16
    ensures Proper(Record(c)) && Encoded(Record(c)) == c
  {
    var ws, l := ReadWords(c, 4), Record(c);
    TwoWords(c, 4);
    assert [Number(l), Size(l)] + Fields(l) == ws;
    RecordBytes(l, c, 4);
  }

  lemma RecordOfSegment(c: seq<byte>)
    requires Sized(c) && |c| < 0x1_0000_0000 && ReadWord(c) == 0x19 && |c| >= 72
    ensures Proper(Record(c)) && Encoded(Record(c)) == c
  {
    var l := Record(c);
    RecordOfOther(c);
    assert [Number(l), Size(l)] + Fields(l) == [ReadWord(c), |c|];
    assert c[8..] == c[8..24] + c[24..];
  }

  /** Every command but a signature's of another size is the bytes of a record. */
  lemma EveryCommand(c: seq<byte>)
    requires Sized(c) && |c| < 0x1_0000_0000 && (ReadWord(c) == 0x1d ==> |c| == 16)
    ensures Proper(Record(c)) && Encoded(Record(c)) == c && (Record(c).CodeSignature? <==> ReadWord(c) == 0x1d)
  {
    var cmd := ReadWord(c);
    if Least(cmd).None? || |c| < Least(cmd).value {
      RecordOfOther(c);
      assert [Number(Record(c)), Size(Record(c))] + Fields(Record(c)) == [cmd, |c|];
    } else if cmd == 0x19 {
      RecordOfSegment(c);
    } else if cmd == 0x2 {
      RecordOfSymtab(c);
    } else if cmd == 0xb {
      RecordOfDysymtab(c);
    } else if cmd == 0x22 || cmd == 0x8000_0022 {
      RecordOfDyld(c);
    } else if cmd == 0x1d {
      RecordOfSignature(c);
    } else {
      RecordOfData(c);
    }
  }

  lemma NumberRead(c: seq<byte>)
    requires |c| >= 4
    ensures ReadWord(c) == ReadLE(c, 0, 4)
  {
    assert c[0..4] == c[..4];
  }

  lemma {:induction false} SameJoined(x: seq<seq<byte>>, y: seq<seq<byte>>, k: nat)
    requires k <= |x| && k <= |y| && forall i :: 0 <= i < k ==> x[i] == y[i]
    ensures Joined(x, k) == Joined(y, k)
  {
    if k > 0 {
      SameJoined(x, y, k - 1);
    }
  }

  lemma MoreJoined(cs: seq<seq<byte>>, c: seq<byte>)
    ensures Joined(cs + [c], |cs| + 1) == Joined(cs, |cs|) + c
  {
    SameJoined(cs, cs + [c], |cs|);
  }

  lemma SizedThere(d: seq<byte>, off: nat)
    requires CommandAt(d, off)
    ensures Sized(Command(d, off)) && |Command(d, off)| < 0x1_0000_0000
  {
    Pow256Values();
    Inside(d, off, Command(d, off), 4, 8);
  }

  /** Bytes a record can have been written as. */
  predicate Recordable(c: seq<byte>) { Sized(c) && |c| < 0x1_0000_0000 && (ReadWord(c) == 0x1d ==> |c| == 16) }

  /** The command the walk takes next. */
  lemma NextCommand(d: seq<byte>, n: nat, i: nat, v: Walked) returns (c: seq<byte>)
    requires Walk(d, n, i) == Ok(v) && Walk(d, n, i + 1).Ok?
    ensures Recordable(c) && Walk(d, n, i + 1).value.off == v.off + |c| <= |d| && d[v.off..v.off + |c|] == c
    ensures ReadWord(c) == 0x1d ==> i + 1 == n
  {
    assert CommandAt(d, v.off);
    c := Command(d, v.off);
    SizedThere(d, v.off);
    NumberRead(c);
    assert Take(v, c, i + 1 == n).Ok?;
  }

  lemma LastCommand(d: seq<byte>, n: nat, k: nat) returns (v: Walked, c: seq<byte>)
    requires 0 < k && Walk(d, n, k).Ok?
    ensures Walk(d, n, k - 1) == Ok(v) && Walk(d, n, k).value.off == v.off + |c| <= |d| && d[v.off..v.off + |c|] == c
    ensures Recordable(c) && (ReadWord(c) == 0x1d ==> k == n)
  {
    v := Walk(d, n, k - 1).value;
    c := NextCommand(d, n, k - 1, v);
  }

  /** Joined with the command behind them. */
  lemma CommandsOn(d: seq<byte>, cs: seq<seq<byte>>, c: seq<byte>, off: nat)
    requires 32 <= off && off + |c| <= |d| && Joined(cs, |cs|) == d[32..off] && d[off..off + |c|] == c
    ensures Joined(cs + [c], |cs| + 1) == d[32..off + |c|]
  {
    MoreJoined(cs, c);
    assert d[32..off + |c|] == d[32..off] + d[off..off + |c|];
  }

  /** cs are the first k of n commands of the file, up to off. */
  predicate Collected(d: seq<byte>, n: nat, k: nat, cs: seq<seq<byte>>, off: nat) {
    && |cs| == k && 32 <= off <= |d| && Joined(cs, k) == d[32..off]
    && forall i :: 0 <= i < k ==> Recordable(cs[i]) && (i + 1 < n ==> ReadWord(cs[i]) != 0x1d)
  }

  lemma Collect(d: seq<byte>, n: nat, k: nat, cs: seq<seq<byte>>, off: nat, c: seq<byte>)
    requires Collected(d, n, k, cs, off) && Recordable(c) && off + |c| <= |d| && d[off..off + |c|] == c
    requires ReadWord(c) == 0x1d ==> k + 1 == n
    ensures Collected(d, n, k + 1, cs + [c], off + |c|)
  {
    CommandsOn(d, cs, c, off);
  }

  /** The commands of a walk that goes through. */
  lemma {:induction false} EveryWalk(d: seq<byte>, n: nat, k: nat) returns (cs: seq<seq<byte>>)
    requires k <= n && |d| >= 32 && Walk(d, n, k).Ok?
    ensures Collected(d, n, k, cs, Walk(d, n, k).value.off)
  {
    if k == 0 {
      cs := [];
    } else {
      var v, c := LastCommand(d, n, k);
      var before := EveryWalk(d, n, k - 1);
      cs := before + [c];
      assert Collected(d, n, k, cs, v.off + |c|) by {
        Collect(d, n, k - 1, before, v.off, c);
      }
    }
  }

  /** Every file that has a layout is made of such commands. */
  lemma EveryFile(loads: Reader, d: seq<byte>) returns (ls: seq<Load>)
    requires LayoutOf(loads, d).Ok?
    ensures Begins(d, ls) && SignedLast(ls) && |ls| > 0 && ReadLE(d, 16, 4) == |ls|
  {
    var n := ReadLE(d, 16, 4);
    var cs := EveryWalk(d, n, n);
    ls := CollectedRecords(d, n, cs, Walk(d, n, n).value.off);
  }

  lemma CollectedRecords(d: seq<byte>, n: nat, cs: seq<seq<byte>>, off: nat) returns (ls: seq<Load>)
    requires Collected(d, n, n, cs, off)
    ensures Begins(d, ls) && SignedLast(ls) && |ls| == n
  {
    ls := Records(cs);
    RecordsRead(cs);
    assert Holding(d, cs);
  }

  function Records(cs: seq<seq<byte>>): (ls: seq<Load>)
    requires forall i :: 0 <= i < |cs| ==> Recordable(cs[i])
    ensures |ls| == |cs|
  {
    seq(|cs|, i requires 0 <= i < |cs| && Recordable(cs[i]) => Record(cs[i]))
  }

  lemma RecordsRead(cs: seq<seq<byte>>)
    requires forall i :: 0 <= i < |cs| ==> Recordable(cs[i])
    ensures AllProper(Records(cs)) && Commands(Records(cs)) == cs
    ensures forall i :: 0 <= i < |cs| ==> (Records(cs)[i].CodeSignature? <==> ReadWord(cs[i]) == 0x1d)
  {
    forall i | 0 <= i < |cs|
      ensures Proper(Records(cs)[i]) && Encoded(Records(cs)[i]) == cs[i] && (Records(cs)[i].CodeSignature? <==>
                  ReadWord(cs[i]) == 0x1d)
    {
      EveryCommand(cs[i]);
    }
  }
}
