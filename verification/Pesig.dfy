/**
 * The parts of a PE file that Authenticode signing touches: reading them,
 * and taking a signature off again. Layout after the Microsoft PE format.
 */
module Pesig {
  import opened Wrappers
  import opened Bytes

  const FOOTER_ALIGN := 8

  datatype PeError =
    | NotPE | ReadFailed | OptionalPastEnd | OptionalTooShort | SectionsPastEnd | SectionPastEnd
    | CertificateOutside | CertificateNotLast

  /** What signing leaves alone; entryAt is 0 when the header has no security entry. */
  datatype Layout = Layout(plus: bool, checksumAt: nat, entryAt: nat, imageEnd: nat)

  datatype Header = Header(layout: Layout, certOffset: uint32, certSize: uint32) {
    predicate Signed() { certSize != 0 }

    /** Where the signable part of a file of this size ends. */
    function End(size: nat): nat { if Signed() then certOffset else size }
  }

  const PE_MAGIC: seq<byte> := [80, 69, 0, 0]
  const MAGIC_PE32 := 0x10b
  const MAGIC_PE32_PLUS := 0x20b

  function CountAt(plus: bool): nat { if plus then 108 else 92 }

  /** The security entry, fifth in the data directory. */
  function SecurityAt(plus: bool): nat { (if plus then 112 else 96) + 4 * 8 }

  /** Where the raw data of the section whose header is at at ends; 0 when it has none. */
  function SectionReach(d: seq<byte>, at: nat): nat
    requires at + 40 <= |d|
  {
    if ReadLE(d, at + 16, 4) == 0 then 0 else ReadLE(d, at + 20, 4) + ReadLE(d, at + 16, 4)
  }

  /** The end of the headers, or of the raw data of the furthest of the first k sections. */
  function SectionsEnd(d: seq<byte>, table: nat, count: nat, k: nat): (end: nat)
    requires table + 40 * count <= |d| && k <= count
    ensures end >= table + 40 * count
  {
    if k == 0 then table + 40 * count
    else
      var before, reach := SectionsEnd(d, table, count, k - 1), SectionReach(d, table + 40 * (k - 1));
      if reach <= before then before else reach
  }

  function EntryAt(d: seq<byte>, opt: nat, size: nat, plus: bool): nat
    requires opt + size <= |d|
  {
    if size >= CountAt(plus) + 4 && ReadLE(d, opt + CountAt(plus), 4) > 4 && size >= SecurityAt(plus) + 8
    then opt + SecurityAt(plus) else 0
  }

  /** From the optional header on, which is size bytes at opt. */
  function OptionalLayout(d: seq<byte>, opt: nat, size: nat, sections: nat, plus: bool): (r: Result<Layout, PeError>)
    ensures r.Ok? ==> && r.value.checksumAt + 4 <= r.value.imageEnd <= |d|
                      && (r.value.entryAt != 0 ==> r.value.checksumAt + 4 <= r.value.entryAt && r.value.entryAt + 8 <= r.value.imageEnd)
  {
    if opt + size > |d| then Err(OptionalPastEnd)
    else if size < 68 then Err(OptionalTooShort)
    else if opt + size + 40 * sections > |d| then Err(SectionsPastEnd)
    else if sections == 0 && opt + size == |d| then Err(ReadFailed)
    else
      var end := SectionsEnd(d, opt + size, sections, sections);
      if end > |d| then Err(SectionPastEnd) else Ok(Layout(plus, opt + 64, EntryAt(d, opt, size, plus), end))
  }

  /** The optional header: where it is, how long, of which kind, and how many sections follow it. */
  datatype Head = Head(opt: nat, size: nat, sections: nat, plus: bool)

  function HeadOf(d: seq<byte>): (r: Option<Head>)
    ensures r.Some? ==> r.value.opt + 2 <= |d| && r.value.opt >= 88
  {
    if |d| < 64 || d[0] as char != 'M' || d[1] as char != 'Z' then None
    else
      var pe := ReadLE(d, 60, 4);
      if pe < 64 || pe + 26 > |d| || d[pe..pe + 4] != PE_MAGIC then None
      else
        var magic := ReadLE(d, pe + 24, 2);
        if magic != MAGIC_PE32 && magic != MAGIC_PE32_PLUS then None
        else Some(Head(pe + 24, ReadLE(d, pe + 20, 2), ReadLE(d, pe + 6, 2), magic == MAGIC_PE32_PLUS))
  }

  function LayoutOf(d: seq<byte>): (r: Result<Layout, PeError>)
    ensures r.Ok? ==> && r.value.checksumAt + 4 <= r.value.imageEnd <= |d|
                      && (r.value.entryAt != 0 ==> r.value.checksumAt + 4 <= r.value.entryAt && r.value.entryAt + 8 <= r.value.imageEnd)
  {
    match HeadOf(d)
    case None => Err(NotPE)
    case Some(h) => OptionalLayout(d, h.opt, h.size, h.sections, h.plus)
  }

  function HeaderOf(d: seq<byte>): Result<Header, PeError> {
    match LayoutOf(d)
    case Err(e) => Err(e)
    case Ok(l) =>
      if l.entryAt == 0 then Ok(Header(l, 0, 0))
      else
        Pow256Values();
        var offset, size := ReadLE(d, l.entryAt, 4), ReadLE(d, l.entryAt + 4, 4);
        if size != 0 && (offset < l.imageEnd || offset + size > |d|) then Err(CertificateOutside)
        else Ok(Header(l, offset, size))
  }

  /** The image ends where the furthest section's raw data does. */
  method FindImageEnd(d: seq<byte>, table: nat, sections: nat) returns (imageEnd: nat)
    requires table + 40 * sections <= |d|
    ensures imageEnd == SectionsEnd(d, table, sections, sections)
  {
    imageEnd := table + 40 * sections;
    for i := 0 to sections
      invariant imageEnd == SectionsEnd(d, table, sections, i)
    {
      var rawSize, rawOff := ReadLE(d, table + 40 * i + 16, 4), ReadLE(d, table + 40 * i + 20, 4);
      if rawSize != 0 && rawOff + rawSize > imageEnd {
        imageEnd := rawOff + rawSize;
      }
    }
  }

  /** The optional header, which is size bytes at opt, and the sections behind it. */
  method ParseOptional(d: seq<byte>, opt: nat, size: nat, sections: nat, plus: bool) returns (r: Result<Layout, PeError>)
    ensures r == OptionalLayout(d, opt, size, sections, plus)
  {
    if opt + size > |d| {
      return Err(OptionalPastEnd);
    }
    if size < 68 {
      return Err(OptionalTooShort);
    }
    var entryAt := 0;
    if size >= CountAt(plus) + 4 {
      var dirs := ReadLE(d, opt + CountAt(plus), 4);
      if dirs > 4 && size >= SecurityAt(plus) + 8 {
        entryAt := opt + SecurityAt(plus);
      }
    }
    if opt + size + 40 * sections > |d| {
      return Err(SectionsPastEnd);
    }
    if sections == 0 && opt + size == |d| {
      return Err(ReadFailed);
    }
    var imageEnd := FindImageEnd(d, opt + size, sections);
    if imageEnd > |d| {
      return Err(SectionPastEnd);
    }
    return Ok(Layout(plus, opt + 64, entryAt, imageEnd));
  }

  /** The DOS and COFF headers. */
  method ParseHead(d: seq<byte>) returns (r: Option<Head>)
    ensures r == HeadOf(d)
  {
    if |d| < 64 || d[0] as char != 'M' || d[1] as char != 'Z' {
      return None;
    }
    var pe := ReadLE(d, 60, 4);
    if pe < 64 || pe + 26 > |d| || d[pe..pe + 4] != PE_MAGIC {
      return None;
    }
    var magic := ReadLE(d, pe + 24, 2);
    if magic != MAGIC_PE32 && magic != MAGIC_PE32_PLUS {
      return None;
    }
    return Some(Head(pe + 24, ReadLE(d, pe + 20, 2), ReadLE(d, pe + 6, 2), magic == MAGIC_PE32_PLUS));
  }

  /** Reading a header the way the loader does, section by section. */
  method Parse(d: seq<byte>) returns (r: Result<Header, PeError>)
    ensures r == HeaderOf(d)
  {
    var head := ParseHead(d);
    if head.None? {
      return Err(NotPE);
    }
    var parsed := ParseOptional(d, head.value.opt, head.value.size, head.value.sections, head.value.plus);
    if parsed.Err? {
      return Err(parsed.error);
    }
    var layout := parsed.value;
    Pow256Values();
    var certOffset, certSize := 0, 0;
    if layout.entryAt != 0 {
      certOffset, certSize := ReadLE(d, layout.entryAt, 4), ReadLE(d, layout.entryAt + 4, 4);
    }
    if certSize != 0 && (certOffset < layout.imageEnd || certOffset + certSize > |d|) {
      return Err(CertificateOutside);
    }
    return Ok(Header(layout, certOffset, certSize));
  }

  // ---- stripping ------------------------------------------------------------------

  /** The zeros that take a length to the next boundary. */
  function PadTo8(n: nat): (pad: nat)
    ensures pad < 8 && (n + pad) % 8 == 0
    ensures pad == 0 <==> n % 8 == 0
  {
    (8 - n % 8) % 8
  }

  /** The two fields signing writes, zeroed. */
  function Cleared(d: seq<byte>, l: Layout): (r: seq<byte>)
    requires l.checksumAt + 4 <= |d| && l.entryAt + 8 <= |d|
    ensures |r| == |d|
  {
    Patch(if l.entryAt != 0 then Patch(d, l.entryAt, Zeros(8)) else d, l.checksumAt, Zeros(4))
  }

  /** The file up to its certificate table, less the padding that brought the image to the table's boundary. */
  function Unsigned(d: seq<byte>, h: Header): (r: seq<byte>)
    requires h.layout.imageEnd <= h.End(|d|) <= |d|
    ensures h.layout.imageEnd <= |r|
  {
    if !h.Signed() then d
    else
      var pad := PadTo8(h.layout.imageEnd);
      var tail := d[h.layout.imageEnd..h.certOffset];
      if pad > 0 && |tail| == pad && AllZero(tail) then d[..h.layout.imageEnd] else d[..h.certOffset]
  }

  function Stripped(d: seq<byte>): Result<seq<byte>, PeError> {
    match HeaderOf(d)
    case Err(e) => Err(e)
    case Ok(h) =>
      if h.Signed() && h.certOffset + h.certSize != |d| then Err(CertificateNotLast)
      else Ok(Cleared(Unsigned(d, h), h.layout))
  }

  method ClearRange(out: array<byte>, at: nat, n: nat)
    requires at + n <= out.Length
    modifies out
    ensures out[..] == Patch(old(out[..]), at, Zeros(n))
  {
    for i := 0 to n
      invariant forall k :: 0 <= k < out.Length ==> out[k] == if at <= k < at + i then 0 else old(out[k])
    {
      out[at + i] := 0;
    }
  }

  method ClearFields(out: array<byte>, l: Layout)
    requires l.checksumAt + 4 <= out.Length && l.entryAt + 8 <= out.Length
    modifies out
    ensures out[..] == Cleared(old(out[..]), l)
  {
    if l.entryAt != 0 {
      ClearRange(out, l.entryAt, 8);
    }
    ClearRange(out, l.checksumAt, 4);
  }

  lemma ClearedPrefix(d: seq<byte>, l: Layout, n: nat)
    requires l.checksumAt + 4 <= n <= |d| && l.entryAt + 8 <= n
    ensures Cleared(d, l)[..n] == Cleared(d[..n], l)
  {
  }

  /** How much of a signed file is left. */
  method Cut(d: seq<byte>, h: Header) returns (size: nat)
    requires h.Signed() && h.layout.imageEnd <= h.End(|d|) <= |d|
    ensures size <= |d| && d[..size] == Unsigned(d, h)
  {
    size := h.certOffset;
    var pad := PadTo8(h.layout.imageEnd);
    var zero := ScanZeros(d[h.layout.imageEnd..size]);
    if pad > 0 && size - h.layout.imageEnd == pad && zero {
      size := h.layout.imageEnd;
    }
  }

  method CopyOf(d: seq<byte>) returns (out: array<byte>)
    ensures fresh(out) && out[..] == d
  {
    out := new byte[|d|](i requires 0 <= i < |d| => d[i]);
  }

  /** A copy of the file, the fields cleared in it, cut down to size. */
  method ClearedCopy(d: seq<byte>, l: Layout, size: nat) returns (r: seq<byte>)
    requires l.checksumAt + 4 <= size <= |d| && l.entryAt + 8 <= size
    ensures r == Cleared(d[..size], l)
  {
    var out := CopyOf(d);
    ClearFields(out, l);
    ClearedPrefix(d, l, size);
    r := out[..size];
  }

  method Strip(d: seq<byte>) returns (r: Result<seq<byte>, PeError>)
    ensures r == Stripped(d)
  {
    var parsed := Parse(d);
    if parsed.Err? {
      return Err(parsed.error);
    }
    var h := parsed.value;
    var size := |d|;
    if h.Signed() {
      if h.certOffset + h.certSize != size {
        return Err(CertificateNotLast);
      }
      size := Cut(d, h);
    }
    assert d[..size] == Unsigned(d, h);
    var out := ClearedCopy(d, h.layout, size);
    return Ok(out);
  }

  // ---- what parsing does not depend on -----------------------------------------------

  /** Position i lies in neither of the fields signing writes. */
  predicate Outside(l: Layout, i: nat) {
    !(l.checksumAt <= i < l.checksumAt + 4) && !(l.entryAt != 0 && l.entryAt <= i < l.entryAt + 8)
  }

  /** y has x's image, but for those two fields, and whatever overlay. */
  predicate SameImage(x: seq<byte>, y: seq<byte>, l: Layout) {
    && l.imageEnd <= |x| && l.imageEnd <= |y|
    && (|y| > l.imageEnd || |x| == l.imageEnd)
    && forall i :: 0 <= i < l.imageEnd && Outside(l, i) ==> y[i] == x[i]
  }

  lemma SameNumber(x: seq<byte>, y: seq<byte>, l: Layout, at: nat, k: nat)
    requires SameImage(x, y, l) && at + k <= l.imageEnd
    requires forall i :: at <= i < at + k ==> Outside(l, i)
    ensures ReadLE(y, at, k) == ReadLE(x, at, k) && y[at..at + k] == x[at..at + k]
  {
  }

  lemma SameFront(x: seq<byte>, y: seq<byte>, l: Layout, at: nat, k: nat)
    requires SameImage(x, y, l) && at + k <= l.checksumAt <= l.imageEnd
    requires l.entryAt != 0 ==> l.checksumAt <= l.entryAt
    ensures ReadLE(y, at, k) == ReadLE(x, at, k) && y[at..at + k] == x[at..at + k]
  {
  }

  lemma SameReach(x: seq<byte>, y: seq<byte>, l: Layout, at: nat)
    requires SameImage(x, y, l) && at + 40 <= l.imageEnd
    requires l.checksumAt + 4 <= at && (l.entryAt != 0 ==> l.entryAt + 8 <= at)
    ensures SectionReach(y, at) == SectionReach(x, at)
  {
    SameNumber(x, y, l, at + 16, 4);
    SameNumber(x, y, l, at + 20, 4);
  }

  /** The sections of both reach equally far. */
  predicate ReachAlike(x: seq<byte>, y: seq<byte>, table: nat, count: nat)
    requires table + 40 * count <= |x| && table + 40 * count <= |y|
  {
    forall j :: 0 <= j < count ==> SectionReach(y, table + 40 * j) == SectionReach(x, table + 40 * j)
  }

  lemma SameReaches(x: seq<byte>, y: seq<byte>, l: Layout, table: nat, count: nat)
    requires SameImage(x, y, l) && table + 40 * count <= l.imageEnd
    requires l.checksumAt + 4 <= table && (l.entryAt != 0 ==> l.entryAt + 8 <= table)
    ensures ReachAlike(x, y, table, count)
  {
    forall j | 0 <= j < count ensures SectionReach(y, table + 40 * j) == SectionReach(x, table + 40 * j) {
      SameReach(x, y, l, table + 40 * j);
    }
  }

  lemma {:induction false} SameSections(x: seq<byte>, y: seq<byte>, table: nat, count: nat, k: nat)
    requires table + 40 * count <= |x| && table + 40 * count <= |y| && k <= count && ReachAlike(x, y, table, count)
    ensures SectionsEnd(y, table, count, k) == SectionsEnd(x, table, count, k)
  {
    if k > 0 {
      SameSections(x, y, table, count, k - 1);
    }
  }

  lemma SameEntry(x: seq<byte>, y: seq<byte>, l: Layout, opt: nat, size: nat)
    requires SameImage(x, y, l) && opt + size <= l.imageEnd && l.checksumAt == opt + 64
    requires l.entryAt == EntryAt(x, opt, size, l.plus)
    ensures EntryAt(y, opt, size, l.plus) == EntryAt(x, opt, size, l.plus)
  {
    if size >= CountAt(l.plus) + 4 {
      SameNumber(x, y, l, opt + CountAt(l.plus), 4);
    }
  }

  lemma SameOptional(x: seq<byte>, y: seq<byte>, opt: nat, size: nat, sections: nat, plus: bool)
    requires OptionalLayout(x, opt, size, sections, plus).Ok?
    requires SameImage(x, y, OptionalLayout(x, opt, size, sections, plus).value)
    ensures OptionalLayout(y, opt, size, sections, plus) == OptionalLayout(x, opt, size, sections, plus)
  {
    var l := OptionalLayout(x, opt, size, sections, plus).value;
    SameEntry(x, y, l, opt, size);
    SameReaches(x, y, l, opt + size, sections);
    SameSections(x, y, opt + size, sections, sections);
  }

  lemma SameHead(x: seq<byte>, y: seq<byte>, l: Layout)
    requires HeadOf(x).Some? && SameImage(x, y, l) && l.checksumAt == HeadOf(x).value.opt + 64 <= l.imageEnd
    requires l.entryAt != 0 ==> l.checksumAt <= l.entryAt
    ensures HeadOf(y) == HeadOf(x)
  {
    var pe := ReadLE(x, 60, 4);
    SameFront(x, y, l, 0, 2);
    assert x[0..2][0] == x[0] && y[0..2][0] == y[0] && x[0..2][1] == x[1] && y[0..2][1] == y[1];
    SameFront(x, y, l, 60, 4);
    SameFront(x, y, l, pe, 4);
    SameFront(x, y, l, pe + 24, 2);
    SameFront(x, y, l, pe + 20, 2);
    SameFront(x, y, l, pe + 6, 2);
  }

  /** Neither the overlay nor the two fields signing writes change where anything else is. */
  lemma LayoutInsensitive(x: seq<byte>, y: seq<byte>)
    requires LayoutOf(x).Ok? && SameImage(x, y, LayoutOf(x).value)
    ensures LayoutOf(y) == LayoutOf(x)
  {
    var h := HeadOf(x).value;
    SameHead(x, y, LayoutOf(x).value);
    SameOptional(x, y, h.opt, h.size, h.sections, h.plus);
  }
}
