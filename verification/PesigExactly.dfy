/** What a PE file must hold, offset by offset, for its header to be read and its signature to come off. */
module PesigExactly {
  import opened Wrappers
  import opened Bytes
  import opened Pesig

  /** The number of raw bytes of section k of the table, and where they begin. */
  function RawSize(d: seq<byte>, table: nat, k: nat): nat
    requires table + 40 * k + 40 <= |d|
  {
    ReadLE(d, table + 40 * k + 16, 4)
  }

  function RawStart(d: seq<byte>, table: nat, k: nat): nat
    requires table + 40 * k + 40 <= |d|
  {
    ReadLE(d, table + 40 * k + 20, 4)
  }

  /** The headers and the raw data of every section end at or before end, and one of them there. */
  predicate EndsAt(d: seq<byte>, table: nat, sections: nat, end: nat)
    requires table + 40 * sections <= |d|
  {
    && table + 40 * sections <= end
    && (forall k :: 0 <= k < sections && RawSize(d, table, k) != 0 ==> RawStart(d, table, k) + RawSize(d, table, k) <= end)
    && (end == table + 40 * sections
        || exists k :: 0 <= k < sections && RawSize(d, table, k) != 0 && end == RawStart(d, table, k) + RawSize(d, table, k))
  }

  /** The DOS header, the PE signature, the COFF header and the magic, for an optional header at pe + 24. */
  predicate Begins(d: seq<byte>, pe: nat) {
    && |d| >= 64 && d[0] == 77 && d[1] == 90 && pe == ReadLE(d, 60, 4) && 64 <= pe && pe + 26 <= |d|
    && d[pe] == 80 && d[pe + 1] == 69 && d[pe + 2] == 0 && d[pe + 3] == 0
    && ReadLE(d, pe + 24, 2) in {0x10b, 0x20b}
  }

  /** Where the security entry is, when the header has one. */
  function SecurityEntry(d: seq<byte>, opt: nat, size: nat, plus: bool): nat
    requires opt + size <= |d|
  {
    if plus then
      if size >= 152 && ReadLE(d, opt + 108, 4) >= 5 then opt + 144 else 0
    else
      if size >= 136 && ReadLE(d, opt + 92, 4) >= 5 then opt + 128 else 0
  }

  predicate LaidOut(d: seq<byte>, opt: nat, size: nat, sections: nat, plus: bool, l: Layout) {
    && size >= 68 && opt + size + 40 * sections <= |d| && (sections == 0 ==> opt + size < |d|)
    && l.plus == plus && l.checksumAt == opt + 64 && l.entryAt == SecurityEntry(d, opt, size, plus)
    && EndsAt(d, opt + size, sections, l.imageEnd) && l.imageEnd <= |d|
  }

  /** d is a PE file with this header. */
  predicate Describes(d: seq<byte>, pe: nat, h: Header) {
    && Begins(d, pe)
    && LaidOut(d, pe + 24, ReadLE(d, pe + 20, 2), ReadLE(d, pe + 6, 2), ReadLE(d, pe + 24, 2) == 0x20b, h.layout)
    && (if h.layout.entryAt == 0 then h.certOffset == 0 && h.certSize == 0
        else h.layout.entryAt + 8 <= |d| && h.certOffset == ReadLE(d, h.layout.entryAt, 4) && h.certSize == ReadLE(d, h.layout.entryAt + 4, 4))
    && (h.certSize != 0 ==> h.layout.imageEnd <= h.certOffset && h.certOffset + h.certSize <= |d|)
  }

  // ---- the header is read exactly then -----------------------------------------------------

  predicate EndsUpTo(d: seq<byte>, table: nat, sections: nat, k: nat, end: nat)
    requires table + 40 * sections <= |d| && k <= sections
  {
    && table + 40 * sections <= end
    && (forall j :: 0 <= j < k && RawSize(d, table, j) != 0 ==> RawStart(d, table, j) + RawSize(d, table, j) <= end)
    && (end == table + 40 * sections
        || exists j :: 0 <= j < k && RawSize(d, table, j) != 0 && end == RawStart(d, table, j) + RawSize(d, table, j))
  }

  lemma {:induction false} SectionsEndUpTo(d: seq<byte>, table: nat, sections: nat, k: nat)
    requires table + 40 * sections <= |d| && k <= sections
    ensures EndsUpTo(d, table, sections, k, SectionsEnd(d, table, sections, k))
  {
    if k > 0 {
      SectionsEndUpTo(d, table, sections, k - 1);
      assert SectionReach(d, table + 40 * (k - 1)) ==
             if RawSize(d, table, k - 1) == 0 then 0 else RawStart(d, table, k - 1) + RawSize(d, table, k - 1);
    }
  }

  lemma EndExactly(d: seq<byte>, table: nat, sections: nat, end: nat)
    requires table + 40 * sections <= |d|
    ensures EndsAt(d, table, sections, end) <==> end == SectionsEnd(d, table, sections, sections)
  {
    SectionsEndUpTo(d, table, sections, sections);
  }

  lemma LayoutExactly(d: seq<byte>, opt: nat, size: nat, sections: nat, plus: bool, l: Layout)
    ensures OptionalLayout(d, opt, size, sections, plus) == Ok(l) <==> LaidOut(d, opt, size, sections, plus, l)
  {
    if size >= 68 && opt + size + 40 * sections <= |d| {
      EndExactly(d, opt + size, sections, l.imageEnd);
      assert EntryAt(d, opt, size, plus) == SecurityEntry(d, opt, size, plus);
    }
  }

  lemma BeginsExactly(d: seq<byte>)
    ensures HeadOf(d).Some? <==> |d| >= 64 && Begins(d, ReadLE(d, 60, 4))
    ensures HeadOf(d).Some? ==>
              var pe := ReadLE(d, 60, 4); HeadOf(d).value == Head(pe + 24, ReadLE(d, pe + 20, 2), ReadLE(d, pe + 6, 2), ReadLE(d, pe + 24, 2) == 0x20b)
  {
    if |d| >= 64 {
      var pe := ReadLE(d, 60, 4);
      if pe + 26 <= |d| {
        assert d[pe..pe + 4] == [d[pe], d[pe + 1], d[pe + 2], d[pe + 3]];
      }
    }
  }

  /** A header is read exactly when the file describes it. */
  lemma ParsesExactly(d: seq<byte>, h: Header)
    ensures HeaderOf(d) == Ok(h) <==> |d| >= 64 && Describes(d, ReadLE(d, 60, 4), h)
  {
    BeginsExactly(d);
    if HeadOf(d).Some? {
      var head := HeadOf(d).value;
      LayoutExactly(d, head.opt, head.size, head.sections, head.plus, h.layout);
      CertificateExactly(d, head, h);
    }
  }

  lemma CertificateExactly(d: seq<byte>, head: Head, h: Header)
    requires HeadOf(d) == Some(head)
    ensures HeaderOf(d) == Ok(h) <==>
            && OptionalLayout(d, head.opt, head.size, head.sections, head.plus) == Ok(h.layout)
            && (if h.layout.entryAt == 0 then h.certOffset == 0 && h.certSize == 0
                else h.layout.entryAt + 8 <= |d| && h.certOffset == ReadLE(d, h.layout.entryAt, 4) && h.certSize == ReadLE(d, h.layout.entryAt + 4, 4))
            && (h.certSize != 0 ==> h.layout.imageEnd <= h.certOffset && h.certOffset + h.certSize <= |d|)
  {
  }

  // ---- what Strip leaves ------------------------------------------------------------------

  /** Between the image and the certificate table lie just the zeros that take the image to a multiple of eight. */
  predicate OnlyPadding(d: seq<byte>, h: Header)
    requires h.layout.imageEnd <= h.certOffset <= |d|
  {
    && h.layout.imageEnd % 8 != 0 && h.certOffset == h.layout.imageEnd / 8 * 8 + 8
    && forall i :: h.layout.imageEnd <= i < h.certOffset ==> d[i] == 0
  }

  /** z is d up to its signature with checksum and security entry zero. */
  predicate StripsTo(d: seq<byte>, h: Header, z: seq<byte>) {
    && |z| <= |d| && h.layout.imageEnd <= h.End(|d|) <= |d|
    && (h.certSize != 0 ==> h.certOffset + h.certSize == |d|)
    && |z| == (if h.certSize == 0 then |d| else if OnlyPadding(d, h) then h.layout.imageEnd else h.certOffset)
    && forall i :: 0 <= i < |z| ==>
         z[i] == if h.layout.checksumAt <= i < h.layout.checksumAt + 4 || (h.layout.entryAt != 0 && h.layout.entryAt <= i < h.layout.entryAt + 8) then 0
                 else d[i]
  }

  lemma PaddingExactly(d: seq<byte>, h: Header)
    requires h.certSize != 0 && h.layout.imageEnd <= h.certOffset <= |d|
    ensures |Unsigned(d, h)| == if OnlyPadding(d, h) then h.layout.imageEnd else h.certOffset
    ensures Unsigned(d, h) == d[..|Unsigned(d, h)|]
  {
    var end := h.layout.imageEnd;
    var tail := d[end..h.certOffset];
    assert end + PadTo8(end) == if end % 8 == 0 then end else end / 8 * 8 + 8;
    if AllZero(tail) {
      forall i | end <= i < h.certOffset ensures d[i] == 0 {
        assert tail[i - end] == d[i];
      }
    } else {
      var i :| 0 <= i < |tail| && tail[i] != 0;
      assert d[end + i] != 0;
    }
  }

  lemma ClearedExactly(d: seq<byte>, l: Layout, z: seq<byte>)
    requires l.checksumAt + 4 <= |d| && l.entryAt + 8 <= |d| && (l.entryAt != 0 ==> l.checksumAt + 4 <= l.entryAt)
    ensures z == Cleared(d, l) <==>
            |z| == |d| && forall i :: 0 <= i < |z| ==>
              z[i] == if l.checksumAt <= i < l.checksumAt + 4 || (l.entryAt != 0 && l.entryAt <= i < l.entryAt + 8) then 0 else d[i]
  {
    var c := Cleared(d, l);
    assert forall i :: 0 <= i < |d| ==>
      c[i] == if l.checksumAt <= i < l.checksumAt + 4 || (l.entryAt != 0 && l.entryAt <= i < l.entryAt + 8) then 0 else d[i];
  }

  /** Strip gives z exactly when the file has a header under which z is what is left of it. */
  lemma StripsExactly(d: seq<byte>, z: seq<byte>)
    ensures Stripped(d) == Ok(z) <==> exists h :: |d| >= 64 && Describes(d, ReadLE(d, 60, 4), h) && StripsTo(d, h, z)
  {
    if HeaderOf(d).Ok? {
      var h := HeaderOf(d).value;
      ParsesExactly(d, h);
      HeaderBounds(d, h);
      UnsignedExactly(d, h, z);
    }
    forall h ensures HeaderOf(d) == Ok(h) <==> |d| >= 64 && Describes(d, ReadLE(d, 60, 4), h) {
      ParsesExactly(d, h);
    }
  }

  lemma HeaderBounds(d: seq<byte>, h: Header)
    requires HeaderOf(d) == Ok(h)
    ensures 8 <= h.layout.imageEnd && h.layout.checksumAt + 4 <= h.layout.imageEnd <= h.End(|d|) <= |d|
    ensures h.layout.entryAt != 0 ==> h.layout.checksumAt + 4 <= h.layout.entryAt && h.layout.entryAt + 8 <= h.layout.imageEnd
    ensures Stripped(d) == if h.Signed() && h.certOffset + h.certSize != |d| then Err(CertificateNotLast)
                           else Ok(Cleared(Unsigned(d, h), h.layout))
  {
  }

  lemma UnsignedExactly(d: seq<byte>, h: Header, z: seq<byte>)
    requires 8 <= h.layout.imageEnd && h.layout.checksumAt + 4 <= h.layout.imageEnd <= h.End(|d|) <= |d|
    requires h.layout.entryAt != 0 ==> h.layout.checksumAt + 4 <= h.layout.entryAt && h.layout.entryAt + 8 <= h.layout.imageEnd
    ensures StripsTo(d, h, z) <==> (h.Signed() ==> h.certOffset + h.certSize == |d|) && z == Cleared(Unsigned(d, h), h.layout)
  {
    var u := Unsigned(d, h);
    if h.Signed() {
      PaddingExactly(d, h);
    }
    assert u == d[..|u|];
    ClearedExactly(u, h.layout, z);
  }
}
