/** What a signing tool does to a PE file, and that Strip undoes it. */
module PesigSigning {
  import opened Wrappers
  import opened Bytes
  import opened Pesig

  /** A file a tool can sign with this certificate table. */
  predicate Signable(x: seq<byte>, cert: seq<byte>) {
    && HeaderOf(x).Ok? && !HeaderOf(x).value.Signed() && HeaderOf(x).value.layout.entryAt != 0
    && cert != [] && |x| + 8 + |cert| < 0x1_0000_0000
  }

  function Padded(x: seq<byte>): (p: seq<byte>)
    ensures |p| == |x| + PadTo8(|x|) && |p| % 8 == 0
  {
    x + Zeros(PadTo8(|x|))
  }

  /** The file before its table is put on: padded, the security entry pointing behind it, the checksum redone. */
  function Pointed(x: seq<byte>, l: Layout, certSize: nat, checksum: seq<byte>): (p: seq<byte>)
    requires |checksum| == 4 && l.checksumAt + 4 <= |x| && l.entryAt + 8 <= |x|
    ensures |p| == |Padded(x)|
  {
    Patch(Patch(Padded(x), l.entryAt, LE(|Padded(x)|, 4) + LE(certSize, 4)), l.checksumAt, checksum)
  }

  function Sign(x: seq<byte>, cert: seq<byte>, checksum: seq<byte>): seq<byte>
    requires Signable(x, cert) && |checksum| == 4
  {
    Pointed(x, HeaderOf(x).value.layout, |cert|, checksum) + cert
  }

  /** Signing changes the two fields and what lies past the file, nothing else. */
  lemma SigningTouches(x: seq<byte>, cert: seq<byte>, checksum: seq<byte>)
    requires Signable(x, cert) && |checksum| == 4
    ensures var l := HeaderOf(x).value.layout;
            forall i :: 0 <= i < |x| && Outside(l, i) ==> Sign(x, cert, checksum)[i] == x[i]
  {
  }

  lemma SigningKeepsLayout(x: seq<byte>, cert: seq<byte>, checksum: seq<byte>)
    requires Signable(x, cert) && |checksum| == 4
    ensures LayoutOf(Sign(x, cert, checksum)) == LayoutOf(x)
  {
    SigningTouches(x, cert, checksum);
    LayoutInsensitive(x, Sign(x, cert, checksum));
  }

  lemma EntryWritten(x: seq<byte>, l: Layout, certSize: nat, checksum: seq<byte>, rest: seq<byte>)
    requires |checksum| == 4 && l.checksumAt + 4 <= l.entryAt && l.entryAt + 8 <= |x|
    requires |x| + 8 < 0x1_0000_0000 && certSize < 0x1_0000_0000
    ensures var y := Pointed(x, l, certSize, checksum) + rest;
            ReadLE(y, l.entryAt, 4) == |Padded(x)| && ReadLE(y, l.entryAt + 4, 4) == certSize
  {
    var y := Pointed(x, l, certSize, checksum) + rest;
    Pow256Values();
    LERoundTrip(|Padded(x)|, 4);
    LERoundTrip(certSize, 4);
    assert y[l.entryAt..l.entryAt + 4] == LE(|Padded(x)|, 4);
    assert y[l.entryAt + 4..l.entryAt + 4 + 4] == LE(certSize, 4);
  }

  lemma HeaderFrom(y: seq<byte>, l: Layout, offset: uint32, size: uint32)
    requires LayoutOf(y) == Ok(l) && l.entryAt != 0
    requires ReadLE(y, l.entryAt, 4) == offset && ReadLE(y, l.entryAt + 4, 4) == size
    requires size != 0 && l.imageEnd <= offset && offset + size <= |y|
    ensures HeaderOf(y) == Ok(Header(l, offset, size))
  {
  }

  /** The signed file parses to the same layout and the table that was put on. */
  lemma SignParses(x: seq<byte>, cert: seq<byte>, checksum: seq<byte>)
    requires Signable(x, cert) && |checksum| == 4
    ensures HeaderOf(Sign(x, cert, checksum)) == Ok(Header(HeaderOf(x).value.layout, |Padded(x)|, |cert|))
  {
    var l := HeaderOf(x).value.layout;
    SigningKeepsLayout(x, cert, checksum);
    EntryWritten(x, l, |cert|, checksum, cert);
    HeaderFrom(Sign(x, cert, checksum), l, |Padded(x)|, |cert|);
  }

  /** Clearing forgets what signing wrote. */
  lemma ClearedForgets(x: seq<byte>, l: Layout, certSize: nat, checksum: seq<byte>)
    requires |checksum| == 4 && l.checksumAt + 4 <= |x| && l.entryAt + 8 <= |x| && l.entryAt != 0
    ensures Cleared(Pointed(x, l, certSize, checksum), l) == Cleared(Padded(x), l)
  {
  }

  /** Whether Strip takes a signed file's image for the whole of it. */
  predicate CutsToImage(x: seq<byte>, l: Layout)
    requires l.imageEnd <= |x|
  {
    PadTo8(l.imageEnd) > 0 && |Padded(x)| - l.imageEnd == PadTo8(l.imageEnd) && AllZero(Padded(x)[l.imageEnd..])
  }

  lemma CutPointed(x: seq<byte>, l: Layout, cert: seq<byte>, checksum: seq<byte>)
    requires |checksum| == 4 && l.checksumAt + 4 <= l.imageEnd <= |x| && l.entryAt + 8 <= l.imageEnd && l.entryAt != 0
    requires cert != [] && |Padded(x)| < 0x1_0000_0000 && |cert| < 0x1_0000_0000
    ensures var y := Pointed(x, l, |cert|, checksum) + cert;
            Cleared(Unsigned(y, Header(l, |Padded(x)|, |cert|)), l)
            == Cleared(if CutsToImage(x, l) then x[..l.imageEnd] else Padded(x), l)
  {
    var p := Pointed(x, l, |cert|, checksum);
    var y := p + cert;
    assert y[..|p|] == p;
    assert y[l.imageEnd..|p|] == Padded(x)[l.imageEnd..];
    ClearedForgets(x, l, |cert|, checksum);
    if CutsToImage(x, l) {
      assert y[..l.imageEnd] == p[..l.imageEnd];
      ClearedPrefix(p, l, l.imageEnd);
      ClearedPrefix(Padded(x), l, l.imageEnd);
      assert Padded(x)[..l.imageEnd] == x[..l.imageEnd];
    }
  }

  lemma StrippedFrom(d: seq<byte>, h: Header)
    requires HeaderOf(d) == Ok(h) && (h.Signed() ==> h.certOffset + h.certSize == |d|)
    ensures h.layout.imageEnd <= h.End(|d|) <= |d| && h.layout.entryAt + 8 <= h.layout.imageEnd
    ensures Stripped(d) == Ok(Cleared(Unsigned(d, h), h.layout))
  {
  }

  lemma StripSigned(x: seq<byte>, cert: seq<byte>, checksum: seq<byte>)
    requires Signable(x, cert) && |checksum| == 4
    ensures var l := HeaderOf(x).value.layout;
            Stripped(Sign(x, cert, checksum)) == Ok(Cleared(if CutsToImage(x, l) then x[..l.imageEnd] else Padded(x), l))
  {
    var l := HeaderOf(x).value.layout;
    SignParses(x, cert, checksum);
    StrippedFrom(Sign(x, cert, checksum), Header(l, |Padded(x)|, |cert|));
    CutPointed(x, l, cert, checksum);
  }

  lemma StripUnsigned(x: seq<byte>)
    requires HeaderOf(x).Ok? && !HeaderOf(x).value.Signed()
    ensures Stripped(x) == Ok(Cleared(x, HeaderOf(x).value.layout))
  {
  }

  /** The condition under which Strip gives back what was signed. */
  predicate Recovers(x: seq<byte>, l: Layout)
    requires l.imageEnd <= |x|
  {
    |x| == l.imageEnd || (|x| % 8 == 0 && !(|x| - l.imageEnd == PadTo8(l.imageEnd) && AllZero(x[l.imageEnd..])))
  }

  lemma WhenCut(x: seq<byte>, l: Layout)
    requires l.imageEnd <= |x|
    ensures CutsToImage(x, l) ==> (Recovers(x, l) <==> |x| == l.imageEnd)
    ensures !CutsToImage(x, l) ==> (Recovers(x, l) <==> PadTo8(|x|) == 0)
  {
    var o := x[l.imageEnd..];
    assert Padded(x)[l.imageEnd..] == o + Zeros(PadTo8(|x|));
    if PadTo8(|x|) == 0 {
      assert Padded(x)[l.imageEnd..] == o;
    }
    if |x| == l.imageEnd {
      assert AllZero(Padded(x)[l.imageEnd..]);
    }
  }

  lemma RecoveredWhen(x: seq<byte>, l: Layout)
    requires l.checksumAt + 4 <= l.imageEnd <= |x| && l.entryAt + 8 <= l.imageEnd
    ensures Cleared(if CutsToImage(x, l) then x[..l.imageEnd] else Padded(x), l) == Cleared(x, l) <==> Recovers(x, l)
  {
    WhenCut(x, l);
    if |x| == l.imageEnd {
      assert x[..l.imageEnd] == x;
    }
    if PadTo8(|x|) == 0 {
      assert Padded(x) == x;
    }
  }

  /** What the two strips give, and when it is the same. */
  lemma BothStripped(x: seq<byte>, cert: seq<byte>, checksum: seq<byte>) returns (a: seq<byte>, b: seq<byte>)
    requires Signable(x, cert) && |checksum| == 4
    ensures Stripped(Sign(x, cert, checksum)) == Ok(a) && Stripped(x) == Ok(b)
    ensures a == b <==> Recovers(x, HeaderOf(x).value.layout)
  {
    var l := HeaderOf(x).value.layout;
    a := Cleared(if CutsToImage(x, l) then x[..l.imageEnd] else Padded(x), l);
    b := Cleared(x, l);
    assert a == b <==> Recovers(x, l) by { RecoveredWhen(x, l); }
    assert Stripped(x) == Ok(b) by { StripUnsigned(x); }
    assert Stripped(Sign(x, cert, checksum)) == Ok(a) by { StripSigned(x, cert, checksum); }
  }

  /**
   * Strip undoes signing exactly when the file carries nothing past its
   * image, or what it carries ends on the table's boundary and is not just
   * the zeros that would take the image there.
   */
  lemma StripUndoesSigning(x: seq<byte>, cert: seq<byte>, checksum: seq<byte>)
    requires Signable(x, cert) && |checksum| == 4
    ensures Stripped(Sign(x, cert, checksum)) == Stripped(x) <==> Recovers(x, HeaderOf(x).value.layout)
  {
    var a, b := BothStripped(x, cert, checksum);
    assert Result<seq<byte>, PeError>.Ok(a) == Result<seq<byte>, PeError>.Ok(b) <==> a == b;
  }
}
