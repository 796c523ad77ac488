/** What is packed is found again: plain, padded, signed, and after the signature has come off. */
module PayloadRoundTrip {
  import opened Wrappers
  import opened Bytes
  import Pesig
  import PesigSigning
  import opened Payload

  /** The codec does right by these entries: their manifest decodes to itself and digests are 64 hex digits. */
  predicate Faithful(c: Codec, version: string, entries: seq<Entry>) {
    && c.encode(ManifestFor(c, version, entries)) != []
    && c.decode(c.encode(ManifestFor(c, version, entries))) == Some(ManifestFor(c, version, entries))
    && forall i :: 0 <= i < |entries| ==> Sha(c.digest(entries[i].data))
  }

  /** Entries Append takes, whatever the executable. */
  predicate Packable(c: Codec, version: string, entries: seq<Entry>) {
    && 0 < |entries| <= MAX_FILES && BadEntry(entries, 0).None? && |Join(entries)| <= MAX_TOTAL
    && |c.encode(ManifestFor(c, version, entries))| <= MAX_MANIFEST
    && Faithful(c, version, entries)
  }

  // ---- the manifest describes the data -------------------------------------------------

  lemma {:induction false} JoinAt(entries: seq<Entry>, i: nat)
    requires i < |entries|
    ensures |Join(entries[..i])| + |entries[i].data| <= |Join(entries)|
    ensures Join(entries)[|Join(entries[..i])|..|Join(entries[..i])| + |entries[i].data|] == entries[i].data
    decreases |entries|
  {
    var n := |entries| - 1;
    if i < n {
      JoinAt(entries[..n], i);
      assert entries[..n][..i] == entries[..i];
      assert Join(entries)[..|Join(entries[..n])|] == Join(entries[..n]);
    }
  }

  lemma {:induction false} SizesAreLengths(c: Codec, entries: seq<Entry>, i: nat)
    requires i <= |entries|
    ensures Sizes(FilesOf(c, entries)[..i]) == |Join(entries[..i])|
  {
    if i > 0 {
      SizesAreLengths(c, entries, i - 1);
      SizesOne(FilesOf(c, entries), i - 1);
      JoinOne(entries, i - 1);
    }
  }

  lemma SameNames(c: Codec, entries: seq<Entry>, k: nat)
    requires k <= |entries|
    ensures FileNames(FilesOf(c, entries)[..k]) == Names(entries[..k])
  {
  }

  lemma {:induction false} FilesGood(c: Codec, entries: seq<Entry>, k: nat)
    requires k <= |entries| && BadEntry(entries, k).None? && |Join(entries)| <= MAX_TOTAL
    requires forall i :: 0 <= i < |entries| ==> Sha(c.digest(entries[i].data))
    ensures BadFile(FilesOf(c, entries), k).None?
    decreases |entries| - k
  {
    if k < |entries| {
      SameNames(c, entries, k);
      SizesAreLengths(c, entries, k + 1);
      JoinOne(entries, k);
      JoinAt(entries, k);
      FilesGood(c, entries, k + 1);
    }
  }

  // ---- the footer is found ------------------------------------------------------------------

  /** Between image and signature d holds the payload that starts at start, then t zeros. */
  predicate Holds(d: seq<byte>, start: nat, end: nat, data: seq<byte>, m: seq<byte>, t: nat) {
    start <= end <= |d| && d[start..end] == Tail(start, data, m) + Zeros(t)
  }

  lemma MagicStartsOnce(i: nat)
    requires i < 8
    ensures |MAGIC| == 8 && (MAGIC[i] == 77 <==> i == 0)
  {
  }

  lemma FooterStarts(n: nat, m: nat)
    ensures |MAGIC| == 8 && Footer(n, m)[..8] == MAGIC
  {
  }

  /** A footer shifted by one to seven bytes does not open with the magic: only its first byte is that. */
  lemma ShiftedMisses(f: seq<byte>, rest: seq<byte>, shift: nat)
    requires |MAGIC| == 8 && |f| == FOOTER_SIZE && f[..8] == MAGIC && shift < 8
    ensures (f + rest)[shift..shift + 8] == MAGIC <==> shift == 0
  {
    MagicStartsOnce(shift);
    MagicStartsOnce(0);
    var w := (f + rest)[shift..shift + 8];
    assert w[0] == f[..8][shift] == MAGIC[shift];
    if shift == 0 {
      assert w == f[..8];
    }
  }

  /** With the footer f t bytes before end, and zeros after it, the search stops there and nowhere closer. */
  lemma {:induction false} SearchFinds(d: seq<byte>, imageEnd: nat, at: nat, f: seq<byte>, t: nat, k: nat)
    requires |MAGIC| == 8 && |f| == FOOTER_SIZE && f[..8] == MAGIC && k <= t < 8 && imageEnd <= at
    requires at + FOOTER_SIZE + t <= |d| && d[at..at + FOOTER_SIZE + t] == f + Zeros(t)
    ensures Search(d, imageEnd, at + FOOTER_SIZE + t, k) == Some(t)
    decreases t - k
  {
    ShiftedMisses(f, Zeros(t), t - k);
    Inside(d, at, f + Zeros(t), t - k, t - k + 8);
    if k < t {
      SearchFinds(d, imageEnd, at, f, t, k + 1);
    }
  }

  lemma {:induction false} ZerosAreLE(k: nat)
    ensures LE(0, k) == Zeros(k)
  {
    if k > 0 { ZerosAreLE(k - 1); }
  }

  lemma ZeroReads(d: seq<byte>, at: nat, k: nat)
    requires at + k <= |d| && AllZero(d[at..at + k])
    ensures ReadLE(d, at, k) == 0
  {
    ZerosAreLE(k);
    LERoundTrip(0, k);
    assert d[at..at + k] == Zeros(k) == LE(0, k);
  }

  lemma FooterFields(n: nat, m: nat)
    requires n < 0x1_0000_0000 && m < 0x1_0000_0000
    ensures ReadLE(Footer(n, m), 8, 8) == n && ReadLE(Footer(n, m), 16, 8) == m && ReadLE(Footer(n, m), 24, 8) == 0
  {
    var f := Footer(n, m);
    Pow256Values();
    LERoundTrip(n, 8);
    LERoundTrip(m, 8);
    var a, b := LE(n, 8), LE(m, 8);
    assert f == MAGIC + a + b + Zeros(8);
    forall i | 0 <= i < 8 ensures f[8 + i] == a[i] && f[16 + i] == b[i] && f[24 + i] == 0 {
    }
    assert f[8..8 + 8] == a;
    assert f[16..16 + 8] == b;
    ZeroReads(f, 24, 8);
  }

  /** The manifest, the footer and the zeros after it, each where it is. */
  lemma HeldParts(d: seq<byte>, start: nat, end: nat, data: seq<byte>, m: seq<byte>, t: nat)
    requires Holds(d, start, end, data, m, t)
    ensures var n := |Body(start, data, m)|; var at := start + n;
            && n >= |m| && at + FOOTER_SIZE + t == end
            && d[at - |m|..at] == m && d[at..end] == Footer(n, |m|) + Zeros(t) && d[end - t..end] == Zeros(t)
  {
    var n := |Body(start, data, m)|;
    var f := Footer(n, |m|);
    var s := Body(start, data, m) + f + Zeros(t);
    assert d[start..start + |s|] == s;
    Inside(d, start, s, n - |m|, n);
    Inside(d, start, s, n, |s|);
    Inside(d, start, s, |s| - t, |s|);
    assert s[n - |m|..n] == m && s[n..|s|] == f + Zeros(t) && s[|s| - t..] == Zeros(t);
  }

  lemma FooterReads(d: seq<byte>, at: nat, f: seq<byte>, t: nat)
    requires |f| == FOOTER_SIZE && at + FOOTER_SIZE + t <= |d| && d[at..at + FOOTER_SIZE + t] == f + Zeros(t)
    ensures ReadLE(d, at + 8, 8) == ReadLE(f, 8, 8) && ReadLE(d, at + 16, 8) == ReadLE(f, 16, 8)
    ensures ReadLE(d, at + 24, 8) == ReadLE(f, 24, 8)
  {
    var s := f + Zeros(t);
    Inside(d, at, s, 8, 16);
    Inside(d, at, s, 16, 24);
    Inside(d, at, s, 24, 32);
    assert s[8..16] == f[8..16] && s[16..24] == f[16..24] && s[24..32] == f[24..32];
  }

  // ---- the round trip -------------------------------------------------------------------------

  /** Where the data of each entry starts, end to end from start. */
  function Starts(entries: seq<Entry>, start: nat): (o: seq<nat>)
    ensures |o| == |entries| && forall i :: 0 <= i < |entries| ==> o[i] == start + |Join(entries[..i])|
  {
    seq(|entries|, i requires 0 <= i < |entries| => start + |Join(entries[..i])|)
  }

  /** What Locate must answer for entries packed at start. */
  function Expected(c: Codec, start: nat, version: string, entries: seq<Entry>): Info {
    var m := c.encode(ManifestFor(c, version, entries));
    Info(ManifestFor(c, version, entries), start, start + |Tail(start, Join(entries), m)|, m, Starts(entries, start))
  }

  lemma OffsetsAreStarts(c: Codec, entries: seq<Entry>, start: nat)
    ensures forall i :: 0 <= i <= |entries| ==> Sizes(FilesOf(c, entries)[..i]) >= 0
    ensures Offsets(FilesOf(c, entries), start) == Starts(entries, start)
  {
    forall i | 0 <= i <= |entries| ensures Sizes(FilesOf(c, entries)[..i]) == |Join(entries[..i])| {
      SizesAreLengths(c, entries, i);
    }
  }

  lemma SizesInAll(c: Codec, entries: seq<Entry>)
    ensures Sizes(FilesOf(c, entries)) == |Join(entries)|
  {
    SizesAreLengths(c, entries, |entries|);
    assert FilesOf(c, entries)[..|entries|] == FilesOf(c, entries) && entries[..|entries|] == entries;
  }

  /** The footer at at speaks of n bytes of payload and m of manifest. */
  predicate Fields(d: seq<byte>, at: nat, n: nat, m: nat)
    requires at + FOOTER_SIZE <= |d|
  {
    ReadLE(d, at + 8, 8) == n && ReadLE(d, at + 16, 8) == m && ReadLE(d, at + 24, 8) == 0
  }

  lemma FieldsRead(d: seq<byte>, at: nat, n: nat, m: nat, t: nat)
    requires n < 0x1_0000_0000 && m < 0x1_0000_0000
    requires at + FOOTER_SIZE + t <= |d| && d[at..at + FOOTER_SIZE + t] == Footer(n, m) + Zeros(t)
    ensures Fields(d, at, n, m)
  {
    FooterReads(d, at, Footer(n, m), t);
    FooterFields(n, m);
  }

  lemma FooterSought(d: seq<byte>, imageEnd: nat, at: nat, n: nat, m: nat, t: nat)
    requires t < 8 && imageEnd <= at && at + FOOTER_SIZE + t <= |d| && d[at..at + FOOTER_SIZE + t] == Footer(n, m) + Zeros(t)
    ensures Search(d, imageEnd, at + FOOTER_SIZE + t, 0) == Some(t)
  {
    FooterStarts(n, m);
    SearchFinds(d, imageEnd, at, Footer(n, m), t, 0);
  }

  /** The search ends t bytes before end, at a footer whose fields and manifest are there to read. */
  predicate FooterAt(d: seq<byte>, imageEnd: nat, start: nat, end: nat, n: nat, m: seq<byte>, t: nat) {
    && end == start + n + FOOTER_SIZE + t <= |d| && |m| <= n && imageEnd <= start
    && Search(d, imageEnd, end, 0) == Some(t) && AllZero(d[end - t..end])
    && Fields(d, start + n, n, |m|)
    && d[start + n - |m|..start + n] == m
  }

  lemma FooterFound(d: seq<byte>, imageEnd: nat, start: nat, end: nat, data: seq<byte>, m: seq<byte>, t: nat)
    requires Holds(d, start, end, data, m, t) && imageEnd <= start && t < 8
    requires |data| <= MAX_TOTAL && |m| <= MAX_MANIFEST
    ensures FooterAt(d, imageEnd, start, end, |Body(start, data, m)|, m, t)
  {
    var n := |Body(start, data, m)|;
    HeldParts(d, start, end, data, m, t);
    FooterSought(d, imageEnd, start + n, n, |m|, t);
    FieldsRead(d, start + n, n, |m|, t);
  }

  /** Reading a footer that speaks of n bytes of payload, the last of them the manifest. */
  lemma LocatesAtFooter(c: Codec, d: seq<byte>, imageEnd: nat, start: nat, end: nat, n: nat, version: string,
      entries: seq<Entry>, t: nat)
    requires Packable(c, version, entries)
    requires FooterAt(d, imageEnd, start, end, n, c.encode(ManifestFor(c, version, entries)), t)
    requires n == |Body(start, Join(entries), c.encode(ManifestFor(c, version, entries)))|
    ensures LocatedIn(c, d, imageEnd, end) == Ok(Expected(c, start, version, entries))
  {
    assert LocatedIn(c, d, imageEnd, end) == LocatedAt(c, d, imageEnd, start + n);
    FilesLocated(c, d, imageEnd, start, n, version, entries);
  }

  lemma FilesLocated(c: Codec, d: seq<byte>, imageEnd: nat, start: nat, n: nat, version: string, entries: seq<Entry>)
    requires Packable(c, version, entries) && imageEnd <= start && start + n + FOOTER_SIZE <= |d|
    requires var m := c.encode(ManifestFor(c, version, entries));
             && Fields(d, start + n, n, |m|) && n == |Body(start, Join(entries), m)| && d[start + n - |m|..start + n] == m
    ensures LocatedAt(c, d, imageEnd, start + n) == Ok(Expected(c, start, version, entries))
  {
    FilesGood(c, entries, 0);
    OffsetsAreStarts(c, entries, start);
    SizesInAll(c, entries);
  }

  /** Whatever follows, a payload between image and signature is found, with at most seven zeros after it. */
  lemma LocatesPacked(c: Codec, d: seq<byte>, imageEnd: nat, start: nat, end: nat, version: string, entries: seq<Entry>, t: nat)
    requires Packable(c, version, entries) && imageEnd <= start && t < 8
    requires Holds(d, start, end, Join(entries), c.encode(ManifestFor(c, version, entries)), t)
    ensures LocatedIn(c, d, imageEnd, end) == Ok(Expected(c, start, version, entries))
  {
    var m := c.encode(ManifestFor(c, version, entries));
    FooterFound(d, imageEnd, start, end, Join(entries), m, t);
    LocatesAtFooter(c, d, imageEnd, start, end, |Body(start, Join(entries), m)|, version, entries, t);
  }

  // ---- packages ---------------------------------------------------------------------------------

  /** An unsigned executable with nothing past its image. */
  predicate Base(exe: seq<byte>) {
    Pesig.HeaderOf(exe).Ok? && !Pesig.HeaderOf(exe).value.Signed() && Pesig.HeaderOf(exe).value.layout.imageEnd == |exe|
  }

  function Package(c: Codec, exe: seq<byte>, version: string, entries: seq<Entry>): seq<byte> {
    exe + Tail(|exe|, Join(entries), c.encode(ManifestFor(c, version, entries)))
  }

  /** When Append succeeds, and what it makes. */
  lemma AppendMakes(c: Codec, exe: seq<byte>, version: string, entries: seq<Entry>)
    requires Appended(c, exe, version, entries).Ok? && Faithful(c, version, entries)
    ensures Base(exe) && Packable(c, version, entries)
    ensures Appended(c, exe, version, entries) == Ok(Package(c, exe, version, entries))
  {
  }

  lemma SameHeader(x: seq<byte>, y: seq<byte>, l: Pesig.Layout)
    requires Pesig.HeaderOf(x).Ok? && !Pesig.HeaderOf(x).value.Signed() && Pesig.LayoutOf(x) == Pesig.LayoutOf(y) == Ok(l)
    requires l.entryAt != 0 ==> && ReadLE(y, l.entryAt, 4) == ReadLE(x, l.entryAt, 4)
                                && ReadLE(y, l.entryAt + 4, 4) == ReadLE(x, l.entryAt + 4, 4)
    ensures Pesig.HeaderOf(y) == Pesig.HeaderOf(x)
  {
  }

  lemma ReadsFront(x: seq<byte>, more: seq<byte>, at: nat, k: nat)
    requires at + k <= |x|
    ensures ReadLE(x + more, at, k) == ReadLE(x, at, k)
  {
    assert (x + more)[at..at + k] == x[at..at + k];
  }

  /** An overlay changes nothing about how an executable parses. */
  lemma ParsesWithOverlay(exe: seq<byte>, overlay: seq<byte>)
    requires Base(exe)
    ensures Pesig.HeaderOf(exe + overlay) == Pesig.HeaderOf(exe)
  {
    var l := Pesig.HeaderOf(exe).value.layout;
    assert Pesig.LayoutOf(exe + overlay) == Ok(l) by { Pesig.LayoutInsensitive(exe, exe + overlay); }
    if l.entryAt != 0 {
      ReadsFront(exe, overlay, l.entryAt, 4);
      ReadsFront(exe, overlay, l.entryAt + 4, 4);
    }
    SameHeader(exe, exe + overlay, l);
  }

  lemma LocatedBehind(c: Codec, d: seq<byte>, h: Pesig.Header)
    requires Pesig.HeaderOf(d) == Ok(h)
    ensures h.End(|d|) <= |d| && Located(c, d) == LocatedIn(c, d, h.layout.imageEnd, h.End(|d|))
  {
  }

  lemma PackageHolds(c: Codec, exe: seq<byte>, version: string, entries: seq<Entry>, t: nat)
    ensures var d := Package(c, exe, version, entries) + Zeros(t);
            Holds(d, |exe|, |d|, Join(entries), c.encode(ManifestFor(c, version, entries)), t)
  {
    var d := Package(c, exe, version, entries) + Zeros(t);
    assert d[|exe|..|d|] == Tail(|exe|, Join(entries), c.encode(ManifestFor(c, version, entries))) + Zeros(t);
  }

  lemma PackageLocates(c: Codec, exe: seq<byte>, version: string, entries: seq<Entry>, t: nat)
    requires Base(exe) && Packable(c, version, entries) && t < 8
    ensures Located(c, Package(c, exe, version, entries) + Zeros(t)) == Ok(Expected(c, |exe|, version, entries))
  {
    var tail := Tail(|exe|, Join(entries), c.encode(ManifestFor(c, version, entries)));
    var d := Package(c, exe, version, entries) + Zeros(t);
    assert exe + (tail + Zeros(t)) == d;
    ParsesWithOverlay(exe, tail + Zeros(t));
    PackageHolds(c, exe, version, entries, t);
    LocatedBehind(c, d, Pesig.HeaderOf(exe).value);
    LocatesPacked(c, d, |exe|, |exe|, |d|, version, entries, t);
  }

  lemma StrippedAt(c: Codec, d: seq<byte>, exe: seq<byte>, info: Info)
    requires Located(c, d) == Ok(info) && exe <= d && info.start == |exe|
    ensures Stripped(c, d) == Ok(exe)
  {
    assert d[..info.start] == exe;
  }

  lemma PackageStrips(c: Codec, exe: seq<byte>, version: string, entries: seq<Entry>, t: nat)
    requires Base(exe) && Packable(c, version, entries) && t < 8
    ensures Stripped(c, Package(c, exe, version, entries) + Zeros(t)) == Ok(exe)
  {
    var tail := Tail(|exe|, Join(entries), c.encode(ManifestFor(c, version, entries)));
    var d := Package(c, exe, version, entries) + Zeros(t);
    assert exe <= d by { assert d == exe + (tail + Zeros(t)); }
    PackageLocates(c, exe, version, entries, t);
    StrippedAt(c, d, exe, Expected(c, |exe|, version, entries));
  }

  lemma PackageAligned(c: Codec, exe: seq<byte>, version: string, entries: seq<Entry>)
    ensures |Package(c, exe, version, entries)| % 8 == 0
  {
  }

  /** What Append made, Locate reads back, even with up to seven zeros after it; its length is a multiple of 8. */
  lemma AppendLocates(c: Codec, exe: seq<byte>, version: string, entries: seq<Entry>, out: seq<byte>, t: nat)
    requires Appended(c, exe, version, entries) == Ok(out) && Faithful(c, version, entries) && t < 8
    ensures |out| % 8 == 0 && exe <= out && Packable(c, version, entries)
    ensures Located(c, out + Zeros(t)) == Ok(Expected(c, |exe|, version, entries))
    ensures Expected(c, |exe|, version, entries).end == |out|
  {
    AppendMakes(c, exe, version, entries);
    assert out == Package(c, exe, version, entries);
    PackageAligned(c, exe, version, entries);
    PackageLocates(c, exe, version, entries, t);
  }

  lemma DataSeen(d: seq<byte>, start: nat, entries: seq<Entry>, i: nat)
    requires i < |entries| && start + |Join(entries)| <= |d| && d[start..start + |Join(entries)|] == Join(entries)
    ensures var at := start + |Join(entries[..i])|;
            at + |entries[i].data| <= |d| && d[at..at + |entries[i].data|] == entries[i].data
  {
    JoinAt(entries, i);
    var at := |Join(entries[..i])|;
    Inside(d, start, Join(entries), at, at + |entries[i].data|);
  }

  /** Each file's section holds its data, in a file that has the payload at start. */
  lemma SectionsHoldData(c: Codec, d: seq<byte>, start: nat, version: string, entries: seq<Entry>, i: nat)
    requires i < |entries| && start + |Join(entries)| <= |d|
    requires d[start..start + |Join(entries)|] == Join(entries)
    ensures var info := Expected(c, start, version, entries);
            && |info.offsets| == |info.manifest.files| == |entries|
            && info.manifest.files[i].name == entries[i].name && info.manifest.files[i].size == |entries[i].data|
            && info.offsets[i] + |entries[i].data| <= |d|
            && d[info.offsets[i]..info.offsets[i] + |entries[i].data|] == entries[i].data
  {
    var info := Expected(c, start, version, entries);
    assert info.offsets[i] == start + |Join(entries[..i])| && info.manifest.files[i] == FileOf(c, entries[i]);
    DataSeen(d, start, entries, i);
  }

  /** Strip gives back exactly the executable. */
  lemma StripsBack(c: Codec, exe: seq<byte>, version: string, entries: seq<Entry>, t: nat)
    requires Appended(c, exe, version, entries).Ok? && Faithful(c, version, entries) && t < 8
    ensures Stripped(c, Appended(c, exe, version, entries).value + Zeros(t)) == Ok(exe)
  {
    AppendMakes(c, exe, version, entries);
    PackageStrips(c, exe, version, entries, t);
  }

  // ---- signed packages ---------------------------------------------------------------------------

  /** A payload is something past the image, and not just zeros. */
  lemma PackageRecovers(exe: seq<byte>, l: Pesig.Layout, data: seq<byte>, m: seq<byte>)
    requires l.imageEnd == |exe|
    ensures PesigSigning.Recovers(exe + Tail(|exe|, data, m), l)
  {
    var tail := Tail(|exe|, data, m);
    var out := exe + tail;
    var n := |Body(|exe|, data, m)|;
    assert out[l.imageEnd..] == tail;
    assert tail[n] == 77;
  }

  lemma PatchFront(b: seq<byte>, tail: seq<byte>, at: nat, v: seq<byte>)
    requires at + |v| <= |b|
    ensures Patch(b + tail, at, v) == Patch(b, at, v) + tail
  {
  }

  lemma ClearedPackage(exe: seq<byte>, l: Pesig.Layout, tail: seq<byte>)
    requires l.checksumAt + 4 <= |exe| && l.entryAt + 8 <= |exe|
    ensures Pesig.Cleared(exe + tail, l) == Pesig.Cleared(exe, l) + tail
  {
    var half := if l.entryAt != 0 then Patch(exe, l.entryAt, Zeros(8)) else exe;
    if l.entryAt != 0 {
      PatchFront(exe, tail, l.entryAt, Zeros(8));
    }
    PatchFront(half, tail, l.checksumAt, Zeros(4));
  }

  lemma SignedStrips(out: seq<byte>, l: Pesig.Layout, cert: seq<byte>, checksum: seq<byte>)
    requires PesigSigning.Signable(out, cert) && |checksum| == 4 && Pesig.HeaderOf(out).value.layout == l
    requires PesigSigning.Recovers(out, l)
    ensures Pesig.Stripped(PesigSigning.Sign(out, cert, checksum)) == Ok(Pesig.Cleared(out, l))
  {
    var signed := Pesig.Stripped(PesigSigning.Sign(out, cert, checksum));
    assert signed == Pesig.Stripped(out) by { PesigSigning.StripUndoesSigning(out, cert, checksum); }
    PesigSigning.StripUnsigned(out);
  }

  lemma SignedTailStrips(exe: seq<byte>, tail: seq<byte>, cert: seq<byte>, checksum: seq<byte>)
    requires Base(exe) && PesigSigning.Signable(exe + tail, cert) && |checksum| == 4
    requires PesigSigning.Recovers(exe + tail, Pesig.HeaderOf(exe).value.layout)
    ensures Pesig.Stripped(PesigSigning.Sign(exe + tail, cert, checksum))
            == Ok(Pesig.Cleared(exe, Pesig.HeaderOf(exe).value.layout) + tail)
  {
    var l := Pesig.HeaderOf(exe).value.layout;
    assert Pesig.Cleared(exe + tail, l) == Pesig.Cleared(exe, l) + tail by { ClearedPackage(exe, l, tail); }
    assert Pesig.HeaderOf(exe + tail) == Pesig.HeaderOf(exe) by { ParsesWithOverlay(exe, tail); }
    SignedStrips(exe + tail, l, cert, checksum);
  }

  /** The signature comes off a signed package and leaves the package of the normalized executable. */
  lemma SignedPackageStrips(c: Codec, exe: seq<byte>, version: string, entries: seq<Entry>, cert: seq<byte>, checksum: seq<byte>)
    requires Base(exe) && PesigSigning.Signable(Package(c, exe, version, entries), cert) && |checksum| == 4
    ensures var l := Pesig.HeaderOf(exe).value.layout;
            Pesig.Stripped(PesigSigning.Sign(Package(c, exe, version, entries), cert, checksum))
            == Ok(Package(c, Pesig.Cleared(exe, l), version, entries))
  {
    var m := c.encode(ManifestFor(c, version, entries));
    PackageRecovers(exe, Pesig.HeaderOf(exe).value.layout, Join(entries), m);
    SignedTailStrips(exe, Tail(|exe|, Join(entries), m), cert, checksum);
  }

  lemma ClearedEntry(exe: seq<byte>, l: Pesig.Layout)
    requires l.checksumAt + 4 <= l.entryAt && l.entryAt + 8 <= |exe|
    ensures ReadLE(Pesig.Cleared(exe, l), l.entryAt, 4) == 0 && ReadLE(Pesig.Cleared(exe, l), l.entryAt + 4, 4) == 0
  {
    var y := Pesig.Cleared(exe, l);
    ZeroReads(y, l.entryAt, 4);
    ZeroReads(y, l.entryAt + 4, 4);
  }

  lemma UnsignedHeader(y: seq<byte>, l: Pesig.Layout)
    requires Pesig.LayoutOf(y) == Ok(l)
    requires l.entryAt != 0 ==> ReadLE(y, l.entryAt, 4) == 0 && ReadLE(y, l.entryAt + 4, 4) == 0
    ensures Pesig.HeaderOf(y) == Ok(Pesig.Header(l, 0, 0))
  {
  }

  lemma ClearedLayout(exe: seq<byte>)
    requires Pesig.LayoutOf(exe).Ok? && Pesig.LayoutOf(exe).value.imageEnd == |exe|
    ensures Pesig.LayoutOf(Pesig.Cleared(exe, Pesig.LayoutOf(exe).value)) == Pesig.LayoutOf(exe)
  {
    Pesig.LayoutInsensitive(exe, Pesig.Cleared(exe, Pesig.LayoutOf(exe).value));
  }

  /** Clearing what signing writes leaves an executable that parses the same, unsigned. */
  lemma ClearedParses(exe: seq<byte>)
    requires Base(exe)
    ensures var l := Pesig.HeaderOf(exe).value.layout;
            Pesig.HeaderOf(Pesig.Cleared(exe, l)) == Ok(Pesig.Header(l, 0, 0)) && Base(Pesig.Cleared(exe, l))
  {
    var l := Pesig.HeaderOf(exe).value.layout;
    ClearedLayout(exe);
    if l.entryAt != 0 {
      ClearedEntry(exe, l);
    }
    UnsignedHeader(Pesig.Cleared(exe, l), l);
  }

  lemma SignedPackageUndone(c: Codec, exe: seq<byte>, version: string, entries: seq<Entry>, cert: seq<byte>, checksum: seq<byte>)
    requires Base(exe) && Packable(c, version, entries) && |checksum| == 4
    requires PesigSigning.Signable(Package(c, exe, version, entries), cert)
    ensures var y := Pesig.Cleared(exe, Pesig.HeaderOf(exe).value.layout);
            && Pesig.Stripped(PesigSigning.Sign(Package(c, exe, version, entries), cert, checksum)) == Ok(Package(c,
                y, version, entries))
            && Stripped(c, Package(c, y, version, entries)) == Ok(y)
  {
    var y := Pesig.Cleared(exe, Pesig.HeaderOf(exe).value.layout);
    assert Base(y) by { ClearedParses(exe); }
    assert Package(c, y, version, entries) + Zeros(0) == Package(c, y, version, entries);
    assert Stripped(c, Package(c, y, version, entries)) == Ok(y) by { PackageStrips(c, y, version, entries, 0); }
    SignedPackageStrips(c, exe, version, entries, cert, checksum);
  }

  /**
   * Signed, stripped of the signature, then of the payload: what is left is
   * the published executable, normalized as it would be by itself.
   */
  lemma SignThenStrip(c: Codec, exe: seq<byte>, version: string, entries: seq<Entry>, out: seq<byte>, cert: seq<byte>,
      checksum: seq<byte>)
    requires Appended(c, exe, version, entries) == Ok(out) && Faithful(c, version, entries)
    requires PesigSigning.Signable(out, cert) && |checksum| == 4
    ensures Pesig.Stripped(exe).Ok? && Pesig.Stripped(PesigSigning.Sign(out, cert, checksum)).Ok?
    ensures Stripped(c, Pesig.Stripped(PesigSigning.Sign(out, cert, checksum)).value) == Ok(Pesig.Stripped(exe).value)
  {
    AppendMakes(c, exe, version, entries);
    SignedPackageUndone(c, exe, version, entries, cert, checksum);
    PesigSigning.StripUnsigned(exe);
  }

  lemma SignedOverlay(out: seq<byte>, l: Pesig.Layout, cert: seq<byte>, checksum: seq<byte>, start: nat)
    requires |checksum| == 4 && l.checksumAt + 4 <= start <= |out| && l.entryAt + 8 <= start && |out| % 8 == 0
    ensures var d := PesigSigning.Pointed(out, l, |cert|, checksum) + cert; |d| >= |out| && d[start..|out|] == out[start..|out|]
  {
  }

  lemma SignedHolds(out: seq<byte>, cert: seq<byte>, checksum: seq<byte>, start: nat, data: seq<byte>, m: seq<byte>)
    requires PesigSigning.Signable(out, cert) && |checksum| == 4 && |out| % 8 == 0
    requires Pesig.HeaderOf(out).value.layout.imageEnd <= start && Holds(out, start, |out|, data, m, 0)
    ensures Holds(PesigSigning.Sign(out, cert, checksum), start, |out|, data, m, 0)
  {
    SignedOverlay(out, Pesig.HeaderOf(out).value.layout, cert, checksum, start);
  }

  /** The payload is found in the signed package too: the same files, at the same places. */
  lemma SignedPackageLocates(c: Codec, exe: seq<byte>, version: string, entries: seq<Entry>, cert: seq<byte>, checksum: seq<byte>)
    requires Base(exe) && Packable(c, version, entries) && |checksum| == 4
    requires PesigSigning.Signable(Package(c, exe, version, entries), cert)
    ensures Located(c, PesigSigning.Sign(Package(c, exe, version, entries), cert, checksum))
            == Ok(Expected(c, |exe|, version, entries))
  {
    var m := c.encode(ManifestFor(c, version, entries));
    var out := Package(c, exe, version, entries);
    ParsesWithOverlay(exe, Tail(|exe|, Join(entries), m));
    assert Holds(out, |exe|, |out|, Join(entries), m, 0) by {
      assert out + Zeros(0) == out;
      PackageHolds(c, exe, version, entries, 0);
    }
    PackageAligned(c, exe, version, entries);
    PesigSigning.SignParses(out, cert, checksum);
    SignedHolds(out, cert, checksum, |exe|, Join(entries), m);
    LocatesBehind(c, PesigSigning.Sign(out, cert, checksum),
                  Pesig.Header(Pesig.HeaderOf(exe).value.layout, |PesigSigning.Padded(out)|, |cert|), |exe|, version, entries);
  }

  lemma LocatesBehind(c: Codec, d: seq<byte>, h: Pesig.Header, start: nat, version: string, entries: seq<Entry>)
    requires Pesig.HeaderOf(d) == Ok(h) && h.layout.imageEnd == start && Packable(c, version, entries)
    requires Holds(d, start, h.End(|d|), Join(entries), c.encode(ManifestFor(c, version, entries)), 0)
    ensures Located(c, d) == Ok(Expected(c, start, version, entries))
  {
    LocatedBehind(c, d, h);
    LocatesPacked(c, d, start, start, h.End(|d|), version, entries, 0);
  }
}
