/** Exactly which files carry a payload, and exactly when one can be put on, in the format's own numbers. */
module PayloadExactly {
  import opened Wrappers
  import opened Bytes
  import opened Payload
  import opened PayloadPaths
  import opened PayloadRoundTrip
  import Pesig

  /** The manifest's files lie end to end from start, up to the manifest but for at most seven bytes. */
  predicate Listed(files: seq<File>, offsets: seq<nat>, start: nat, manifestAt: nat) {
    && 1 <= |files| <= 256 && |offsets| == |files|
    && (forall i :: 0 <= i < |files| ==> ValidName(files[i].name) && files[i].size >= 0 && Sha256(files[i].sha256))
    && (forall i, j :: 0 <= i < j < |files| ==> files[i].name != files[j].name)
    && offsets[0] == start && (forall i :: 0 < i < |files| ==> offsets[i] == offsets[i - 1] + files[i - 1].size)
    && (var last := |files| - 1; var all := offsets[last] + files[last].size;
        all - start <= 536_870_912 && 0 <= manifestAt - all <= 7)
  }

  /** 64 hexadecimal digits. */
  predicate Sha256(s: string) {
    |s| == 64 && forall i :: 0 <= i < 64 ==> s[i] in "0123456789abcdefABCDEF"
  }

  /** The footer at at and what it speaks of: that payload, its manifest, and the files listed there. */
  predicate DescribesAt(c: Codec, d: seq<byte>, imageEnd: nat, at: nat, info: Info)
    requires at + 32 <= |d|
  {
    var m := |info.bytes|;
    && imageEnd <= info.start && info.start + m <= at && info.end == at + 32
    && ReadLE(d, at + 8, 8) == at - info.start && ReadLE(d, at + 16, 8) == m && ReadLE(d, at + 24, 8) == 0
    && 1 <= m <= 1_048_576 && info.bytes == d[at - m..at]
    && c.decode(info.bytes) == Some(info.manifest) && info.manifest.format == 1
    && Listed(info.manifest.files, info.offsets, info.start, at - m)
  }

  /** The file has this payload between its image and the end of what a signature covers, with at most seven zeros behind it. */
  predicate Describes(c: Codec, d: seq<byte>, imageEnd: nat, end: nat, info: Info) {
    && 32 <= info.end <= end <= |d| && end - info.end <= 7 && (forall i :: info.end <= i < end ==> d[i] == 0)
    && d[info.end - 32..info.end - 24] == [77, 83, 65, 73, 80, 75, 71, 49]
    && DescribesAt(c, d, imageEnd, info.end - 32, info)
  }

  // ---- the files ----------------------------------------------------------------------------

  lemma HexExactly(s: string)
    ensures Sha(s) <==> Sha256(s)
  {
    forall i | 0 <= i < |s| ensures HexDigit(s[i]) <==> s[i] in "0123456789abcdefABCDEF" {
      HexChar(s[i]);
    }
  }

  lemma HexChar(ch: char)
    ensures HexDigit(ch) <==> ch in "0123456789abcdefABCDEF"
  {
    var digits := "0123456789abcdefABCDEF";
    if '0' <= ch <= '9' { assert digits[ch as int - '0' as int] == ch; }
    if 'a' <= ch <= 'f' { assert digits[10 + ch as int - 'a' as int] == ch; }
    if 'A' <= ch <= 'F' { assert digits[16 + ch as int - 'A' as int] == ch; }
  }

  /** Adding up sizes, file by file. */
  lemma SizesNext(files: seq<File>, i: nat)
    requires i < |files|
    ensures Sizes(files[..i + 1]) == Sizes(files[..i]) + files[i].size
  {
    assert files[..i + 1][..i] == files[..i];
  }

  lemma {:induction false} SizesWithin(files: seq<File>, i: nat)
    requires i <= |files| && forall k :: 0 <= k < |files| ==> files[k].size >= 0
    ensures 0 <= Sizes(files[..i]) <= Sizes(files)
    decreases |files| - i, i
  {
    if i == |files| {
      assert files[..i] == files;
      SizesUp(files, i);
    } else {
      SizesNext(files, i);
      SizesWithin(files, i + 1);
      SizesUp(files, i);
    }
  }

  lemma {:induction false} SizesUp(files: seq<File>, i: nat)
    requires i <= |files| && forall k :: 0 <= k < |files| ==> files[k].size >= 0
    ensures Sizes(files[..i]) >= 0
  {
    if i > 0 {
      SizesNext(files, i - 1);
      SizesUp(files, i - 1);
    }
  }

  lemma {:induction false} OffsetsAddUp(files: seq<File>, offsets: seq<nat>, start: nat, i: nat)
    requires |offsets| == |files| && i < |files| && offsets[0] == start
    requires forall k :: 0 < k < |files| ==> offsets[k] == offsets[k - 1] + files[k - 1].size
    ensures offsets[i] == start + Sizes(files[..i])
  {
    if i > 0 {
      OffsetsAddUp(files, offsets, start, i - 1);
      SizesNext(files, i - 1);
    }
  }

  predicate WellFormed(f: File) { ValidName(f.name) && f.size >= 0 && Sha256(f.sha256) }

  /** Every file is well formed, no name comes twice and the total is in bounds. */
  predicate WellListed(files: seq<File>) {
    && (forall i :: 0 <= i < |files| ==> WellFormed(files[i]))
    && (forall i, j :: 0 <= i < j < |files| ==> files[i].name != files[j].name)
    && Sizes(files) <= 536_870_912
  }

  lemma NoErrorsMeans(files: seq<File>)
    requires BadFile(files, 0).None?
    ensures WellListed(files)
  {
    GoodFiles(files, 0);
    forall i | 0 <= i < |files| ensures WellFormed(files[i]) {
      assert GoodFile(files, i);
      HexExactly(files[i].sha256);
    }
    forall i, j | 0 <= i < j < |files| ensures files[i].name != files[j].name {
      assert GoodFile(files, j) && files[..j][i] == files[i];
    }
    if files != [] {
      assert GoodFile(files, |files| - 1) && files[..|files|] == files;
    }
  }

  lemma NoErrorsWhen(files: seq<File>)
    requires WellListed(files)
    ensures BadFile(files, 0).None?
  {
    forall i | 0 <= i < |files| ensures GoodFile(files, i) {
      assert WellFormed(files[i]);
      HexExactly(files[i].sha256);
      NewName(files, i);
      SizesWithin(files, i + 1);
    }
    GoodFiles(files, 0);
  }

  lemma NewName(files: seq<File>, i: nat)
    requires i < |files| && forall j :: 0 <= j < i ==> files[j].name != files[i].name
    ensures files[i].name !in FileNames(files[..i])
  {
  }

  lemma AllSizesUp(files: seq<File>)
    requires WellListed(files)
    ensures forall k :: 0 <= k <= |files| ==> Sizes(files[..k]) >= 0
  {
    assert forall i :: 0 <= i < |files| ==> WellFormed(files[i]);
    forall k | 0 <= k <= |files| ensures Sizes(files[..k]) >= 0 {
      SizesUp(files, k);
    }
  }

  lemma OffsetsStep(files: seq<File>, start: nat, i: nat)
    requires (forall k :: 0 <= k <= |files| ==> Sizes(files[..k]) >= 0) && 0 < i < |files|
    ensures Offsets(files, start)[i] == Offsets(files, start)[i - 1] + files[i - 1].size
  {
    SizesNext(files, i - 1);
  }

  lemma LastEnds(files: seq<File>)
    requires files != []
    ensures Sizes(files) == Sizes(files[..|files| - 1]) + files[|files| - 1].size
  {
    SizesNext(files, |files| - 1);
    assert files[..|files|] == files;
  }

  lemma ListedWell(files: seq<File>, offsets: seq<nat>, start: nat, manifestAt: nat)
    requires Listed(files, offsets, start, manifestAt)
    ensures WellListed(files) && 0 <= manifestAt - (start + Sizes(files)) < 8
    ensures forall i :: 0 <= i < |files| ==> offsets[i] == start + Sizes(files[..i])
  {
    forall i | 0 <= i < |files| ensures offsets[i] == start + Sizes(files[..i]) {
      OffsetsAddUp(files, offsets, start, i);
    }
    LastEnds(files);
    forall i | 0 <= i < |files| ensures WellFormed(files[i]) {
    }
  }

  predicate AllUp(files: seq<File>) { forall k :: 0 <= k <= |files| ==> Sizes(files[..k]) >= 0 }

  lemma OffsetsAre(files: seq<File>, offsets: seq<nat>, start: nat)
    requires AllUp(files) && |offsets| == |files| && forall i :: 0 <= i < |files| ==> offsets[i] == start + Sizes(files[..i])
    ensures offsets == Offsets(files, start)
  {
  }

  /** Where the files are listed is where Locate puts them. */
  lemma ListedMeans(files: seq<File>, offsets: seq<nat>, start: nat, manifestAt: nat)
    requires Listed(files, offsets, start, manifestAt)
    ensures BadFile(files, 0).None? && AllUp(files) && 1 <= |files| <= 256
    ensures offsets == Offsets(files, start) && 0 <= manifestAt - (start + Sizes(files)) < 8
  {
    ListedWell(files, offsets, start, manifestAt);
    NoErrorsWhen(files);
    assert AllUp(files) by { AllSizesUp(files); }
    OffsetsAre(files, offsets, start);
  }

  lemma ListedWhen(files: seq<File>, start: nat, manifestAt: nat)
    requires 1 <= |files| <= 256 && BadFile(files, 0).None? && (forall k :: 0 <= k <= |files| ==> Sizes(files[..k]) >= 0)
    requires 0 <= manifestAt - (start + Sizes(files)) < 8
    ensures Listed(files, Offsets(files, start), start, manifestAt)
  {
    var offsets := Offsets(files, start);
    NoErrorsMeans(files);
    LastEnds(files);
    assert files[..0] == [];
    forall i | 0 < i < |files| ensures offsets[i] == offsets[i - 1] + files[i - 1].size {
      OffsetsStep(files, start, i);
    }
    forall i | 0 <= i < |files| ensures ValidName(files[i].name) && files[i].size >= 0 && Sha256(files[i].sha256) {
      assert WellFormed(files[i]);
    }
  }

  // ---- the footer ---------------------------------------------------------------------------

  lemma NoneNearer(d: seq<byte>, at: nat, end: nat, shift: nat)
    requires at + 32 <= end <= |d| && d[at..at + 8] == MAGIC && 0 < shift < 8 && at + shift + 32 <= end
    ensures d[at + shift..at + shift + 8] != MAGIC
  {
    var f, rest := d[at..at + 32], d[at + 32..end];
    assert f[..8] == MAGIC by {
      Inside(d, at, f, 0, 8);
    }
    assert d[at..end] == f + rest;
    ShiftedMisses(f, rest, shift);
    Inside(d, at, f + rest, shift, shift + 8);
  }

  /** The search stops at the nearest magic; with zeros behind a footer there is none nearer. */
  lemma {:induction false} SearchExactly(d: seq<byte>, imageEnd: nat, end: nat, at: nat, k: nat)
    requires end <= |d| && imageEnd <= at && at + 32 <= end && k <= end - at - 32 <= 7
    requires d[at..at + 8] == MAGIC && forall i :: at + 32 <= i < end ==> d[i] == 0
    ensures Search(d, imageEnd, end, k) == Some(end - at - 32)
    decreases 8 - k
  {
    var t := end - at - 32;
    if k < t {
      NoneNearer(d, at, end, t - k);
      SearchExactly(d, imageEnd, end, at, k + 1);
    }
  }

  lemma {:induction false} SearchMeans(d: seq<byte>, imageEnd: nat, end: nat, k: nat)
    requires end <= |d| && k <= 8 && Search(d, imageEnd, end, k).Some?
    ensures var t := Search(d, imageEnd, end, k).value;
            k <= t <= 7 && imageEnd + 32 + t <= end && d[end - 32 - t..end - 32 - t + 8] == MAGIC
    decreases 8 - k
  {
    if d[end - FOOTER_SIZE - k..end - FOOTER_SIZE - k + 8] != MAGIC {
      SearchMeans(d, imageEnd, end, k + 1);
    }
  }

  lemma DescribedIsLocatedAt(c: Codec, d: seq<byte>, imageEnd: nat, at: nat, info: Info)
    requires at + 32 <= |d| && DescribesAt(c, d, imageEnd, at, info)
    ensures LocatedAt(c, d, imageEnd, at) == Ok(info)
  {
    var files, m := info.manifest.files, |info.bytes|;
    ListedMeans(files, info.offsets, info.start, at - m);
    assert at - (at - info.start) == info.start;
    assert LocatedAt(c, d, imageEnd, at) == Ok(Info(info.manifest, info.start, at + FOOTER_SIZE, info.bytes,
        Offsets(files, info.start)));
  }

  /** The footer's numbers and the manifest, once every check on them has passed. */
  lemma LocatedAtChecks(c: Codec, d: seq<byte>, imageEnd: nat, at: nat, info: Info)
    requires at + 32 <= |d| && LocatedAt(c, d, imageEnd, at) == Ok(info)
    ensures var m, files := |info.bytes|, info.manifest.files;
            && imageEnd <= info.start && info.start + m <= at && info.end == at + 32
            && ReadLE(d, at + 8, 8) == at - info.start && ReadLE(d, at + 16, 8) == m && ReadLE(d, at + 24, 8) == 0
            && 1 <= m <= 1_048_576 && info.bytes == d[at - m..at]
            && c.decode(info.bytes) == Some(info.manifest) && info.manifest.format == 1
            && 1 <= |files| <= 256 && BadFile(files, 0).None? && 0 <= at - m - (info.start + Sizes(files)) < 8
            && AllUp(files) && info.offsets == Offsets(files, info.start)
  {
    SizesGrow(info.manifest.files, 0);
  }

  lemma LocatedAtIsDescribed(c: Codec, d: seq<byte>, imageEnd: nat, at: nat, info: Info)
    requires at + 32 <= |d| && LocatedAt(c, d, imageEnd, at) == Ok(info)
    ensures DescribesAt(c, d, imageEnd, at, info)
  {
    LocatedAtChecks(c, d, imageEnd, at, info);
    assert Listed(info.manifest.files, info.offsets, info.start, at - |info.bytes|) by {
      ListedWhen(info.manifest.files, info.start, at - |info.bytes|);
    }
  }

  lemma DescribedIsLocated(c: Codec, d: seq<byte>, imageEnd: nat, end: nat, info: Info)
    requires Describes(c, d, imageEnd, end, info)
    ensures LocatedIn(c, d, imageEnd, end) == Ok(info)
  {
    var at := info.end - 32;
    assert Search(d, imageEnd, end, 0) == Some(end - info.end) by { SearchExactly(d, imageEnd, end, at, 0); }
    assert LocatedAt(c, d, imageEnd, at) == Ok(info) by { DescribedIsLocatedAt(c, d, imageEnd, at, info); }
    assert AllZero(d[info.end..end]);
  }

  lemma LocatedAtFooter(c: Codec, d: seq<byte>, imageEnd: nat, end: nat, info: Info) returns (t: nat)
    requires end <= |d| && LocatedIn(c, d, imageEnd, end) == Ok(info)
    ensures t <= 7 && 32 + t <= end && d[end - 32 - t..end - 24 - t] == MAGIC && AllZero(d[end - t..end])
    ensures LocatedAt(c, d, imageEnd, end - 32 - t) == Ok(info)
  {
    SearchMeans(d, imageEnd, end, 0);
    t := Search(d, imageEnd, end, 0).value;
  }

  lemma DescribedBehind(c: Codec, d: seq<byte>, imageEnd: nat, end: nat, t: nat, info: Info)
    requires t <= 7 && 32 + t <= end <= |d| && d[end - 32 - t..end - 24 - t] == MAGIC && AllZero(d[end - t..end])
    requires DescribesAt(c, d, imageEnd, end - 32 - t, info)
    ensures Describes(c, d, imageEnd, end, info)
  {
    assert info.end == end - t;
    forall i | info.end <= i < end ensures d[i] == 0 {
      assert d[end - t..end][i - info.end] == d[i];
    }
    assert d[info.end - 32..info.end - 24] == MAGIC;
  }

  lemma LocatedIsDescribed(c: Codec, d: seq<byte>, imageEnd: nat, end: nat, info: Info)
    requires end <= |d| && LocatedIn(c, d, imageEnd, end) == Ok(info)
    ensures Describes(c, d, imageEnd, end, info)
  {
    var t := LocatedAtFooter(c, d, imageEnd, end, info);
    assert DescribesAt(c, d, imageEnd, end - 32 - t, info) by { LocatedAtIsDescribed(c, d, imageEnd, end - 32 - t, info); }
    DescribedBehind(c, d, imageEnd, end, t, info);
  }

  /** Locate answers a payload exactly when the file has it as the format describes it. */
  lemma LocatesExactly(c: Codec, d: seq<byte>, info: Info)
    ensures Located(c, d) == Ok(info) <==>
            && Pesig.HeaderOf(d).Ok?
            && Describes(c, d, Pesig.HeaderOf(d).value.layout.imageEnd, Pesig.HeaderOf(d).value.End(|d|), info)
  {
    if Pesig.HeaderOf(d).Ok? {
      var h := Pesig.HeaderOf(d).value;
      if Describes(c, d, h.layout.imageEnd, h.End(|d|), info) {
        DescribedIsLocated(c, d, h.layout.imageEnd, h.End(|d|), info);
      }
      if Located(c, d) == Ok(info) {
        LocatedIsDescribed(c, d, h.layout.imageEnd, h.End(|d|), info);
      }
    }
  }

  // ---- packing ------------------------------------------------------------------------------

  /** The sizes of the data, together. */
  function Total(entries: seq<Entry>): nat { if entries == [] then 0 else |entries[0].data| + Total(entries[1..]) }

  lemma {:induction false} TotalJoins(entries: seq<Entry>)
    ensures |Join(entries)| == Total(entries)
  {
    if entries != [] {
      TotalJoins(entries[1..]);
      JoinFront(entries);
    }
  }

  lemma {:induction false} JoinFront(entries: seq<Entry>)
    requires entries != []
    ensures Join(entries) == entries[0].data + Join(entries[1..])
  {
    var k := |entries| - 1;
    if k > 0 {
      JoinFront(entries[..k]);
      assert entries[..k][1..] == entries[1..][..k - 1];
      assert Join(entries[1..]) == Join(entries[1..][..k - 1]) + entries[k].data;
    } else {
      assert entries[..0] == [] && entries[1..] == [];
    }
  }

  /** Append takes an executable and entries exactly when these hold. */
  lemma AppendsExactly(c: Codec, exe: seq<byte>, version: string, entries: seq<Entry>)
    ensures Appended(c, exe, version, entries).Ok? <==>
            && Pesig.HeaderOf(exe).Ok? && !Pesig.HeaderOf(exe).value.Signed()
                && Pesig.HeaderOf(exe).value.layout.imageEnd == |exe|
            && 1 <= |entries| <= 256
            && (forall i :: 0 <= i < |entries| ==> ValidName(entries[i].name))
            && (forall i, j :: 0 <= i < j < |entries| ==> entries[i].name != entries[j].name)
            && Total(entries) <= 536_870_912
            && |c.encode(ManifestFor(c, version, entries))| <= 1_048_576
  {
    TotalJoins(entries);
    NoBadEntry(entries, 0);
  }

  lemma {:induction false} NoBadEntry(entries: seq<Entry>, k: nat)
    requires k <= |entries|
    ensures BadEntry(entries, k).None? <==>
            && (forall i :: k <= i < |entries| ==> ValidName(entries[i].name))
            && (forall i, j :: 0 <= i < j < |entries| && k <= j ==> entries[i].name != entries[j].name)
    decreases |entries| - k
  {
    if k < |entries| {
      NoBadEntry(entries, k + 1);
      assert entries[k].name in Names(entries[..k]) <==> exists i :: 0 <= i < k && entries[i].name == entries[k].name by {
        assert forall i :: 0 <= i < k ==> entries[..k][i] == entries[i];
      }
    }
  }
}
