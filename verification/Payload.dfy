/**
 * The payload a Windows package carries behind its image: files, padding, a
 * manifest and a footer found from the end. JSON and SHA-256 are parameters.
 */
module Payload {
  import opened Wrappers
  import opened Bytes
  import Pesig

  const MAGIC: seq<byte> := [77, 83, 65, 73, 80, 75, 71, 49]
  const FOOTER_SIZE := 32
  const MANIFEST_FORMAT := 1
  const MAX_MANIFEST := 0x10_0000
  const MAX_FILES := 256
  const MAX_TOTAL := 0x2000_0000
  const MAX_NAME := 200

  datatype File = File(name: string, size: int, sha256: string)
  datatype Manifest = Manifest(format: int, version: string, files: seq<File>)
  datatype Entry = Entry(name: string, data: seq<byte>)

  /** The JSON encoder and decoder of manifests, and the hexadecimal SHA-256. */
  datatype Codec = Codec(encode: Manifest -> seq<byte>, decode: seq<byte> -> Option<Manifest>, digest: seq<byte> -> string)

  datatype Error =
    | BadExecutable(cause: Pesig.PeError) | AlreadySigned | AlreadyCarries | HasOverlay | NothingToPack | TooManyFiles
    | BadName(name: string) | Twice(name: string) | TooBig | ManifestTooBig
    | NoPayload | BytesAfterFooter | ReservedNotZero | LengthsOutOfRange | InsideImage | ManifestUnreadable
    | UnknownFormat | FileCount | MalformedFile(name: string) | GapBeforeManifest

  // ---- names ------------------------------------------------------------------------

  function Utf8Size(s: string): nat {
    if s == [] then 0
    else (if s[0] < 0x80 as char then 1 else if s[0] < 0x800 as char then 2 else if s[0] < 0x1_0000 as char then 3 else 4)
         + Utf8Size(s[1..])
  }

  /** The parts of a name between slashes. */
  function Segments(s: string): (segs: seq<string>)
    ensures segs != []
  {
    if s == [] then [[]]
    else
      var rest := Segments(s[1..]);
      if s[0] == '/' then [[]] + rest else [[s[0]] + rest[0]] + rest[1..]
  }

  predicate PlainChar(c: char) { c >= ' ' && c != 0x7f as char && c != 0xfffd as char && c !in "\\:*?\"<>|" }

  /** A plain relative path; a name whose every segment is plain is one path cleaning leaves as it is. */
  predicate ValidName(name: string) {
    && 0 < Utf8Size(name) <= MAX_NAME
    && (forall i :: 0 <= i < |name| ==> PlainChar(name[i]))
    && (forall seg :: seg in Segments(name) ==> seg != "" && seg != "." && seg != "..")
  }

  // ---- packing ------------------------------------------------------------------------

  function FileOf(c: Codec, e: Entry): File { File(e.name, |e.data|, c.digest(e.data)) }

  function FilesOf(c: Codec, entries: seq<Entry>): (files: seq<File>)
    ensures |files| == |entries| && forall i :: 0 <= i < |entries| ==> files[i] == FileOf(c, entries[i])
  {
    seq(|entries|, i requires 0 <= i < |entries| => FileOf(c, entries[i]))
  }

  function Names(entries: seq<Entry>): set<string> { set i | 0 <= i < |entries| :: entries[i].name }

  /** The first entry that cannot be packed, in order. */
  function BadEntry(entries: seq<Entry>, k: nat): Option<Error>
    requires k <= |entries|
    decreases |entries| - k
  {
    if k == |entries| then None
    else if !ValidName(entries[k].name) then Some(BadName(entries[k].name))
    else if entries[k].name in Names(entries[..k]) then Some(Twice(entries[k].name))
    else BadEntry(entries, k + 1)
  }

  /** The data of the entries one after another. */
  function Join(entries: seq<Entry>): seq<byte> {
    if entries == [] then [] else Join(entries[..|entries| - 1]) + entries[|entries| - 1].data
  }

  function Footer(payload: nat, manifest: nat): (f: seq<byte>)
    ensures |f| == FOOTER_SIZE
  {
    MAGIC + LE(payload, 8) + LE(manifest, 8) + Zeros(8)
  }

  /** What goes between the image and the footer, when it starts at start. */
  function Body(start: nat, data: seq<byte>, manifest: seq<byte>): seq<byte> {
    data + Zeros(Pesig.PadTo8(start + |data| + |manifest| + FOOTER_SIZE)) + manifest
  }

  function Tail(start: nat, data: seq<byte>, manifest: seq<byte>): seq<byte> {
    Body(start, data, manifest) + Footer(|Body(start, data, manifest)|, |manifest|)
  }

  function ManifestFor(c: Codec, version: string, entries: seq<Entry>): Manifest {
    Manifest(MANIFEST_FORMAT, version, FilesOf(c, entries))
  }

  function Appended(c: Codec, exe: seq<byte>, version: string, entries: seq<Entry>): Result<seq<byte>, Error> {
    match Pesig.HeaderOf(exe)
    case Err(e) => Err(BadExecutable(e))
    case Ok(h) =>
      if h.Signed() then Err(AlreadySigned)
      else if h.layout.imageEnd != |exe| then Err(if Located(c, exe).Ok? then AlreadyCarries else HasOverlay)
      else if entries == [] then Err(NothingToPack)
      else if |entries| > MAX_FILES then Err(TooManyFiles)
      else if BadEntry(entries, 0).Some? then Err(BadEntry(entries, 0).value)
      else if |Join(entries)| > MAX_TOTAL then Err(TooBig)
      else
        var m := c.encode(ManifestFor(c, version, entries));
        if |m| > MAX_MANIFEST then Err(ManifestTooBig) else Ok(exe + Tail(|exe|, Join(entries), m))
  }

  // ---- locating ------------------------------------------------------------------------

  datatype Info = Info(manifest: Manifest, start: nat, end: nat, bytes: seq<byte>, offsets: seq<nat>)

  /** How many bytes before end the footer ends: the least distance under 8 at which one opens with the magic. */
  function Search(d: seq<byte>, imageEnd: nat, end: nat, k: nat): (r: Option<nat>)
    requires end <= |d| && k <= 8
    ensures r.Some? ==> r.value + FOOTER_SIZE + imageEnd <= end
    decreases 8 - k
  {
    if k == 8 || end < imageEnd + FOOTER_SIZE + k then None
    else if d[end - FOOTER_SIZE - k..end - FOOTER_SIZE - k + 8] == MAGIC then Some(k)
    else Search(d, imageEnd, end, k + 1)
  }

  predicate HexDigit(c: char) { '0' <= c <= '9' || 'a' <= c <= 'f' || 'A' <= c <= 'F' }

  predicate Sha(s: string) { |s| == 64 && forall i :: 0 <= i < |s| ==> HexDigit(s[i]) }

  function FileNames(files: seq<File>): set<string> { set i | 0 <= i < |files| :: files[i].name }

  function Sizes(files: seq<File>): int {
    if files == [] then 0 else Sizes(files[..|files| - 1]) + files[|files| - 1].size
  }

  /** The first thing wrong with the manifest's files, in order. */
  function BadFile(files: seq<File>, k: nat): Option<Error>
    requires k <= |files|
    decreases |files| - k
  {
    if k == |files| then None
    else
      var f := files[k];
      if !ValidName(f.name) then Some(BadName(f.name))
      else if f.name in FileNames(files[..k]) then Some(Twice(f.name))
      else if f.size < 0 || !Sha(f.sha256) then Some(MalformedFile(f.name))
      else if Sizes(files[..k + 1]) > MAX_TOTAL then Some(TooBig)
      else BadFile(files, k + 1)
  }

  lemma {:induction false} SizesGrow(files: seq<File>, k: nat)
    requires k <= |files| && BadFile(files, k).None? && Sizes(files[..k]) >= 0
    ensures forall i :: k <= i <= |files| ==> Sizes(files[..i]) >= 0
    decreases |files| - k
  {
    if k < |files| {
      assert files[..k + 1][..k] == files[..k];
      SizesGrow(files, k + 1);
    }
  }

  /** Where each file starts. */
  function Offsets(files: seq<File>, start: nat): (o: seq<nat>)
    requires forall i :: 0 <= i <= |files| ==> Sizes(files[..i]) >= 0
    ensures |o| == |files| && forall i :: 0 <= i < |files| ==> o[i] == start + Sizes(files[..i])
  {
    seq(|files|, i requires 0 <= i < |files| => start + Sizes(files[..i]))
  }

  /** The payload whose footer is at at. */
  function LocatedAt(c: Codec, d: seq<byte>, imageEnd: nat, at: nat): (r: Result<Info, Error>)
    requires at + FOOTER_SIZE <= |d|
    ensures r.Ok? ==> imageEnd <= r.value.start <= at && r.value.end == at + FOOTER_SIZE
    ensures r.Ok? ==> |r.value.offsets| == |r.value.manifest.files|
  {
    var payload, manifest := ReadLE(d, at + 8, 8), ReadLE(d, at + 16, 8);
    if ReadLE(d, at + 24, 8) != 0 then Err(ReservedNotZero)
    else if manifest == 0 || manifest > MAX_MANIFEST || payload < manifest || payload > at then Err(LengthsOutOfRange)
    else if at - payload < imageEnd then Err(InsideImage)
    else
      var bytes := d[at - manifest..at];
      match c.decode(bytes)
      case None => Err(ManifestUnreadable)
      case Some(m) =>
        if m.format != MANIFEST_FORMAT then Err(UnknownFormat)
        else if m.files == [] || |m.files| > MAX_FILES then Err(FileCount)
        else if BadFile(m.files, 0).Some? then Err(BadFile(m.files, 0).value)
        else
          var gap := at - manifest - (at - payload + Sizes(m.files));
          if gap < 0 || gap >= Pesig.FOOTER_ALIGN then Err(GapBeforeManifest)
          else
            SizesGrow(m.files, 0);
            Ok(Info(m, at - payload, at + FOOTER_SIZE, bytes, Offsets(m.files, at - payload)))
  }

  /** The payload of a file whose image ends at imageEnd and whose signable part at end. */
  function LocatedIn(c: Codec, d: seq<byte>, imageEnd: nat, end: nat): (r: Result<Info, Error>)
    requires end <= |d|
    ensures r.Ok? ==> r.value.start <= r.value.end <= |d|
  {
    match Search(d, imageEnd, end, 0)
    case None => Err(NoPayload)
    case Some(k) =>
      if !AllZero(d[end - k..end]) then Err(BytesAfterFooter) else LocatedAt(c, d, imageEnd, end - FOOTER_SIZE - k)
  }

  function Located(c: Codec, d: seq<byte>): (r: Result<Info, Error>)
    ensures r.Ok? ==> r.value.start <= r.value.end <= |d|
  {
    match Pesig.HeaderOf(d)
    case Err(e) => Err(BadExecutable(e))
    case Ok(h) => LocatedIn(c, d, h.layout.imageEnd, h.End(|d|))
  }

  /** The file as it was before a payload went on; a file without one passes through. */
  function Stripped(c: Codec, d: seq<byte>): Result<seq<byte>, Error> {
    match Located(c, d)
    case Ok(info) => Ok(d[..info.start])
    case Err(e) => if e == NoPayload then Ok(d) else Err(e)
  }

  // ---- the program's own loops ------------------------------------------------------------

  lemma JoinOne(entries: seq<Entry>, i: nat)
    requires i < |entries|
    ensures Join(entries[..i + 1]) == Join(entries[..i]) + entries[i].data
    ensures Names(entries[..i + 1]) == Names(entries[..i]) + {entries[i].name}
  {
    assert entries[..i + 1][..i] == entries[..i];
    forall n ensures n in Names(entries[..i + 1]) <==> n in Names(entries[..i]) + {entries[i].name} {
      assert entries[..i + 1][i].name == entries[i].name;
      assert forall j :: 0 <= j < i ==> entries[..i + 1][j] == entries[..i][j];
    }
  }

  /** Checking the entries one by one: the first error, or the manifest's files and the total. */
  method Check(c: Codec, entries: seq<Entry>) returns (bad: Option<Error>, files: seq<File>, total: nat)
    ensures bad == BadEntry(entries, 0)
    ensures bad.None? ==> files == FilesOf(c, entries) && total == |Join(entries)|
  {
    var seen: set<string> := {};
    files, total := [], 0;
    for i := 0 to |entries|
      invariant BadEntry(entries, 0) == BadEntry(entries, i)
      invariant seen == Names(entries[..i]) && total == |Join(entries[..i])| && files == FilesOf(c, entries[..i])
    {
      var e := entries[i];
      if !ValidName(e.name) {
        return Some(BadName(e.name)), [], 0;
      }
      if e.name in seen {
        return Some(Twice(e.name)), [], 0;
      }
      JoinOne(entries, i);
      seen := seen + {e.name};
      files := files + [FileOf(c, e)];
      total := total + |e.data|;
    }
    assert entries[..|entries|] == entries;
    bad := None;
  }

  method Append(c: Codec, exe: seq<byte>, version: string, entries: seq<Entry>) returns (r: Result<seq<byte>, Error>)
    ensures r == Appended(c, exe, version, entries)
  {
    var parsed := Pesig.Parse(exe);
    if parsed.Err? {
      return Err(BadExecutable(parsed.error));
    }
    if parsed.value.Signed() {
      return Err(AlreadySigned);
    }
    if parsed.value.layout.imageEnd != |exe| {
      var there := Locate(c, exe);
      return Err(if there.Ok? then AlreadyCarries else HasOverlay);
    }
    if |entries| == 0 {
      return Err(NothingToPack);
    }
    if |entries| > MAX_FILES {
      return Err(TooManyFiles);
    }
    var bad, files, total := Check(c, entries);
    if bad.Some? {
      return Err(bad.value);
    }
    if total > MAX_TOTAL {
      return Err(TooBig);
    }
    var manifest := c.encode(Manifest(MANIFEST_FORMAT, version, files));
    if |manifest| > MAX_MANIFEST {
      return Err(ManifestTooBig);
    }
    var out := Pack(exe, entries, manifest);
    return Ok(out);
  }

  /** The package itself, grown by appends. */
  method Pack(exe: seq<byte>, entries: seq<Entry>, manifest: seq<byte>) returns (out: seq<byte>)
    ensures out == exe + Tail(|exe|, Join(entries), manifest)
  {
    out := exe;
    for i := 0 to |entries|
      invariant out == exe + Join(entries[..i])
    {
      JoinOne(entries, i);
      out := out + entries[i].data;
    }
    assert entries[..|entries|] == entries;
    out := out + Zeros(Pesig.PadTo8(|out| + |manifest| + FOOTER_SIZE)) + manifest;
    assert out == exe + Body(|exe|, Join(entries), manifest);
    out := out + (MAGIC + LE(|out| - |exe|, 8) + LE(|manifest|, 8) + Zeros(8));
  }

  lemma SizesOne(files: seq<File>, i: nat)
    requires i < |files|
    ensures Sizes(files[..i + 1]) == Sizes(files[..i]) + files[i].size
    ensures FileNames(files[..i + 1]) == FileNames(files[..i]) + {files[i].name}
  {
    assert files[..i + 1][..i] == files[..i];
    forall n ensures n in FileNames(files[..i + 1]) <==> n in FileNames(files[..i]) + {files[i].name} {
      assert files[..i + 1][i].name == files[i].name;
      assert forall j :: 0 <= j < i ==> files[..i + 1][j] == files[..i][j];
    }
  }

  /** Walking the manifest's files: the first error, or where each starts and where the last ends. */
  method Walk(files: seq<File>, start: nat) returns (bad: Option<Error>, offsets: seq<nat>, end: int)
    ensures bad == BadFile(files, 0)
    ensures bad.None? ==> forall i :: 0 <= i <= |files| ==> Sizes(files[..i]) >= 0
    ensures bad.None? ==> offsets == Offsets(files, start) && end == start + Sizes(files)
  {
    var seen: set<string> := {};
    offsets, end := [], start;
    for i := 0 to |files|
      invariant BadFile(files, 0) == BadFile(files, i)
      invariant seen == FileNames(files[..i]) && end == start + Sizes(files[..i]) >= start
      invariant |offsets| == i && forall j :: 0 <= j < i ==> offsets[j] == start + Sizes(files[..j])
    {
      var f := files[i];
      if !ValidName(f.name) {
        return Some(BadName(f.name)), [], 0;
      }
      if f.name in seen {
        return Some(Twice(f.name)), [], 0;
      }
      if f.size < 0 || !Sha(f.sha256) {
        return Some(MalformedFile(f.name)), [], 0;
      }
      SizesOne(files, i);
      seen := seen + {f.name};
      offsets := offsets + [end];
      end := end + f.size;
      if end - start > MAX_TOTAL {
        return Some(TooBig), [], 0;
      }
    }
    assert files[..|files|] == files;
    SizesGrow(files, 0);
    bad := None;
  }

  method LocateAt(c: Codec, d: seq<byte>, imageEnd: nat, at: nat) returns (r: Result<Info, Error>)
    requires at + FOOTER_SIZE <= |d|
    ensures r == LocatedAt(c, d, imageEnd, at)
  {
    var payload, manifest := ReadLE(d, at + 8, 8), ReadLE(d, at + 16, 8);
    if ReadLE(d, at + 24, 8) != 0 {
      return Err(ReservedNotZero);
    }
    if manifest == 0 || manifest > MAX_MANIFEST || payload < manifest || payload > at {
      return Err(LengthsOutOfRange);
    }
    var start := at - payload;
    if start < imageEnd {
      return Err(InsideImage);
    }
    var bytes := d[at - manifest..at];
    var decoded := c.decode(bytes);
    if decoded.None? {
      return Err(ManifestUnreadable);
    }
    var m := decoded.value;
    if m.format != MANIFEST_FORMAT {
      return Err(UnknownFormat);
    }
    if |m.files| == 0 || |m.files| > MAX_FILES {
      return Err(FileCount);
    }
    var bad, offsets, end := Walk(m.files, start);
    if bad.Some? {
      return Err(bad.value);
    }
    var gap := at - manifest - end;
    if gap < 0 || gap >= Pesig.FOOTER_ALIGN {
      return Err(GapBeforeManifest);
    }
    return Ok(Info(m, start, at + FOOTER_SIZE, bytes, offsets));
  }

  method FindFooter(d: seq<byte>, imageEnd: nat, end: nat) returns (k: Option<nat>)
    requires end <= |d|
    ensures k == Search(d, imageEnd, end, 0)
  {
    for j := 0 to Pesig.FOOTER_ALIGN
      invariant Search(d, imageEnd, end, 0) == Search(d, imageEnd, end, j)
    {
      var at := end - FOOTER_SIZE - j;
      if at < imageEnd {
        return None;
      }
      if d[at..at + 8] == MAGIC {
        return Some(j);
      }
    }
    return None;
  }

  method LocateIn(c: Codec, d: seq<byte>, imageEnd: nat, end: nat) returns (r: Result<Info, Error>)
    requires end <= |d|
    ensures r == LocatedIn(c, d, imageEnd, end)
  {
    var k := FindFooter(d, imageEnd, end);
    if k.None? {
      return Err(NoPayload);
    }
    var zero := ScanZeros(d[end - k.value..end]);
    if !zero {
      return Err(BytesAfterFooter);
    }
    r := LocateAt(c, d, imageEnd, end - FOOTER_SIZE - k.value);
  }

  method Locate(c: Codec, d: seq<byte>) returns (r: Result<Info, Error>)
    ensures r == Located(c, d)
  {
    var parsed := Pesig.Parse(d);
    if parsed.Err? {
      return Err(BadExecutable(parsed.error));
    }
    r := LocateIn(c, d, parsed.value.layout.imageEnd, parsed.value.End(|d|));
  }

  /** The section of a file of the payload, by its name. */
  method Open(info: Info, name: string) returns (section: Option<(nat, int)>)
    requires |info.offsets| == |info.manifest.files|
    ensures section.None? ==> forall i :: 0 <= i < |info.offsets| ==> info.manifest.files[i].name != name
    ensures section.Some? ==> exists i :: && 0 <= i < |info.offsets| && info.manifest.files[i].name == name
                                         && section.value == (info.offsets[i], info.manifest.files[i].size)
                                         && forall j :: 0 <= j < i ==> info.manifest.files[j].name != name
  {
    for i := 0 to |info.offsets|
      invariant forall j :: 0 <= j < i ==> info.manifest.files[j].name != name
    {
      if info.manifest.files[i].name == name {
        return Some((info.offsets[i], info.manifest.files[i].size));
      }
    }
    return None;
  }

  method Strip(c: Codec, d: seq<byte>) returns (r: Result<seq<byte>, Error>)
    ensures r == Stripped(c, d)
  {
    var there := Locate(c, d);
    if there.Ok? {
      return Ok(d[..there.value.start]);
    }
    if there.error == NoPayload {
      return Ok(d);
    }
    return Err(there.error);
  }
}
