/** Where the files of a payload end up: under the directory they are unpacked to, each in its own place. */
module PayloadPaths {
  import opened Wrappers
  import opened Bytes
  import opened Payload

  /** How much of a path comes before its first slash. */
  function ToSlash(s: string): (k: nat)
    ensures k <= |s| && (forall i :: 0 <= i < k ==> s[i] != '/') && (k < |s| ==> s[k] == '/')
  {
    if s == [] || s[0] == '/' then 0 else 1 + ToSlash(s[1..])
  }

  /** One step from a directory below the root: "" and "." stay, ".." goes up, anything else goes down. None is above the root. */
  function Enter(dir: seq<string>, seg: string): Option<seq<string>> {
    if seg == "" || seg == "." then Some(dir)
    else if seg == ".." then (if dir == [] then None else Some(dir[..|dir| - 1]))
    else Some(dir + [seg])
  }

  /** Where a path leads from a directory; None as soon as it leaves the root. */
  function Resolve(dir: seq<string>, path: string): Option<seq<string>>
    decreases |path|
  {
    var k := ToSlash(path);
    match Enter(dir, path[..k])
    case None => None
    case Some(next) => if k == |path| then Some(next) else Resolve(next, path[k + 1..])
  }

  function Slashes(s: string): nat { if s == [] then 0 else (if s[0] == '/' then 1 else 0) + Slashes(s[1..]) }

  /** The path of a directory, written out. */
  function Written(dir: seq<string>): string {
    if dir == [] then [] else if |dir| == 1 then dir[0] else dir[0] + "/" + Written(dir[1..])
  }

  // ---- segments --------------------------------------------------------------------------

  lemma {:induction false} SegmentsSplit(s: string)
    ensures var k := ToSlash(s);
            Segments(s) == [s[..k]] + if k == |s| then [] else Segments(s[k + 1..])
  {
    if s != [] && s[0] != '/' {
      SegmentsSplit(s[1..]);
      var k := ToSlash(s);
      assert s[..k] == [s[0]] + s[1..][..k - 1];
      if k < |s| { assert s[k + 1..] == s[1..][k..]; }
    }
  }

  lemma {:induction false} SlashesSplit(s: string)
    ensures var k := ToSlash(s); Slashes(s) == if k == |s| then 0 else 1 + Slashes(s[k + 1..])
  {
    if s != [] && s[0] != '/' {
      SlashesSplit(s[1..]);
      var k := ToSlash(s);
      if k < |s| { assert s[k + 1..] == s[1..][k..]; }
    }
  }

  predicate Plain(seg: string) { seg != "" && seg != "." && seg != ".." }

  predicate AllPlain(segs: seq<string>) { forall seg :: seg in segs ==> Plain(seg) }

  lemma PlainSplit(s: string)
    ensures var k := ToSlash(s);
            AllPlain(Segments(s)) <==> Plain(s[..k]) && (k < |s| ==> AllPlain(Segments(s[k + 1..])))
  {
    SegmentsSplit(s);
    var k := ToSlash(s);
    if k < |s| {
      assert forall seg :: seg in Segments(s) <==> seg == s[..k] || seg in Segments(s[k + 1..]);
    }
  }

  /** A path climbs by at most its segments, and by all of them exactly when each goes down. */
  lemma {:induction false} ClimbsBy(dir: seq<string>, s: string)
    ensures var r := Resolve(dir, s);
            && (r.Some? ==> |r.value| <= |dir| + Slashes(s) + 1)
            && (AllPlain(Segments(s)) <==> r.Some? && |r.value| == |dir| + Slashes(s) + 1)
            && (AllPlain(Segments(s)) ==> r == Some(dir + Segments(s)))
    decreases |s|
  {
    var k := ToSlash(s);
    SegmentsSplit(s);
    SlashesSplit(s);
    PlainSplit(s);
    var next := Enter(dir, s[..k]);
    if next.Some? && k < |s| {
      ClimbsBy(next.value, s[k + 1..]);
      assert dir + [s[..k]] + Segments(s[k + 1..]) == dir + Segments(s);
    } else if k == |s| {
      assert dir + [s[..k]] == dir + Segments(s);
    }
  }

  lemma {:induction false} WritesBack(s: string)
    ensures Written(Segments(s)) == s
    decreases |s|
  {
    SegmentsSplit(s);
    var k := ToSlash(s);
    if k < |s| {
      WritesBack(s[k + 1..]);
      assert Segments(s)[1..] == Segments(s[k + 1..]);
      assert s == s[..k] + "/" + s[k + 1..];
    } else {
      assert s[..k] == s;
    }
  }

  /** Characters no name may hold. */
  predicate Forbidden(c: char) {
    || c as int < 32 || c as int == 127 || c as int == 0xfffd
    || c == '\\' || c == ':' || c == '*' || c == '?' || c == '"' || c == '<' || c == '>' || c == '|'
  }

  /**
   * A name is taken exactly when it is 1 to 200 bytes of allowed characters
   * and every segment of it goes one directory further down.
   */
  lemma ValidExactly(name: string)
    ensures ValidName(name) <==>
            && 1 <= Utf8Size(name) <= 200
            && (forall i :: 0 <= i < |name| ==> !Forbidden(name[i]))
            && Resolve([], name).Some? && |Resolve([], name).value| == 1 + Slashes(name)
  {
    ClimbsBy([], name);
    forall i | 0 <= i < |name| ensures PlainChar(name[i]) <==> !Forbidden(name[i]) {
    }
  }

  /** The place of a file: strictly below the directory, reached without leaving it, and no other name's. */
  predicate StaysBelow(name: string) { Resolve([], name).Some? && Resolve([], name).value != [] }

  lemma ValidStaysBelow(name: string)
    requires ValidName(name)
    ensures StaysBelow(name) && Written(Resolve([], name).value) == name
    ensures forall i :: 0 <= i < |name| ==> !Forbidden(name[i])
  {
    ClimbsBy([], name);
    WritesBack(name);
    ValidExactly(name);
    assert [] + Segments(name) == Segments(name);
  }

  /** Different names lead to different places. */
  predicate OwnPlaces(names: seq<string>) {
    && (forall i :: 0 <= i < |names| ==> StaysBelow(names[i]) && forall k :: 0 <= k < |names[i]| ==> !Forbidden(names[i][k]))
    && (forall i, j :: 0 <= i < j < |names| ==> Resolve([], names[i]) != Resolve([], names[j]))
  }

  lemma ValidOwnPlaces(names: seq<string>)
    requires forall i :: 0 <= i < |names| ==> ValidName(names[i])
    requires forall i, j :: 0 <= i < j < |names| ==> names[i] != names[j]
    ensures OwnPlaces(names)
  {
    forall i | 0 <= i < |names|
      ensures StaysBelow(names[i]) && Written(Resolve([], names[i]).value) == names[i]
      ensures forall k :: 0 <= k < |names[i]| ==> !Forbidden(names[i][k])
    {
      ValidStaysBelow(names[i]);
    }
    forall i, j | 0 <= i < j < |names| ensures Resolve([], names[i]) != Resolve([], names[j]) {
      assert Written(Resolve([], names[i]).value) != Written(Resolve([], names[j]).value);
    }
  }

  // ---- what is packed and what is located --------------------------------------------------

  function EntryNames(entries: seq<Entry>): (names: seq<string>)
    ensures |names| == |entries| && forall i :: 0 <= i < |entries| ==> names[i] == entries[i].name
  {
    seq(|entries|, i requires 0 <= i < |entries| => entries[i].name)
  }

  function ListedNames(files: seq<File>): (names: seq<string>)
    ensures |names| == |files| && forall i :: 0 <= i < |files| ==> names[i] == files[i].name
  {
    seq(|files|, i requires 0 <= i < |files| => files[i].name)
  }

  lemma {:induction false} GoodEntries(entries: seq<Entry>, k: nat)
    requires k <= |entries| && BadEntry(entries, k).None?
    ensures forall i :: k <= i < |entries| ==> ValidName(entries[i].name) && entries[i].name !in Names(entries[..i])
    decreases |entries| - k
  {
    if k < |entries| {
      GoodEntries(entries, k + 1);
    }
  }

  predicate GoodFile(files: seq<File>, i: nat)
    requires i < |files|
  {
    && ValidName(files[i].name) && files[i].name !in FileNames(files[..i])
    && files[i].size >= 0 && Sha(files[i].sha256) && Sizes(files[..i + 1]) <= MAX_TOTAL
  }

  lemma {:induction false} GoodFiles(files: seq<File>, k: nat)
    requires k <= |files|
    ensures BadFile(files, k).None? <==> forall i :: k <= i < |files| ==> GoodFile(files, i)
    decreases |files| - k
  {
    if k < |files| {
      GoodFiles(files, k + 1);
      assert files[..k + 1][k] == files[k];
      assert BadFile(files, k).None? <==> GoodFile(files, k) && BadFile(files, k + 1).None?;
    }
  }

  /** Every entry Append packs is unpacked strictly below the directory, in a place of its own. */
  lemma AppendedStayBelow(c: Codec, exe: seq<byte>, version: string, entries: seq<Entry>)
    requires Appended(c, exe, version, entries).Ok?
    ensures OwnPlaces(EntryNames(entries))
  {
    GoodEntries(entries, 0);
    forall i, j | 0 <= i < j < |entries| ensures entries[i].name != entries[j].name {
      assert entries[..j][i] == entries[i] && entries[j].name !in Names(entries[..j]);
    }
    ValidOwnPlaces(EntryNames(entries));
  }

  /** So is every file of a payload Locate finds, whoever made it. */
  lemma LocatedStayBelow(c: Codec, d: seq<byte>)
    requires Located(c, d).Ok?
    ensures OwnPlaces(ListedNames(Located(c, d).value.manifest.files))
  {
    var files := Located(c, d).value.manifest.files;
    GoodFiles(files, 0);
    forall i, j | 0 <= i < j < |files| ensures files[i].name != files[j].name {
      assert GoodFile(files, i) && GoodFile(files, j);
      assert files[..j][i] == files[i];
    }
    forall i | 0 <= i < |files| ensures ValidName(files[i].name) {
      assert GoodFile(files, i);
    }
    ValidOwnPlaces(ListedNames(files));
  }
}
