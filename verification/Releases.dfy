/** Release tags: reading their numbers, and the order the policy's minimum rests on. */
module Releases {
  import opened Wrappers

  // ---- reading a tag --------------------------------------------------------------

  /** The first position of c, or the length when there is none. */
  function IndexOf(s: string, c: char): (i: nat)
    ensures i <= |s| && (forall k :: 0 <= k < i ==> s[k] != c) && (i < |s| ==> s[i] == c)
  {
    if s == [] || s[0] == c then 0 else 1 + IndexOf(s[1..], c)
  }

  /** The parts between the dots. */
  function Split(s: string): (parts: seq<string>)
    ensures parts != []
    decreases |s|
  {
    var i := IndexOf(s, '.');
    if i == |s| then [s] else [s[..i]] + Split(s[i + 1..])
  }

  predicate Digit(c: char) { '0' <= c <= '9' }

  predicate Digits(p: string) { forall i :: 0 <= i < |p| ==> Digit(p[i]) }

  /** The number the digits write. */
  function Value(p: string): nat
    requires Digits(p)
  {
    if p == [] then 0 else 10 * Value(p[..|p| - 1]) + (p[|p| - 1] as int - '0' as int)
  }

  predicate Number(p: string) { 0 < |p| <= 9 && Digits(p) }

  /** A tag's numbers and pre-release; of a tag that does not read, whatever was read before it failed. */
  datatype Reading = Reading(major: nat, minor: nat, patch: nat, pre: string, ok: bool)

  const NOTHING := Reading(0, 0, 0, "", false)

  function ReadParts(parts: seq<string>, pre: string): Reading {
    if |parts| != 3 || !Number(parts[0]) then NOTHING
    else if !Number(parts[1]) then NOTHING.(major := Value(parts[0]))
    else if !Number(parts[2]) then NOTHING.(major := Value(parts[0]), minor := Value(parts[1]))
    else Reading(Value(parts[0]), Value(parts[1]), Value(parts[2]), pre, true)
  }

  function Read(tag: string): Reading {
    if tag == "" || tag[0] != 'v' then NOTHING
    else
      var core := tag[1..][..IndexOf(tag[1..], '+')];
      var dash := IndexOf(core, '-');
      if dash == |core| then ReadParts(Split(core), "")
      else if dash == |core| - 1 then NOTHING
      else ReadParts(Split(core[..dash]), core[dash + 1..])
  }

  predicate ValidRelease(tag: string) { Read(tag).ok }

  /** One part: its number, digit by digit. */
  method ReadNumber(p: string) returns (n: Option<nat>)
    ensures n == if Number(p) then Some(Value(p)) else None
  {
    if p == "" || |p| > 9 {
      return None;
    }
    var sum := 0;
    for i := 0 to |p|
      invariant Digits(p[..i]) && sum == Value(p[..i])
    {
      if !('0' <= p[i] <= '9') {
        assert !Digit(p[i]);
        return None;
      }
      assert p[..i + 1][..i] == p[..i];
      sum := sum * 10 + (p[i] as int - '0' as int);
    }
    assert p[..|p|] == p;
    return Some(sum);
  }

  method ReadAll(parts: seq<string>, pre: string) returns (r: Reading)
    requires |parts| == 3
    ensures r == ReadParts(parts, pre)
  {
    var nums := new nat[3](_ => 0);
    for i := 0 to 3
      invariant forall k :: 0 <= k < 3 ==> nums[k] == if k < i then (if Number(parts[k]) then Value(parts[k]) else 0) else 0
      invariant forall k :: 0 <= k < i ==> Number(parts[k])
    {
      var n := ReadNumber(parts[i]);
      if n.None? {
        return NOTHING.(major := nums[0], minor := nums[1], patch := nums[2]);
      }
      nums[i] := n.value;
    }
    return Reading(nums[0], nums[1], nums[2], pre, true);
  }

  method ReleaseNumbers(tag: string) returns (r: Reading)
    ensures r == Read(tag)
  {
    if tag == "" || tag[0] != 'v' {
      return NOTHING;
    }
    var core, pre := tag[1..][..IndexOf(tag[1..], '+')], "";
    var dash := IndexOf(core, '-');
    if dash < |core| {
      pre := core[dash + 1..];
      core := core[..dash];
      if pre == "" {
        return NOTHING;
      }
    } else {
      assert core[..dash] == core;
    }
    var parts := Split(core);
    if |parts| != 3 {
      return NOTHING;
    }
    r := ReadAll(parts, pre);
  }

  // ---- tags as they are written ---------------------------------------------------------

  function Decimal(n: nat): (p: string)
    ensures p != [] && Digits(p) && Value(p) == n
  {
    if n < 10 then [(n + '0' as int) as char]
    else
      var head := Decimal(n / 10);
      var p := head + [(n % 10 + '0' as int) as char];
      assert p[..|p| - 1] == head;
      p
  }

  function Power10(k: nat): nat { if k == 0 then 1 else 10 * Power10(k - 1) }

  lemma {:induction false} DecimalLength(n: nat, k: nat)
    requires k > 0 && n < Power10(k)
    ensures |Decimal(n)| <= k
  {
    if n >= 10 {
      DecimalLength(n / 10, k - 1);
    }
  }

  lemma NineDigits(n: nat)
    requires n < 1_000_000_000
    ensures Number(Decimal(n))
  {
    assert Power10(1) == 10 && Power10(2) == 100 && Power10(3) == 1000;
    assert Power10(4) == 10_000 && Power10(5) == 100_000 && Power10(6) == 1_000_000;
    assert Power10(7) == 10_000_000 && Power10(8) == 100_000_000 && Power10(9) == 1_000_000_000;
    DecimalLength(n, 9);
  }

  lemma IndexAfter(a: string, c: char, b: string)
    requires forall k :: 0 <= k < |a| ==> a[k] != c
    ensures IndexOf(a + [c] + b, c) == |a|
  {
    var s := a + [c] + b;
    assert s[|a|] == c && forall k :: 0 <= k < |a| ==> s[k] == a[k];
  }

  lemma IndexNone(a: string, c: char)
    requires forall k :: 0 <= k < |a| ==> a[k] != c
    ensures IndexOf(a, c) == |a|
  {
  }

  lemma SplitAfter(a: string, b: string)
    requires Digits(a)
    ensures Split(a + "." + b) == [a] + Split(b)
  {
    IndexAfter(a, '.', b);
    var s := a + "." + b;
    assert s[..|a|] == a && s[|a| + 1..] == b;
  }

  function Core(a: nat, b: nat, c: nat): string { Decimal(a) + "." + (Decimal(b) + "." + Decimal(c)) }

  lemma SplitsThree(x: string, y: string, z: string)
    requires Digits(x) && Digits(y) && Digits(z)
    ensures Split(x + "." + (y + "." + z)) == [x, y, z]
  {
    SplitAfter(x, y + "." + z);
    SplitAfter(y, z);
    IndexNone(z, '.');
  }

  lemma SplitsCore(a: nat, b: nat, c: nat)
    ensures Split(Core(a, b, c)) == [Decimal(a), Decimal(b), Decimal(c)]
  {
    SplitsThree(Decimal(a), Decimal(b), Decimal(c));
  }

  lemma CoreIsPlain(a: nat, b: nat, c: nat)
    ensures forall k :: 0 <= k < |Core(a, b, c)| ==> Core(a, b, c)[k] != '-' && Core(a, b, c)[k] != '+'
  {
  }

  /** A tag as a release is written: three numbers, maybe a pre-release, maybe a build. */
  function Tag(a: nat, b: nat, c: nat, pre: string, build: string): string {
    "v" + (Core(a, b, c) + (if pre == "" then "" else "-" + pre)) + (if build == "" then "" else "+" + build)
  }

  lemma ReadsCore(a: nat, b: nat, c: nat, pre: string)
    requires a < 1_000_000_000 && b < 1_000_000_000 && c < 1_000_000_000
    ensures ReadParts(Split(Core(a, b, c)), pre) == Reading(a, b, c, pre, true)
  {
    SplitsCore(a, b, c);
    NineDigits(a);
    NineDigits(b);
    NineDigits(c);
  }

  /** The pre-release is cut off at the first dash. */
  lemma DashCuts(core: string, pre: string)
    requires forall k :: 0 <= k < |core| ==> core[k] != '-'
    ensures var s := core + (if pre == "" then "" else "-" + pre); var dash := IndexOf(s, '-');
            && dash == |core| && s[..dash] == core && (pre == "" ==> dash == |s|) && (pre != "" ==> dash < |s| - 1 && s[dash + 1..] == pre)
  {
    if pre == "" {
      assert core + "" == core;
      IndexNone(core, '-');
    } else {
      assert core + ("-" + pre) == core + ['-'] + pre;
      IndexAfter(core, '-', pre);
    }
  }

  /** The build is cut off at the first plus. */
  lemma PlusCuts(s: string, build: string)
    requires forall k :: 0 <= k < |s| ==> s[k] != '+'
    ensures var tag := "v" + s + (if build == "" then "" else "+" + build); tag[1..][..IndexOf(tag[1..], '+')] == s
  {
    var tag := "v" + s + (if build == "" then "" else "+" + build);
    if build == "" {
      assert tag[1..] == s;
      IndexNone(s, '+');
    } else {
      assert tag[1..] == s + ['+'] + build;
      IndexAfter(s, '+', build);
    }
  }

  /** What is written is what is read; the build is ignored. */
  lemma ReadsWhatIsWritten(a: nat, b: nat, c: nat, pre: string, build: string)
    requires a < 1_000_000_000 && b < 1_000_000_000 && c < 1_000_000_000
    requires forall k :: 0 <= k < |pre| ==> pre[k] != '+'
    ensures Read(Tag(a, b, c, pre, build)) == Reading(a, b, c, pre, true)
  {
    var core := Core(a, b, c);
    var s := core + (if pre == "" then "" else "-" + pre);
    CoreIsPlain(a, b, c);
    DashCuts(core, pre);
    PlusCuts(s, build);
    ReadsCore(a, b, c, pre);
    assert s[..|s|] == s;
  }

  // ---- which strings are releases --------------------------------------------------------

  /** A tag in three numbers of one to nine digits, leading zeros and all, a pre-release behind a dash, anything behind a plus. */
  function Written(x: string, y: string, z: string, pre: string, rest: string): string {
    "v" + (x + "." + (y + "." + z) + (if pre == "" then "" else "-" + pre)) + rest
  }

  /** Behind the numbers and the pre-release there is nothing, or a plus and anything. */
  predicate Build(rest: string) { rest != "" ==> rest[0] == '+' }

  predicate ReleaseParts(x: string, y: string, z: string, pre: string, rest: string) {
    Number(x) && Number(y) && Number(z) && (forall k :: 0 <= k < |pre| ==> pre[k] != '+') && Build(rest)
  }

  lemma PlusFound(s: string, rest: string)
    requires (forall k :: 0 <= k < |s| ==> s[k] != '+') && Build(rest)
    ensures var tag := "v" + s + rest; tag[1..][..IndexOf(tag[1..], '+')] == s
  {
    var tag := "v" + s + rest;
    assert tag[1..] == s + rest;
    if rest == "" {
      IndexNone(s, '+');
    } else {
      assert s + rest == s + ['+'] + rest[1..];
      IndexAfter(s, '+', rest[1..]);
    }
  }

  function WithPre(core: string, pre: string): string { core + (if pre == "" then "" else "-" + pre) }

  lemma ReadsCut(tag: string, core: string, pre: string)
    requires tag != "" && tag[0] == 'v' && tag[1..][..IndexOf(tag[1..], '+')] == WithPre(core, pre)
    requires forall k :: 0 <= k < |core| ==> core[k] != '-'
    ensures Read(tag) == ReadParts(Split(core), pre)
  {
    DashCuts(core, pre);
  }

  lemma ReadsWritten(x: string, y: string, z: string, pre: string, rest: string)
    requires ReleaseParts(x, y, z, pre, rest)
    ensures Read(Written(x, y, z, pre, rest)) == Reading(Value(x), Value(y), Value(z), pre, true)
  {
    var core := x + "." + (y + "." + z);
    assert forall k :: 0 <= k < |core| ==> core[k] != '-' && core[k] != '+' by {
      NumbersArePlain(x, y, z);
    }
    PlusFound(WithPre(core, pre), rest);
    ReadsCut(Written(x, y, z, pre, rest), core, pre);
    SplitsThree(x, y, z);
  }

  lemma NumbersArePlain(x: string, y: string, z: string)
    requires Digits(x) && Digits(y) && Digits(z)
    ensures forall k :: 0 <= k < |x + "." + (y + "." + z)| ==>
              (x + "." + (y + "." + z))[k] != '-' && (x + "." + (y + "." + z))[k] != '+'
  {
  }

  lemma TwoParts(s: string)
    requires |Split(s)| == 2
    ensures s == Split(s)[0] + "." + Split(s)[1]
  {
    var i := IndexOf(s, '.');
    var b := s[i + 1..];
    assert IndexOf(b, '.') == |b|;
    assert s == s[..i] + "." + b;
  }

  lemma ThreeParts(s: string)
    requires |Split(s)| == 3
    ensures s == Split(s)[0] + "." + (Split(s)[1] + "." + Split(s)[2])
  {
    var i := IndexOf(s, '.');
    TwoParts(s[i + 1..]);
    assert s == s[..i] + "." + s[i + 1..];
  }

  lemma CutAt(s: string, c: char) returns (before: string, rest: string)
    ensures before == s[..IndexOf(s, c)] && s == before + rest && (rest == "" <==> IndexOf(s, c) == |s|)
    ensures (forall k :: 0 <= k < |before| ==> before[k] != c) && (rest != "" ==> rest[0] == c && rest[1..] == s[IndexOf(s, c) + 1..])
  {
    before, rest := s[..IndexOf(s, c)], s[IndexOf(s, c)..];
  }

  /** A tag that reads as a release is written as one. */
  lemma ReleaseWritten(tag: string) returns (x: string, y: string, z: string, pre: string, rest: string)
    requires ValidRelease(tag)
    ensures ReleaseParts(x, y, z, pre, rest) && tag == Written(x, y, z, pre, rest)
  {
    var core, numbers, tail;
    core, rest := CutAt(tag[1..], '+');
    numbers, tail := CutAt(core, '-');
    pre := if tail == "" then "" else tail[1..];
    assert tail == if pre == "" then "" else "-" + pre;
    assert core == numbers + tail;
    if tail == "" {
      assert core == numbers;
    } else {
      assert IndexOf(core, '-') < |core| - 1;
    }
    var parts := Split(numbers);
    assert Read(tag) == ReadParts(parts, pre);
    x, y, z := parts[0], parts[1], parts[2];
    ThreeParts(numbers);
    JoinsUp(tag, numbers, pre, rest);
  }

  lemma JoinsUp(tag: string, numbers: string, pre: string, rest: string)
    requires tag != "" && tag[0] == 'v' && tag[1..] == numbers + (if pre == "" then "" else "-" + pre) + rest
    ensures tag == "v" + (numbers + (if pre == "" then "" else "-" + pre)) + rest
  {
    assert tag == "v" + tag[1..];
  }

  /** A string is a release exactly when it is written as one, and then its numbers and pre-release are what is written. */
  lemma ReleasesExactly(tag: string)
    ensures ValidRelease(tag) <==>
                exists x, y, z, pre, rest :: ReleaseParts(x, y, z, pre, rest) && tag == Written(x, y, z, pre, rest)
    ensures forall x, y, z, pre, rest :: ReleaseParts(x, y, z, pre, rest) && tag == Written(x, y, z, pre, rest) ==>
              Read(tag) == Reading(Value(x), Value(y), Value(z), pre, true)
  {
    if ValidRelease(tag) {
      var x, y, z, pre, rest := ReleaseWritten(tag);
    }
    forall x, y, z, pre, rest | ReleaseParts(x, y, z, pre, rest) && tag == Written(x, y, z, pre, rest)
      ensures Read(tag) == Reading(Value(x), Value(y), Value(z), pre, true)
    {
      ReadsWritten(x, y, z, pre, rest);
    }
  }

  // ---- the order ---------------------------------------------------------------------------

  /** Strings by their first difference; a prefix comes first. */
  predicate Before(a: string, b: string) {
    b != "" && (a == "" || a[0] < b[0] || (a[0] == b[0] && Before(a[1..], b[1..])))
  }

  lemma {:induction false} BeforeTotal(a: string, b: string)
    ensures (a == b) == (!Before(a, b) && !Before(b, a)) && !(Before(a, b) && Before(b, a))
  {
    if a != "" && b != "" && a[0] == b[0] {
      BeforeTotal(a[1..], b[1..]);
      assert a == [a[0]] + a[1..] && b == [b[0]] + b[1..];
    }
  }

  lemma {:induction false} BeforeTransitive(a: string, b: string, c: string)
    requires Before(a, b) && Before(b, c)
    ensures Before(a, c)
  {
    if a != "" && a[0] == b[0] == c[0] {
      BeforeTransitive(a[1..], b[1..], c[1..]);
    }
  }

  function CompareNumbers(a: nat, b: nat): int { if a < b then -1 else if a > b then 1 else 0 }

  /** A release comes after its pre-releases. */
  function ComparePre(a: string, b: string): int {
    if a == b then 0 else if a == "" then 1 else if b == "" then -1 else if Before(a, b) then -1 else 1
  }

  function CompareReadings(a: Reading, b: Reading): int {
    if a.major != b.major then CompareNumbers(a.major, b.major)
    else if a.minor != b.minor then CompareNumbers(a.minor, b.minor)
    else if a.patch != b.patch then CompareNumbers(a.patch, b.patch)
    else ComparePre(a.pre, b.pre)
  }

  function CompareRelease(a: string, b: string): int { CompareReadings(Read(a), Read(b)) }

  method Compare(a: string, b: string) returns (order: int)
    ensures order == CompareRelease(a, b)
  {
    var x := ReleaseNumbers(a);
    var y := ReleaseNumbers(b);
    var xs, ys := [x.major, x.minor, x.patch], [y.major, y.minor, y.patch];
    for i := 0 to 3
      invariant forall k :: 0 <= k < i ==> xs[k] == ys[k]
    {
      if xs[i] != ys[i] {
        assert i == 0 || (i == 1 && xs[0] == ys[0]) || (i == 2 && xs[0] == ys[0] && xs[1] == ys[1]);
        return if xs[i] < ys[i] then -1 else 1;
      }
    }
    assert xs[0] == ys[0] && xs[1] == ys[1] && xs[2] == ys[2];
    return if x.pre == y.pre then 0 else if x.pre == "" then 1 else if y.pre == "" then -1 else if Before(x.pre, y.pre) then -1 else 1;
  }

  lemma ComparePreOrders(a: string, b: string, c: string)
    ensures ComparePre(a, b) == -ComparePre(b, a)
    ensures ComparePre(a, b) <= 0 && ComparePre(b, c) <= 0 ==> ComparePre(a, c) <= 0
    ensures ComparePre(a, b) == 0 <==> a == b
  {
    BeforeTotal(a, b);
    BeforeTotal(b, c);
    BeforeTotal(a, c);
    if Before(a, b) && Before(b, c) { BeforeTransitive(a, b, c); }
  }

  /** On all tags, valid or not, the comparison is a total preorder: antisymmetric and transitive. */
  lemma CompareIsPreorder(a: string, b: string, c: string)
    ensures CompareRelease(a, b) == -CompareRelease(b, a)
    ensures CompareRelease(a, b) <= 0 && CompareRelease(b, c) <= 0 ==> CompareRelease(a, c) <= 0
  {
    ComparePreOrders(Read(a).pre, Read(b).pre, Read(c).pre);
  }

  /** Releases are ordered by their numbers, a pre-release before its release, pre-releases as strings; builds do not count. */
  lemma OrderOfReleases(a: nat, b: nat, c: nat, pre: string, build: string, d: nat, e: nat, f: nat, pre': string, build': string)
    requires a < 1_000_000_000 && b < 1_000_000_000 && c < 1_000_000_000 && d < 1_000_000_000 && e < 1_000_000_000
             && f < 1_000_000_000
    requires (forall k :: 0 <= k < |pre| ==> pre[k] != '+') && (forall k :: 0 <= k < |pre'| ==> pre'[k] != '+')
    ensures CompareRelease(Tag(a, b, c, pre, build), Tag(d, e, f, pre', build')) < 0
            <==> a < d || (a == d && (b < e || (b == e && (c < f || (c == f && pre != "" && (pre' == "" || Before(pre, pre')))))))
  {
    ReadsWhatIsWritten(a, b, c, pre, build);
    ReadsWhatIsWritten(d, e, f, pre', build');
    BeforeTotal(pre, pre');
  }
}
