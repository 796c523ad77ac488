/** Bytes and the fixed-width integers the file and wire formats are built of. */
module Bytes {
  type byte = i: int | 0 <= i < 256
  type uint16 = i: int | 0 <= i < 0x1_0000
  type uint32 = i: int | 0 <= i < 0x1_0000_0000
  type uint64 = i: int | 0 <= i < 0x1_0000_0000_0000_0000

  function Zeros(n: nat): (z: seq<byte>)
    ensures |z| == n && forall i :: 0 <= i < n ==> z[i] == 0
  {
    seq(n, _ => 0)
  }

  predicate AllZero(b: seq<byte>) {
    forall i :: 0 <= i < |b| ==> b[i] == 0
  }

  method ScanZeros(b: seq<byte>) returns (zero: bool)
    ensures zero == AllZero(b)
  {
    for i := 0 to |b|
      invariant AllZero(b[..i])
    {
      if b[i] != 0 {
        return false;
      }
    }
    return true;
  }

  /** 256 to the power k: what k bytes can count to. */
  function Pow256(k: nat): (p: nat)
    ensures p > 0
  {
    if k == 0 then 1 else 256 * Pow256(k - 1)
  }

  /** The k low bytes of n, least significant first. */
  function LE(n: nat, k: nat): (b: seq<byte>)
    ensures |b| == k
  {
    if k == 0 then [] else [n % 256] + LE(n / 256, k - 1)
  }

  function FromLE(b: seq<byte>): (n: nat)
    ensures n < Pow256(|b|)
  {
    if b == [] then 0 else b[0] + 256 * FromLE(b[1..])
  }

  lemma {:induction false} LERoundTrip(n: nat, k: nat)
    requires n < Pow256(k)
    ensures FromLE(LE(n, k)) == n
  {
    if k > 0 {
      LERoundTrip(n / 256, k - 1);
      assert LE(n, k)[1..] == LE(n / 256, k - 1);
    }
  }

  lemma {:induction false} FromLERoundTrip(b: seq<byte>)
    ensures LE(FromLE(b), |b|) == b
  {
    if b != [] {
      FromLERoundTrip(b[1..]);
      assert FromLE(b) % 256 == b[0] && FromLE(b) / 256 == FromLE(b[1..]);
    }
  }

  lemma Pow256Values()
    ensures Pow256(2) == 0x1_0000 && Pow256(4) == 0x1_0000_0000 && Pow256(8) == 0x1_0000_0000_0000_0000
  {
  }

  /** The k bytes at offset at, as a little-endian number. */
  function ReadLE(b: seq<byte>, at: nat, k: nat): nat
    requires at + k <= |b|
  {
    FromLE(b[at..at + k])
  }

  lemma OneByte(b: seq<byte>)
    requires b != []
    ensures FromLE(b) == b[0] as int + 0x100 * FromLE(b[1..])
  {
  }

  /** The first four bytes of a number come first, least significant foremost. */
  lemma FourBytes(b: seq<byte>)
    requires |b| >= 4
    ensures FromLE(b) == b[0] as int + 0x100 * b[1] as int + 0x1_0000 * b[2] as int + 0x100_0000 * b[3] as int + 0x1_0000_0000 * FromLE(b[4..])
  {
    OneByte(b);
    OneByte(b[1..]);
    OneByte(b[2..]);
    OneByte(b[3..]);
    assert b[1..][1..] == b[2..] && b[2..][1..] == b[3..] && b[3..][1..] == b[4..];
  }

  /** What two, four and eight bytes read as. */
  lemma LittleEndian(b: seq<byte>, at: nat)
    ensures at + 2 <= |b| ==> ReadLE(b, at, 2) == b[at] as int + 0x100 * b[at + 1] as int
    ensures at + 4 <= |b| ==>
              ReadLE(b, at, 4) == b[at] as int + 0x100 * b[at + 1] as int + 0x1_0000 * b[at + 2] as int + 0x100_0000 * b[at + 3] as int
    ensures at + 8 <= |b| ==> ReadLE(b, at, 8) == ReadLE(b, at, 4) + 0x1_0000_0000 * ReadLE(b, at + 4, 4)
  {
    if at + 2 <= |b| {
      OneByte(b[at..at + 2]);
      OneByte(b[at..at + 2][1..]);
    }
    if at + 4 <= |b| {
      FourBytes(b[at..at + 4]);
    }
    if at + 8 <= |b| {
      FourBytes(b[at..at + 8]);
      assert b[at..at + 8][4..] == b[at + 4..at + 8];
    }
  }

  /** b with the bytes at offset at overwritten by v. */
  function Patch(b: seq<byte>, at: nat, v: seq<byte>): (r: seq<byte>)
    requires at + |v| <= |b|
    ensures |r| == |b|
    ensures forall i :: 0 <= i < |b| ==> r[i] == if at <= i < at + |v| then v[i - at] else b[i]
  {
    b[..at] + v + b[at + |v|..]
  }

  /** A part of what d holds from start on, seen from d. */
  lemma Inside(d: seq<byte>, start: nat, s: seq<byte>, i: nat, j: nat)
    requires start + |s| <= |d| && d[start..start + |s|] == s && i <= j <= |s|
    ensures d[start + i..start + j] == s[i..j]
  {
    var got := d[start + i..start + j];
    forall k | 0 <= k < j - i ensures got[k] == s[i..j][k] {
      assert d[start..start + |s|][i + k] == s[i + k];
    }
  }

  function BE32(n: uint32): (b: seq<byte>)
    ensures |b| == 4
  {
    [n / 0x100_0000, n / 0x1_0000 % 256, n / 0x100 % 256, n % 256]
  }

  function FromBE32(b: seq<byte>): uint32
    requires |b| == 4
  {
    ((b[0] as int * 256 + b[1]) * 256 + b[2]) * 256 + b[3]
  }

  lemma BE32RoundTrip(n: uint32)
    ensures FromBE32(BE32(n)) == n
  {
    assert n / 0x1_0000 == n / 0x100_0000 * 256 + n / 0x1_0000 % 256;
    assert n / 0x100 == n / 0x1_0000 * 256 + n / 0x100 % 256;
  }

  lemma FromBE32RoundTrip(b: seq<byte>)
    requires |b| == 4
    ensures BE32(FromBE32(b)) == b
  {
    var n := FromBE32(b);
    assert n / 0x100 == (b[0] as int * 256 + b[1]) * 256 + b[2];
    assert n / 0x1_0000 == b[0] as int * 256 + b[1];
    assert n / 0x100_0000 == b[0];
  }
}
