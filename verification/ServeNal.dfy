/**
 * What a video packet carries, read off its payload as RFC 6184 (sections
 * 5.7.1 and 5.8) and RFC 7798 (sections 4.4.2 and 4.4.3) lay it out.
 */
module ServeNal {
  import opened Bytes

  /** The weakest first: neither, the start of another frame, the start of a keyframe. */
  datatype Kind = Other | Inter | Key

  datatype Codec = H264 | H265

  function Stronger(a: Kind, b: Kind): Kind {
    if a.Key? || b.Key? then Key else if a.Inter? || b.Inter? then Inter else Other
  }

  function H264Nal(t: int): Kind {
    if t == 5 || t == 7 || t == 8 then Key else if 1 <= t <= 4 then Inter else Other
  }

  function H265Nal(t: int): Kind {
    if 16 <= t <= 21 || 32 <= t <= 34 then Key else if t <= 15 then Inter else Other
  }

  /** The kind of a unit, by its first byte. */
  function UnitKind(c: Codec, first: byte): Kind {
    match c
    case H264 => H264Nal(first as int % 32)
    case H265 => H265Nal(first as int / 2 % 64)
  }

  /** The bytes of a unit header, which is also the least a unit can be. */
  function HeaderSize(c: Codec): nat { match c case H264 => 1 case H265 => 2 }

  /** Reading the units of an aggregation packet from off on; a size that does not fit makes the whole packet Other. */
  function Scan(c: Codec, p: seq<byte>, off: nat, best: Kind): Kind
    decreases if off < |p| then |p| - off else 0
  {
    if off + 2 > |p| then best
    else
      var size := p[off] as int * 256 + p[off + 1] as int;
      if size < HeaderSize(c) || off + 2 + size > |p| then Other
      else Scan(c, p, off + 2 + size, Stronger(best, UnitKind(c, p[off + 2])))
  }

  function H264Kind(p: seq<byte>): Kind {
    if |p| < 1 then Other
    else if p[0] as int % 32 == 24 then Scan(H264, p, 1, Other)
    else if p[0] as int % 32 == 28 then
      if |p| >= 2 && p[1] as int >= 128 then H264Nal(p[1] as int % 32) else Other
    else H264Nal(p[0] as int % 32)
  }

  function H265Kind(p: seq<byte>): Kind {
    if |p| < 2 then Other
    else if p[0] as int / 2 % 64 == 48 then Scan(H265, p, 2, Other)
    else if p[0] as int / 2 % 64 == 49 then
      if |p| >= 3 && p[2] as int >= 128 then H265Nal(p[2] as int % 64) else Other
    else H265Nal(p[0] as int / 2 % 64)
  }

  function PayloadKind(c: Codec, p: seq<byte>): Kind { match c case H264 => H264Kind(p) case H265 => H265Kind(p) }

  method ClassifyH264(p: seq<byte>) returns (kind: Kind)
    ensures kind == H264Kind(p)
  {
    if |p| < 1 {
      return Other;
    }
    var typ := p[0] as int % 32;
    if typ == 24 {
      kind := Other;
      var off := 1;
      while off + 2 <= |p|
        invariant Scan(H264, p, 1, Other) == Scan(H264, p, off, kind)
        decreases |p| - off
      {
        var size := p[off] as int * 256 + p[off + 1] as int;
        if size < 1 || off + 2 + size > |p| {
          return Other;
        }
        kind := Stronger(kind, H264Nal(p[off + 2] as int % 32));
        off := off + 2 + size;
      }
    } else if typ == 28 {
      kind := if |p| >= 2 && p[1] as int >= 128 then H264Nal(p[1] as int % 32) else Other;
    } else {
      kind := H264Nal(typ);
    }
  }

  method ClassifyH265(p: seq<byte>) returns (kind: Kind)
    ensures kind == H265Kind(p)
  {
    if |p| < 2 {
      return Other;
    }
    var typ := p[0] as int / 2 % 64;
    if typ == 48 {
      kind := Other;
      var off := 2;
      while off + 2 <= |p|
        invariant off >= 2 && Scan(H265, p, 2, Other) == Scan(H265, p, off, kind)
        decreases |p| - off
      {
        var size := p[off] as int * 256 + p[off + 1] as int;
        if size < 2 || off + 2 + size > |p| {
          return Other;
        }
        kind := Stronger(kind, H265Nal(p[off + 2] as int / 2 % 64));
        off := off + 2 + size;
      }
    } else if typ == 49 {
      kind := if |p| >= 3 && p[2] as int >= 128 then H265Nal(p[2] as int % 64) else Other;
    } else {
      kind := H265Nal(typ);
    }
  }

  // ---- what the classes mean: packets built from units ---------------------------

  predicate Fits(c: Codec, u: seq<byte>) { HeaderSize(c) <= |u| < 0x1_0000 }

  predicate AllFit(c: Codec, units: seq<seq<byte>>) { forall k :: 0 <= k < |units| ==> Fits(c, units[k]) }

  /** The units one after another, each behind its 16-bit size. */
  function Bundle(c: Codec, units: seq<seq<byte>>): seq<byte>
    requires AllFit(c, units)
  {
    if units == [] then []
    else [(|units[0]| / 256) as byte, (|units[0]| % 256) as byte] + units[0] + Bundle(c, units[1..])
  }

  /** The strongest kind among the units. */
  function Strongest(c: Codec, units: seq<seq<byte>>): Kind
    requires AllFit(c, units)
  {
    if units == [] then Other
    else
      assert Fits(c, units[0]);
      Stronger(UnitKind(c, units[0][0]), Strongest(c, units[1..]))
  }

  /** One unit is read and the rest is left. */
  lemma ScanUnit(c: Codec, head: seq<byte>, u: seq<byte>, rest: seq<byte>, best: Kind)
    requires Fits(c, u)
    ensures var size := [(|u| / 256) as byte, (|u| % 256) as byte];
            Scan(c, head + (size + u + rest), |head|, best)
            == Scan(c, (head + size + u) + rest, |head| + 2 + |u|, Stronger(best, UnitKind(c, u[0])))
  {
    var size := [(|u| / 256) as byte, (|u| % 256) as byte];
    var p := head + (size + u + rest);
    assert p[|head|] == size[0] && p[|head| + 1] == size[1] && p[|head| + 2] == u[0];
    assert p == (head + size + u) + rest;
  }

  lemma {:induction false} ScanBundle(c: Codec, head: seq<byte>, units: seq<seq<byte>>, best: Kind)
    requires AllFit(c, units)
    ensures Scan(c, head + Bundle(c, units), |head|, best) == Stronger(best, Strongest(c, units))
    decreases |units|
  {
    if units != [] {
      var u := units[0];
      assert Fits(c, u);
      ScanUnit(c, head, u, Bundle(c, units[1..]), best);
      ScanBundle(c, head + [(|u| / 256) as byte, (|u| % 256) as byte] + u, units[1..], Stronger(best, UnitKind(c, u[0])));
    }
  }

  /** The header of an aggregation packet of the codec. */
  predicate AggregateHeader(c: Codec, head: seq<byte>) {
    match c
    case H264 => |head| == 1 && head[0] as int % 32 == 24
    case H265 => |head| == 2 && head[0] as int / 2 % 64 == 48
  }

  /** An aggregation packet is the strongest of the units in it: a keyframe when one of them starts one. */
  lemma AggregateKind(c: Codec, head: seq<byte>, units: seq<seq<byte>>)
    requires AggregateHeader(c, head) && AllFit(c, units)
    ensures PayloadKind(c, head + Bundle(c, units)) == Strongest(c, units)
    ensures PayloadKind(c, head + Bundle(c, units)).Key? <==> exists k :: 0 <= k < |units| && UnitKind(c, units[k][0]).Key?
  {
    ScanBundle(c, head, units, Other);
    StrongestKey(c, units);
  }

  lemma {:induction false} StrongestKey(c: Codec, units: seq<seq<byte>>)
    requires AllFit(c, units)
    ensures Strongest(c, units).Key? <==> exists k :: 0 <= k < |units| && UnitKind(c, units[k][0]).Key?
  {
    if units != [] {
      StrongestKey(c, units[1..]);
      assert forall k :: 0 <= k < |units| - 1 ==> units[1..][k] == units[k + 1];
      if UnitKind(c, units[0][0]).Key? {
      } else if Strongest(c, units[1..]).Key? {
        var k :| 0 <= k < |units| - 1 && UnitKind(c, units[1..][k][0]).Key?;
        assert UnitKind(c, units[k + 1][0]).Key?;
      } else {
        assert forall k :: 1 <= k < |units| ==> units[k] == units[1..][k - 1];
      }
    }
  }

  /** The type field of a unit. */
  function TypeOf(c: Codec, u: seq<byte>): nat
    requires Fits(c, u)
  {
    match c case H264 => u[0] as int % 32 case H265 => u[0] as int / 2 % 64
  }

  /** A unit's first byte with another type in it, the other bits kept. */
  function Retyped(c: Codec, first: byte, t: nat): (r: byte)
    requires match c case H264 => t < 32 case H265 => t < 64
    ensures match c case H264 => r as int % 32 == t case H265 => r as int / 2 % 64 == t
  {
    match c
    case H264 => first as int / 32 * 32 + t
    case H265 => first as int / 128 * 128 + 2 * t + first as int % 2
  }

  /** A fragment: the packet header of the codec's fragmentation unit, start and end flags and the unit's type, and a piece. */
  function Fragment(c: Codec, u: seq<byte>, start: bool, end: bool, piece: seq<byte>): seq<byte>
    requires Fits(c, u)
  {
    var flags := (if start then 128 else 0) + (if end then 64 else 0);
    match c
    case H264 => [Retyped(c, u[0], 28), (flags + TypeOf(c, u)) as byte] + piece
    case H265 => [Retyped(c, u[0], 49), u[1], (flags + TypeOf(c, u)) as byte] + piece
  }

  /** The flags and the type of a fragment are told apart again. */
  lemma FragmentFlags(start: bool, end: bool, t: nat)
    requires t < 64
    ensures var b := (if start then 128 else 0) + (if end then 64 else 0) + t;
            b < 256 && (b >= 128 <==> start) && b % 64 == t && (t < 32 ==> b % 32 == t)
  {
  }

  /** The first fragment is what its unit is; the rest say nothing. */
  lemma FragmentKind(c: Codec, u: seq<byte>, start: bool, end: bool, piece: seq<byte>)
    requires Fits(c, u)
    ensures PayloadKind(c, Fragment(c, u, start, end, piece)) == if start then UnitKind(c, u[0]) else Other
  {
    FragmentFlags(start, end, TypeOf(c, u));
    var f := Fragment(c, u, start, end, piece);
    match c
    case H264 => assert f[0] as int % 32 == 28;
    case H265 => assert f[0] as int / 2 % 64 == 49;
  }
}
