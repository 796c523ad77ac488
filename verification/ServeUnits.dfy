/**
 * The classes of video packets, told from the types of the units they start,
 * as RFC 6184 (section 5.2) and RFC 7798 (section 4.2) number them, and what
 * that means for where the gate resumes.
 */
module ServeUnits {
  import opened Wrappers
  import opened Bytes
  import opened ServeNal
  import opened ServeTrack
  import opened ServeRuns

  /** An IDR slice or a parameter set; in H.265 an IRAP slice or a parameter set. */
  predicate KeyType(c: Codec, t: nat) {
    match c case H264 => t in {5, 7, 8} case H265 => 16 <= t <= 21 || t in {32, 33, 34}
  }

  /** Any other slice. */
  predicate FrameType(c: Codec, t: nat) { match c case H264 => t in {1, 2, 3, 4} case H265 => t <= 15 }

  function TypeAt(c: Codec, b: byte): nat { match c case H264 => b as int % 32 case H265 => b as int / 2 % 64 }

  /** The types of the units of an aggregation, in order; none if a size does not fit. */
  function UnitTypes(c: Codec, rest: seq<byte>): Option<seq<nat>>
    decreases |rest|
  {
    if |rest| < 2 then Some([])
    else
      var size := rest[0] as int * 256 + rest[1] as int;
      if size < (match c case H264 => 1 case H265 => 2) || 2 + size > |rest| then None
      else
        match UnitTypes(c, rest[2 + size..])
        case None => None
        case Some(ts) => Some([TypeAt(c, rest[2])] + ts)
  }

  /** The types of the units a payload starts: its own, those aggregated in it, or that of a first fragment. */
  function StartTypes(c: Codec, p: seq<byte>): seq<nat> {
    var (h, aggregate, fragment, types) := match c case H264 => (1, 24, 28, 32) case H265 => (2, 48, 49, 64);
    if |p| < h then []
    else if TypeAt(c, p[0]) == aggregate then (match UnitTypes(c, p[h..]) case None => [] case Some(ts) => ts)
    else if TypeAt(c, p[0]) == fragment then (if |p| > h && p[h] >= 128 then [p[h] as int % types] else [])
    else [TypeAt(c, p[0])]
  }

  predicate HasKey(c: Codec, ts: seq<nat>) { exists t :: t in ts && KeyType(c, t) }
  predicate HasFrame(c: Codec, ts: seq<nat>) { exists t :: t in ts && FrameType(c, t) }

  /** What a scan of units comes to, given the best so far. */
  predicate Told(c: Codec, kind: Kind, best: Kind, ts: seq<nat>) {
    && (kind.Key? <==> best.Key? || HasKey(c, ts))
    && (kind.Inter? <==> !best.Key? && !HasKey(c, ts) && (best.Inter? || HasFrame(c, ts)))
  }

  lemma ToldMore(c: Codec, kind: Kind, best: Kind, b: byte, ts: seq<nat>)
    requires Told(c, kind, Stronger(best, UnitKind(c, b)), ts)
    ensures Told(c, kind, best, [TypeAt(c, b)] + ts)
  {
    var t := TypeAt(c, b);
    assert HasKey(c, [t] + ts) <==> KeyType(c, t) || HasKey(c, ts) by {
      assert forall u :: u in [t] + ts <==> u == t || u in ts;
    }
    assert HasFrame(c, [t] + ts) <==> FrameType(c, t) || HasFrame(c, ts) by {
      assert forall u :: u in [t] + ts <==> u == t || u in ts;
    }
  }

  lemma {:induction false} ScanTold(c: Codec, p: seq<byte>, off: nat, best: Kind)
    requires off <= |p|
    ensures match UnitTypes(c, p[off..])
            case None => Scan(c, p, off, best).Other?
            case Some(ts) => Told(c, Scan(c, p, off, best), best, ts)
    decreases |p| - off
  {
    var rest := p[off..];
    if |rest| >= 2 {
      var size := rest[0] as int * 256 + rest[1] as int;
      assert rest[0] == p[off] && rest[1] == p[off + 1];
      if size >= HeaderSize(c) && 2 + size <= |rest| {
        assert rest[2] == p[off + 2] && rest[2 + size..] == p[off + 2 + size..];
        var next := Stronger(best, UnitKind(c, p[off + 2]));
        ScanTold(c, p, off + 2 + size, next);
        if UnitTypes(c, rest[2 + size..]).Some? {
          ToldMore(c, Scan(c, p, off + 2 + size, next), best, p[off + 2], UnitTypes(c, rest[2 + size..]).value);
        }
      }
    }
  }

  lemma OneTold(c: Codec, b: byte)
    ensures Told(c, UnitKind(c, b), Other, [TypeAt(c, b)])
  {
    ToldMore(c, UnitKind(c, b), Other, b, []);
    assert [TypeAt(c, b)] + [] == [TypeAt(c, b)];
  }

  /** Any payload is a keyframe's, another frame's or neither by the types of the units it starts. */
  lemma ClassesExactly(c: Codec, p: seq<byte>)
    ensures PayloadKind(c, p).Key? <==> HasKey(c, StartTypes(c, p))
    ensures PayloadKind(c, p).Inter? <==> !HasKey(c, StartTypes(c, p)) && HasFrame(c, StartTypes(c, p))
  {
    if |p| >= HeaderSize(c) {
      ScanTold(c, p, HeaderSize(c), Other);
      OneTold(c, p[0]);
      if |p| > HeaderSize(c) {
        var b := p[HeaderSize(c)];
        match c
        case H264 => OneTold(c, b);
        case H265 => OneTold(c, (b as int % 64 * 2) as byte);
      }
    }
  }

  // ---- packets built from units ----------------------------------------------------------

  datatype Payload = Single(unit: seq<byte>) | Aggregate(head: seq<byte>, units: seq<seq<byte>>)
                   | Piece(of: seq<byte>, start: bool, end: bool, bytes: seq<byte>)

  predicate Proper(c: Codec, x: Payload) {
    match x
    case Single(u) => Fits(c, u) && (match c case H264 => TypeAt(c, u[0]) !in {24, 28} case H265 => TypeAt(c, u[0]) !in {48, 49})
    case Aggregate(head, units) => AggregateHeader(c, head) && AllFit(c, units)
    case Piece(u, _, _, _) => Fits(c, u)
  }

  function Built(c: Codec, x: Payload): seq<byte>
    requires Proper(c, x)
  {
    match x
    case Single(u) => u
    case Aggregate(head, units) => head + Bundle(c, units)
    case Piece(u, start, end, bytes) => Fragment(c, u, start, end, bytes)
  }

  /** The units that begin in the packet. */
  function Begun(x: Payload): seq<seq<byte>> {
    match x
    case Single(u) => [u]
    case Aggregate(_, units) => units
    case Piece(u, start, _, _) => if start then [u] else []
  }

  function Types(c: Codec, units: seq<seq<byte>>): (ts: seq<nat>)
    requires AllFit(c, units)
    ensures |ts| == |units| && forall k :: 0 <= k < |units| ==> Fits(c, units[k]) && ts[k] == TypeAt(c, units[k][0])
  {
    if units == [] then []
    else
      assert Fits(c, units[0]);
      [TypeAt(c, units[0][0])] + Types(c, units[1..])
  }

  lemma {:induction false} BundleTypes(c: Codec, units: seq<seq<byte>>)
    requires AllFit(c, units)
    ensures UnitTypes(c, Bundle(c, units)) == Some(Types(c, units))
  {
    if units != [] {
      var u := units[0];
      assert Fits(c, u);
      BundleTypes(c, units[1..]);
      var b := Bundle(c, units);
      assert b[2..2 + |u|] == u && b[2] == u[0] && b[2 + |u|..] == Bundle(c, units[1..]);
    }
  }

  lemma BuiltTypes(c: Codec, x: Payload)
    requires Proper(c, x)
    ensures AllFit(c, Begun(x)) && StartTypes(c, Built(c, x)) == Types(c, Begun(x))
  {
    match x
    case Single(u) => assert AllFit(c, [u]);
    case Aggregate(head, units) =>
      BundleTypes(c, units);
      assert Built(c, x)[|head|..] == Bundle(c, units);
    case Piece(u, start, end, bytes) =>
      assert AllFit(c, Begun(x));
      FragmentFlags(start, end, TypeOf(c, u));
      var f := Fragment(c, u, start, end, bytes);
      match c {
        case H264 => assert f[0] as int % 32 == 28;
        case H265 => assert f[0] as int / 2 % 64 == 49;
      }
  }

  /** A packet built from units: a keyframe exactly when a unit begun in it is an IDR (IRAP) slice or a parameter set. */
  lemma PacketClasses(c: Codec, x: Payload)
    requires Proper(c, x)
    ensures AllFit(c, Begun(x))
    ensures var ts := Types(c, Begun(x));
            && (PayloadKind(c, Built(c, x)).Key? <==> exists k :: 0 <= k < |ts| && KeyType(c, ts[k]))
            && (PayloadKind(c, Built(c, x)).Inter? <==> (forall k :: 0 <= k < |ts| ==> !KeyType(c, ts[k]))
                                                        && exists k :: 0 <= k < |ts| && FrameType(c, ts[k]))
  {
    BuiltTypes(c, x);
    ClassesExactly(c, Built(c, x));
  }

  // ---- the gate ------------------------------------------------------------------------------

  /** The first packet out after a dropped one starts a unit of a keyframe. */
  lemma ResumesOnKeyUnit(c: Codec, ws: seq<Input>, i: nat, j: nat)
    requires i < j < |ws|
    requires Passes(Some(c), NEW_GATE, ws)[i].Dropped? && Passes(Some(c), NEW_GATE, ws)[j].Admitted?
    requires forall k :: i < k < j ==> !Passes(Some(c), NEW_GATE, ws)[k].Admitted?
    ensures ws[j].Write? && !ws[j].congested && HasKey(c, StartTypes(c, ws[j].p.payload))
  {
    ResumesAtKeyframe(Some(c), ws, i, j);
    ClassesExactly(c, ws[j].p.payload);
  }

  /** Nothing in the packet says what its access unit is. */
  predicate Silent(c: Codec, p: seq<byte>) { !HasKey(c, StartTypes(c, p)) && !HasFrame(c, StartTypes(c, p)) }

  lemma SuffixesDiffer(n: nat, r: nat, k: nat)
    requires r <= n && k < n
    ensures Suffix(n, r) == Suffix(n, k) <==> r == k
  {
    if r != k {
      var m := if r < k then r else k;
      assert Suffix(n, r)[m] != Suffix(n, k)[m];
    }
  }

  lemma KeyFromExactly(codec: Option<Codec>, unit: seq<Input>, k: nat)
    requires OneUnit(unit) && k < |unit|
    ensures KeyFrom(codec, unit, 0) == k <==>
            (forall q :: 0 <= q < k ==> KindAt(codec, unit, q).Other?) && KindAt(codec, unit, k).Key? && !unit[k].congested
  {
    var j := FirstTelling(codec, unit, 0);
    if j < k {
      assert !KindAt(codec, unit, j).Other?;
    }
  }

  lemma KindOfPacket(c: Codec, unit: seq<Input>, q: nat)
    requires OneUnit(unit) && q < |unit|
    ensures KindAt(Some(c), unit, q).Key? <==> HasKey(c, StartTypes(c, unit[q].p.payload))
    ensures KindAt(Some(c), unit, q).Other? <==> Silent(c, unit[q].p.payload)
  {
    ClassesExactly(c, unit[q].p.payload);
  }

  /**
   * While dropping, an access unit goes out from packet k on exactly when k is
   * the first packet that says anything, starts a unit of a keyframe and finds
   * the tunnel caught up.
   */
  lemma ResumesExactly(c: Codec, g: Gate, unit: seq<Input>, k: nat)
    requires OneUnit(unit) && Sound(g) && Begins(g, unit[0].p) && g.dropping && k < |unit|
    ensures Passes(Some(c), g, unit) == Suffix(|unit|, k) <==>
            && (forall q :: 0 <= q < k ==> Silent(c, unit[q].p.payload))
            && HasKey(c, StartTypes(c, unit[k].p.payload)) && !unit[k].congested
  {
    var r := KeyFrom(Some(c), unit, 0);
    assert Passes(Some(c), g, unit) == Suffix(|unit|, r) by { UnitPasses(Some(c), g, unit); }
    SuffixesDiffer(|unit|, r, k);
    KeyFromExactly(Some(c), unit, k);
    forall q | 0 <= q <= k
      ensures KindAt(Some(c), unit, q).Key? <==> HasKey(c, StartTypes(c, unit[q].p.payload))
      ensures KindAt(Some(c), unit, q).Other? <==> Silent(c, unit[q].p.payload)
    {
      KindOfPacket(c, unit, q);
    }
  }

  /**
   * Of a codec it cannot read the gate takes every access unit for a keyframe: all of it goes out, or
   * none, by its first packet.
   */
  lemma UnknownCodec(g: Gate, unit: seq<Input>)
    requires OneUnit(unit) && Sound(g) && Begins(g, unit[0].p)
    ensures Passes(None, g, unit) == Suffix(|unit|, if unit[0].congested then |unit| else 0)
  {
    UnitPasses(None, g, unit);
  }
}
