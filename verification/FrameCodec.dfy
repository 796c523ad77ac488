/** The tunnel's wire format: a nine-byte header and a payload. */
module FrameCodec {
  import opened Bytes

  const TYPE_OPEN: byte := 1
  const TYPE_ACCEPT: byte := 2
  const TYPE_REFUSE: byte := 3
  const TYPE_DATA: byte := 4
  const TYPE_CLOSE: byte := 5
  const TYPE_RESET: byte := 6
  const TYPE_READY: byte := 9

  const HEADER_SIZE := 9
  const MAX_PAYLOAD := 65536

  datatype Frame = Frame(ty: byte, stream: uint32, payload: seq<byte>) {
    predicate Valid() {
      ValidType(ty) && |payload| <= MAX_PAYLOAD
    }
  }

  predicate ValidType(t: byte) { TYPE_OPEN <= t <= TYPE_READY }

  datatype Encoded = EncodedBytes(bytes: seq<byte>) | EncodeBadType | EncodeTooLarge
  datatype Decoded = Decoded(frame: Frame, size: nat) | Short | BadType | TooLarge
  datatype ReadResult = Got(frame: Frame) | EOF | UnexpectedEOF | ReadBadType | ReadTooLarge

  function Header(f: Frame): (h: seq<byte>)
    requires |f.payload| <= MAX_PAYLOAD
    ensures |h| == HEADER_SIZE
  {
    [f.ty] + BE32(f.stream) + BE32(|f.payload|)
  }

  /** The bytes of one frame. */
  function Wire(f: Frame): seq<byte>
    requires f.Valid()
  {
    Header(f) + f.payload
  }

  function Encode(dst: seq<byte>, f: Frame): Encoded {
    if !ValidType(f.ty) then EncodeBadType
    else if |f.payload| > MAX_PAYLOAD then EncodeTooLarge
    else EncodedBytes(dst + Header(f) + f.payload)
  }

  function Decode(b: seq<byte>): Decoded {
    if |b| < HEADER_SIZE then Short
    else if !ValidType(b[0]) then BadType
    else
      var n := FromBE32(b[5..9]);
      if n > MAX_PAYLOAD then TooLarge
      else if |b| < HEADER_SIZE + n then Short
      else Decoded(Frame(b[0], FromBE32(b[1..5]), b[HEADER_SIZE..HEADER_SIZE + n]), HEADER_SIZE + n)
  }

  /** What Reader.Read returns from a source holding src and then ending, and what it leaves. */
  function ReadFrame(src: seq<byte>): (ReadResult, seq<byte>) {
    if src == [] then (EOF, [])
    else if |src| < HEADER_SIZE then (UnexpectedEOF, [])
    else if !ValidType(src[0]) then (ReadBadType, src[HEADER_SIZE..])
    else
      var n := FromBE32(src[5..9]);
      if n > MAX_PAYLOAD then (ReadTooLarge, src[HEADER_SIZE..])
      else if |src| < HEADER_SIZE + n then (UnexpectedEOF, [])
      else (Got(Frame(src[0], FromBE32(src[1..5]), src[HEADER_SIZE..HEADER_SIZE + n])), src[HEADER_SIZE + n..])
  }

  // ---- one frame --------------------------------------------------------------

  lemma HeaderFields(f: Frame, b: seq<byte>)
    requires f.Valid() && Header(f) <= b
    ensures |b| >= HEADER_SIZE && b[0] == f.ty
    ensures FromBE32(b[1..5]) == f.stream && FromBE32(b[5..9]) == |f.payload|
  {
    assert b[1..5] == Header(f)[1..5] == BE32(f.stream);
    assert b[5..9] == Header(f)[5..9] == BE32(|f.payload|);
    BE32RoundTrip(f.stream);
    BE32RoundTrip(|f.payload|);
  }

  /** Decode answers a frame exactly when the buffer starts with that frame's bytes. */
  lemma DecodeExactly(b: seq<byte>, f: Frame, n: nat)
    ensures Decode(b) == Decoded(f, n) <==> f.Valid() && Wire(f) <= b && n == |Wire(f)|
  {
    if f.Valid() && Wire(f) <= b {
      assert Header(f) <= b;
      HeaderFields(f, b);
      assert b[HEADER_SIZE..HEADER_SIZE + |f.payload|] == f.payload;
    }
    if Decode(b) == Decoded(f, n) {
      FromBE32RoundTrip(b[1..5]);
      FromBE32RoundTrip(b[5..9]);
      assert Header(f) == b[..HEADER_SIZE];
      assert Wire(f) == b[..n];
    }
  }

  /** Four bytes as a number, the most significant first. */
  function BigEndian(b: seq<byte>, at: nat): nat
    requires at + 4 <= |b|
  {
    b[at] as int * 0x100_0000 + b[at + 1] as int * 0x1_0000 + b[at + 2] as int * 0x100 + b[at + 3] as int
  }

  /** A frame on the wire: one byte of type, the stream and the length with their first byte foremost, and the payload. */
  lemma WireLayout(f: Frame, w: seq<byte>)
    requires 1 <= f.ty <= 9 && |f.payload| <= 65536
    ensures f.Valid()
    ensures w == Wire(f) <==>
            && |w| == 9 + |f.payload| && w[0] == f.ty && BigEndian(w, 1) == f.stream && BigEndian(w, 5) == |f.payload|
                && w[9..] == f.payload
  {
    var h := Header(f);
    BE32RoundTrip(f.stream);
    BE32RoundTrip(|f.payload|);
    assert h[1..5] == BE32(f.stream) && h[5..9] == BE32(|f.payload|);
    if |w| == 9 + |f.payload| && w[0] == f.ty && BigEndian(w, 1) == f.stream && BigEndian(w, 5) == |f.payload|
        && w[9..] == f.payload {
      FromBE32RoundTrip(w[1..5]);
      FromBE32RoundTrip(w[5..9]);
      assert w[1..5] == BE32(f.stream) && w[5..9] == BE32(|f.payload|);
      assert w == [w[0]] + w[1..5] + w[5..9] + w[9..];
    }
  }

  /** The types a frame may have, and the only frames refused: another type, or more than 64 KiB of payload. */
  lemma ValidFrames(f: Frame)
    ensures f.Valid() <==> 1 <= f.ty <= 9 && |f.payload| <= 65536
    ensures TYPE_OPEN == 1 && TYPE_ACCEPT == 2 && TYPE_REFUSE == 3 && TYPE_DATA == 4 && TYPE_CLOSE == 5 && TYPE_RESET == 6
  {
  }

  /** Every proper prefix of one encoding asks for more bytes. */
  lemma PrefixIsShort(f: Frame, p: seq<byte>)
    requires f.Valid() && p < Wire(f)
    ensures Decode(p) == Short
    ensures p != [] ==> ReadFrame(p).0 == UnexpectedEOF
  {
  }

  /** No encoding is the start of another followed by anything: frames never run together. */
  lemma WireUnique(f: Frame, g: Frame, r: seq<byte>, s: seq<byte>)
    requires f.Valid() && g.Valid() && Wire(f) + r == Wire(g) + s
    ensures f == g && r == s
  {
    var b := Wire(f) + r;
    DecodeExactly(b, f, |Wire(f)|);
    DecodeExactly(b, g, |Wire(g)|);
    assert r == b[|Wire(f)|..] && s == (Wire(g) + s)[|Wire(g)|..];
  }

  lemma EncodeInjective(dst: seq<byte>, f: Frame, g: Frame)
    requires Encode(dst, f).EncodedBytes? && Encode(dst, f) == Encode(dst, g)
    ensures f == g
  {
    assert Encode(dst, f).bytes[|dst|..] == Wire(f) + [];
    assert Encode(dst, g).bytes[|dst|..] == Wire(g) + [];
    WireUnique(f, g, [], []);
  }

  /** The blocking reader and the buffer decoder agree on every input. */
  lemma ReaderAgreesWithDecode(b: seq<byte>)
    ensures ReadFrame(b).0 ==
            match Decode(b)
            case Decoded(f, _) => Got(f)
            case Short => if b == [] then EOF else UnexpectedEOF
            case BadType => ReadBadType
            case TooLarge => ReadTooLarge
    ensures Decode(b).Decoded? ==> ReadFrame(b).1 == b[Decode(b).size..]
  {
  }

  // ---- a stream of frames -----------------------------------------------------

  predicate AllValid(fs: seq<Frame>) { forall i :: 0 <= i < |fs| ==> fs[i].Valid() }

  /** What a Writer puts on the stream for fs. */
  function EncodeAll(fs: seq<Frame>): seq<byte>
    requires AllValid(fs)
  {
    if fs == [] then [] else Wire(fs[0]) + EncodeAll(fs[1..])
  }

  /** Frames decoded one after another, and how decoding ended (Short when the buffer ran out). */
  function DecodeAll(b: seq<byte>): (seq<Frame>, Decoded)
    decreases |b|
  {
    match Decode(b)
    case Decoded(f, n) => var (fs, end) := DecodeAll(b[n..]); ([f] + fs, end)
    case end => ([], end)
  }

  function ReadAll(b: seq<byte>): (seq<Frame>, ReadResult)
    decreases |b|
  {
    match ReadFrame(b)
    case (Got(f), rest) => var (fs, end) := ReadAll(rest); ([f] + fs, end)
    case (end, _) => ([], end)
  }

  lemma EncodeAllHead(f: Frame, fs: seq<Frame>, tail: seq<byte>)
    requires f.Valid() && AllValid(fs)
    ensures AllValid([f] + fs) && EncodeAll([f] + fs) == Wire(f) + EncodeAll(fs)
    ensures Decode(EncodeAll([f] + fs) + tail) == Decoded(f, |Wire(f)|)
    ensures ReadFrame(EncodeAll([f] + fs) + tail) == (Got(f), EncodeAll(fs) + tail)
  {
    assert ([f] + fs)[1..] == fs;
    var b := EncodeAll([f] + fs) + tail;
    assert b == Wire(f) + (EncodeAll(fs) + tail);
    DecodeExactly(b, f, |Wire(f)|);
    ReaderAgreesWithDecode(b);
    assert b[|Wire(f)|..] == EncodeAll(fs) + tail;
  }

  lemma {:induction false} EncodeAllAppend(fs: seq<Frame>, f: Frame)
    requires AllValid(fs) && f.Valid()
    ensures AllValid(fs + [f]) && EncodeAll(fs + [f]) == EncodeAll(fs) + Wire(f)
  {
    if fs != [] {
      EncodeAllAppend(fs[1..], f);
      assert (fs + [f])[1..] == fs[1..] + [f];
    } else {
      assert [f][1..] == [];
      assert fs + [f] == [f];
    }
  }

  /** Decoding a concatenation of frames, cut anywhere inside a further frame, gives back exactly the whole ones. */
  lemma {:induction false} StreamRoundTrip(fs: seq<Frame>, last: Frame, cut: seq<byte>)
    requires AllValid(fs) && last.Valid() && cut < Wire(last)
    ensures DecodeAll(EncodeAll(fs) + cut) == (fs, Short)
    ensures ReadAll(EncodeAll(fs) + cut) == (fs, if cut == [] then EOF else UnexpectedEOF)
  {
    if fs == [] {
      assert EncodeAll(fs) + cut == cut;
      PrefixIsShort(last, cut);
      ReaderAgreesWithDecode(cut);
    } else {
      assert fs == [fs[0]] + fs[1..];
      EncodeAllHead(fs[0], fs[1..], cut);
      StreamRoundTrip(fs[1..], last, cut);
      assert (EncodeAll(fs) + cut)[|Wire(fs[0])|..] == EncodeAll(fs[1..]) + cut;
    }
  }

  // ---- reader and writer ------------------------------------------------------

  /** Reads frames from a byte source that holds these bytes and then ends. */
  class Reader {
    var source: seq<byte>
    const hdr: array<byte>

    ghost predicate Valid() reads this { hdr.Length == HEADER_SIZE }

    constructor (source: seq<byte>)
      ensures Valid() && this.source == source && fresh(hdr)
    {
      this.source := source;
      hdr := new byte[HEADER_SIZE];
    }

    /** Fills buf from the source; ok is false when the source ended first, with all of it consumed. */
    method ReadFull(buf: array<byte>) returns (n: nat)
      modifies `source, buf
      ensures n == if |old(source)| < buf.Length then |old(source)| else buf.Length
      ensures source == old(source)[n..]
      ensures buf[..n] == old(source)[..n]
    {
      n := 0;
      ghost var was := source;
      while n < buf.Length && source != []
        invariant n <= buf.Length && n <= |was| && source == was[n..]
        invariant buf[..n] == was[..n]
        decreases buf.Length - n
      {
        buf[n] := source[0];
        source := source[1..];
        n := n + 1;
      }
    }

    method Read() returns (r: ReadResult)
      requires Valid()
      modifies this, hdr
      ensures Valid() && (r, source) == ReadFrame(old(source))
    {
      ghost var was := source;
      var got := ReadFull(hdr);
      if got < HEADER_SIZE {
        return if got == 0 then EOF else UnexpectedEOF;
      }
      assert hdr[..] == was[..9];
      if !ValidType(hdr[0]) {
        return ReadBadType;
      }
      assert hdr[5..9] == hdr[..][5..9] == was[5..9];
      var n := FromBE32(hdr[5..9]);
      if n > MAX_PAYLOAD {
        return ReadTooLarge;
      }
      assert hdr[1..5] == hdr[..][1..5] == was[1..5];
      var f := Frame(hdr[0], FromBE32(hdr[1..5]), []);
      if n > 0 {
        var payload := new byte[n];
        got := ReadFull(payload);
        if got < n {
          return UnexpectedEOF;
        }
        assert payload[..] == was[9..][..n] == was[9..9 + n];
        f := f.(payload := payload[..]);
      } else {
        assert was[9..9 + n] == [];
      }
      return Got(f);
    }
  }

  /** Writes whole frames to a byte sink. */
  class Writer {
    var sink: seq<byte>

    method Write(f: Frame) returns (ok: bool)
      modifies this
      ensures ok == f.Valid()
      ensures sink == if f.Valid() then old(sink) + Wire(f) else old(sink)
    {
      match Encode([], f) {
        case EncodedBytes(b) =>
          assert b == Wire(f);
          sink := sink + b;
          ok := true;
        case _ =>
          ok := false;
      }
    }
  }
}
