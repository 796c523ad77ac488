/**
 * One media of a stream: the gate that drops whole video frames while the
 * tunnel is behind, and the continuity its readers see across publishers.
 */
module ServeTrack {
  import opened Wrappers
  import opened Bytes
  import opened ServeNal

  datatype Packet = Packet(ssrc: uint32, number: uint16, ts: uint32, payload: seq<byte>)

  // Times and backlogs are nanoseconds.
  datatype Gate = Gate(inTS: uint32, inHave: bool, dropping: bool, undecided: bool,
                       frames: nat, packets: nat, episodeAt: int, peak: int)

  datatype Episode = Episode(frames: nat, packets: nat, over: int, peak: int)

  datatype Line = Line(started: bool, ssrc: uint32, next: uint16, tsOff: uint32, lastTS: uint32, lastAt: int, turned: bool)

  const NEW_GATE := Gate(0, false, false, false, 0, 0, 0, 0)
  const NEW_LINE := Line(false, 0, 0, 0, 0, 0, false)

  /**
   * A packet as it is written, with what the server sees at that moment; or
   * a publisher replacing the last one. wild is what converting a step too
   * long for 32 bits gives, which the platform decides.
   */
  datatype Input = Write(p: Packet, congested: bool, backlog: int, now: int, wild: uint32) | Rejoin

  datatype Pass = Admitted | Dropped | Neither

  // ---- the gate ------------------------------------------------------------------

  /** Only while dropping is anything left to decide. */
  predicate Sound(g: Gate) { g.undecided ==> g.dropping }

  predicate Begins(g: Gate, p: Packet) { !(g.inHave && p.ts == g.inTS) }

  /** Without a known codec every access unit counts as a keyframe. */
  function Classify(codec: Option<Codec>, p: Packet, begins: bool): Kind {
    if codec.Some? then PayloadKind(codec.value, p.payload) else if begins then Key else Inter
  }

  /** The gate once it knows whether the packet begins an access unit. */
  function Arrive(g: Gate, w: Input): Gate
    requires w.Write?
  {
    if !Begins(g, w.p) then g
    else
      var h := g.(inTS := w.p.ts, inHave := true);
      var d := if !g.dropping && w.congested then h.(dropping := true, episodeAt := w.now, peak := w.backlog, frames := 0, packets := 0)
               else h;
      d.(undecided := d.dropping)
  }

  /** The gate once the packet has said what it carries. */
  function Decide(g: Gate, kind: Kind, congested: bool): Gate {
    if !g.undecided || kind.Other? then g
    else g.(undecided := false, dropping := g.dropping && (kind.Inter? || congested))
  }

  /** The gate after a packet. */
  function Admit(codec: Option<Codec>, g: Gate, w: Input): Gate
    requires w.Write?
  {
    var d := Decide(Arrive(g, w), Classify(codec, w.p, Begins(g, w.p)), w.congested);
    if !d.dropping then d
    else d.(peak := if w.backlog > d.peak then w.backlog else d.peak,
            frames := if Begins(g, w.p) then d.frames + 1 else d.frames, packets := d.packets + 1)
  }

  /** What the gate reports when the packet ends an episode. */
  function Ended(codec: Option<Codec>, g: Gate, w: Input): Option<Episode>
    requires w.Write?
  {
    var a := Arrive(g, w);
    if a.undecided && a.dropping && !Admit(codec, g, w).dropping
    then Some(Episode(a.frames, a.packets, w.now - a.episodeAt, a.peak)) else None
  }

  function GateNext(codec: Option<Codec>, g: Gate, w: Input): Gate {
    if w.Rejoin? then g.(inHave := false) else Admit(codec, g, w)
  }

  function PassOf(codec: Option<Codec>, g: Gate, w: Input): Pass {
    if w.Rejoin? then Neither else if Admit(codec, g, w).dropping then Dropped else Admitted
  }

  function GateAfter(codec: Option<Codec>, g: Gate, ws: seq<Input>): Gate
    decreases |ws|
  {
    if ws == [] then g else GateAfter(codec, GateNext(codec, g, ws[0]), ws[1..])
  }

  function Passes(codec: Option<Codec>, g: Gate, ws: seq<Input>): (ps: seq<Pass>)
    ensures |ps| == |ws|
    decreases |ws|
  {
    if ws == [] then [] else [PassOf(codec, g, ws[0])] + Passes(codec, GateNext(codec, g, ws[0]), ws[1..])
  }

  // ---- continuity ------------------------------------------------------------------

  /** How far the timestamp moves at a change of publisher: the time that passed, in ticks of the clock. */
  function Ticks(gap: int, clock: nat): nat { if gap < 0 then 0 else gap * clock / 1_000_000_000 }

  function Step(gap: int, clock: nat, wild: uint32): uint32 {
    if Ticks(gap, clock) < 0x1_0000_0000 then Ticks(gap, clock) else wild
  }

  function Wrap(n: int): uint32 { n % 0x1_0000_0000 }

  /** The line readied for a packet: the first one sets it, the first of a new publisher re-bases the timestamps. */
  function Ready(l: Line, w: Input, clock: nat): Line
    requires w.Write?
  {
    if !l.started then l.(started := true, ssrc := w.p.ssrc, next := w.p.number, tsOff := 0, turned := false)
    else if l.turned then
      var step := Step(w.now - l.lastAt, clock, w.wild);
      var want := Wrap(l.lastTS + (if step == 0 then 1 else step));
      l.(turned := false, tsOff := Wrap(want - w.p.ts))
    else l
  }

  function Stamped(l: Line, w: Input, clock: nat): Packet
    requires w.Write?
  {
    var r := Ready(l, w, clock);
    w.p.(ssrc := r.ssrc, number := r.next, ts := Wrap(w.p.ts + r.tsOff))
  }

  function LineAfter(l: Line, w: Input, clock: nat): Line
    requires w.Write?
  {
    Ready(l, w, clock).(next := (Ready(l, w, clock).next + 1) % 0x1_0000, lastTS := Stamped(l, w, clock).ts, lastAt := w.now)
  }

  /** The track: its gate works on video only. */
  class Track {
    const video: bool
    const clock: nat
    const codec: Option<Codec>
    var started: bool
    var ssrc: uint32
    var nextSeq: uint16
    var tsOff: uint32
    var lastTS: uint32
    var lastAt: int
    var turned: bool
    var inTS: uint32
    var inHave: bool
    var dropping: bool
    var undecided: bool
    var droppedFrames: nat
    var droppedPackets: nat
    var episodeAt: int
    var peak: int

    ghost function GateState(): Gate reads this {
      Gate(inTS, inHave, dropping, undecided, droppedFrames, droppedPackets, episodeAt, peak)
    }

    ghost function LineState(): Line reads this { Line(started, ssrc, nextSeq, tsOff, lastTS, lastAt, turned) }

    constructor (v: bool, rate: nat, c: Option<Codec>)
      ensures GateState() == NEW_GATE && LineState() == NEW_LINE && video == v && clock == rate && codec == c
    {
      video, clock, codec := v, rate, c;
      started, ssrc, nextSeq, tsOff, lastTS, lastAt, turned := false, 0, 0, 0, 0, 0, false;
      inTS, inHave, dropping, undecided := 0, false, false, false;
      droppedFrames, droppedPackets, episodeAt, peak := 0, 0, 0, 0;
    }

    method BeginsAccessUnit(p: Packet) returns (begins: bool)
      modifies `inTS, `inHave
      ensures begins == Begins(old(GateState()), p)
      ensures GateState() == if begins then old(GateState()).(inTS := p.ts, inHave := true) else old(GateState())
    {
      if inHave && p.ts == inTS {
        return false;
      }
      inTS, inHave := p.ts, true;
      return true;
    }

    method Classified(p: Packet, begins: bool) returns (kind: Kind)
      ensures kind == Classify(codec, p, begins)
    {
      match codec
      case None => kind := if begins then Key else Inter;
      case Some(H264) => kind := ClassifyH264(p.payload);
      case Some(H265) => kind := ClassifyH265(p.payload);
    }

    /** The first decision of admit: dropping starts with an access unit, never inside one. */
    method Arrived(w: Input) returns (begins: bool)
      requires w.Write?
      modifies this
      ensures begins == Begins(old(GateState()), w.p)
      ensures GateState() == Arrive(old(GateState()), w) && LineState() == old(LineState())
    {
      begins := BeginsAccessUnit(w.p);
      if begins {
        if !dropping && w.congested {
          dropping, episodeAt, peak := true, w.now, w.backlog;
          droppedFrames, droppedPackets := 0, 0;
        }
        undecided := dropping;
      }
    }

    /** The second: the first packet that says settles it for the whole access unit. */
    method Settled(kind: Kind, w: Input) returns (ended: Option<Episode>)
      requires w.Write? && Sound(GateState())
      modifies `undecided, `dropping
      ensures GateState() == Decide(old(GateState()), kind, w.congested) && Sound(GateState())
      ensures ended == if old(dropping) && !dropping then Some(Episode(droppedFrames, droppedPackets,
              w.now - episodeAt, peak)) else None
    {
      ended := None;
      if undecided {
        match kind
        case Key =>
          undecided := false;
          if !w.congested {
            dropping := false;
            ended := Some(Episode(droppedFrames, droppedPackets, w.now - episodeAt, peak));
          }
        case Inter => undecided := false;
        case Other =>
      }
    }

    method AdmitPacket(w: Input) returns (ok: bool, ended: Option<Episode>)
      requires w.Write? && Sound(GateState())
      modifies this
      ensures Sound(GateState()) && LineState() == old(LineState())
      ensures GateState() == Admit(codec, old(GateState()), w)
      ensures ok <==> PassOf(codec, old(GateState()), w).Admitted?
      ensures ended == Ended(codec, old(GateState()), w)
    {
      var begins := Arrived(w);
      var kind := Classified(w.p, begins);
      ended := Settled(kind, w);
      if !dropping {
        return true, ended;
      }
      if w.backlog > peak {
        peak := w.backlog;
      }
      if begins {
        droppedFrames := droppedFrames + 1;
      }
      droppedPackets := droppedPackets + 1;
      return false, None;
    }

    method Readied(w: Input)
      requires w.Write?
      modifies this
      ensures LineState() == Ready(old(LineState()), w, clock) && GateState() == old(GateState())
    {
      if !started {
        started, ssrc, nextSeq, tsOff, turned := true, w.p.ssrc, w.p.number, 0, false;
      } else if turned {
        turned := false;
        var step := Step(w.now - lastAt, clock, w.wild);
        var want := Wrap(lastTS + step);
        if want == lastTS {
          want := Wrap(want + 1);
        }
        tsOff := Wrap(want - w.p.ts);
      }
    }

    method Stamp(w: Input) returns (out: Packet)
      requires w.Write?
      modifies this
      ensures out == Stamped(old(LineState()), w, clock)
      ensures LineState() == LineAfter(old(LineState()), w, clock) && GateState() == old(GateState())
    {
      Readied(w);
      out := w.p.(ssrc := ssrc, number := nextSeq, ts := Wrap(w.p.ts + tsOff));
      nextSeq := (nextSeq + 1) % 0x1_0000;
      lastTS, lastAt := out.ts, w.now;
    }

    /** A new publisher takes the track over. */
    method TakenOver()
      modifies this
      ensures GateState() == GateNext(codec, old(GateState()), Rejoin) && LineState() == old(LineState()).(turned := true)
    {
      turned, inHave := true, false;
    }
  }
}
