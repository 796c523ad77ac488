/**
 * What a track does over any sequence of packets, congestion and changes of
 * publisher: which packets of an access unit go out, where the gate resumes,
 * what an episode counted, and what the readers see.
 */
module ServeRuns {
  import opened Wrappers
  import opened Bytes
  import opened ServeNal
  import opened ServeTrack

  // ---- access units as wholes: the reference for the gate -------------------------

  /** How many of the inputs at the front are packets with this timestamp. */
  function Same(ws: seq<Input>, ts: uint32): (n: nat)
    ensures n <= |ws|
    ensures forall i :: 0 <= i < n ==> ws[i].Write? && ws[i].p.ts == ts
    ensures n < |ws| ==> ws[n].Rejoin? || ws[n].p.ts != ts
  {
    if ws == [] || ws[0].Rejoin? || ws[0].p.ts != ts then 0 else 1 + Same(ws[1..], ts)
  }

  predicate OneUnit(unit: seq<Input>) {
    unit != [] && unit[0].Write? && forall i :: 0 <= i < |unit| ==> unit[i].Write? && unit[i].p.ts == unit[0].p.ts
  }

  function KindAt(codec: Option<Codec>, unit: seq<Input>, i: nat): Kind
    requires OneUnit(unit) && i < |unit|
  {
    Classify(codec, unit[i].p, i == 0)
  }

  /** The first packet from i on that says what the unit is. */
  function FirstTelling(codec: Option<Codec>, unit: seq<Input>, i: nat): (j: nat)
    requires OneUnit(unit) && i <= |unit|
    ensures i <= j <= |unit|
    ensures forall k :: i <= k < j ==> KindAt(codec, unit, k).Other?
    ensures j < |unit| ==> !KindAt(codec, unit, j).Other?
    decreases |unit| - i
  {
    if i == |unit| || !KindAt(codec, unit, i).Other? then i else FirstTelling(codec, unit, i + 1)
  }

  /** While dropping: the first packet that says, if it starts a keyframe and the tunnel has caught up; else none. */
  function KeyFrom(codec: Option<Codec>, unit: seq<Input>, i: nat): nat
    requires OneUnit(unit) && i <= |unit|
  {
    var j := FirstTelling(codec, unit, i);
    if j < |unit| && KindAt(codec, unit, j).Key? && !unit[j].congested then j else |unit|
  }

  /** From which packet a unit goes out: all of it, the suffix from its keyframe, or none. */
  function ResumeAt(codec: Option<Codec>, dropping: bool, unit: seq<Input>): (k: nat)
    requires OneUnit(unit)
    ensures k <= |unit|
    ensures k == 0 || dropping || unit[0].congested
    ensures k < |unit| && (dropping || unit[0].congested) ==>
              KindAt(codec, unit, k).Key? && !unit[k].congested && forall i :: 0 <= i < k ==> KindAt(codec, unit, i).Other?
  {
    if !dropping && !unit[0].congested then 0 else KeyFrom(codec, unit, 0)
  }

  function Suffix(n: nat, k: nat): seq<Pass> { seq(n, i => if i < k then Dropped else Admitted) }

  /** The gate, deciding a whole access unit at a time. */
  function ByUnit(codec: Option<Codec>, dropping: bool, ws: seq<Input>): seq<Pass>
    decreases |ws|
  {
    if ws == [] then []
    else if ws[0].Rejoin? then [Neither] + ByUnit(codec, dropping, ws[1..])
    else
      var n := Same(ws, ws[0].p.ts);
      var k := ResumeAt(codec, dropping, ws[..n]);
      Suffix(n, k) + ByUnit(codec, k == n, ws[n..])
  }

  lemma {:induction false} PassesSplit(codec: Option<Codec>, g: Gate, a: seq<Input>, b: seq<Input>)
    ensures Passes(codec, g, a + b) == Passes(codec, g, a) + Passes(codec, GateAfter(codec, g, a), b)
    ensures GateAfter(codec, g, a + b) == GateAfter(codec, GateAfter(codec, g, a), b)
    decreases |a|
  {
    if a == [] {
      assert a + b == b;
    } else {
      assert (a + b)[1..] == a[1..] + b;
      PassesSplit(codec, GateNext(codec, g, a[0]), a[1..], b);
    }
  }

  /** From packet i of a unit on, given what the gate made of the packets before. */
  lemma {:induction false} TailPasses(codec: Option<Codec>, g: Gate, unit: seq<Input>, i: nat)
    requires OneUnit(unit) && 1 <= i <= |unit| && Sound(g) && g.inHave && g.inTS == unit[0].p.ts
    ensures var k := if !g.dropping then i else if g.undecided then KeyFrom(codec, unit, i) else |unit|;
            var h := GateAfter(codec, g, unit[i..]);
            && Passes(codec, g, unit[i..]) == Suffix(|unit| - i, k - i)
            && h.dropping == (g.dropping && k == |unit|) && h.inHave && h.inTS == unit[0].p.ts && Sound(h)
    decreases |unit| - i
  {
    if i < |unit| {
      assert unit[i..][0] == unit[i] && unit[i..][1..] == unit[i + 1..];
      TailPasses(codec, GateNext(codec, g, unit[i]), unit, i + 1);
    }
  }

  lemma UnitPasses(codec: Option<Codec>, g: Gate, unit: seq<Input>)
    requires OneUnit(unit) && Sound(g) && Begins(g, unit[0].p)
    ensures var k := ResumeAt(codec, g.dropping, unit);
            var h := GateAfter(codec, g, unit);
            && Passes(codec, g, unit) == Suffix(|unit|, k)
            && h.dropping == (k == |unit|) && h.inHave && h.inTS == unit[0].p.ts && Sound(h)
  {
    TailPasses(codec, GateNext(codec, g, unit[0]), unit, 1);
  }

  /** A new access unit, or a new publisher, or nothing comes next. */
  predicate AtBoundary(g: Gate, ws: seq<Input>) { ws == [] || ws[0].Rejoin? || Begins(g, ws[0].p) }

  /** Packet by packet, the gate does exactly what deciding whole access units would. */
  lemma {:induction false} GateDecidesWholeUnits(codec: Option<Codec>, g: Gate, ws: seq<Input>)
    requires Sound(g) && AtBoundary(g, ws)
    ensures Passes(codec, g, ws) == ByUnit(codec, g.dropping, ws)
    decreases |ws|
  {
    if ws == [] {
    } else if ws[0].Rejoin? {
      GateDecidesWholeUnits(codec, GateNext(codec, g, ws[0]), ws[1..]);
    } else {
      var n := Same(ws, ws[0].p.ts);
      assert ws == ws[..n] + ws[n..];
      PassesSplit(codec, g, ws[..n], ws[n..]);
      UnitPasses(codec, g, ws[..n]);
      GateDecidesWholeUnits(codec, GateAfter(codec, g, ws[..n]), ws[n..]);
    }
  }

  /** Packet i of a run, and the gate it met. */
  lemma PassAt(codec: Option<Codec>, g: Gate, ws: seq<Input>, i: nat)
    requires i < |ws|
    ensures Passes(codec, g, ws)[i] == PassOf(codec, GateAfter(codec, g, ws[..i]), ws[i])
    ensures GateAfter(codec, g, ws[..i + 1]) == GateNext(codec, GateAfter(codec, g, ws[..i]), ws[i])
  {
    assert ws == ws[..i] + ws[i..] && ws[..i + 1] == ws[..i] + [ws[i]];
    PassesSplit(codec, g, ws[..i], ws[i..]);
    PassesSplit(codec, g, ws[..i], [ws[i]]);
    assert GateAfter(codec, GateNext(codec, GateAfter(codec, g, ws[..i]), ws[i]), []) == GateNext(codec,
        GateAfter(codec, g, ws[..i]), ws[i]);
    assert [ws[i]][1..] == [];
  }

  lemma {:induction false} StaysDropping(codec: Option<Codec>, g: Gate, ws: seq<Input>, i: nat, j: nat)
    requires i < j <= |ws| && Sound(g)
    requires Passes(codec, g, ws)[i].Dropped? && forall k :: i < k < j ==> !Passes(codec, g, ws)[k].Admitted?
    ensures GateAfter(codec, g, ws[..j]).dropping
    decreases j
  {
    PassAt(codec, g, ws, j - 1);
    if j - 1 > i { StaysDropping(codec, g, ws, i, j - 1); }
  }

  /** The first packet out after a dropped one starts a keyframe and was seen with the tunnel caught up. */
  lemma ResumesAtKeyframe(codec: Option<Codec>, ws: seq<Input>, i: nat, j: nat)
    requires i < j < |ws|
    requires Passes(codec, NEW_GATE, ws)[i].Dropped? && Passes(codec, NEW_GATE, ws)[j].Admitted?
    requires forall k :: i < k < j ==> !Passes(codec, NEW_GATE, ws)[k].Admitted?
    ensures ws[j].Write? && !ws[j].congested && Classify(codec, ws[j].p, Begins(GateAfter(codec, NEW_GATE, ws[..j]),
            ws[j].p)).Key?
  {
    StaysDropping(codec, NEW_GATE, ws, i, j);
    PassAt(codec, NEW_GATE, ws, j);
  }

  /** Dropping starts only with the first packet of an access unit that finds the tunnel behind. */
  lemma DropsFromCongestion(codec: Option<Codec>, g: Gate, w: Input)
    requires Sound(g) && w.Write? && !g.dropping
    ensures PassOf(codec, g, w).Dropped? <==> Begins(g, w.p) && w.congested
  {
  }

  // ---- episodes -----------------------------------------------------------------------

  /** The dropped packets since the last one that went out. */
  function Streak(codec: Option<Codec>, ws: seq<Input>): nat {
    if ws == [] then 0
    else var before := ws[..|ws| - 1];
      match PassOf(codec, GateAfter(codec, NEW_GATE, before), ws[|ws| - 1])
      case Admitted => 0
      case Dropped => Streak(codec, before) + 1
      case Neither => Streak(codec, before)
  }

  /** The access units begun by them. */
  function StreakUnits(codec: Option<Codec>, ws: seq<Input>): nat {
    if ws == [] then 0
    else
      var before, last := ws[..|ws| - 1], ws[|ws| - 1];
      match PassOf(codec, GateAfter(codec, NEW_GATE, before), last)
      case Admitted => 0
      case Dropped => StreakUnits(codec, before) + if Begins(GateAfter(codec, NEW_GATE, before), last.p) then 1 else 0
      case Neither => StreakUnits(codec, before)
  }

  lemma {:induction false} CountsTheStreak(codec: Option<Codec>, ws: seq<Input>)
    ensures var g := GateAfter(codec, NEW_GATE, ws);
            && Sound(g)
            && (g.dropping ==> g.packets == Streak(codec, ws) > 0 && g.frames == StreakUnits(codec, ws) > 0)
            && (!g.dropping ==> Streak(codec, ws) == 0 && StreakUnits(codec, ws) == 0)
  {
    if ws != [] {
      CountsTheStreak(codec, ws[..|ws| - 1]);
      PassAt(codec, NEW_GATE, ws, |ws| - 1);
      assert ws[..|ws|] == ws;
    }
  }

  /** When an episode ends, it reports exactly the packets dropped since the last one out, and the access units they began. */
  lemma EpisodeCounts(codec: Option<Codec>, ws: seq<Input>, w: Input)
    requires w.Write?
    ensures var ended := Ended(codec, GateAfter(codec, NEW_GATE, ws), w);
            && (ended.Some? <==> Streak(codec, ws) > 0 && PassOf(codec, GateAfter(codec, NEW_GATE, ws), w).Admitted?)
            && (ended.Some? ==> ended.value.packets == Streak(codec, ws) && ended.value.frames == StreakUnits(codec, ws))
  {
    CountsTheStreak(codec, ws);
  }

  // ---- what the readers see --------------------------------------------------------------

  /** A packet sent on, and whether a publisher has come since the one before. */
  datatype Sent = Sent(w: Input, out: Packet, turned: bool)

  function Sends(video: bool, clock: nat, codec: Option<Codec>, g: Gate, l: Line, turned: bool, ws: seq<Input>): seq<Sent>
    decreases |ws|
  {
    if ws == [] then []
    else if ws[0].Rejoin? then Sends(video, clock, codec, GateNext(codec, g, Rejoin), l.(turned := true), true, ws[1..])
    else
      var h := if video then GateNext(codec, g, ws[0]) else g;
      if video && PassOf(codec, g, ws[0]).Dropped? then Sends(video, clock, codec, h, l, turned, ws[1..])
      else [Sent(ws[0], Stamped(l, ws[0], clock), turned)]
           + Sends(video, clock, codec, h, LineAfter(l, ws[0], clock), false, ws[1..])
  }

  function AtLeastOne(n: nat): nat { if n == 0 then 1 else n }

  /** b continues a: one source, the next number, and time that ran as it did for the publisher or the wall clock. */
  predicate Continues(a: Sent, b: Sent, clock: nat) {
    && a.w.Write? && b.w.Write?
    && b.out.ssrc == a.out.ssrc
    && b.out.number == (a.out.number + 1) % 0x1_0000
    && (!b.turned ==> Wrap(b.out.ts - a.out.ts) == Wrap(b.w.p.ts - a.w.p.ts))
    && (b.turned && Ticks(b.w.now - a.w.now, clock) < 0x1_0000_0000
        ==> Wrap(b.out.ts - a.out.ts) == AtLeastOne(Ticks(b.w.now - a.w.now, clock)))
  }

  predicate Unbroken(s: seq<Sent>, clock: nat) { forall k :: 0 <= k < |s| - 1 ==> Continues(s[k], s[k + 1], clock) }

  /** The line remembers the packet last sent. */
  predicate Remembers(l: Line, last: Sent, turned: bool) {
    && last.w.Write? && l.started && l.turned == turned
    && l.ssrc == last.out.ssrc && l.next == (last.out.number + 1) % 0x1_0000
    && l.lastTS == last.out.ts == Wrap(last.w.p.ts + l.tsOff) && l.lastAt == last.w.now
  }

  lemma SameShift(a: uint32, b: uint32, off: uint32)
    ensures Wrap(Wrap(b + off) - Wrap(a + off)) == Wrap(b - a)
  {
  }

  lemma Advanced(lastTS: uint32, ahead: uint32, x: uint32)
    ensures var ts := Wrap(x + Wrap(Wrap(lastTS + ahead) - x)); Wrap(ts - lastTS) == ahead
  {
  }

  /** The first packet of a new publisher moves the time on by what passed. */
  lemma TurnMovesOn(l: Line, w: Input, clock: nat, step: uint32)
    requires w.Write? && l.started && l.turned && step == Step(w.now - l.lastAt, clock, w.wild)
    ensures var ts := Stamped(l, w, clock).ts;
            ts == Wrap(w.p.ts + Ready(l, w, clock).tsOff) && Wrap(ts - l.lastTS) == AtLeastOne(step)
  {
    Advanced(l.lastTS, AtLeastOne(step), w.p.ts);
  }

  lemma SameContinues(l: Line, last: Sent, w: Input, clock: nat)
    requires Remembers(l, last, false) && w.Write?
    ensures Continues(last, Sent(w, Stamped(l, w, clock), false), clock)
  {
    SameShift(last.w.p.ts, w.p.ts, l.tsOff);
  }

  lemma TurnContinues(l: Line, last: Sent, w: Input, clock: nat)
    requires Remembers(l, last, true) && w.Write?
    ensures Continues(last, Sent(w, Stamped(l, w, clock), true), clock)
  {
    TurnMovesOn(l, w, clock, Step(w.now - l.lastAt, clock, w.wild));
  }

  lemma NextContinues(l: Line, last: Sent, turned: bool, w: Input, clock: nat)
    requires Remembers(l, last, turned) && w.Write?
    ensures Continues(last, Sent(w, Stamped(l, w, clock), turned), clock)
    ensures Remembers(LineAfter(l, w, clock), Sent(w, Stamped(l, w, clock), turned), false)
  {
    if turned { TurnContinues(l, last, w, clock); } else { SameContinues(l, last, w, clock); }
  }

  lemma {:induction false} LineContinues(video: bool, clock: nat, codec: Option<Codec>, g: Gate, l: Line,
                                         last: Sent, turned: bool, ws: seq<Input>)
    requires Remembers(l, last, turned)
    ensures Unbroken([last] + Sends(video, clock, codec, g, l, turned, ws), clock)
    decreases |ws|
  {
    if ws == [] {
    } else if ws[0].Rejoin? {
      LineContinues(video, clock, codec, GateNext(codec, g, Rejoin), l.(turned := true), last, true, ws[1..]);
    } else {
      var h := if video then GateNext(codec, g, ws[0]) else g;
      if video && PassOf(codec, g, ws[0]).Dropped? {
        LineContinues(video, clock, codec, h, l, last, turned, ws[1..]);
      } else {
        NextContinues(l, last, turned, ws[0], clock);
        var sent := Sent(ws[0], Stamped(l, ws[0], clock), turned);
        var rest := Sends(video, clock, codec, h, LineAfter(l, ws[0], clock), false, ws[1..]);
        LineContinues(video, clock, codec, h, LineAfter(l, ws[0], clock), sent, false, ws[1..]);
        assert Unbroken([sent] + rest, clock);
        forall k | 0 <= k < |rest| + 1 ensures Continues(([last] + ([sent] + rest))[k],
            ([last] + ([sent] + rest))[k + 1], clock) {
          if k > 0 { assert Continues(([sent] + rest)[k - 1], ([sent] + rest)[k], clock); }
        }
      }
    }
  }

  lemma {:induction false} OneSource(s: seq<Sent>, clock: nat, k: nat)
    requires Unbroken(s, clock) && k < |s|
    ensures s[k].out.ssrc == s[0].out.ssrc
  {
    if k > 0 {
      OneSource(s, clock, k - 1);
      assert Continues(s[k - 1], s[k], clock);
    }
  }

  predicate Intact(s: Sent) { s.w.Write? && s.out.payload == s.w.p.payload }

  predicate AllIntact(s: seq<Sent>) { forall k :: 0 <= k < |s| ==> Intact(s[k]) }

  /** Nothing but the continuity of a packet changes on its way. */
  lemma {:induction false} PayloadsUntouched(video: bool, clock: nat, codec: Option<Codec>, g: Gate, l: Line,
      turned: bool, ws: seq<Input>)
    ensures AllIntact(Sends(video, clock, codec, g, l, turned, ws))
    decreases |ws|
  {
    if ws != [] {
      var h := if video then GateNext(codec, g, ws[0]) else g;
      if ws[0].Rejoin? {
        PayloadsUntouched(video, clock, codec, GateNext(codec, g, Rejoin), l.(turned := true), true, ws[1..]);
      } else if video && PassOf(codec, g, ws[0]).Dropped? {
        PayloadsUntouched(video, clock, codec, h, l, turned, ws[1..]);
      } else {
        PayloadsUntouched(video, clock, codec, h, LineAfter(l, ws[0], clock), false, ws[1..]);
        var rest := Sends(video, clock, codec, h, LineAfter(l, ws[0], clock), false, ws[1..]);
        assert AllIntact(rest) && Intact(Sent(ws[0], Stamped(l, ws[0], clock), turned));
      }
    }
  }

  lemma {:induction false} FirstOpens(video: bool, clock: nat, codec: Option<Codec>, g: Gate, l: Line, turned: bool,
      ws: seq<Input>)
    requires !l.started
    ensures var s := Sends(video, clock, codec, g, l, turned, ws);
            Unbroken(s, clock) && (s != [] ==> s[0].w.Write? && s[0].out == s[0].w.p)
    decreases |ws|
  {
    if ws == [] {
    } else if ws[0].Rejoin? {
      FirstOpens(video, clock, codec, GateNext(codec, g, Rejoin), l.(turned := true), true, ws[1..]);
    } else {
      var h := if video then GateNext(codec, g, ws[0]) else g;
      if video && PassOf(codec, g, ws[0]).Dropped? {
        FirstOpens(video, clock, codec, h, l, turned, ws[1..]);
      } else {
        var sent := Sent(ws[0], Stamped(l, ws[0], clock), turned);
        LineContinues(video, clock, codec, h, LineAfter(l, ws[0], clock), sent, false, ws[1..]);
      }
    }
  }

  /**
   * Across any number of publishers and dropped frames a reader sees one
   * source, the first packet's, numbers without a gap, and timestamps that
   * run on.
   */
  lemma ReadersSeeOneStream(video: bool, clock: nat, codec: Option<Codec>, ws: seq<Input>)
    ensures var s := Sends(video, clock, codec, NEW_GATE, NEW_LINE, false, ws);
            && Unbroken(s, clock)
            && (s != [] ==> s[0].w.Write? && s[0].out == s[0].w.p)
            && AllIntact(s) && forall k :: 0 <= k < |s| ==> s[k].out.ssrc == s[0].out.ssrc
  {
    var s := Sends(video, clock, codec, NEW_GATE, NEW_LINE, false, ws);
    FirstOpens(video, clock, codec, NEW_GATE, NEW_LINE, false, ws);
    PayloadsUntouched(video, clock, codec, NEW_GATE, NEW_LINE, false, ws);
    forall k | 0 <= k < |s| ensures s[k].out.ssrc == s[0].out.ssrc {
      OneSource(s, clock, k);
    }
  }
}
