/**
 * Holding the first packets of each media until the source's first report
 * says what time they belong to, or the hold runs out.
 */
module ServeTimed {
  import opened Wrappers
  import ServeTrack

  const HOLD_FOR := 1_000_000_000
  const HOLD_PACKETS := 256

  type Packet = ServeTrack.Packet

  /** What the source's reports say of a packet's time, if anything. */
  type Clock = Packet -> Option<int>

  /** One Write: the clock when it is called, and when it flushes what was held. */
  datatype Call = Call(media: nat, packet: Packet, now: int, clock: Clock, late: Clock)

  /** A packet written to the publication; without a time it is timed at its writing. */
  datatype Written = Written(media: nat, packet: Packet, ntp: Option<int>)

  datatype Hold = Hold(settled: bool, held: seq<Packet>, since: int)

  datatype State = State(holds: map<nat, Hold>, out: seq<Written>)

  const NEW_HOLD := Hold(false, [], 0)

  function HoldOf(s: State, media: nat): Hold { if media in s.holds then s.holds[media] else NEW_HOLD }

  function Flushed(media: nat, held: seq<Packet>, times: Clock): seq<Written> {
    seq(|held|, i requires 0 <= i < |held| => Written(media, held[i], times(held[i])))
  }

  function Untimed(): Clock { p => None }

  /** A media's hold after a call, and what the call writes. */
  function Next(h: Hold, c: Call): (Hold, seq<Written>) {
    var ntp := c.clock(c.packet);
    if h.settled then (h, [Written(c.media, c.packet, ntp)])
    else if ntp.Some? then (h.(settled := true, held := []), Flushed(c.media, h.held, c.late) + [Written(c.media, c.packet, ntp)])
    else
      var since := if h.held == [] then c.now else h.since;
      var held := h.held + [c.packet];
      if c.now - since < HOLD_FOR && |held| < HOLD_PACKETS then (Hold(false, held, since), [])
      else (Hold(true, [], since), Flushed(c.media, held, Untimed()))
  }

  function Step(s: State, c: Call): State {
    var (h, more) := Next(HoldOf(s, c.media), c);
    State(s.holds[c.media := h], s.out + more)
  }

  function Play(calls: seq<Call>): State {
    if calls == [] then State(map[], []) else Step(Play(calls[..|calls| - 1]), calls[|calls| - 1])
  }

  // ---- the writer as an object ------------------------------------------------------------

  /** The first of a call's errors. */
  predicate FirstOf(errors: seq<Option<int>>, first: Option<int>) {
    && (first.None? <==> forall i :: 0 <= i < |errors| ==> errors[i].None?)
    && (first.Some? ==> exists i :: 0 <= i < |errors| && errors[i] == first && forall j :: 0 <= j < i ==> errors[j].None?)
  }

  class TimedWriter {
    var holds: map<nat, Hold>
    var out: seq<Written>

    ghost function Value(): State reads this { State(holds, out) }

    constructor ()
      ensures Value() == Play([])
    {
      holds, out := map[], [];
    }

    /** Every held packet is written, whatever became of the ones before it. */
    method Flush(media: nat, held: seq<Packet>, times: Clock, errors: seq<Option<int>>) returns (first: Option<int>)
      requires |errors| >= |held|
      modifies `out
      ensures out == old(out) + Flushed(media, held, times)
      ensures FirstOf(errors[..|held|], first)
    {
      first := None;
      ghost var was, all := out, Flushed(media, held, times);
      assert was + all[..0] == was;
      for i := 0 to |held|
        invariant out == was + all[..i]
        invariant FirstOf(errors[..i], first)
      {
        out := out + [Written(media, held[i], times(held[i]))];
        assert all[..i + 1] == all[..i] + [all[i]];
        FirstGrows(errors[..i], errors[i], first);
        assert errors[..i + 1] == errors[..i] + [errors[i]];
        if errors[i].Some? && first.None? { first := errors[i]; }
      }
      assert all[..|held|] == all;
    }

    /** Write: errors are what the publication answers, write by write. */
    method Write(c: Call, errors: seq<Option<int>>) returns (first: Option<int>)
      requires |errors| >= |HoldOf(Value(), c.media).held| + 1
      modifies this
      ensures Value() == Step(old(Value()), c)
      ensures FirstOf(errors[..|out| - |old(out)|], first)
    {
      var ntp := c.clock(c.packet);
      var h := if c.media in holds then holds[c.media] else NEW_HOLD;
      if h.settled {
        holds := holds[c.media := h];
        out := out + [Written(c.media, c.packet, ntp)];
        return errors[0];
      }
      if ntp.Some? {
        holds := holds[c.media := h.(settled := true, held := [])];
        first := Flush(c.media, h.held, c.late, errors);
        out := out + [Written(c.media, c.packet, ntp)];
        var n := |h.held|;
        FirstGrows(errors[..n], errors[n], first);
        assert errors[..n + 1] == errors[..n] + [errors[n]];
        if errors[n].Some? && first.None? { first := errors[n]; }
        return;
      }
      var since := if |h.held| == 0 then c.now else h.since;
      var held := h.held + [c.packet];
      if c.now - since < HOLD_FOR && |held| < HOLD_PACKETS {
        holds := holds[c.media := Hold(false, held, since)];
        assert out + [] == out;
        return None;
      }
      holds := holds[c.media := Hold(true, [], since)];
      first := Flush(c.media, held, Untimed(), errors);
    }
  }

  lemma FirstGrows(errors: seq<Option<int>>, next: Option<int>, first: Option<int>)
    requires FirstOf(errors, first)
    ensures FirstOf(errors + [next], if next.Some? && first.None? then next else first)
  {
    var all := errors + [next];
    assert all[|errors|] == next && forall i :: 0 <= i < |errors| ==> all[i] == errors[i];
    if first.Some? {
      var i :| 0 <= i < |errors| && errors[i] == first && forall j :: 0 <= j < i ==> errors[j].None?;
      assert all[i] == first;
    }
  }

  // ---- one media ----------------------------------------------------------------------------

  /** The calls for one media, and what was written for it. */
  function Of(calls: seq<Call>, media: nat): seq<Call> {
    if calls == [] then []
    else
      var last := calls[|calls| - 1];
      Of(calls[..|calls| - 1], media) + if last.media == media then [last] else []
  }

  function Out(ws: seq<Written>, media: nat): seq<Written> {
    if ws == [] then []
    else
      var last := ws[|ws| - 1];
      Out(ws[..|ws| - 1], media) + if last.media == media then [last] else []
  }

  function Alone(cs: seq<Call>): (Hold, seq<Written>) {
    if cs == [] then (NEW_HOLD, [])
    else
      var (h, ws) := Alone(cs[..|cs| - 1]);
      var (g, more) := Next(h, cs[|cs| - 1]);
      (g, ws + more)
  }

  lemma {:induction false} OutAppends(a: seq<Written>, b: seq<Written>, media: nat)
    ensures Out(a + b, media) == Out(a, media) + Out(b, media)
  {
    if b == [] {
      assert a + b == a;
    } else {
      var init := b[..|b| - 1];
      assert (a + b)[..|a + b| - 1] == a + init;
      OutAppends(a, init, media);
    }
  }

  lemma {:induction false} OutOfOne(ws: seq<Written>, from: nat, media: nat)
    requires forall i :: 0 <= i < |ws| ==> ws[i].media == from
    ensures Out(ws, media) == if from == media then ws else []
  {
    if ws != [] {
      OutOfOne(ws[..|ws| - 1], from, media);
    }
  }

  /** A call writes for its own media only. */
  lemma NextOut(h: Hold, c: Call, media: nat)
    ensures Out(Next(h, c).1, media) == if c.media == media then Next(h, c).1 else []
  {
    OutOfOne(Next(h, c).1, c.media, media);
  }

  lemma StepApart(s: State, c: Call, media: nat)
    ensures var t := Step(s, c); var (h, more) := Next(HoldOf(s, media), c);
            && HoldOf(t, media) == (if c.media == media then h else HoldOf(s, media))
            && Out(t.out, media) == Out(s.out, media) + if c.media == media then more else []
  {
    var more := Next(HoldOf(s, c.media), c).1;
    OutAppends(s.out, more, media);
    NextOut(HoldOf(s, c.media), c, media);
  }

  lemma AloneOneMore(cs: seq<Call>, c: Call)
    ensures var (h, ws) := Alone(cs); var (g, more) := Next(h, c);
            Alone(cs + [c]) == (g, ws + more)
  {
  }

  /** Medias do not affect each other: each is held and written as if it were alone. */
  lemma {:induction false} MediasApart(calls: seq<Call>, media: nat)
    ensures Alone(Of(calls, media)) == (HoldOf(Play(calls), media), Out(Play(calls).out, media))
  {
    if calls != [] {
      var init, c := calls[..|calls| - 1], calls[|calls| - 1];
      MediasApart(init, media);
      StepApart(Play(init), c, media);
      if c.media == media {
        AloneOneMore(Of(init, media), c);
      } else {
        assert Of(init, media) + [] == Of(init, media) && Out(Play(init).out, media) + [] == Out(Play(init).out, media);
      }
    }
  }

  // ---- what the hold amounts to -------------------------------------------------------------

  function Packets(cs: seq<Call>): seq<Packet> { seq(|cs|, i requires 0 <= i < |cs| => cs[i].packet) }

  /** The source has said nothing of the packet, and the hold is not over with it. */
  predicate KeepsWaiting(cs: seq<Call>, k: nat)
    requires k < |cs|
  {
    cs[k].clock(cs[k].packet).None? && cs[k].now - cs[0].now < HOLD_FOR && k + 1 < HOLD_PACKETS
  }

  /** The first call that ends the hold, if any. */
  function EndsAt(cs: seq<Call>): (n: nat)
    ensures n <= |cs| && (forall k :: 0 <= k < n ==> KeepsWaiting(cs, k)) && (n < |cs| ==> !KeepsWaiting(cs, n))
  {
    EndsFrom(cs, 0)
  }

  function EndsFrom(cs: seq<Call>, k: nat): (n: nat)
    requires k <= |cs|
    ensures k <= n <= |cs| && (forall j :: k <= j < n ==> KeepsWaiting(cs, j)) && (n < |cs| ==> !KeepsWaiting(cs, n))
    decreases |cs| - k
  {
    if k < |cs| && KeepsWaiting(cs, k) then EndsFrom(cs, k + 1) else k
  }

  /** The time packet i goes out with, when the hold ends with call n. */
  function TimeOf(cs: seq<Call>, n: nat, i: nat): Option<int>
    requires n < |cs| && i < |cs|
  {
    if i >= n then cs[i].clock(cs[i].packet)
    else if cs[n].clock(cs[n].packet).Some? then cs[n].late(cs[i].packet)
    else None
  }

  function Timed(cs: seq<Call>, media: nat): (ws: seq<Written>) {
    var n := EndsAt(cs);
    if n == |cs| then [] else seq(|cs|, i requires 0 <= i < |cs| => Written(media, cs[i].packet, TimeOf(cs, n, i)))
  }

  /** The call that ends the hold writes everything given so far. */
  lemma EndingWrites(cs: seq<Call>, media: nat)
    requires cs != [] && EndsAt(cs) == |cs| - 1 && cs[|cs| - 1].media == media
    ensures var h := if |cs| == 1 then NEW_HOLD else Hold(false, Packets(cs[..|cs| - 1]), cs[0].now);
            var (g, ws) := Next(h, cs[|cs| - 1]);
            g.settled && g.held == [] && ws == Timed(cs, media)
  {
  }

  lemma EndsSame(cs: seq<Call>)
    requires cs != []
    ensures var n := EndsAt(cs[..|cs| - 1]); if n < |cs| - 1 then EndsAt(cs) == n else EndsAt(cs) >= n
  {
    var before := cs[..|cs| - 1];
    forall k | 0 <= k < |before| ensures KeepsWaiting(before, k) == KeepsWaiting(cs, k) {
    }
  }

  /**
   * For a media, in closed form: its packets wait, all of them and in order,
   * while the source has said nothing, under a second has passed since the
   * first and fewer than 256 have come; from then on none waits, and every
   * packet given has been written once, in order. Those held go out with the
   * source's time if a report ended the hold, and untimed if it ran out.
   */
  lemma {:induction false} HoldsThenWrites(cs: seq<Call>, media: nat)
    requires forall i :: 0 <= i < |cs| ==> cs[i].media == media
    ensures var (h, ws) := Alone(cs);
            && (h.settled <==> EndsAt(cs) < |cs|)
            && (h.settled ==> h.held == [])
            && (!h.settled ==> h.held == Packets(cs) && |cs| < HOLD_PACKETS && (cs != [] ==> h.since == cs[0].now))
            && ws == Timed(cs, media)
  {
    if cs != [] {
      var before, c := cs[..|cs| - 1], cs[|cs| - 1];
      HoldsThenWrites(before, media);
      EndsSame(cs);
      var n := EndsAt(cs);
      if n == |cs| {
        assert KeepsWaiting(cs, |cs| - 1);
        assert Packets(cs) == Packets(before) + [c.packet];
      } else if n == |cs| - 1 {
        assert EndsAt(before) == n;
        EndingWrites(cs, media);
      } else {
        assert Timed(cs, media) == Timed(before, media) + [Written(media, c.packet, c.clock(c.packet))];
      }
    }
  }

  /** In any interleaving of medias, a media's packets are all written or held, once each and in the order given. */
  lemma NothingLost(calls: seq<Call>, media: nat)
    ensures var out := Out(Play(calls).out, media);
            Packets(Of(calls, media)) == seq(|out|, i requires 0 <= i < |out| => out[i].packet) + HoldOf(Play(calls), media).held
    ensures |HoldOf(Play(calls), media).held| < HOLD_PACKETS
  {
    MediasApart(calls, media);
    OfMedia(calls, media);
    HoldsThenWrites(Of(calls, media), media);
  }

  lemma {:induction false} OfMedia(calls: seq<Call>, media: nat)
    ensures forall i :: 0 <= i < |Of(calls, media)| ==> Of(calls, media)[i].media == media
  {
    if calls != [] {
      OfMedia(calls[..|calls| - 1], media);
    }
  }

  /**
   * When the report comes in time and covers what was held, no packet of the media goes out without the
   * source's time up to it.
   */
  lemma ReportTimesAll(calls: seq<Call>, media: nat)
    requires var cs := Of(calls, media); var n := EndsAt(cs);
             && n < |cs| && cs[n].clock(cs[n].packet).Some?
             && forall i :: 0 <= i < n ==> cs[n].late(cs[i].packet).Some?
    ensures var cs := Of(calls, media); var n := EndsAt(cs); var out := Out(Play(calls).out, media);
            |out| == |cs| && forall i :: 0 <= i <= n ==> out[i].ntp.Some? && out[i].packet == cs[i].packet
  {
    MediasApart(calls, media);
    OfMedia(calls, media);
    HoldsThenWrites(Of(calls, media), media);
  }
}
