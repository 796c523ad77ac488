/** What holds of every run of two joined sessions. */
module MuxTheorems {
  import opened Bytes
  import opened Wrappers
  import opened FrameCodec
  import opened MuxStream
  import opened MuxSession
  import opened MuxInvariant
  import opened MuxSystem
  import opened MuxRuns

  lemma NextKeeps(s: System, byOpener: bool, ev: Event)
    requires Inv(s) && (byOpener && ev.OpenCall? ==> s.a.opens < MAX_OPENS)
    ensures Inv(Next(s, byOpener, ev))
  {
    if byOpener && Enabled(s.a, s.ba, ev) {
      if ev.Receive? {
        NextFrameWelcome(s.a, s.b, s.ba);
      }
      StepKeeps(s.a, s.ab, s.ba, ev);
      StepJoins(s.a, s.b, s.ab, s.ba, ev);
    }
    if !byOpener && Enabled(s.b, s.ab, ev) {
      if ev.Receive? {
        NextFrameWelcome(s.b, s.a, s.ab);
      }
      StepKeeps(s.b, s.ba, s.ab, ev);
      StepJoins(s.b, s.a, s.ba, s.ab, ev);
    }
  }

  /** How many streams the opener has been asked for. */
  function OpenCalls(evs: seq<(bool, Event)>): nat {
    if evs == [] then 0
    else var last := evs[|evs| - 1];
         OpenCalls(evs[..|evs| - 1]) + (if last.0 && last.1.OpenCall? then 1 else 0)
  }

  lemma OpensCounted(s: Session, out: Pipe, inn: Pipe, ev: Event)
    requires Enabled(s, inn, ev)
    ensures Step(s, out, inn, ev).0.opens == s.opens + (if ev.OpenCall? then 1 else 0)
  {
    if Opens(ev) {
      SettledCounts(s, out, inn, ev);
    } else if !Uses(ev) {
      match ev
      case LoopRuns(_) => AffectCounts(s, s.loop);
      case ThreadRuns(th, _) => AffectCounts(s, s.threads[th]);
      case Receive => DispatchCounts(s, inn.frames[0]);
      case _ =>
    }
  }

  lemma SettledCounts(s: Session, out: Pipe, inn: Pipe, ev: Event)
    requires Enabled(s, inn, ev) && Opens(ev)
    ensures Step(s, out, inn, ev).0.opens == s.opens + (if ev.OpenCall? then 1 else 0)
  {
    match ev
    case OpenCall => assert Register(s).opens == s.opens + 1;
    case OpenWrite(i, target, ok, th) => assert WriteOpen(s, out, i, target, ok, th).0.opens == s.opens;
    case AcceptOffer(i, ok, th) => assert AnswerYes(s, out, i, ok, th).0.opens == s.opens;
    case OpenReturn(i, th) => assert FinishOpen(s, i, th).opens == s.opens;
    case OpenDies(i) => assert WithPhase(s, i, Gone).opens == s.opens;
    case OpenCancel(i, th) => assert CancelOpen(s, i, th).opens == s.opens;
    case RefuseOffer(i, reason, th) => assert AnswerNo(s, i, reason, th).opens == s.opens;
  }

  lemma AffectCounts(s: Session, t: Task)
    requires TaskEnabled(s, t)
    ensures Affect(s, t).opens == s.opens
  {
  }

  lemma DispatchCounts(s: Session, f: Frame)
    requires s.loop.Done? && !s.stopped
    ensures Dispatch(s, f).opens == s.opens
  {
  }

  /** Every run of at most 2^31 opens keeps the invariant. */
  lemma {:induction false} RunKeeps(evs: seq<(bool, Event)>)
    requires OpenCalls(evs) <= MAX_OPENS
    ensures Inv(Run(evs)) && Run(evs).a.opens <= OpenCalls(evs)
  {
    if evs == [] {
      NewSessionOk(true);
      NewSessionOk(false);
    } else {
      var before, last := evs[..|evs| - 1], evs[|evs| - 1];
      RunKeeps(before);
      var s := Run(before);
      if last.0 && Enabled(s.a, s.ba, last.1) {
        OpensCounted(s.a, s.ab, s.ba, last.1);
      }
      NextKeeps(Run(before), last.0, last.1);
    }
  }

  // ---- bytes -------------------------------------------------------------------------

  function Sent(s: Session, i: uint32): seq<byte> { if i in s.entries then s.entries[i].sent else [] }
  function Got(s: Session, i: uint32): seq<byte> { if i in s.entries then s.entries[i].got else [] }

  /** The pair of ends of one direction. */
  function Ends(s: System, fromOpener: bool): (Session, Session) {
    if fromOpener then (s.a, s.b) else (s.b, s.a)
  }

  lemma EndsFlow(s: System, fromOpener: bool, i: uint32)
    requires Inv(s) && i != 0
    ensures var (x, y) := Ends(s, fromOpener);
            var p := if fromOpener then s.ab else s.ba;
            && Local(x) && Local(y) && Flow(TxOf(x, i), RxOf(y, i), OfStream(p.frames, i), fromOpener)
            && (i in x.entries ==> StreamOk(x, i)) && (i in y.entries ==> StreamOk(y, i))
            && TxOf(x, i).sent == Sent(x, i)
  {
  }

  /**
   * In every run, for every stream and direction, what Read has handed out is a
   * prefix of what the peer's Write has sent: nothing lost in between, repeated,
   * reordered or taken from another stream, whatever resets, overflows and
   * failures occur.
   */
  lemma ReadsArePrefixes(evs: seq<(bool, Event)>, fromOpener: bool, i: uint32)
    requires OpenCalls(evs) <= MAX_OPENS && i != 0
    ensures var (x, y) := Ends(Run(evs), fromOpener); Got(y, i) <= Sent(x, i)
  {
    RunKeeps(evs);
    EndsFlow(Run(evs), fromOpener, i);
    var (x, y) := Ends(Run(evs), fromOpener);
    if i in y.entries {
      var e := y.entries[i];
      assert Got(y, i) <= e.recv by {
        if !e.st.dead { assert e.recv == e.got + Flatten(e.st.queue); }
      }
      assert e.recv <= Sent(x, i);
    }
  }

  /** When Read answers EOF, everything the peer sent has been read and the peer has closed. */
  lemma EofOnlyAfterEverything(evs: seq<(bool, Event)>, fromOpener: bool, i: uint32, n: nat)
    requires OpenCalls(evs) <= MAX_OPENS && i != 0
    requires var (x, y) := Ends(Run(evs), fromOpener);
             i in y.entries && Consistent(y.entries[i].st) && Read(y.entries[i].st, n).1.EndOfStream?
    ensures var (x, y) := Ends(Run(evs), fromOpener);
            Got(y, i) == Sent(x, i) && i in x.entries && x.entries[i].closeSent
  {
    RunKeeps(evs);
    EndsFlow(Run(evs), fromOpener, i);
    var (x, y) := Ends(Run(evs), fromOpener);
    var p := if fromOpener then Run(evs).ab else Run(evs).ba;
    ReadTakesFront(y.entries[i].st, n);
    NoDataNothing(OfStream(p.frames, i));
  }

  /** A stream at rest that never lost a payload and is still open has handed over every byte sent. */
  lemma NothingWithheld(evs: seq<(bool, Event)>, fromOpener: bool, i: uint32)
    requires OpenCalls(evs) <= MAX_OPENS && i != 0
    requires var (x, y) := Ends(Run(evs), fromOpener);
             var p := if fromOpener then Run(evs).ab else Run(evs).ba;
             && p.frames == [] && y.loop.Done?
             && i in y.entries && i in y.table && y.entries[i].st.queue == []
    ensures var (x, y) := Ends(Run(evs), fromOpener); Got(y, i) == Sent(x, i)
  {
    RunKeeps(evs);
    EndsFlow(Run(evs), fromOpener, i);
    var (x, y) := Ends(Run(evs), fromOpener);
    var p := if fromOpener then Run(evs).ab else Run(evs).ba;
    assert OfStream(p.frames, i) == [];
  }

  // ---- closing is final --------------------------------------------------------------------

  /** Nothing is sent on a stream after its CLOSE. */
  predicate StaysClosed(s: Session, t: Session, i: uint32)
    requires i in s.entries
  {
    i in t.entries && t.entries[i].closeSent && t.entries[i].sent == s.entries[i].sent
  }

  lemma SectionsStayClosed(s: Session, out: Pipe, inn: Pipe, ev: Event, i: uint32)
    requires Local(s) && Enabled(s, inn, ev) && i in s.entries && s.entries[i].closeSent
    requires ev.OpenCall? ==> s.opens < MAX_OPENS
    requires ev.Receive? ==> FrameWelcome(s, inn.frames[0])
    ensures StaysClosed(s, Step(s, out, inn, ev).0, i)
  {
    if Settles(ev) {
      SettlesStayClosed(s, out, inn, ev, i);
    } else if Opens(ev) {
      OpensStayClosed(s, out, inn, ev, i);
    } else if !Uses(ev) {
      match ev
      case WriterRuns(j, ok) => WriterStaysClosed(s, out, j, ok, i);
      case LoopRuns(_) => AffectStaysClosed(s, s.loop, i);
      case ThreadRuns(th, _) => AffectStaysClosed(s, s.threads[th], i);
      case Receive => DispatchStaysClosed(s, inn.frames[0], i);
      case _ =>
    }
  }

  lemma OpensStayClosed(s: Session, out: Pipe, inn: Pipe, ev: Event, i: uint32)
    requires Local(s) && Enabled(s, inn, ev) && i in s.entries && s.entries[i].closeSent
    requires Opens(ev) && !Settles(ev) && (ev.OpenCall? ==> s.opens < MAX_OPENS)
    ensures StaysClosed(s, Step(s, out, inn, ev).0, i)
  {
    match ev
    case OpenCall => RegisterKeeps(s);
    case OpenWrite(j, target, ok, th) => assert StaysClosed(s, WriteOpen(s, out, j, target, ok, th).0, i);
    case AcceptOffer(j, ok, th) => assert StaysClosed(s, AnswerYes(s, out, j, ok, th).0, i);
  }

  lemma SettlesStayClosed(s: Session, out: Pipe, inn: Pipe, ev: Event, i: uint32)
    requires Enabled(s, inn, ev) && i in s.entries && s.entries[i].closeSent && Settles(ev)
    ensures StaysClosed(s, Step(s, out, inn, ev).0, i)
  {
    match ev
    case OpenReturn(j, th) =>
      PhaseStaysClosed(s, j, Usable, th, RemoveOnly(j), i);
      PhaseStaysClosed(s, j, Gone, th, RemoveOnly(j), i);
    case OpenDies(j) => PhaseStaysClosed(s, j, Gone, 0, Done, i);
    case OpenCancel(j, th) => PhaseStaysClosed(s, j, Gone, th, ResetCheck(j, CANCELLED), i);
    case RefuseOffer(j, reason, th) =>
      PhaseStaysClosed(s, j, Gone, th, RemoveThenMark(j, RefusedBy(reason), Some(Frame(TYPE_REFUSE, j, reason))), i);
  }

  lemma PhaseStaysClosed(s: Session, j: uint32, p: Phase, th: nat, t: Task, i: uint32)
    requires j in s.entries && i in s.entries && s.entries[i].closeSent
    ensures StaysClosed(s, WithPhase(s, j, p), i) && StaysClosed(s, Spawn(WithPhase(s, j, p), th, t), i)
  {
  }

  lemma WriterStaysClosed(s: Session, out: Pipe, j: uint32, ok: bool, i: uint32)
    requires Local(s) && i in s.entries && j in s.entries && s.entries[i].closeSent
    ensures StaysClosed(s, RunWriter(s, out, j, ok).0, i)
  {
    assert StreamOk(s, i);
  }

  lemma AffectStaysClosed(s: Session, t: Task, i: uint32)
    requires TaskEnabled(s, t) && i in s.entries && s.entries[i].closeSent
    ensures StaysClosed(s, Affect(s, t), i)
  {
  }

  lemma DispatchStaysClosed(s: Session, f: Frame, i: uint32)
    requires s.loop.Done? && !s.stopped && FrameWelcome(s, f) && i in s.entries && s.entries[i].closeSent
    ensures StaysClosed(s, Dispatch(s, f), i)
  {
  }

  lemma NextStaysClosed(s: System, byOpener: bool, ev: Event, fromOpener: bool, i: uint32)
    requires Inv(s) && (byOpener && ev.OpenCall? ==> s.a.opens < MAX_OPENS)
    requires i in Ends(s, fromOpener).0.entries && Ends(s, fromOpener).0.entries[i].closeSent
    ensures StaysClosed(Ends(s, fromOpener).0, Ends(Next(s, byOpener, ev), fromOpener).0, i)
  {
    if fromOpener && byOpener && Enabled(s.a, s.ba, ev) {
      if ev.Receive? { NextFrameWelcome(s.a, s.b, s.ba); }
      SectionsStayClosed(s.a, s.ab, s.ba, ev, i);
    }
    if !fromOpener && !byOpener && Enabled(s.b, s.ab, ev) {
      if ev.Receive? { NextFrameWelcome(s.b, s.a, s.ab); }
      SectionsStayClosed(s.b, s.ba, s.ab, ev, i);
    }
  }

  /** What a reader has when it sees EOF stays everything: after CLOSE a run can be continued at will and no byte more is sent. */
  lemma {:induction false} ClosedForGood(evs: seq<(bool, Event)>, more: seq<(bool, Event)>, fromOpener: bool, i: uint32)
    requires OpenCalls(evs + more) <= MAX_OPENS
    requires var x := Ends(Run(evs), fromOpener).0; i in x.entries && x.entries[i].closeSent
    ensures StaysClosed(Ends(Run(evs), fromOpener).0, Ends(Run(evs + more), fromOpener).0, i)
  {
    if more == [] {
      assert evs + more == evs;
    } else {
      var init, last := more[..|more| - 1], more[|more| - 1];
      assert (evs + more)[..|evs + more| - 1] == evs + init;
      assert (evs + more)[|evs + more| - 1] == last;
      ClosedForGood(evs, init, fromOpener, i);
      RunKeeps(evs + init);
      NextStaysClosed(Run(evs + init), last.0, last.1, fromOpener, i);
    }
  }

  // ---- conformance -----------------------------------------------------------------------

  /** Two correct sessions never drive each other to a protocol error, and no inbound queue passes its bound. */
  lemma NoProtocolErrors(evs: seq<(bool, Event)>, i: uint32)
    requires OpenCalls(evs) <= MAX_OPENS
    ensures var s := Run(evs);
            && !s.a.violated && !s.b.violated
            && forall t {:trigger t.violated} :: t == s.a || t == s.b ==>
                 i in t.entries ==>
                   && i % 2 == 1
                   && t.entries[i].st.queued == |Flatten(t.entries[i].st.queue)| <= 8_388_608
  {
    RunKeeps(evs);
    forall t | t == Run(evs).a || t == Run(evs).b
      ensures i in t.entries ==> i % 2 == 1 && t.entries[i].st.queued == |Flatten(t.entries[i].st.queue)| <= 8_388_608
    {
      assert i in t.entries ==> StreamOk(t, i);
    }
  }

  // ---- the bound is tight ------------------------------------------------------------------

  /** One stream opened and received, then k more Open calls. */
  function ManyOpens(k: nat): seq<(bool, Event)> {
    if k == 0 then [(true, OpenCall), (true, OpenWrite(1, [], true, 0)), (false, Receive)]
    else ManyOpens(k - 1) + [(true, OpenCall)]
  }

  /** The acceptor once it has received the first OPEN. */
  const FIRST_HELD := Update(NewSession(false), 1, NewEntry(Offered)).(table := {1}, backlog := [1])

  lemma FirstHeld()
    ensures Held(Run(ManyOpens(0))) && Run(ManyOpens(0)).a.opens == 1
    ensures OpenCalls(ManyOpens(0)) == 1
  {
    var e0 := [(true, OpenCall)];
    var e1 := e0 + [(true, OpenWrite(1, [], true, 0))];
    var e2 := e1 + [(false, Receive)];
    assert e0[..0] == [] && e1[..1] == e0 && e2[..2] == e1 && e2 == ManyOpens(0);
    assert OpenCalls(e0) == 1 && OpenCalls(e1) == 1;
    var s0 := Run(e0);
    assert s0.a == Register(NewSession(true)) && s0.ab == Pipe([], false) && s0.b == NewSession(false);
    var s1 := Run(e1);
    assert s1.ab.frames == [Frame(TYPE_OPEN, 1, [])] && s1.b == NewSession(false);
    var s2 := Run(e2);
    assert s2.b == DispatchOpen(NewSession(false), 1);
    assert {1} == {} + {1} && [] + [1 as uint32] == [1];
  }

  lemma RunOneMore(evs: seq<(bool, Event)>, byOpener: bool, ev: Event)
    ensures Run(evs + [(byOpener, ev)]) == Next(Run(evs), byOpener, ev)
    ensures OpenCalls(evs + [(byOpener, ev)]) == OpenCalls(evs) + (if byOpener && ev.OpenCall? then 1 else 0)
  {
  }

  /** The opener is free to open more while the acceptor holds its first stream and nothing is in flight. */
  predicate Held(s: System) {
    && s.a.opener && !s.a.failed && !s.a.closed && s.a.threads == map[]
    && s.b == FIRST_HELD && s.ab == Pipe([], false)
  }

  lemma OpenHolds(s: System)
    requires Held(s)
    ensures var t := Next(s, true, OpenCall);
            Held(t) && t.a == Register(s.a)
  {
  }

  lemma {:induction false} HeldThroughout(k: nat)
    ensures Held(Run(ManyOpens(k))) && Run(ManyOpens(k)).a.opens == k + 1
    ensures OpenCalls(ManyOpens(k)) == k + 1
  {
    if k == 0 {
      FirstHeld();
    } else {
      HeldThroughout(k - 1);
      RunOneMore(ManyOpens(k - 1), true, OpenCall);
      OpenHolds(Run(ManyOpens(k - 1)));
    }
  }

  /**
   * Writing the OPEN of a stream whose id the acceptor still has in its table fails the acceptor's
   * session, whatever else it holds.
   */
  lemma ReusedIdIsFatal(s: System, i: uint32, target: seq<byte>, th: nat)
    requires InPhase(s.a, i, Registered) && FreeThread(s.a, th) && !s.a.closed && s.ab == Pipe([], false)
             && |target| <= MAX_PAYLOAD
    requires i in s.b.table && s.b.loop.Done? && !s.b.stopped
    ensures Next(Next(s, true, OpenWrite(i, target, true, th)), false, Receive).b.violated
  {
    var t := Next(s, true, OpenWrite(i, target, true, th));
    assert t.ab == Pipe([Frame(TYPE_OPEN, i, target)], false) && t.b == s.b;
    assert Dispatch(s.b, Frame(TYPE_OPEN, i, target)) == DispatchOpen(s.b, i);
  }

  /**
   * One open more than the bound is one too many: the id comes round while its first holder lives, and
   * the acceptor fails the session.
   */
  lemma OneOpenTooMany()
    ensures exists evs: seq<(bool, Event)> :: OpenCalls(evs) == MAX_OPENS + 1 && Run(evs).b.violated
  {
    var m := ManyOpens(MAX_OPENS);
    HeldThroughout(MAX_OPENS);
    HeldThroughout(MAX_OPENS - 1);
    RunOneMore(ManyOpens(MAX_OPENS - 1), true, OpenCall);
    OpenHolds(Run(ManyOpens(MAX_OPENS - 1)));
    assert NextID(Run(ManyOpens(MAX_OPENS - 1)).a) == 1;
    RunOneMore(m, true, OpenWrite(1, [], true, 0));
    var e1 := m + [(true, OpenWrite(1, [], true, 0))];
    RunOneMore(e1, false, Receive);
    var e2 := e1 + [(false, Receive)];
    ReusedIdIsFatal(Run(m), 1, [], 0);
    assert OpenCalls(e2) == MAX_OPENS + 1 && Run(e2).b.violated;
  }
}
