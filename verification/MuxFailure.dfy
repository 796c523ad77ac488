/**
 * What a failing session does to its streams: all of those it has are over,
 * and an OPEN its read loop takes in afterwards makes one that is not.
 */
module MuxFailure {
  import opened Bytes
  import opened Wrappers
  import opened FrameCodec
  import opened MuxStream
  import opened MuxSession
  import opened MuxInvariant
  import opened MuxSystem
  import opened MuxRuns
  import opened MuxTheorems
  import opened MuxTable

  /** The session of one side after a run. */
  function Side(evs: seq<(bool, Event)>, opener: bool): Session { Ends(Run(evs), opener).0 }

  /** The streams that joined the side's session after it had failed. */
  function Late(evs: seq<(bool, Event)>, opener: bool): set<uint32> {
    if evs == [] then {}
    else
      var before := evs[..|evs| - 1];
      var s, t := Side(before, opener), Side(evs, opener);
      Late(before, opener) + if s.failed then t.entries.Keys - s.entries.Keys else {}
  }

  /** The streams that left its table one by one: reset, refused or closed both ways, not taken out by the failing. */
  function Left(evs: seq<(bool, Event)>, opener: bool): set<uint32> {
    if evs == [] then {}
    else
      var before := evs[..|evs| - 1];
      var s, t := Side(before, opener), Side(evs, opener);
      Left(before, opener) + if s.failed == t.failed then s.table - t.table else {}
  }

  // ---- one step ----------------------------------------------------------------------

  function Joining(s: Session, t: Session): set<uint32> { t.entries.Keys - s.entries.Keys }

  /** Streams join at the table and leave it for good; failing empties it; a failed opener gains none. */
  predicate Moved(s: Session, t: Session) {
    && t.opener == s.opener && s.entries.Keys <= t.entries.Keys
    && Joining(s, t) <= t.table <= s.table + Joining(s, t)
    && (s.failed ==> t.failed) && (t.failed && !s.failed ==> t.table == {} && t.entries.Keys == s.entries.Keys)
    && (s.opener && s.failed ==> t.entries.Keys == s.entries.Keys)
  }

  lemma OpenMoves(s: Session, out: Pipe, inn: Pipe, ev: Event)
    requires Local(s) && Enabled(s, inn, ev) && Opens(ev) && !Settles(ev) && (ev.OpenCall? ==> s.opens < MAX_OPENS)
    ensures Moved(s, Step(s, out, inn, ev).0)
  {
    if ev.OpenCall? { RegisterKeeps(s); }
  }

  lemma SettleMoves(s: Session, out: Pipe, inn: Pipe, ev: Event)
    requires Local(s) && Enabled(s, inn, ev) && Settles(ev)
    ensures Moved(s, Step(s, out, inn, ev).0)
  {
  }

  lemma UseMoves(s: Session, out: Pipe, inn: Pipe, ev: Event)
    requires Local(s) && Enabled(s, inn, ev) && Uses(ev)
    ensures Moved(s, Step(s, out, inn, ev).0)
  {
  }

  lemma WriterMoves(s: Session, out: Pipe, i: uint32, ok: bool)
    requires Local(s) && i in s.entries
    ensures Moved(s, RunWriter(s, out, i, ok).0)
  {
  }

  lemma AffectMoves(s: Session, t: Task)
    requires Local(s) && TaskEnabled(s, t)
    ensures Moved(s, Affect(s, t))
  {
  }

  lemma DispatchMoves(s: Session, f: Frame)
    requires Local(s) && s.loop.Done? && !s.stopped && FrameWelcome(s, f)
    ensures Moved(s, Dispatch(s, f))
  {
  }

  lemma StepMoves(s: Session, out: Pipe, inn: Pipe, ev: Event)
    requires Local(s) && Enabled(s, inn, ev)
    requires ev.OpenCall? ==> s.opens < MAX_OPENS
    requires ev.Receive? ==> FrameWelcome(s, inn.frames[0])
    ensures Moved(s, Step(s, out, inn, ev).0)
  {
    if Settles(ev) {
      SettleMoves(s, out, inn, ev);
    } else if Opens(ev) {
      OpenMoves(s, out, inn, ev);
    } else if Uses(ev) {
      UseMoves(s, out, inn, ev);
    } else {
      match ev
      case WriterRuns(i, ok) => WriterMoves(s, out, i, ok);
      case Receive => DispatchMoves(s, inn.frames[0]);
      case LoopRuns(_) => AffectMoves(s, s.loop);
      case ThreadRuns(th, _) => AffectMoves(s, s.threads[th]);
      case _ =>
    }
  }

  lemma NextMoves(s: System, byOpener: bool, ev: Event, opener: bool)
    requires Inv(s) && (byOpener && ev.OpenCall? ==> s.a.opens < MAX_OPENS)
    ensures Moved(Ends(s, opener).0, Ends(Next(s, byOpener, ev), opener).0)
  {
    if opener && byOpener && Enabled(s.a, s.ba, ev) {
      if ev.Receive? { NextFrameWelcome(s.a, s.b, s.ba); }
      StepMoves(s.a, s.ab, s.ba, ev);
    }
    if !opener && !byOpener && Enabled(s.b, s.ab, ev) {
      if ev.Receive? { NextFrameWelcome(s.b, s.a, s.ab); }
      StepMoves(s.b, s.ba, s.ab, ev);
    }
  }

  // ---- every run -----------------------------------------------------------------------

  /** A failed session's table is exactly the late streams that have not left it. */
  predicate Told(s: Session, late: set<uint32>, left: set<uint32>) {
    && late <= s.entries.Keys && left <= s.entries.Keys && left !! s.table && s.table <= s.entries.Keys
    && (late != {} ==> s.failed && !s.opener)
    && (s.failed ==> s.table == late - left)
  }

  lemma ToldOn(s: Session, t: Session, late: set<uint32>, left: set<uint32>)
    requires Told(s, late, left) && Moved(s, t)
    ensures Told(t, late + (if s.failed then t.entries.Keys - s.entries.Keys else {}),
                 left + (if s.failed == t.failed then s.table - t.table else {}))
  {
  }

  lemma {:induction false} RunTold(evs: seq<(bool, Event)>, opener: bool)
    requires OpenCalls(evs) <= MAX_OPENS
    ensures Told(Side(evs, opener), Late(evs, opener), Left(evs, opener)) && Side(evs, opener).opener == opener
  {
    if evs != [] {
      var before, last := evs[..|evs| - 1], evs[|evs| - 1];
      RunTold(before, opener);
      RunKeeps(before);
      NextMoves(Run(before), last.0, last.1, opener);
      ToldOn(Side(before, opener), Side(evs, opener), Late(before, opener), Left(before, opener));
    }
  }

  /** The stream has failed, or is out of the table refused or closed both ways. */
  predicate Over(s: Session, i: uint32)
    requires i in s.entries
  {
    var st := s.entries[i].st;
    st.dead || (i !in s.table && (BothClosed(st) || st.answer.Denied?))
  }

  /**
   * In every run, in a session that has failed and settled, a stream is over
   * exactly when it did not join after the failing, or has left the table by
   * itself since; and the streams that are not over are those in the table.
   */
  lemma FailureExactly(evs: seq<(bool, Event)>, opener: bool, i: uint32)
    requires OpenCalls(evs) <= MAX_OPENS
    requires var s := Side(evs, opener); s.failed && Settled(s) && i in s.entries
    ensures var s := Side(evs, opener);
            && (Over(s, i) <==> i !in Late(evs, opener) || i in Left(evs, opener))
            && (Over(s, i) <==> i !in s.table)
  {
    RunTold(evs, opener);
    TableExactly(evs, opener, i);
  }

  /** The side that opens streams takes none in, so its failing ends them all. */
  lemma OpenerLosesAll(evs: seq<(bool, Event)>, i: uint32)
    requires OpenCalls(evs) <= MAX_OPENS && Run(evs).a.failed
    ensures Run(evs).a.table == {}
    ensures Settled(Run(evs).a) && i in Run(evs).a.entries ==> Over(Run(evs).a, i)
  {
    RunTold(evs, true);
    if Settled(Run(evs).a) && i in Run(evs).a.entries {
      FailureExactly(evs, true, i);
    }
  }

  // ---- it happens ----------------------------------------------------------------------

  /** A stream is opened while the acceptor closes: its OPEN is read after the failing and before the connection is closed. */
  const ONE_OPEN: seq<(bool, Event)> := [(true, OpenCall)] + [(true, OpenWrite(1, [], true, 0))]
  const FAILING: seq<(bool, Event)> := ONE_OPEN + [(false, SessionClose(None, 0))] + [(false, ThreadRuns(0, true))]
  const LATE_OPEN: seq<(bool, Event)> := FAILING + [(false, Receive)] + [(false, DoomsDone)]

  /** The acceptor at the end of it. */
  const LATE_HOLDER := Update(NewSession(false), 1, NewEntry(Offered))
    .(table := {1}, backlog := [1], failed := true, closed := true, threads := map[0 := Done])

  predicate InFlight(s: System, b: Session) { s.ab == Pipe([Frame(TYPE_OPEN, 1, [])], false) && s.b == b }

  lemma OpenGoesOut(s: System)
    requires s == INITIAL
    ensures InFlight(Next(Next(s, true, OpenCall), true, OpenWrite(1, [], true, 0)), NewSession(false))
  {
    var t := Next(s, true, OpenCall);
    assert NextID(s.a) == 1;
    assert t.a == Register(NewSession(true)) && t.b == s.b && t.ab == s.ab;
    assert t.a.entries[1] == NewEntry(Registered);
    assert [] + [Frame(TYPE_OPEN, 1, [])] == [Frame(TYPE_OPEN, 1, [])];
    assert Put(t.a, t.ab, Frame(TYPE_OPEN, 1, []), true) == (Pipe([Frame(TYPE_OPEN, 1, [])], false), true);
  }

  lemma TwoMore(evs: seq<(bool, Event)>, x: (bool, Event), y: (bool, Event))
    ensures Run(evs + [x] + [y]) == Next(Next(Run(evs), x.0, x.1), y.0, y.1)
    ensures OpenCalls(evs + [x] + [y]) == OpenCalls(evs) + (if x.0 && x.1.OpenCall? then 1 else 0) + (if y.0
            && y.1.OpenCall? then 1 else 0)
  {
    RunOneMore(evs, x.0, x.1);
    RunOneMore(evs + [x], y.0, y.1);
  }

  lemma OneOpenRuns()
    ensures InFlight(Run(ONE_OPEN), NewSession(false)) && OpenCalls(ONE_OPEN) == 1
  {
    TwoMore([], (true, OpenCall), (true, OpenWrite(1, [], true, 0)));
    assert [] + [(true, OpenCall)] + [(true, OpenWrite(1, [], true, 0))] == ONE_OPEN;
    OpenGoesOut(Run([]));
  }

  lemma FailingRuns()
    ensures InFlight(Run(FAILING), Spawn(Fail(NewSession(false)), 0, Done)) && OpenCalls(FAILING) == 1
  {
    OneOpenRuns();
    TwoMore(ONE_OPEN, (false, SessionClose(None, 0)), (false, ThreadRuns(0, true)));
    var s := Next(Run(ONE_OPEN), false, SessionClose(None, 0));
    assert InFlight(s, Spawn(NewSession(false), 0, FailNow));
    assert map[0 := FailNow][0 := Done] == map[0 := Done];
  }

  lemma LateOpenRuns()
    ensures Run(LATE_OPEN).b == LATE_HOLDER && OpenCalls(LATE_OPEN) == 1
  {
    FailingRuns();
    TwoMore(FAILING, (false, Receive), (false, DoomsDone));
    var s := Next(Run(FAILING), false, Receive);
    assert s.b == DispatchOpen(Spawn(Fail(NewSession(false)), 0, Done), 1);
    assert {1} == {} + {1} && [] + [1 as uint32] == [1];
  }

  /** The session has failed, is closed and settled, and the stream is in its table, neither dead, refused nor closed. */
  lemma LateOpenOutlivesFailure()
    ensures var s := Run(LATE_OPEN).b;
            && s.failed && s.closed && Settled(s) && 1 in s.entries && 1 in s.table && InPhase(s, 1, Offered)
            && !s.entries[1].st.dead && !BothClosed(s.entries[1].st) && !s.entries[1].st.answer.Denied?
            && !Over(s, 1) && 1 in Late(LATE_OPEN, false)
  {
    LateOpenRuns();
    FailureExactly(LATE_OPEN, false, 1);
  }

  // ---- a late stream can still end by itself ------------------------------------------------

  /** The program takes the late offer and refuses it. */
  const LATE_REFUSED: seq<(bool, Event)> :=
    LATE_OPEN + [(false, TakeOffer)] + [(false, RefuseOffer(1, [], 0))] + [(false, ThreadRuns(0, true))] + [(false,
        ThreadRuns(0, true))]
    + [(false, ThreadRuns(0, true))] + [(false, ThreadRuns(0, true))]

  function Refusal(): Frame { Frame(TYPE_REFUSE, 1, []) }

  lemma TakenAndRefused(s: System)
    requires s.b == LATE_HOLDER
    ensures var t := Next(Next(s, false, TakeOffer), false, RefuseOffer(1, [], 0));
            t.b == LATE_HOLDER.(entries := map[1 := NewEntry(Gone)], backlog := [],
                                threads := map[0 := RemoveThenMark(1, RefusedBy([]), Some(Refusal()))])
  {
    var t := Next(s, false, TakeOffer);
    assert t.b.entries == map[1 := NewEntry(Taken)] && t.b.backlog == [];
    assert map[0 := Done][0 := RemoveThenMark(1, RefusedBy([]), Some(Refusal()))] == map[0 := RemoveThenMark(1,
        RefusedBy([]), Some(Refusal()))];
    assert map[1 := NewEntry(Taken)][1 := NewEntry(Gone)] == map[1 := NewEntry(Gone)];
  }

  /** The acceptor once the refusal has run: the stream removed and marked, the answer failing on the closed connection. */
  function RefusedSession(th: Task): Session {
    LATE_HOLDER.(entries := map[1 := NewEntry(Gone).(st := MarkDead(NEW_STREAM, RefusedBy([])))], table := {},
        backlog := [], threads := map[0 := th])
  }

  lemma RemovedAndMarked(s: System)
    requires s.b == LATE_HOLDER.(entries := map[1 := NewEntry(Gone)], backlog := [],
                                 threads := map[0 := RemoveThenMark(1, RefusedBy([]), Some(Refusal()))])
    ensures Next(Next(s, false, ThreadRuns(0, true)), false, ThreadRuns(0, true)).b == RefusedSession(SendThen(Refusal(), false))
  {
    var t := Next(s, false, ThreadRuns(0, true));
    var mark := MarkThen(1, RefusedBy([]), Some(Refusal()));
    assert t.b.threads == map[0 := mark] && t.b.table == {} && t.b.entries == s.b.entries;
    var u := Next(t, false, ThreadRuns(0, true));
    assert u.b.threads == map[0 := SendThen(Refusal(), false)];
    assert u.b.entries == map[1 := NewEntry(Gone).(st := MarkDead(NEW_STREAM, RefusedBy([])))];
  }

  lemma AnswerFails(s: System)
    requires s.b == RefusedSession(SendThen(Refusal(), false))
    ensures Next(Next(s, false, ThreadRuns(0, true)), false, ThreadRuns(0, true)).b == RefusedSession(Done)
  {
    var t := Next(s, false, ThreadRuns(0, true));
    assert t.b.threads == map[0 := FailNow];
    assert t.b == RefusedSession(FailNow);
    var u := Next(t, false, ThreadRuns(0, true));
    assert u.b.threads == map[0 := Done];
  }

  /** Joining late alone does not decide it: a late stream the program has refused is over, having left the table by itself. */
  lemma LateStreamCanEnd()
    ensures var s := Run(LATE_REFUSED).b;
            && s.failed && Settled(s) && 1 in s.entries && Over(s, 1)
            && 1 in Late(LATE_REFUSED, false) && 1 in Left(LATE_REFUSED, false)
  {
    LateOpenRuns();
    var taken := LATE_OPEN + [(false, TakeOffer)] + [(false, RefuseOffer(1, [], 0))];
    var marked := taken + [(false, ThreadRuns(0, true))] + [(false, ThreadRuns(0, true))];
    TwoMore(LATE_OPEN, (false, TakeOffer), (false, RefuseOffer(1, [], 0)));
    TakenAndRefused(Run(LATE_OPEN));
    TwoMore(taken, (false, ThreadRuns(0, true)), (false, ThreadRuns(0, true)));
    RemovedAndMarked(Run(taken));
    TwoMore(marked, (false, ThreadRuns(0, true)), (false, ThreadRuns(0, true)));
    AnswerFails(Run(marked));
    LateStays(LATE_OPEN, (false, TakeOffer), (false, RefuseOffer(1, [], 0)));
    LateOpenOutlivesFailure();
    LateStays(taken, (false, ThreadRuns(0, true)), (false, ThreadRuns(0, true)));
    LateStays(marked, (false, ThreadRuns(0, true)), (false, ThreadRuns(0, true)));
    FailureExactly(LATE_REFUSED, false, 1);
  }

  lemma LateStays(evs: seq<(bool, Event)>, x: (bool, Event), y: (bool, Event))
    ensures Late(evs, false) <= Late(evs + [x] + [y], false)
  {
    assert (evs + [x])[..|evs + [x]| - 1] == evs;
    assert (evs + [x] + [y])[..|evs + [x] + [y]| - 1] == evs + [x];
  }
}
