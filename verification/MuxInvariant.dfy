/** What every critical section of a session keeps, whatever its peer does. */
module MuxInvariant {
  import opened Bytes
  import opened Wrappers
  import opened FrameCodec
  import opened MuxStream
  import opened MuxSession

  predicate BothClosed(st: Stream) { st.peerClosed && st.writeClosed }

  /** The stream's OPEN has been written, or has been received: frames may carry its id. */
  predicate Known(s: Session, i: uint32) { i in s.entries && !Silent(s.entries[i].phase) }

  predicate Silent(p: Phase) { p.Registered? || p.Unsent? }

  /** The bytes handed out and waiting are the bytes accepted; the write lock's holder and the half-closes agree. */
  predicate EntryOk(e: Entry, opener: bool) {
    && Consistent(e.st)
    && (if e.st.dead then e.got <= e.recv else e.got + Flatten(e.st.queue) == e.recv)
    && (e.writer.HasData? ==> !e.st.writeClosed && 0 < |e.writer.data| <= MAX_PAYLOAD)
    && (e.writer.HasClose? ==> e.st.writeClosed && !e.closeSent)
    && (e.writer.HasRemove? || e.writer == HasClose(true) ==> BothClosed(e.st))
    && (e.closeSent ==> e.st.writeClosed)
    && (!e.writer.Idle? ==> e.phase.Usable?)
    && (Silent(e.phase) ==> e.sent == [] && !e.closeSent)
    && (opener ==> !e.phase.Offered? && !e.phase.Taken?)
    && (!opener ==> !Silent(e.phase) && !e.phase.Opening?)
  }

  /** A dead stream is in no table; one closed both ways leaves it as soon as the thread that saw the second close gets there. */
  predicate TableOk(e: Entry, inTable: bool, failed: bool, leaving: bool) {
    && (e.st.dead ==> !inTable)
    && (inTable && BothClosed(e.st) && !failed ==>
          leaving || e.writer == HasClose(true) || e.writer.HasRemove? || e.writer.HasFailed?)
  }

  predicate StreamOk(s: Session, i: uint32)
    requires i in s.entries
  {
    && i % 2 == 1 && (s.opener ==> i < 1 + 2 * s.opens)
    && EntryOk(s.entries[i], s.opener)
    && TableOk(s.entries[i], i in s.table, s.failed, s.loop == RemoveOnly(i))
  }

  predicate ReplyOk(s: Session, f: Frame) {
    && Known(s, f.stream) && f.stream != 0
    && (f.ty == TYPE_RESET || (f.ty == TYPE_REFUSE && !s.opener))
  }

  predicate TaskOk(s: Session, t: Task, inLoop: bool) {
    match t
    case Done => true
    case ResetCheck(i, _) => Known(s, i) && i != 0
    case RemoveThenMark(i, _, reply) => Known(s, i) && (reply.Some? ==> ReplyOk(s, reply.value))
    case MarkThen(i, _, reply) => i !in s.table && Known(s, i) && (reply.Some? ==> ReplyOk(s, reply.value))
    case RemoveOnly(i) => i in s.entries && (BothClosed(s.entries[i].st) || s.entries[i].st.answer.Denied?)
    case SendThen(f, thenFail) => if thenFail then f.ty == TYPE_RESET && f.stream == 0 else ReplyOk(s, f)
    case FailNow => true
    case CloseBegin(i) => !inLoop && InPhase(s, i, Usable)
    case CloseWait(i) => !inLoop && InPhase(s, i, Usable)
    case HandData(i, _) => inLoop && Known(s, i) && i != 0
    case HandClose(i) => inLoop && Known(s, i)
    case HandAnswer(i, a) => inLoop && i in s.entries && !a.Unanswered?
  }

  ghost predicate Local(s: Session) {
    && s.table <= s.entries.Keys && s.dooms <= s.entries.Keys && s.dooms !! s.table
    && (forall i {:trigger StreamOk(s, i)} :: i in s.entries ==> StreamOk(s, i))
    && TaskOk(s, s.loop, true)
    && (forall th {:trigger s.threads[th]} :: th in s.threads ==> TaskOk(s, s.threads[th], false))
    && (!s.failed ==> s.dooms == {})
    && |s.backlog| <= ACCEPT_BACKLOG
    && !s.violated
  }

  lemma NewSessionOk(opener: bool)
    ensures Local(NewSession(opener))
  {
  }

  // ---- what no step takes back -----------------------------------------------------

  predicate EntryEvolves(e: Entry, f: Entry) {
    && (Silent(f.phase) ==> Silent(e.phase))
    && (e.phase.Usable? ==> f.phase.Usable?)
    && (BothClosed(e.st) ==> BothClosed(f.st))
    && (e.st.answer.Denied? ==> f.st.answer.Denied?)
  }

  ghost predicate Evolves(s: Session, t: Session) {
    && t.opener == s.opener && s.entries.Keys <= t.entries.Keys
    && (forall i :: i in s.entries ==> EntryEvolves(s.entries[i], t.entries[i]))
    && (forall i :: i in t.table ==> i in s.table || i !in s.entries)
  }

  lemma TaskSurvives(s: Session, t: Session, task: Task, inLoop: bool)
    requires TaskOk(s, task, inLoop) && Evolves(s, t)
    ensures TaskOk(t, task, inLoop)
  {
  }

  lemma ThreadsSurvive(s: Session, t: Session)
    requires Local(s) && Evolves(s, t) && t.threads == s.threads
    ensures forall th :: th in t.threads ==> TaskOk(t, t.threads[th], false)
  {
  }

  // ---- building blocks: one entry, one thread, the table -----------------------------

  /** Stream i's entry becomes e and the read loop's task becomes task. */
  lemma EntryLoopKeeps(s: Session, i: uint32, e: Entry, task: Task)
    requires Local(s) && i in s.entries && EntryEvolves(s.entries[i], e)
    requires EntryOk(e, s.opener) && TableOk(e, i in s.table, s.failed, task == RemoveOnly(i))
    requires TaskOk(Update(s, i, e), task, true) && (s.loop.RemoveOnly? ==> task == s.loop)
    ensures Local(Update(s, i, e).(loop := task))
  {
    var t := Update(s, i, e).(loop := task);
    assert StreamOk(s, i);
    forall j | j in t.entries ensures StreamOk(t, j) {
      if j != i {
        assert StreamOk(s, j);
      }
    }
    TaskSurvives(Update(s, i, e), t, task, true);
    ThreadsSurvive(s, t);
  }

  lemma EntryKeeps(s: Session, i: uint32, e: Entry)
    requires Local(s) && i in s.entries && EntryEvolves(s.entries[i], e)
    requires EntryOk(e, s.opener) && TableOk(e, i in s.table, s.failed, s.loop == RemoveOnly(i))
    ensures Local(Update(s, i, e))
  {
    TaskSurvives(s, Update(s, i, e), s.loop, true);
    EntryLoopKeeps(s, i, e, s.loop);
  }

  lemma SpawnKeeps(s: Session, th: nat, task: Task)
    requires Local(s) && TaskOk(s, task, false)
    ensures Local(Spawn(s, th, task))
  {
    var t := Spawn(s, th, task);
    forall j | j in t.entries ensures StreamOk(t, j) {
      assert StreamOk(s, j);
    }
    forall k | k in t.threads ensures TaskOk(t, t.threads[k], false) {
      TaskSurvives(s, t, if k == th then task else s.threads[k], false);
    }
    TaskSurvives(s, t, s.loop, true);
  }

  /** The read loop moves from task to task; it may only drop a removal it has done. */
  lemma LoopKeeps(s: Session, task: Task, stopped: bool)
    requires Local(s) && TaskOk(s, task, true)
    requires s.loop.RemoveOnly? && s.loop.id in s.table ==> task == s.loop
    ensures Local(s.(loop := task, stopped := stopped))
  {
    var t := s.(loop := task, stopped := stopped);
    forall j | j in s.entries ensures StreamOk(t, j) {
      assert StreamOk(s, j);
    }
    TaskSurvives(s, t, task, true);
    ThreadsSurvive(s, t);
  }

  lemma RemoveKeeps(s: Session, i: uint32)
    requires Local(s)
    ensures Local(s.(table := s.table - {i}))
  {
    var t := s.(table := s.table - {i});
    forall j | j in t.entries ensures StreamOk(t, j) {
      assert StreamOk(s, j);
    }
    TaskSurvives(s, t, s.loop, true);
    ThreadsSurvive(s, t);
  }

  lemma FailKeeps(s: Session)
    requires Local(s)
    ensures Local(Fail(s))
  {
    if !s.failed {
      var t := Fail(s);
      forall j | j in t.entries ensures StreamOk(t, j) {
        assert StreamOk(s, j);
      }
      TaskSurvives(s, t, s.loop, true);
      ThreadsSurvive(s, t);
    }
  }

  /** A new stream joins the table. */
  lemma JoinKeeps(s: Session, i: uint32, e: Entry, opens: nat, backlog: seq<uint32>)
    requires Local(s) && i !in s.entries && i % 2 == 1 && e.st == NEW_STREAM && e == NewEntry(e.phase)
    requires opens >= s.opens && (s.opener ==> i < 1 + 2 * opens) && |backlog| <= ACCEPT_BACKLOG
    requires s.opener ==> !e.phase.Offered? && !e.phase.Taken?
    requires !s.opener ==> !Silent(e.phase) && !e.phase.Opening?
    ensures Local(Update(s, i, e).(table := s.table + {i}, opens := opens, backlog := backlog))
  {
    var t := Update(s, i, e).(table := s.table + {i}, opens := opens, backlog := backlog);
    forall j | j in t.entries ensures StreamOk(t, j) {
      if j != i {
        assert StreamOk(s, j);
      }
    }
    TaskSurvives(s, t, s.loop, true);
    ThreadsSurvive(s, t);
  }

  // ---- the sections ------------------------------------------------------------------

  lemma RegisterKeeps(s: Session)
    requires Local(s) && s.opener && s.opens < MAX_OPENS
    ensures NextID(s) !in s.entries && Local(Register(s))
  {
    var i := NextID(s);
    assert i in s.entries ==> StreamOk(s, i);
    JoinKeeps(s, i, NewEntry(Registered), s.opens + 1, s.backlog);
  }

  /** A stream changes hands, perhaps with a task started on it. */
  lemma PhaseKeeps(s: Session, i: uint32, p: Phase, th: nat, task: Task)
    requires Local(s) && i in s.entries && s.entries[i].writer.Idle? && !s.entries[i].phase.Usable?
    requires (Silent(p) ==> Silent(s.entries[i].phase)) && (s.opener ==> !p.Offered? && !p.Taken?)
    requires !s.opener ==> !Silent(p) && !p.Opening?
    requires TaskOk(WithPhase(s, i, p), task, false)
    ensures Local(WithPhase(s, i, p)) && Local(Spawn(WithPhase(s, i, p), th, task))
  {
    assert StreamOk(s, i);
    EntryKeeps(s, i, s.entries[i].(phase := p));
    SpawnKeeps(WithPhase(s, i, p), th, task);
  }

  lemma BeginWriteKeeps(s: Session, i: uint32, p: seq<byte>)
    requires Local(s) && InPhase(s, i, Usable) && s.entries[i].writer.Idle? && 0 < |p| <= MAX_PAYLOAD
    ensures Local(BeginWrite(s, i, p))
  {
    var e := s.entries[i];
    assert StreamOk(s, i);
    if !e.st.dead && !e.st.writeClosed {
      EntryKeeps(s, i, e.(writer := HasData(p)));
    }
  }

  lemma BeginCloseWriteKeeps(s: Session, i: uint32)
    requires Local(s) && InPhase(s, i, Usable) && s.entries[i].writer.Idle?
    ensures Local(BeginCloseWrite(s, i))
  {
    var e := s.entries[i];
    assert StreamOk(s, i);
    var (st, send) := CloseWriting(e.st);
    if send {
      EntryKeeps(s, i, e.(st := st, writer := HasClose(e.st.peerClosed)));
    }
  }

  lemma ReadKeeps(s: Session, i: uint32, n: nat)
    requires Local(s) && i in s.entries && Consistent(s.entries[i].st)
    ensures Local(ReadSome(s, i, n))
  {
    var e := s.entries[i];
    assert StreamOk(s, i);
    ReadTakesFront(e.st, n);
    var (st, r) := Read(e.st, n);
    if r.Chunk? {
      assert (e.got + r.data) + Flatten(st.queue) == e.got + Flatten(e.st.queue);
    }
    EntryKeeps(s, i, e.(st := st, got := if r.Chunk? then e.got + r.data else e.got));
  }

  lemma WriteDataKeeps(s: Session, out: Pipe, i: uint32, ok: bool)
    requires Local(s) && i in s.entries && s.entries[i].writer.HasData?
    ensures Local(RunWriter(s, out, i, ok).0)
  {
    var e := s.entries[i];
    assert StreamOk(s, i);
    if Put(s, out, Frame(TYPE_DATA, i, e.writer.data), ok).1 {
      EntryKeeps(s, i, e.(writer := Idle, sent := e.sent + e.writer.data));
    } else {
      EntryKeeps(s, i, e.(writer := HasFailed));
    }
  }

  lemma WriteCloseKeeps(s: Session, out: Pipe, i: uint32, ok: bool)
    requires Local(s) && i in s.entries && s.entries[i].writer.HasClose?
    ensures Local(RunWriter(s, out, i, ok).0)
  {
    var e := s.entries[i];
    assert StreamOk(s, i);
    if Put(s, out, Frame(TYPE_CLOSE, i, []), ok).1 {
      EntryKeeps(s, i, e.(writer := if e.writer.both then HasRemove else Idle, closeSent := true));
    } else {
      EntryKeeps(s, i, e.(writer := HasFailed));
    }
  }

  lemma WriterEndsKeeps(s: Session, out: Pipe, i: uint32, ok: bool)
    requires Local(s) && i in s.entries && (s.entries[i].writer.HasRemove? || s.entries[i].writer.HasFailed?)
    ensures Local(RunWriter(s, out, i, ok).0)
  {
    var e := s.entries[i];
    var f := e.(writer := Idle);
    assert StreamOk(s, i);
    if e.writer.HasRemove? {
      RemoveKeeps(s, i);
      EntryKeeps(s.(table := s.table - {i}), i, f);
    } else {
      FailKeeps(s);
      EntryKeeps(Fail(s), i, f);
      assert Fail(Update(s, i, f)) == Update(Fail(s), i, f);
    }
  }

  lemma RunWriterKeeps(s: Session, out: Pipe, i: uint32, ok: bool)
    requires Local(s) && i in s.entries
    ensures Local(RunWriter(s, out, i, ok).0)
  {
    match s.entries[i].writer
    case Idle =>
    case HasData(_) => WriteDataKeeps(s, out, i, ok);
    case HasClose(_) => WriteCloseKeeps(s, out, i, ok);
    case _ => WriterEndsKeeps(s, out, i, ok);
  }

  lemma MarkKeeps(s: Session, i: uint32, c: Cause)
    requires Local(s) && i in s.entries && i !in s.table
    ensures Local(Update(s, i, s.entries[i].(st := MarkDead(s.entries[i].st, c))))
  {
    assert StreamOk(s, i);
    EntryKeeps(s, i, s.entries[i].(st := MarkDead(s.entries[i].st, c)));
  }

  lemma DoomKeeps(s: Session, i: uint32)
    requires Local(s) && i in s.dooms
    ensures Local(Doom(s, i))
  {
    MarkKeeps(s, i, SessionFailed);
    var u := Update(s, i, s.entries[i].(st := MarkDead(s.entries[i].st, SessionFailed)));
    var t := u.(dooms := s.dooms - {i});
    forall j | j in t.entries ensures StreamOk(t, j) {
      assert StreamOk(u, j);
    }
    TaskSurvives(u, t, u.loop, true);
    ThreadsSurvive(u, t);
  }

  /** What a task does to the session is sound, apart from the slot it ran in. */
  lemma AffectKeeps(s: Session, t: Task)
    requires Local(s) && TaskEnabled(s, t) && TaskOk(s, t, false)
    ensures Local(Affect(s, t))
  {
    match t
    case RemoveThenMark(i, _, _) => RemoveKeeps(s, i);
    case MarkThen(i, c, _) => MarkKeeps(s, i, c);
    case RemoveOnly(i) => RemoveKeeps(s, i);
    case FailNow => FailKeeps(s);
    case CloseBegin(i) => BeginCloseWriteKeeps(s, i);
    case _ =>
  }

  lemma FollowOk(s: Session, out: Pipe, t: Task, ok: bool)
    requires TaskEnabled(s, t) && TaskOk(s, t, false)
    ensures TaskOk(Affect(s, t), Follow(s, out, t, ok), false)
    ensures TaskOk(s, t, true) ==> TaskOk(Affect(s, t), Follow(s, out, t, ok), true)
  {
  }

  lemma RunThreadKeeps(s: Session, out: Pipe, th: nat, ok: bool)
    requires Local(s) && th in s.threads && TaskEnabled(s, s.threads[th])
    ensures Local(RunThread(s, out, th, ok).0)
  {
    var t := s.threads[th];
    AffectKeeps(s, t);
    FollowOk(s, out, t, ok);
    SpawnKeeps(Affect(s, t), th, Follow(s, out, t, ok));
  }

  lemma HandDataKeeps(s: Session, out: Pipe, ok: bool)
    requires Local(s) && s.loop.HandData? && TaskEnabled(s, s.loop)
    ensures Local(RunLoop(s, out, ok).0)
  {
    var HandData(i, p) := s.loop;
    var e := s.entries[i];
    assert StreamOk(s, i);
    var (st, d) := Deliver(e.st, p);
    if d.Queued? {
      EntryQueues(e, p, s.opener);
      EntryLoopKeeps(s, i, e.(st := st, recv := e.recv + p), Done);
    } else {
      EntryLoopKeeps(s, i, e.(lost := true), if d.Overflow? then ResetCheck(i, OVERFLOW) else Done);
    }
  }

  lemma EntryQueues(e: Entry, p: seq<byte>, opener: bool)
    requires EntryOk(e, opener) && Deliver(e.st, p).1.Queued?
    ensures EntryOk(e.(st := Deliver(e.st, p).0, recv := e.recv + p), opener)
  {
    DeliverWholeOrOverflow(e.st, p);
    assert e.got + Flatten(Deliver(e.st, p).0.queue) == (e.got + Flatten(e.st.queue)) + p;
  }

  lemma HandCloseKeeps(s: Session, out: Pipe, ok: bool)
    requires Local(s) && s.loop.HandClose? && TaskEnabled(s, s.loop)
    ensures Local(RunLoop(s, out, ok).0)
  {
    var i := s.loop.id;
    var e := s.entries[i];
    assert StreamOk(s, i);
    EntryLoopKeeps(s, i, e.(st := PeerClose(e.st)), if e.st.writeClosed then RemoveOnly(i) else Done);
  }

  lemma HandAnswerKeeps(s: Session, out: Pipe, ok: bool)
    requires Local(s) && s.loop.HandAnswer? && TaskEnabled(s, s.loop)
    ensures Local(RunLoop(s, out, ok).0)
  {
    var HandAnswer(i, a) := s.loop;
    var e := s.entries[i];
    assert StreamOk(s, i);
    EntryLoopKeeps(s, i, e.(st := Settle(e.st, a)), Done);
  }

  lemma RunLoopKeeps(s: Session, out: Pipe, ok: bool)
    requires Local(s) && TaskEnabled(s, s.loop)
    ensures Local(RunLoop(s, out, ok).0)
  {
    match s.loop
    case HandData(_, _) => HandDataKeeps(s, out, ok);
    case HandClose(_) => HandCloseKeeps(s, out, ok);
    case HandAnswer(_, _) => HandAnswerKeeps(s, out, ok);
    case _ => TaskInLoopKeeps(s, out, ok);
  }

  lemma TaskInLoopKeeps(s: Session, out: Pipe, ok: bool)
    requires Local(s) && TaskEnabled(s, s.loop) && TaskOk(s, s.loop, false)
    ensures Local(RunLoop(s, out, ok).0)
  {
    AffectKeeps(s, s.loop);
    FollowOk(s, out, s.loop, ok);
    assert Affect(s, s.loop).loop == s.loop && Affect(s, s.loop).stopped == s.stopped;
    LoopKeeps(Affect(s, s.loop), Follow(s, out, s.loop, ok), s.stopped);
  }

  /** What the peer's next frame must be for the read loop to take it well. */
  predicate FrameWelcome(s: Session, f: Frame) {
    && TYPE_OPEN <= f.ty <= TYPE_RESET
    && (f.ty == TYPE_OPEN ==> !s.opener && f.stream % 2 == 1 && f.stream !in s.entries)
    && (f.stream == 0 ==> f.ty == TYPE_RESET)
    && (f.stream in s.entries ==> Known(s, f.stream))
  }

  lemma DispatchOpenKeeps(s: Session, f: Frame)
    requires Local(s) && s.loop.Done? && !s.stopped && FrameWelcome(s, f) && f.ty == TYPE_OPEN
    ensures Local(Dispatch(s, f))
  {
    var i := f.stream;
    if |s.backlog| < ACCEPT_BACKLOG {
      JoinKeeps(s, i, NewEntry(Offered), s.opens, s.backlog + [i]);
    } else {
      JoinKeeps(s, i, NewEntry(Gone), s.opens, s.backlog);
      var t := Update(s, i, NewEntry(Gone)).(table := s.table + {i});
      LoopKeeps(t, RemoveThenMark(i, RefusedBy(BUSY), Some(Frame(TYPE_REFUSE, i, BUSY))), t.stopped);
    }
  }

  lemma DispatchKeeps(s: Session, f: Frame)
    requires Local(s) && s.loop.Done? && !s.stopped && FrameWelcome(s, f)
    ensures Local(Dispatch(s, f))
  {
    var i := f.stream;
    if f.ty == TYPE_OPEN {
      DispatchOpenKeeps(s, f);
    } else if f.ty == TYPE_DATA {
      if i in s.table {
        LoopKeeps(s, HandData(i, f.payload), false);
      } else if i in s.entries {
        assert StreamOk(s, i);
        EntryKeeps(s, i, s.entries[i].(lost := true));
      }
    } else {
      var (t, last) := ControlTask(s, f);
      LoopKeeps(s, t, last);
    }
  }

  /** The calls that decide whose hands a stream is in. */
  lemma HandoverKeeps(s: Session, out: Pipe, inn: Pipe, ev: Event)
    requires Local(s) && Enabled(s, inn, ev)
    requires ev.OpenWrite? || ev.OpenReturn? || ev.OpenDies? || ev.OpenCancel? || ev.AcceptOffer? || ev.RefuseOffer?
    ensures Local(Step(s, out, inn, ev).0)
  {
    var i, th := ev.id, if ev.OpenDies? then 0 else ev.th;
    assert StreamOk(s, i);
    var t := Step(s, out, inn, ev).0;
    match ev
    case OpenWrite(_, target, ok, _) =>
      PhaseKeeps(s, i, if Put(s, out, Frame(TYPE_OPEN, i, target), ok).1 then Opening else Unsent, th, FailNow);
    case OpenReturn(_, _) =>
      PhaseKeeps(s, i, if s.entries[i].st.answer.Granted? then Usable else Gone, th,
                 if s.entries[i].st.answer.Granted? then Done else RemoveOnly(i));
    case OpenDies(_) => PhaseKeeps(s, i, Gone, th, Done);
    case OpenCancel(_, _) => PhaseKeeps(s, i, Gone, th, ResetCheck(i, CANCELLED));
    case AcceptOffer(_, ok, _) =>
      PhaseKeeps(s, i, if Put(s, out, Frame(TYPE_ACCEPT, i, []), ok).1 then Usable else Gone, th, FailNow);
    case RefuseOffer(_, reason, _) =>
      PhaseKeeps(s, i, Gone, th, RemoveThenMark(i, RefusedBy(reason), Some(Frame(TYPE_REFUSE, i, reason))));
  }

  lemma AcceptKeeps(s: Session)
    requires Local(s) && s.backlog != [] && InPhase(s, s.backlog[0], Offered)
    ensures Local(Accept(s))
  {
    var i := s.backlog[0];
    assert StreamOk(s, i);
    PhaseKeeps(s, i, Taken, 0, Done);
    BacklogKeeps(WithPhase(s, i, Taken), s.backlog[1..]);
  }

  /** Every section keeps the session's own invariant, so long as the frame it reads is a welcome one. */
  lemma StepKeeps(s: Session, out: Pipe, inn: Pipe, ev: Event)
    requires Local(s) && Enabled(s, inn, ev)
    requires ev.OpenCall? ==> s.opens < MAX_OPENS
    requires ev.Receive? ==> FrameWelcome(s, inn.frames[0])
    ensures Local(Step(s, out, inn, ev).0)
  {
    match ev
    case OpenCall => RegisterKeeps(s);
    case TakeOffer => AcceptKeeps(s);
    case WriterRuns(i, ok) => RunWriterKeeps(s, out, i, ok);
    case Receive => DispatchKeeps(s, inn.frames[0]);
    case ReceiveError => LoopKeeps(s, FailNow, true);
    case LoopRuns(ok) => RunLoopKeeps(s, out, ok);
    case ThreadRuns(th, ok) => RunThreadKeeps(s, out, th, ok);
    case DoomNext(i) => DoomKeeps(s, i);
    case DoomsDone => ClosedKeeps(s);
    case _ => if Calls(ev) { CallKeeps(s, out, inn, ev); } else { HandoverKeeps(s, out, inn, ev); }
  }

  /** What the program does with a stream it has, or with the session. */
  predicate Calls(ev: Event) {
    ev.WriteCall? || ev.CloseWriteCall? || ev.ReadCall? || ev.ResetCall? || ev.CloseCall? || ev.SessionClose?
  }

  lemma CallKeeps(s: Session, out: Pipe, inn: Pipe, ev: Event)
    requires Local(s) && Enabled(s, inn, ev) && Calls(ev)
    ensures Local(Step(s, out, inn, ev).0)
  {
    match ev
    case WriteCall(i, p) => BeginWriteKeeps(s, i, p);
    case CloseWriteCall(i) => BeginCloseWriteKeeps(s, i);
    case ReadCall(i, n) => ReadKeeps(s, i, n);
    case ResetCall(i, reason, th) =>
      assert StreamOk(s, i);
      SpawnKeeps(s, th, ResetCheck(i, reason));
    case CloseCall(i, th) =>
      assert StreamOk(s, i);
      SpawnKeeps(s, th, BeginClose(s, i, th).threads[th]);
    case SessionClose(why, th) => SpawnKeeps(s, th, BeginSessionClose(s, why, th).threads[th]);
  }

  lemma BacklogKeeps(s: Session, backlog: seq<uint32>)
    requires Local(s) && |backlog| <= ACCEPT_BACKLOG
    ensures Local(s.(backlog := backlog))
  {
    var t := s.(backlog := backlog);
    forall j | j in t.entries ensures StreamOk(t, j) {
      assert StreamOk(s, j);
    }
    TaskSurvives(s, t, s.loop, true);
    ThreadsSurvive(s, t);
  }

  lemma ClosedKeeps(s: Session)
    requires Local(s)
    ensures Local(s.(closed := true))
  {
    var t := s.(closed := true);
    forall j | j in t.entries ensures StreamOk(t, j) {
      assert StreamOk(s, j);
    }
    TaskSurvives(s, t, s.loop, true);
    ThreadsSurvive(s, t);
  }
}
