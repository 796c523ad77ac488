/** A stream that one side is done with ends, and ends at both sides. */
module MuxResets {
  import opened Bytes
  import opened Wrappers
  import opened FrameCodec
  import opened MuxStream
  import opened MuxSession
  import opened MuxInvariant
  import opened MuxSystem
  import opened MuxRuns
  import opened MuxTheorems
  import opened MuxTable
  import opened MuxAnswers
  import Failure = MuxFailure

  /** The streams a side's program, or its full backlog, has put an end to. */
  function Ended(b: Book): set<uint32> {
    b.closed + b.cancelled + b.refused.Keys + set p | p in b.reset :: p.0
  }

  // ---- they die ------------------------------------------------------------------------

  /** A call on its way to marking the stream dead. */
  predicate Kills(t: Task, i: uint32) {
    match t
    case ResetCheck(j, _) => j == i
    case RemoveThenMark(j, _, _) => j == i
    case MarkThen(j, _, _) => j == i
    case CloseBegin(j) => j == i
    case CloseWait(j) => j == i
    case _ => false
  }

  ghost predicate Dying(s: Session, i: uint32) {
    i in s.entries && (s.entries[i].st.dead || Kills(s.loop, i) || exists th :: th in s.threads && Kills(s.threads[th], i))
  }

  ghost predicate AllDying(s: Session, b: Book) { forall i {:trigger Dying(s, i)} :: i in Ended(b) ==> Dying(s, i) }

  predicate DeadStays(s: Session, t: Session) {
    s.entries.Keys <= t.entries.Keys && forall i :: i in s.entries && s.entries[i].st.dead ==> t.entries[i].st.dead
  }

  /** A step that starts calls on free threads and leaves the read loop to its task. */
  lemma DyingStays(s: Session, t: Session, b: Book, c: Book, th: nat, task: Task)
    requires AllDying(s, b) && DeadStays(s, t) && (t.loop == s.loop || s.loop.Done?)
    requires t.threads == s.threads || (FreeThread(s, th) && t.threads == s.threads[th := task])
    requires forall i :: i in Ended(c) ==> i in Ended(b) || (i in t.entries && (Kills(t.loop, i) || (th in t.threads && Kills(t.threads[th], i))))
    ensures AllDying(t, c)
  {
    forall i | i in Ended(c) ensures Dying(t, i) {
      if i in Ended(b) {
        assert Dying(s, i);
        if exists k :: k in s.threads && Kills(s.threads[k], i) {
          var k :| k in s.threads && Kills(s.threads[k], i);
          assert k in t.threads && t.threads[k] == s.threads[k];
        }
      }
    }
  }

  lemma KillsOn(s: Session, out: Pipe, t: Task, ok: bool, i: uint32)
    requires TaskEnabled(s, t) && Kills(t, i)
    ensures i in Affect(s, t).entries
    ensures Affect(s, t).entries[i].st.dead || Kills(Follow(s, out, t, ok), i)
  {
  }

  lemma AffectDead(s: Session, t: Task)
    requires TaskEnabled(s, t)
    ensures DeadStays(s, Affect(s, t))
  {
  }

  lemma ThreadDying(s: Session, b: Book, out: Pipe, th: nat, ok: bool)
    requires AllDying(s, b) && th in s.threads && TaskEnabled(s, s.threads[th])
    ensures AllDying(RunThread(s, out, th, ok).0, b)
  {
    var task, t := s.threads[th], RunThread(s, out, th, ok).0;
    ThreadsUntouched(s, task);
    AffectRest(s, task);
    AffectDead(s, task);
    forall i | i in Ended(b) ensures Dying(t, i) {
      assert Dying(s, i);
      if Kills(task, i) {
        KillsOn(s, out, task, ok, i);
        assert th in t.threads;
      } else if exists k :: k in s.threads && Kills(s.threads[k], i) {
        var k :| k in s.threads && Kills(s.threads[k], i);
        assert k in t.threads && t.threads[k] == s.threads[k];
      }
    }
  }

  lemma LoopDying(s: Session, b: Book, out: Pipe, ok: bool)
    requires AllDying(s, b) && TaskEnabled(s, s.loop)
    ensures AllDying(RunLoop(s, out, ok).0, b)
  {
    var task, t := s.loop, RunLoop(s, out, ok).0;
    ThreadsUntouched(s, task);
    AffectDead(s, task);
    forall i | i in Ended(b) ensures Dying(t, i) {
      assert Dying(s, i);
      if Kills(task, i) {
        KillsOn(s, out, task, ok, i);
      }
    }
  }

  /** The thread an event may start a call on. */
  function ThreadOf(ev: Event): nat {
    match ev
    case OpenWrite(_, _, _, th) => th case OpenReturn(_, th) => th case OpenCancel(_, th) => th case AcceptOffer(_, _, th) => th
    case RefuseOffer(_, _, th) => th case ResetCall(_, _, th) => th case CloseCall(_, th) => th case SessionClose(_, th) => th
    case _ => 0
  }

  lemma OpenDying(s: Session, b: Book, out: Pipe, inn: Pipe, ev: Event)
    requires Local(s) && AllDying(s, b) && Enabled(s, inn, ev) && Opens(ev)
    requires ev.OpenCall? ==> s.opens < MAX_OPENS
    ensures AllDying(Step(s, out, inn, ev).0, Noted(b, s, inn, ev))
  {
    var t, th := Step(s, out, inn, ev).0, ThreadOf(ev);
    if ev.OpenCall? { RegisterKeeps(s); }
    DyingStays(s, t, b, Noted(b, s, inn, ev), th, if th in t.threads then t.threads[th] else Done);
  }

  lemma UseDying(s: Session, b: Book, out: Pipe, inn: Pipe, ev: Event)
    requires Local(s) && AllDying(s, b) && Enabled(s, inn, ev) && Uses(ev)
    ensures AllDying(Step(s, out, inn, ev).0, Noted(b, s, inn, ev))
  {
    var t, th := Step(s, out, inn, ev).0, ThreadOf(ev);
    if ev.ReadCall? { ReadTakesFront(s.entries[ev.id].st, ev.n); }
    DyingStays(s, t, b, Noted(b, s, inn, ev), th, if th in t.threads then t.threads[th] else Done);
  }

  lemma OtherDying(s: Session, b: Book, out: Pipe, inn: Pipe, ev: Event)
    requires Local(s) && AllDying(s, b) && Enabled(s, inn, ev) && !ev.LoopRuns? && !ev.ThreadRuns?
    requires !Opens(ev) && !Uses(ev) && !ev.Receive?
    ensures AllDying(Step(s, out, inn, ev).0, Noted(b, s, inn, ev))
  {
    var t, th := Step(s, out, inn, ev).0, ThreadOf(ev);
    if ev.WriterRuns? {
      var e := WriterEffect(s, out, ev.id, ev.ok);
    }
    DyingStays(s, t, b, Noted(b, s, inn, ev), th, if th in t.threads then t.threads[th] else Done);
  }

  lemma ReceiveDying(s: Session, b: Book, inn: Pipe)
    requires Local(s) && AllDying(s, b) && Enabled(s, inn, Receive) && FrameWelcome(s, inn.frames[0])
    ensures AllDying(Dispatch(s, inn.frames[0]), Noted(b, s, inn, Receive))
  {
    var f := inn.frames[0];
    var t := Dispatch(s, f);
    if f.ty == TYPE_OPEN && |s.backlog| >= 16 {
      assert t.loop == RemoveThenMark(f.stream, RefusedBy(BUSY), Some(Frame(TYPE_REFUSE, f.stream, BUSY)));
    }
    DyingStays(s, t, b, Noted(b, s, inn, Receive), 0, Done);
  }

  lemma StepDying(s: Session, b: Book, out: Pipe, inn: Pipe, ev: Event)
    requires Local(s) && AllDying(s, b) && Enabled(s, inn, ev) && (ev.OpenCall? ==> s.opens < MAX_OPENS)
    requires ev.Receive? ==> FrameWelcome(s, inn.frames[0])
    ensures AllDying(Step(s, out, inn, ev).0, Noted(b, s, inn, ev))
  {
    match ev
    case LoopRuns(ok) => LoopDying(s, b, out, ok);
    case ThreadRuns(th, ok) => ThreadDying(s, b, out, th, ok);
    case Receive => ReceiveDying(s, b, inn);
    case _ =>
      if Opens(ev) {
        OpenDying(s, b, out, inn, ev);
      } else if Uses(ev) {
        UseDying(s, b, out, inn, ev);
      } else {
        OtherDying(s, b, out, inn, ev);
      }
  }

  // ---- the peer is told ------------------------------------------------------------------

  /** Whoever takes a stream out for a reset of its own has a RESET with the reason to send. */
  predicate Paired(w: set<Frame>, t: Task) {
    match t
    case RemoveThenMark(i, ResetBy(why), reply) => Frame(TYPE_RESET, i, why) in w || reply == Some(Frame(TYPE_RESET, i, why))
    case MarkThen(i, ResetBy(why), reply) => Frame(TYPE_RESET, i, why) in w || reply == Some(Frame(TYPE_RESET, i, why))
    case _ => true
  }

  ghost predicate AllPaired(s: Session, w: set<Frame>) {
    Paired(w, s.loop) && forall th {:trigger s.threads[th]} :: th in s.threads ==> Paired(w, s.threads[th])
  }

  /** About to write f, or to fail the session. */
  predicate Sends(t: Task, f: Frame) { (t.SendThen? && t.frame == f) || t.FailNow? }

  /** A stream that died of a reset: the peer's, or its own that has gone out or will. */
  ghost predicate Passed(s: Session, b: Book, w: set<Frame>, i: uint32)
    requires i in s.entries
  {
    match s.entries[i].st.err
    case Some(ResetBy(why)) =>
      var f := Frame(TYPE_RESET, i, why);
      f in w || f in b.wrote || s.failed || Sends(s.loop, f) || exists th :: th in s.threads && Sends(s.threads[th], f)
    case _ => true
  }

  ghost predicate AllPassed(s: Session, b: Book, w: set<Frame>) {
    AllPaired(s, w) && forall i {:trigger Passed(s, b, w, i)} :: i in s.entries ==> Passed(s, b, w, i)
  }

  /** A step that marks nobody, starts calls on free threads and leaves the read loop to its task. */
  lemma PassedStays(s: Session, t: Session, b: Book, c: Book, w: set<Frame>, th: nat, task: Task)
    requires AllPassed(s, b, w) && b.wrote <= c.wrote && (s.failed ==> t.failed) && (t.loop == s.loop || (s.loop.Done? && Paired(w, t.loop)))
    requires t.threads == s.threads || (FreeThread(s, th) && t.threads == s.threads[th := task] && Paired(w, task))
    requires forall i :: i in t.entries ==>
               (i in s.entries && t.entries[i].st.err == s.entries[i].st.err) || t.entries[i].st.err in {None,
                   Some(SessionFailed)}
    ensures AllPassed(t, c, w)
  {
    forall i | i in t.entries ensures Passed(t, c, w, i) {
      if i in s.entries && t.entries[i].st.err == s.entries[i].st.err {
        assert Passed(s, b, w, i);
        match s.entries[i].st.err
        case Some(ResetBy(why)) =>
          var f := Frame(TYPE_RESET, i, why);
          if exists k :: k in s.threads && Sends(s.threads[k], f) {
            var k :| k in s.threads && Sends(s.threads[k], f);
            assert k in t.threads && t.threads[k] == s.threads[k];
          }
        case _ =>
      }
    }
  }

  lemma FollowPaired(s: Session, out: Pipe, w: set<Frame>, t: Task, ok: bool)
    requires TaskEnabled(s, t) && Paired(w, t)
    ensures Paired(w, Follow(s, out, t, ok))
  {
  }

  lemma SendsOn(s: Session, out: Pipe, t: Task, ok: bool, f: Frame)
    requires TaskEnabled(s, t) && Sends(t, f)
    ensures f in Emit(s, out, t, ok).frames || Affect(s, t).failed || Sends(Follow(s, out, t, ok), f)
  {
  }

  /** What a task does to the causes of death: one stream marked at most, whose RESET is next. */
  lemma AffectMarks(s: Session, out: Pipe, w: set<Frame>, t: Task, ok: bool, i: uint32)
    requires TaskEnabled(s, t) && Paired(w, t) && i in Affect(s, t).entries
    ensures i in s.entries
    ensures Affect(s, t).entries[i].st.err == s.entries[i].st.err ||
            (match Affect(s, t).entries[i].st.err
             case Some(ResetBy(why)) => Frame(TYPE_RESET, i, why) in w || Sends(Follow(s, out, t, ok), Frame(TYPE_RESET, i, why))
             case _ => true)
  {
  }

  lemma ThreadPassed(s: Session, b: Book, w: set<Frame>, out: Pipe, th: nat, ok: bool)
    requires AllPassed(s, b, w) && th in s.threads && TaskEnabled(s, s.threads[th])
    ensures AllPassed(RunThread(s, out, th, ok).0, Wrote(b, RunThread(s, out, th, ok).1), w)
  {
    var task := s.threads[th];
    var (t, o) := RunThread(s, out, th, ok);
    ThreadsUntouched(s, task);
    AffectRest(s, task);
    FollowPaired(s, out, w, task, ok);
    forall i | i in t.entries ensures Passed(t, Wrote(b, o), w, i) {
      AffectMarks(s, out, w, task, ok, i);
      assert Passed(s, b, w, i) && th in t.threads;
      match t.entries[i].st.err
      case Some(ResetBy(why)) =>
        var f := Frame(TYPE_RESET, i, why);
        if Sends(task, f) {
          SendsOn(s, out, task, ok, f);
        } else if exists k :: k in s.threads && Sends(s.threads[k], f) {
          var k :| k in s.threads && Sends(s.threads[k], f);
          assert k in t.threads && t.threads[k] == s.threads[k];
        }
      case _ =>
    }
  }

  lemma LoopPassed(s: Session, b: Book, w: set<Frame>, out: Pipe, ok: bool)
    requires AllPassed(s, b, w) && TaskEnabled(s, s.loop)
    ensures AllPassed(RunLoop(s, out, ok).0, Wrote(b, RunLoop(s, out, ok).1), w)
  {
    var task := s.loop;
    var (t, o) := RunLoop(s, out, ok);
    ThreadsUntouched(s, task);
    AffectRest(s, task);
    FollowPaired(s, out, w, task, ok);
    forall i | i in t.entries ensures Passed(t, Wrote(b, o), w, i) {
      AffectMarks(s, out, w, task, ok, i);
      assert Passed(s, b, w, i);
      match t.entries[i].st.err
      case Some(ResetBy(why)) =>
        if Sends(task, Frame(TYPE_RESET, i, why)) {
          SendsOn(s, out, task, ok, Frame(TYPE_RESET, i, why));
        }
      case _ =>
    }
  }

  lemma OpenPassed(s: Session, b: Book, w: set<Frame>, out: Pipe, inn: Pipe, ev: Event)
    requires Local(s) && AllPassed(s, b, w) && Enabled(s, inn, ev) && Opens(ev)
    requires ev.OpenCall? ==> s.opens < MAX_OPENS
    ensures AllPassed(Step(s, out, inn, ev).0, Wrote(Noted(b, s, inn, ev), Step(s, out, inn, ev).1), w)
  {
    var (t, o, _) := Step(s, out, inn, ev);
    var th := ThreadOf(ev);
    if ev.OpenCall? { RegisterKeeps(s); }
    PassedStays(s, t, b, Wrote(Noted(b, s, inn, ev), o), w, th, if th in t.threads then t.threads[th] else Done);
  }

  lemma UsePassed(s: Session, b: Book, w: set<Frame>, out: Pipe, inn: Pipe, ev: Event)
    requires Local(s) && AllPassed(s, b, w) && Enabled(s, inn, ev) && Uses(ev)
    ensures AllPassed(Step(s, out, inn, ev).0, Wrote(Noted(b, s, inn, ev), Step(s, out, inn, ev).1), w)
  {
    var (t, o, _) := Step(s, out, inn, ev);
    var th := ThreadOf(ev);
    if ev.ReadCall? { ReadTakesFront(s.entries[ev.id].st, ev.n); }
    PassedStays(s, t, b, Wrote(Noted(b, s, inn, ev), o), w, th, if th in t.threads then t.threads[th] else Done);
  }

  lemma OtherPassed(s: Session, b: Book, w: set<Frame>, out: Pipe, inn: Pipe, ev: Event)
    requires Local(s) && AllPassed(s, b, w) && Enabled(s, inn, ev) && !ev.LoopRuns? && !ev.ThreadRuns?
    requires !Opens(ev) && !Uses(ev) && !ev.Receive?
    ensures AllPassed(Step(s, out, inn, ev).0, Wrote(Noted(b, s, inn, ev), Step(s, out, inn, ev).1), w)
  {
    var (t, o, _) := Step(s, out, inn, ev);
    var th := ThreadOf(ev);
    if ev.WriterRuns? {
      var e := WriterEffect(s, out, ev.id, ev.ok);
    }
    PassedStays(s, t, b, Wrote(Noted(b, s, inn, ev), o), w, th, if th in t.threads then t.threads[th] else Done);
  }

  lemma ReceivePassed(s: Session, b: Book, w: set<Frame>, out: Pipe, inn: Pipe)
    requires Local(s) && AllPassed(s, b, w) && Enabled(s, inn, Receive) && FrameWelcome(s, inn.frames[0]) && inn.frames[0] in w
    ensures AllPassed(Dispatch(s, inn.frames[0]), Wrote(Noted(b, s, inn, Receive), out), w)
  {
    PassedStays(s, Dispatch(s, inn.frames[0]), b, Wrote(Noted(b, s, inn, Receive), out), w, 0, Done);
  }

  lemma StepPassed(s: Session, b: Book, w: set<Frame>, out: Pipe, inn: Pipe, ev: Event)
    requires Local(s) && AllPassed(s, b, w) && Enabled(s, inn, ev) && (ev.OpenCall? ==> s.opens < MAX_OPENS)
    requires ev.Receive? ==> FrameWelcome(s, inn.frames[0]) && inn.frames[0] in w
    ensures AllPassed(Step(s, out, inn, ev).0, Wrote(Noted(b, s, inn, ev), Step(s, out, inn, ev).1), w)
  {
    match ev
    case LoopRuns(ok) => LoopPassed(s, b, w, out, ok);
    case ThreadRuns(th, ok) => ThreadPassed(s, b, w, out, th, ok);
    case Receive => ReceivePassed(s, b, w, out, inn);
    case _ =>
      if Opens(ev) {
        OpenPassed(s, b, w, out, inn, ev);
      } else if Uses(ev) {
        UsePassed(s, b, w, out, inn, ev);
      } else {
        OtherPassed(s, b, w, out, inn, ev);
      }
  }

  lemma PeerPassed(s: Session, b: Book, w: set<Frame>, v: set<Frame>)
    requires AllPassed(s, b, w) && w <= v
    ensures AllPassed(s, b, v)
  {
    forall i | i in s.entries ensures Passed(s, b, v, i) {
      assert Passed(s, b, w, i);
    }
  }

  // ---- who sends a RESET is done with the stream ---------------------------------------------

  predicate Resets(f: Frame) { f.stream != 0 && f.ty == TYPE_RESET }

  predicate DoneWith(s: Session, f: Frame) { Resets(f) ==> f.stream in s.entries && s.entries[f.stream].st.dead }

  predicate Marks(s: Session, t: Task) {
    match t
    case RemoveThenMark(i, _, Some(f)) => Resets(f) ==> f.stream == i
    case MarkThen(i, _, Some(f)) => Resets(f) ==> f.stream == i
    case SendThen(f, _) => DoneWith(s, f)
    case _ => true
  }

  ghost predicate AllMarks(s: Session, b: Book) {
    && Marks(s, s.loop) && (forall th {:trigger s.threads[th]} :: th in s.threads ==> Marks(s, s.threads[th]))
    && forall f :: f in b.wrote ==> DoneWith(s, f)
  }

  lemma MarksStay(s: Session, t: Session, b: Book, o: Pipe, c: Book)
    requires AllMarks(s, b) && DeadStays(s, t) && c.wrote == b.wrote
    requires t.loop == s.loop || Marks(t, t.loop)
    requires forall th :: th in t.threads ==> (th in s.threads && t.threads[th] == s.threads[th]) || Marks(t, t.threads[th])
    requires forall f :: f in o.frames ==> f in b.wrote || DoneWith(t, f)
    ensures AllMarks(t, Wrote(c, o))
  {
  }

  lemma FollowMarks(s: Session, out: Pipe, t: Task, ok: bool)
    requires TaskEnabled(s, t) && Marks(s, t)
    ensures Marks(Affect(s, t), Follow(s, out, t, ok))
  {
    AffectDead(s, t);
  }

  lemma TaskMarks(s: Session, b: Book, out: Pipe, t: Task, ok: bool, u: Session)
    requires AllMarks(s, b) && Carried(out, b) && TaskEnabled(s, t) && Marks(s, t)
    requires u.entries == Affect(s, t).entries && (u.loop == s.loop || u.loop == Follow(s, out, t, ok))
    requires forall th :: th in u.threads ==> (th in s.threads && u.threads[th] == s.threads[th]) || u.threads[th] == Follow(s, out, t, ok)
    ensures AllMarks(u, Wrote(b, Emit(s, out, t, ok)))
  {
    FollowMarks(s, out, t, ok);
    AffectDead(s, t);
    MarksStay(s, u, b, Emit(s, out, t, ok), b);
  }

  lemma OpenMarks(s: Session, b: Book, out: Pipe, inn: Pipe, ev: Event)
    requires Local(s) && AllMarks(s, b) && Carried(out, b) && Enabled(s, inn, ev) && Opens(ev)
    requires ev.OpenCall? ==> s.opens < MAX_OPENS
    ensures AllMarks(Step(s, out, inn, ev).0, Wrote(Noted(b, s, inn, ev), Step(s, out, inn, ev).1))
  {
    var (t, o, _) := Step(s, out, inn, ev);
    if ev.OpenCall? { RegisterKeeps(s); }
    MarksStay(s, t, b, o, Noted(b, s, inn, ev));
  }

  lemma UseMarks(s: Session, b: Book, out: Pipe, inn: Pipe, ev: Event)
    requires Local(s) && AllMarks(s, b) && Carried(out, b) && Enabled(s, inn, ev) && Uses(ev)
    ensures AllMarks(Step(s, out, inn, ev).0, Wrote(Noted(b, s, inn, ev), Step(s, out, inn, ev).1))
  {
    var (t, o, _) := Step(s, out, inn, ev);
    if ev.ReadCall? { ReadTakesFront(s.entries[ev.id].st, ev.n); }
    MarksStay(s, t, b, o, Noted(b, s, inn, ev));
  }

  lemma WriterMarks(s: Session, b: Book, out: Pipe, i: uint32, ok: bool)
    requires AllMarks(s, b) && Carried(out, b) && i in s.entries
    ensures AllMarks(RunWriter(s, out, i, ok).0, Wrote(b, RunWriter(s, out, i, ok).1))
  {
    var e := WriterEffect(s, out, i, ok);
    WriterPuts(s, out, i, ok);
    MarksStay(s, RunWriter(s, out, i, ok).0, b, RunWriter(s, out, i, ok).1, b);
  }

  lemma ReceiveMarks(s: Session, b: Book, out: Pipe, inn: Pipe)
    requires Local(s) && AllMarks(s, b) && Carried(out, b) && Enabled(s, inn, Receive) && FrameWelcome(s, inn.frames[0])
    ensures AllMarks(Dispatch(s, inn.frames[0]), Wrote(Noted(b, s, inn, Receive), out))
  {
    MarksStay(s, Dispatch(s, inn.frames[0]), b, out, Noted(b, s, inn, Receive));
  }

  lemma OtherMarks(s: Session, b: Book, out: Pipe, inn: Pipe, ev: Event)
    requires Local(s) && AllMarks(s, b) && Carried(out, b) && Enabled(s, inn, ev) && !ev.LoopRuns? && !ev.ThreadRuns?
    requires !Opens(ev) && !Uses(ev) && !ev.WriterRuns? && !ev.Receive?
    ensures AllMarks(Step(s, out, inn, ev).0, Wrote(Noted(b, s, inn, ev), Step(s, out, inn, ev).1))
  {
    var (t, o, _) := Step(s, out, inn, ev);
    MarksStay(s, t, b, o, Noted(b, s, inn, ev));
  }

  lemma StepMarks(s: Session, b: Book, out: Pipe, inn: Pipe, ev: Event)
    requires Local(s) && AllMarks(s, b) && Carried(out, b) && Enabled(s, inn, ev) && (ev.OpenCall? ==> s.opens < MAX_OPENS)
    requires ev.Receive? ==> FrameWelcome(s, inn.frames[0])
    ensures AllMarks(Step(s, out, inn, ev).0, Wrote(Noted(b, s, inn, ev), Step(s, out, inn, ev).1))
  {
    match ev
    case LoopRuns(ok) =>
      ThreadsUntouched(s, s.loop);
      TaskMarks(s, b, out, s.loop, ok, RunLoop(s, out, ok).0);
    case ThreadRuns(th, ok) =>
      ThreadsUntouched(s, s.threads[th]);
      AffectRest(s, s.threads[th]);
      TaskMarks(s, b, out, s.threads[th], ok, RunThread(s, out, th, ok).0);
    case WriterRuns(i, ok) => WriterMarks(s, b, out, i, ok);
    case Receive => ReceiveMarks(s, b, out, inn);
    case _ =>
      if Opens(ev) {
        OpenMarks(s, b, out, inn, ev);
      } else if Uses(ev) {
        UseMarks(s, b, out, inn, ev);
      } else {
        OtherMarks(s, b, out, inn, ev);
      }
  }

  // ---- the peer gets it -----------------------------------------------------------------

  predicate TakenOut(s: Session, i: uint32) {
    i in s.entries && (i !in s.table || (s.loop.RemoveThenMark? && s.loop.id == i))
  }

  /** A RESET off the pipe has taken its stream out of the table, or is about to. */
  ghost predicate ResetArrived(s: Session, w: set<Frame>, inn: Pipe) {
    forall f :: f in w && Resets(f) ==> f in inn.frames || TakenOut(s, f.stream)
  }

  lemma TakenStays(s: Session, out: Pipe, inn: Pipe, ev: Event, i: uint32)
    requires Local(s) && Enabled(s, inn, ev) && !ev.Receive? && (ev.OpenCall? ==> s.opens < MAX_OPENS) && TakenOut(s, i)
    ensures TakenOut(Step(s, out, inn, ev).0, i)
  {
    Failure.StepMoves(s, out, inn, ev);
    if ev.ThreadRuns? {
      AffectRest(s, s.threads[ev.th]);
    } else if ev.WriterRuns? {
      var e := WriterEffect(s, out, ev.id, ev.ok);
    }
  }

  /** A RESET at the front of the pipe is for a stream the reader has. */
  lemma ResetKnown(x: Session, y: Session, inn: Pipe)
    requires Joined(y, x, inn) && inn.frames != [] && Resets(inn.frames[0])
    ensures inn.frames[0].stream in x.entries
  {
    var f := inn.frames[0];
    var fs := OfStream(inn.frames, f.stream);
    assert fs[0] == f;
    assert Flow(TxOf(y, f.stream), RxOf(x, f.stream), fs, y.opener);
  }

  lemma ReceiveResets(x: Session, y: Session, w: set<Frame>, inn: Pipe)
    requires Local(x) && Joined(y, x, inn) && ResetArrived(x, w, inn) && x.loop.Done? && !x.stopped && inn.frames != []
    requires FrameWelcome(x, inn.frames[0])
    ensures ResetArrived(Dispatch(x, inn.frames[0]), w, inn.(frames := inn.frames[1..]))
  {
    var g, t, rest := inn.frames[0], Dispatch(x, inn.frames[0]), inn.frames[1..];
    Failure.DispatchMoves(x, g);
    if Resets(g) {
      ResetKnown(x, y, inn);
    }
    forall f | f in w && Resets(f) ensures f in rest || TakenOut(t, f.stream) {
      assert inn.frames == [g] + rest;
      assert f in inn.frames <==> f == g || f in rest;
    }
  }

  lemma StepResets(x: Session, y: Session, w: set<Frame>, out: Pipe, inn: Pipe, ev: Event)
    requires Local(x) && Joined(y, x, inn) && ResetArrived(x, w, inn) && Enabled(x, inn, ev) && (ev.OpenCall? ==> x.opens < MAX_OPENS)
    requires ev.Receive? ==> FrameWelcome(x, inn.frames[0])
    ensures var (t, _, i) := Step(x, out, inn, ev); ResetArrived(t, w, i)
  {
    if ev.Receive? {
      ReceiveResets(x, y, w, inn);
    } else {
      forall f | f in w && Resets(f) && f !in inn.frames ensures TakenOut(Step(x, out, inn, ev).0, f.stream) {
        TakenStays(x, out, inn, ev, f.stream);
      }
    }
  }

  // ---- every run -----------------------------------------------------------------------

  /** Both sides' ends go through. */
  ghost predicate Through(s: System, a: Book, b: Book) {
    && AllDying(s.a, a) && AllDying(s.b, b) && AllPassed(s.a, a, b.wrote) && AllPassed(s.b, b, a.wrote)
    && ResetArrived(s.a, b.wrote, s.ba) && ResetArrived(s.b, a.wrote, s.ab) && AllMarks(s.a, a) && AllMarks(s.b, b)
  }

  lemma OneSideThrough(x: Session, y: Session, out: Pipe, inn: Pipe, ev: Event, b: Book, c: Book)
    requires Local(x) && Local(y) && Joined(y, x, inn) && Enabled(x, inn, ev) && (ev.OpenCall? ==> x.opens < MAX_OPENS)
    requires Carried(out, b) && Carried(inn, c)
    requires AllDying(x, b) && AllPassed(x, b, c.wrote) && AllPassed(y, c, b.wrote)
    requires ResetArrived(x, c.wrote, inn) && ResetArrived(y, b.wrote, out) && AllMarks(x, b)
    ensures var (t, o, i) := Step(x, out, inn, ev); var d := Wrote(Noted(b, x, inn, ev), o);
            && AllDying(t, d) && AllPassed(t, d, c.wrote) && AllPassed(y, c, d.wrote)
            && ResetArrived(t, c.wrote, i) && ResetArrived(y, d.wrote, o) && AllMarks(t, d)
  {
    if ev.Receive? { NextFrameWelcome(x, y, inn); }
    var (t, o, _) := Step(x, out, inn, ev);
    var d := Wrote(Noted(b, x, inn, ev), o);
    StepDying(x, b, out, inn, ev);
    assert AllDying(t, d);
    StepPassed(x, b, c.wrote, out, inn, ev);
    PeerPassed(y, c, b.wrote, d.wrote);
    StepMarks(x, b, out, inn, ev);
    StepResets(x, y, c.wrote, out, inn, ev);
    StepAppends(x, out, inn, ev);
    assert forall f :: f in out.frames ==> f in o.frames;
  }

  lemma NextThrough(s: System, a: Book, b: Book, byOpener: bool, ev: Event)
    requires Inv(s) && BothHonest(s, a, b) && Through(s, a, b) && (byOpener && ev.OpenCall? ==> s.a.opens < MAX_OPENS)
    ensures Through(Next(s, byOpener, ev), Grow(s, a, true, byOpener, ev), Grow(s, b, false, byOpener, ev))
  {
    NothingNew(a, s.ab);
    NothingNew(b, s.ba);
    if byOpener && Enabled(s.a, s.ba, ev) {
      StepTakes(s.a, s.ab, s.ba, ev);
      NothingNew(b, Step(s.a, s.ab, s.ba, ev).2);
      OneSideThrough(s.a, s.b, s.ab, s.ba, ev, a, b);
    }
    if !byOpener && Enabled(s.b, s.ab, ev) {
      StepTakes(s.b, s.ba, s.ab, ev);
      NothingNew(a, Step(s.b, s.ba, s.ab, ev).2);
      OneSideThrough(s.b, s.a, s.ba, s.ab, ev, b, a);
    }
  }

  lemma {:induction false} RunThrough(evs: seq<(bool, Event)>)
    requires OpenCalls(evs) <= MAX_OPENS
    ensures Through(Run(evs), BookOf(evs, true), BookOf(evs, false))
  {
    if evs != [] {
      var before, last := evs[..|evs| - 1], evs[|evs| - 1];
      RunThrough(before);
      RunKeeps(before);
      RunHonest(before);
      NextThrough(Run(before), BookOf(before, true), BookOf(before, false), last.0, last.1);
    }
  }

  /**
   * A stream whose program, or whose session's full backlog, has reset,
   * closed, given up or turned it away is dead and out of the table once the
   * calls in flight are through.
   */
  lemma EndedStreamsDie(evs: seq<(bool, Event)>, opener: bool, i: uint32)
    requires OpenCalls(evs) <= MAX_OPENS && Settled(Ends(Run(evs), opener).0) && i in Ended(BookOf(evs, opener))
    ensures var s := Ends(Run(evs), opener).0; i in s.entries && s.entries[i].st.dead && i !in s.table
  {
    RunThrough(evs);
    RunKeeps(evs);
    var s := Ends(Run(evs), opener).0;
    assert Dying(s, i);
    assert StreamOk(s, i);
  }

  lemma ResetGoesThrough(x: Session, y: Session, b: Book, c: Book, out: Pipe, i: uint32)
    requires Local(x) && Local(y) && AllPassed(x, b, c.wrote) && AllMarks(y, c) && ResetArrived(y, b.wrote, out)
    requires Settled(x) && !x.failed && y.loop.Done? && (forall f :: f in out.frames ==> f.stream != i)
    requires i in x.entries && x.entries[i].st.err.Some? && x.entries[i].st.err.value.ResetBy?
    ensures i in y.entries && i !in y.table
  {
    var f := Frame(TYPE_RESET, i, x.entries[i].st.err.value.reason);
    assert Passed(x, b, c.wrote, i) && StreamOk(x, i);
    if f in c.wrote {
      assert DoneWith(y, f) && StreamOk(y, i);
    }
  }

  /**
   * A stream that died of a reset is out of the other end's table too, with
   * no frame of it in flight, the side it died at settled and not failed, and
   * the other side's read loop idle.
   */
  lemma ResetEndsBoth(evs: seq<(bool, Event)>, opener: bool, i: uint32)
    requires OpenCalls(evs) <= MAX_OPENS
    requires var (x, y) := Ends(Run(evs), opener);
             && Settled(x) && !x.failed && y.loop.Done? && (forall f :: f in PipeFrom(Run(evs), opener).frames ==> f.stream != i)
             && i in x.entries && x.entries[i].st.err.Some? && x.entries[i].st.err.value.ResetBy?
    ensures var y := Ends(Run(evs), opener).1; i in y.entries && i !in y.table
  {
    RunThrough(evs);
    RunKeeps(evs);
    var (x, y) := Ends(Run(evs), opener);
    ResetGoesThrough(x, y, BookOf(evs, opener), BookOf(evs, !opener), PipeFrom(Run(evs), opener), i);
  }
}
