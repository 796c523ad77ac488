/** When a stream is in the session's table. */
module MuxTable {
  import opened Bytes
  import opened Wrappers
  import opened FrameCodec
  import opened MuxStream
  import opened MuxSession
  import opened MuxInvariant
  import opened MuxSystem
  import opened MuxRuns
  import opened MuxTheorems

  /** A call in flight is about to mark the stream dead. */
  ghost predicate MarkPending(s: Session, i: uint32) {
    || (s.loop.MarkThen? && s.loop.id == i)
    || exists th :: th in s.threads && s.threads[th].MarkThen? && s.threads[th].id == i
  }

  predicate Finished(st: Stream) { st.dead || BothClosed(st) || st.answer.Denied? }

  ghost predicate Excused(s: Session, i: uint32)
    requires i in s.entries
  {
    Finished(s.entries[i].st) || i in s.dooms || MarkPending(s, i)
  }

  /** Every stream out of the table has a reason to be. */
  ghost predicate Exits(s: Session) {
    forall i {:trigger Excused(s, i)} :: i in s.entries && i !in s.table ==> Excused(s, i)
  }

  /** Nothing is half done: no call, no read loop task, no pending write, no failing session still marking its streams. */
  predicate Settled(s: Session) {
    && s.loop.Done? && s.dooms == {}
    && (forall th :: th in s.threads ==> s.threads[th].Done?)
    && (forall i :: i in s.entries ==> s.entries[i].writer.Idle?)
  }

  /** Streams already finished stay so, and no reason to be out of the table goes away, but for the thread th that runs. */
  lemma CalmExits(s: Session, t: Session, th: nat, task: Task)
    requires Exits(s)
    requires forall i :: i in s.entries ==> i in t.entries && (Finished(s.entries[i].st) ==> Finished(t.entries[i].st))
    requires forall i :: i in t.entries && i !in t.table ==> i in s.entries && i !in s.table
    requires forall i :: i in s.dooms && i in t.entries ==> i in t.dooms || Finished(t.entries[i].st)
    requires t.loop == s.loop || s.loop.Done?
    requires t.threads == s.threads || (FreeThread(s, th) && t.threads == s.threads[th := task])
    ensures Exits(t)
  {
    forall i | i in t.entries && i !in t.table ensures Excused(t, i) {
      assert Excused(s, i);
      if MarkPending(s, i) && !(s.loop.MarkThen? && s.loop.id == i) {
        var k :| k in s.threads && s.threads[k].MarkThen? && s.threads[k].id == i;
        assert k in t.threads && t.threads[k] == s.threads[k];
      }
    }
  }

  /** A task ran in thread th, or in the read loop: whoever it took out of the table is finished or next to be marked. */
  lemma AffectExcuses(s: Session, out: Pipe, t: Task, ok: bool, u: Session, i: uint32)
    requires Local(s) && Exits(s) && TaskEnabled(s, t) && TaskOk(s, t, false)
    requires u == Affect(s, t).(loop := u.loop, threads := u.threads)
    requires i in u.entries && i !in u.table
    ensures i in s.entries
    ensures || Finished(u.entries[i].st) || i in u.dooms
            || (Follow(s, out, t, ok).MarkThen? && Follow(s, out, t, ok).id == i)
            || (i !in s.table && MarkPending(s, i) && !(t.MarkThen? && t.id == i))
  {
    if i !in s.table {
      assert Excused(s, i);
    }
  }

  lemma ThreadExits(s: Session, out: Pipe, th: nat, ok: bool)
    requires Local(s) && Exits(s) && th in s.threads && TaskEnabled(s, s.threads[th])
    ensures Exits(RunThread(s, out, th, ok).0)
  {
    var t := s.threads[th];
    var u := RunThread(s, out, th, ok).0;
    forall i | i in u.entries && i !in u.table ensures Excused(u, i) {
      AffectExcuses(s, out, t, ok, u, i);
      AffectSends(s, t, i);
      if Follow(s, out, t, ok).MarkThen? && Follow(s, out, t, ok).id == i {
        assert th in u.threads && u.threads[th].MarkThen?;
      } else if !Finished(u.entries[i].st) && i !in u.dooms && !(s.loop.MarkThen? && s.loop.id == i) {
        var k :| k in s.threads && s.threads[k].MarkThen? && s.threads[k].id == i;
        assert k in u.threads && u.threads[k] == s.threads[k];
      }
    }
  }

  /** A task handing something over takes nobody out of the table. */
  lemma HandExcuses(s: Session, out: Pipe, ok: bool, i: uint32)
    requires Exits(s) && TaskEnabled(s, s.loop) && (s.loop.HandData? || s.loop.HandClose? || s.loop.HandAnswer?)
    requires i in Affect(s, s.loop).entries && i !in s.table
    ensures i in s.entries && Affect(s, s.loop).table == s.table && Affect(s, s.loop).dooms == s.dooms
    ensures Finished(Affect(s, s.loop).entries[i].st) || i in s.dooms || MarkPending(s, i)
  {
    assert i in s.entries && Excused(s, i);
  }

  lemma LoopExits(s: Session, out: Pipe, ok: bool)
    requires Local(s) && Exits(s) && TaskEnabled(s, s.loop)
    ensures Exits(RunLoop(s, out, ok).0)
  {
    var t := s.loop;
    var u := RunLoop(s, out, ok).0;
    ThreadsUntouched(s, t);
    forall i | i in u.entries && i !in u.table ensures Excused(u, i) {
      if t.HandData? || t.HandClose? || t.HandAnswer? {
        HandTable(s, t);
        HandExcuses(s, out, ok, i);
      } else {
        AffectExcuses(s, out, t, ok, u, i);
      }
      if !Finished(u.entries[i].st) && i !in u.dooms && !(u.loop.MarkThen? && u.loop.id == i) {
        var k :| k in s.threads && s.threads[k].MarkThen? && s.threads[k].id == i;
        assert k in u.threads && u.threads[k] == s.threads[k];
      }
    }
  }

  lemma HandTable(s: Session, t: Task)
    requires TaskEnabled(s, t) && (t.HandData? || t.HandClose? || t.HandAnswer?)
    ensures Affect(s, t).table == s.table
  {
  }

  lemma ThreadsUntouched(s: Session, t: Task)
    requires TaskEnabled(s, t)
    ensures Affect(s, t).threads == s.threads
  {
    match t
    case CloseBegin(i) => assert BeginCloseWrite(s, i).threads == s.threads;
    case FailNow => assert Fail(s).threads == s.threads;
    case HandData(i, p) =>
    case _ =>
  }

  // ---- the other sections take nobody out of the table, except as said ---------------------

  lemma EntryExits(s: Session, i: uint32, e: Entry)
    requires Exits(s) && i in s.entries && (Finished(s.entries[i].st) ==> Finished(e.st))
    ensures Exits(Update(s, i, e))
  {
    CalmExits(s, Update(s, i, e), 0, Done);
  }

  lemma SpawnExits(s: Session, th: nat, t: Task)
    requires Exits(s) && FreeThread(s, th)
    ensures Exits(Spawn(s, th, t))
  {
    CalmExits(s, Spawn(s, th, t), th, t);
  }

  lemma PhaseExits(s: Session, i: uint32, p: Phase, th: nat, t: Task)
    requires Exits(s) && i in s.entries && FreeThread(s, th)
    ensures Exits(WithPhase(s, i, p)) && Exits(Spawn(WithPhase(s, i, p), th, t))
  {
    EntryExits(s, i, s.entries[i].(phase := p));
    SpawnExits(WithPhase(s, i, p), th, t);
  }

  /** A new stream joins the table. */
  lemma JoinExits(s: Session, i: uint32, e: Entry, opens: nat, backlog: seq<uint32>, loop: Task)
    requires Exits(s) && i !in s.entries && (s.loop.Done? || loop == s.loop)
    ensures Exits(Update(s, i, e).(table := s.table + {i}, opens := opens, backlog := backlog, loop := loop))
  {
    CalmExits(s, Update(s, i, e).(table := s.table + {i}, opens := opens, backlog := backlog, loop := loop), 0, Done);
  }

  lemma LoopTakesExits(s: Session, t: Task, stopped: bool)
    requires Exits(s) && s.loop.Done?
    ensures Exits(s.(loop := t, stopped := stopped))
  {
    CalmExits(s, s.(loop := t, stopped := stopped), 0, Done);
  }

  lemma RemoveExits(s: Session, i: uint32)
    requires Exits(s) && i in s.entries && BothClosed(s.entries[i].st)
    ensures Exits(s.(table := s.table - {i}))
  {
    var t := s.(table := s.table - {i});
    forall j | j in t.entries && j !in t.table ensures Excused(t, j) {
      assert j != i ==> Excused(s, j);
    }
  }

  lemma FailExits(s: Session)
    requires Exits(s) && (!s.failed ==> s.dooms == {})
    ensures Exits(Fail(s))
  {
    var t := Fail(s);
    forall j | j in t.entries && j !in t.table ensures Excused(t, j) {
      assert j !in s.table ==> Excused(s, j);
    }
  }

  lemma DoomExits(s: Session, i: uint32)
    requires Exits(s) && i in s.entries
    ensures Exits(Doom(s, i))
  {
    CalmExits(s, Doom(s, i), 0, Done);
  }

  lemma WriterExits(s: Session, out: Pipe, i: uint32, ok: bool)
    requires Local(s) && Exits(s) && i in s.entries
    ensures Exits(RunWriter(s, out, i, ok).0)
  {
    assert StreamOk(s, i);
    var e := s.entries[i].(writer := Idle);
    EntryExits(s, i, e);
    match s.entries[i].writer
    case Idle =>
    case HasData(p) => EntryExits(s, i, RunWriter(s, out, i, ok).0.entries[i]);
    case HasClose(_) => EntryExits(s, i, RunWriter(s, out, i, ok).0.entries[i]);
    case HasRemove => RemoveExits(Update(s, i, e), i);
    case HasFailed => FailExits(Update(s, i, e));
  }

  lemma OpenExits(s: Session, out: Pipe, inn: Pipe, ev: Event)
    requires Local(s) && Exits(s) && Enabled(s, inn, ev) && Opens(ev) && !Settles(ev)
    requires ev.OpenCall? ==> s.opens < MAX_OPENS
    ensures Exits(Step(s, out, inn, ev).0)
  {
    match ev
    case OpenCall =>
      RegisterKeeps(s);
      JoinExits(s, NextID(s), NewEntry(Registered), s.opens + 1, s.backlog, s.loop);
    case OpenWrite(i, target, ok, th) =>
      PhaseExits(s, i, Opening, th, FailNow);
      PhaseExits(s, i, Unsent, th, FailNow);
    case AcceptOffer(i, ok, th) =>
      PhaseExits(s, i, Usable, th, FailNow);
      PhaseExits(s, i, Gone, th, FailNow);
  }

  lemma SettleExits(s: Session, out: Pipe, inn: Pipe, ev: Event)
    requires Exits(s) && Enabled(s, inn, ev) && Settles(ev)
    ensures Exits(Step(s, out, inn, ev).0)
  {
    match ev
    case OpenReturn(i, th) =>
      PhaseExits(s, i, Usable, th, RemoveOnly(i));
      PhaseExits(s, i, Gone, th, RemoveOnly(i));
    case OpenDies(i) => EntryExits(s, i, s.entries[i].(phase := Gone));
    case OpenCancel(i, th) => PhaseExits(s, i, Gone, th, ResetCheck(i, CANCELLED));
    case RefuseOffer(i, reason, th) =>
      PhaseExits(s, i, Gone, th, RemoveThenMark(i, RefusedBy(reason), Some(Frame(TYPE_REFUSE, i, reason))));
  }

  lemma UseExits(s: Session, out: Pipe, inn: Pipe, ev: Event)
    requires Exits(s) && Enabled(s, inn, ev) && Uses(ev)
    ensures Exits(Step(s, out, inn, ev).0)
  {
    var i := ev.id;
    match ev
    case WriteCall(_, p) => EntryExits(s, i, s.entries[i].(writer := HasData(p)));
    case CloseWriteCall(_) => EntryExits(s, i, BeginCloseWrite(s, i).entries[i]);
    case ReadCall(_, n) =>
      ReadTakesFront(s.entries[i].st, n);
      EntryExits(s, i, ReadSome(s, i, n).entries[i]);
    case ResetCall(_, reason, th) => SpawnExits(s, th, ResetCheck(i, reason));
    case CloseCall(_, th) => SpawnExits(s, th, BeginClose(s, i, th).threads[th]);
  }

  lemma DispatchExits(s: Session, f: Frame)
    requires Exits(s) && s.table <= s.entries.Keys && s.loop.Done? && !s.stopped && FrameWelcome(s, f)
    ensures Exits(Dispatch(s, f))
  {
    var i := f.stream;
    if f.ty == TYPE_OPEN {
      if |s.backlog| < ACCEPT_BACKLOG {
        JoinExits(s, i, NewEntry(Offered), s.opens, s.backlog + [i], Done);
      } else {
        JoinExits(s, i, NewEntry(Gone), s.opens, s.backlog, DispatchOpen(s, i).loop);
      }
    } else if f.ty == TYPE_DATA {
      if i in s.table {
        LoopTakesExits(s, HandData(i, f.payload), false);
      } else if i in s.entries {
        EntryExits(s, i, s.entries[i].(lost := true));
      }
    } else {
      LoopTakesExits(s, ControlTask(s, f).0, ControlTask(s, f).1);
    }
  }

  lemma StepExits(s: Session, out: Pipe, inn: Pipe, ev: Event)
    requires Local(s) && Exits(s) && Enabled(s, inn, ev)
    requires ev.OpenCall? ==> s.opens < MAX_OPENS
    requires ev.Receive? ==> FrameWelcome(s, inn.frames[0])
    ensures Exits(Step(s, out, inn, ev).0)
  {
    if Settles(ev) {
      SettleExits(s, out, inn, ev);
    } else if Opens(ev) {
      OpenExits(s, out, inn, ev);
    } else if Uses(ev) {
      UseExits(s, out, inn, ev);
    } else {
      match ev
      case TakeOffer =>
        EntryExits(s, s.backlog[0], s.entries[s.backlog[0]].(phase := Taken));
        CalmExits(WithPhase(s, s.backlog[0], Taken), Accept(s), 0, Done);
      case WriterRuns(i, ok) => WriterExits(s, out, i, ok);
      case Receive => DispatchExits(s, inn.frames[0]);
      case ReceiveError => LoopTakesExits(s, FailNow, true);
      case LoopRuns(ok) => LoopExits(s, out, ok);
      case ThreadRuns(th, ok) => ThreadExits(s, out, th, ok);
      case SessionClose(why, th) => SpawnExits(s, th, BeginSessionClose(s, why, th).threads[th]);
      case DoomNext(i) => DoomExits(s, i);
      case DoomsDone => CalmExits(s, s.(closed := true), 0, Done);
    }
  }

  lemma {:induction false} RunExits(evs: seq<(bool, Event)>)
    requires OpenCalls(evs) <= MAX_OPENS
    ensures Exits(Run(evs).a) && Exits(Run(evs).b)
  {
    if evs != [] {
      var before, last := evs[..|evs| - 1], evs[|evs| - 1];
      RunExits(before);
      RunKeeps(before);
      var s := Run(before);
      var ev := last.1;
      if last.0 && Enabled(s.a, s.ba, ev) {
        if ev.Receive? { NextFrameWelcome(s.a, s.b, s.ba); }
        StepExits(s.a, s.ab, s.ba, ev);
      }
      if !last.0 && Enabled(s.b, s.ab, ev) {
        if ev.Receive? { NextFrameWelcome(s.b, s.a, s.ab); }
        StepExits(s.b, s.ba, s.ab, ev);
      }
    }
  }

  /**
   * A stream leaves the table only when refused, dead or closed both ways; and,
   * in a session that has not failed, a stream dead or closed both ways does leave it.
   */
  lemma TableExactly(evs: seq<(bool, Event)>, opener: bool, i: uint32)
    requires OpenCalls(evs) <= MAX_OPENS
    ensures var s := Ends(Run(evs), opener).0;
            Settled(s) && i in s.entries ==>
              var st := s.entries[i].st;
              && (i !in s.table ==> st.dead || BothClosed(st) || st.answer.Denied?)
              && (st.dead ==> i !in s.table)
              && (BothClosed(st) && !s.failed ==> i !in s.table)
  {
    RunKeeps(evs);
    RunExits(evs);
    var s := Ends(Run(evs), opener).0;
    if Settled(s) && i in s.entries {
      assert StreamOk(s, i);
      if i !in s.table {
        assert Excused(s, i);
      }
    }
  }
}
