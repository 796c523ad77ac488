/** A session that is closed, or whose read loop has stopped, fails. */
module MuxEnding {
  import opened Bytes
  import opened Wrappers
  import opened FrameCodec
  import opened MuxStream
  import opened MuxSession
  import opened MuxInvariant
  import opened MuxSystem
  import opened MuxRuns
  import opened MuxTheorems
  import opened MuxTable
  import opened MuxAnswers
  import opened MuxResets

  /** A call, or the read loop, on its way to failing the session. */
  predicate Failing(t: Task) { t.FailNow? || (t.SendThen? && t.thenFail) }

  ghost predicate Ending(s: Session) {
    s.failed || Failing(s.loop) || exists th :: th in s.threads && Failing(s.threads[th])
  }

  /** The side's program has closed its session, or its read loop has come to an end. */
  predicate Finishing(evs: seq<(bool, Event)>, opener: bool) {
    evs != [] &&
    var before, last := evs[..|evs| - 1], evs[|evs| - 1];
    var s := Ends(Run(before), opener).0;
    || Finishing(before, opener) || Ends(Run(evs), opener).0.stopped
    || (last.0 == opener && last.1.SessionClose? && FreeThread(s, last.1.th))
  }

  /** A step that starts calls on free threads and leaves the read loop to its task. */
  lemma EndingStays(s: Session, t: Session, th: nat, task: Task)
    requires Ending(s) && (s.failed ==> t.failed) && (t.loop == s.loop || s.loop.Done?)
    requires t.threads == s.threads || (FreeThread(s, th) && t.threads == s.threads[th := task])
    ensures Ending(t)
  {
    if exists k :: k in s.threads && Failing(s.threads[k]) {
      var k :| k in s.threads && Failing(s.threads[k]);
      assert k in t.threads && t.threads[k] == s.threads[k];
    }
  }

  lemma EndsOn(s: Session, out: Pipe, t: Task, ok: bool)
    requires TaskEnabled(s, t) && Failing(t)
    ensures Affect(s, t).failed || Failing(Follow(s, out, t, ok))
  {
  }

  lemma ThreadEnding(s: Session, out: Pipe, th: nat, ok: bool)
    requires Ending(s) && th in s.threads && TaskEnabled(s, s.threads[th])
    ensures Ending(RunThread(s, out, th, ok).0)
  {
    var task, t := s.threads[th], RunThread(s, out, th, ok).0;
    ThreadsUntouched(s, task);
    AffectRest(s, task);
    if Failing(task) {
      EndsOn(s, out, task, ok);
      assert th in t.threads;
    } else if exists k :: k in s.threads && Failing(s.threads[k]) {
      var k :| k in s.threads && Failing(s.threads[k]);
      assert k in t.threads && t.threads[k] == s.threads[k];
    }
  }

  lemma LoopEnding(s: Session, out: Pipe, ok: bool)
    requires Ending(s) && TaskEnabled(s, s.loop)
    ensures Ending(RunLoop(s, out, ok).0)
  {
    ThreadsUntouched(s, s.loop);
    AffectRest(s, s.loop);
    if Failing(s.loop) {
      EndsOn(s, out, s.loop, ok);
    }
  }

  lemma OpenEnding(s: Session, out: Pipe, inn: Pipe, ev: Event)
    requires Ending(s) && Enabled(s, inn, ev) && (Opens(ev) || Uses(ev))
    ensures Ending(Step(s, out, inn, ev).0)
  {
    var t, th := Step(s, out, inn, ev).0, ThreadOf(ev);
    EndingStays(s, t, th, if th in t.threads then t.threads[th] else Done);
  }

  lemma OtherEnding(s: Session, out: Pipe, inn: Pipe, ev: Event)
    requires Ending(s) && Enabled(s, inn, ev) && !Opens(ev) && !Uses(ev) && !ev.LoopRuns? && !ev.ThreadRuns?
    ensures Ending(Step(s, out, inn, ev).0)
  {
    var t, th := Step(s, out, inn, ev).0, ThreadOf(ev);
    if ev.WriterRuns? {
      var e := WriterEffect(s, out, ev.id, ev.ok);
    }
    EndingStays(s, t, th, if th in t.threads then t.threads[th] else Done);
  }

  lemma StepEnding(s: Session, out: Pipe, inn: Pipe, ev: Event)
    requires Ending(s) && Enabled(s, inn, ev)
    ensures Ending(Step(s, out, inn, ev).0)
  {
    match ev
    case LoopRuns(ok) => LoopEnding(s, out, ok);
    case ThreadRuns(th, ok) => ThreadEnding(s, out, th, ok);
    case _ =>
      if Opens(ev) || Uses(ev) {
        OpenEnding(s, out, inn, ev);
      } else {
        OtherEnding(s, out, inn, ev);
      }
  }

  /** The read loop stops only on its way to failing the session. */
  lemma StoppingEnds(s: Session, out: Pipe, inn: Pipe, ev: Event)
    requires Enabled(s, inn, ev) && !s.stopped && (Step(s, out, inn, ev).0.stopped || ev.SessionClose?)
    ensures Ending(Step(s, out, inn, ev).0)
  {
    var t := Step(s, out, inn, ev).0;
    match ev
    case SessionClose(why, th) => assert th in t.threads && Failing(t.threads[th]);
    case Receive =>
    case ReceiveError =>
    case LoopRuns(_) => LoopKeepsGoing(s, out, ev.ok);
    case ThreadRuns(th, _) => AffectGoing(s, s.threads[th]);
    case WriterRuns(i, ok) => WriterGoing(s, out, i, ok);
    case _ => OthersGoing(s, out, inn, ev);
  }

  lemma AffectGoing(s: Session, t: Task)
    requires TaskEnabled(s, t)
    ensures Affect(s, t).stopped == s.stopped
  {
  }

  lemma LoopKeepsGoing(s: Session, out: Pipe, ok: bool)
    requires TaskEnabled(s, s.loop)
    ensures RunLoop(s, out, ok).0.stopped == s.stopped
  {
    AffectGoing(s, s.loop);
  }

  lemma WriterGoing(s: Session, out: Pipe, i: uint32, ok: bool)
    requires i in s.entries
    ensures RunWriter(s, out, i, ok).0.stopped == s.stopped
  {
  }

  lemma OthersGoing(s: Session, out: Pipe, inn: Pipe, ev: Event)
    requires Enabled(s, inn, ev) && !ev.Receive? && !ev.ReceiveError? && !ev.LoopRuns? && !ev.ThreadRuns? && !ev.WriterRuns?
    ensures Step(s, out, inn, ev).0.stopped == s.stopped
  {
  }

  lemma CloseEnds(s: Session, out: Pipe, inn: Pipe, ev: Event)
    requires Enabled(s, inn, ev) && ev.SessionClose?
    ensures Ending(Step(s, out, inn, ev).0)
  {
    var t := Step(s, out, inn, ev).0;
    assert ev.th in t.threads && Failing(t.threads[ev.th]);
  }

  lemma {:induction false} RunEnding(evs: seq<(bool, Event)>, opener: bool)
    ensures var s := Ends(Run(evs), opener).0; Finishing(evs, opener) || s.stopped ==> Ending(s)
  {
    if evs != [] {
      var before, last := evs[..|evs| - 1], evs[|evs| - 1];
      RunEnding(before, opener);
      var s := Run(before);
      var x, out, inn := Ends(s, opener).0, PipeFrom(s, opener), PipeFrom(s, !opener);
      if last.0 == opener && Enabled(x, inn, last.1) {
        if Ending(x) {
          StepEnding(x, out, inn, last.1);
        }
        if last.1.SessionClose? {
          CloseEnds(x, out, inn, last.1);
        } else if !x.stopped && Step(x, out, inn, last.1).0.stopped {
          StoppingEnds(x, out, inn, last.1);
        }
      }
    }
  }

  /** Once its calls are through, a session that was closed, or whose read loop has ended, has failed: its table is empty but for late offers. */
  lemma ClosedSessionsFail(evs: seq<(bool, Event)>, opener: bool)
    requires Finishing(evs, opener) && Settled(Ends(Run(evs), opener).0)
    ensures Ends(Run(evs), opener).0.failed
  {
    RunEnding(evs, opener);
  }

  /** Of the frames a correct peer sends, the read loop stops at a RESET of the whole session and at nothing else. */
  lemma StopsExactly(s: Session, f: Frame)
    requires Local(s) && s.loop.Done? && !s.stopped && FrameWelcome(s, f)
    ensures Dispatch(s, f).stopped <==> f.ty == 6 && f.stream == 0
  {
  }
}
