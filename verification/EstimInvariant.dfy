/**
 * What every interleaving keeps: who holds the device lock, when the output
 * can be above zero, and how far the arm window reaches.
 */
module EstimInvariant {
  import opened Wrappers
  import opened EstimRuntime
  import opened EstimSystem

  predicate RtOk(rt: State) {
    && 0 < rt.window <= MAX_ARM_WINDOW
    && (!rt.device ==> rt.armDeadline == 0)
    && (rt.armDeadline != 0 ==> rt.armDeadline == rt.renewedAt + rt.window)
    && rt.renewedAt <= rt.now
    && rt.renewedUntil <= rt.armDeadline
    && rt.level <= Top(rt.caps)
  }

  /** What the next step of a goroutine relies on. */
  predicate TaskOk(rt: State, t: Task) {
    && (Executing(t) ==> rt.device && rt.armDeadline != 0)
    && (t.Ramp? ==> t.levelMax <= Top(rt.caps) && (t.raises > 0 ==> rt.level <= t.levelMax))
    && (t.ExeClear? ==> rt.device)
    && (t.RelDrive? || t.ExeRelease? ==> rt.device && rt.armDeadline == 0)
    && (t.RenewTry? || t.RenewDrive? || t.RenewSet? ==> t.until <= rt.renewedAt + rt.window)
  }

  predicate ArmOk(rt: State, t: ArmTask) {
    t.ArmDrive? || t.ArmSettle? ==> rt.device && (t == ArmSettle(true) || (t.ArmSettle? && !rt.faulty) ==> rt.level == 0)
  }

  /** The output is about to be brought down by the goroutine holding the device. */
  predicate Dropping(s: System) {
    s.dev.Thread? && s.dev.th in s.threads && (s.threads[s.dev.th].RelDrive? || s.threads[s.dev.th].ExeRelease?)
  }

  /** With no deadline the output is zero, unless it is just being brought down or the last attempt failed. */
  predicate Low(s: System) { s.rt.armDeadline == 0 && !s.rt.faulty && !Dropping(s) ==> s.rt.level == 0 }

  predicate LockOk(s: System) {
    && (s.dev.Thread? ==> s.dev.th in s.threads && Holds(s.threads[s.dev.th]))
    && (forall th | th in s.threads && Holds(s.threads[th]) :: s.dev == Thread(th))
    && (s.dev.Armer? <==> HoldsArm(s.armer))
    && (s.link.arming <==> !s.armer.ArmIdle?)
  }

  predicate TasksOk(s: System) { forall th | th in s.threads :: TaskOk(s.rt, s.threads[th]) }

  predicate Inv(s: System) {
    LockOk(s) && RtOk(s.rt) && ArmOk(s.rt, s.armer) && Low(s) && TasksOk(s)
  }

  /** What a step of one goroutine leaves to the others. */
  predicate Leaves(a: State, b: State, holding: bool) {
    && a.window == b.window && a.now <= b.now && a.renewedAt <= b.renewedAt
    && (!holding ==> && a.device == b.device && a.caps == b.caps && a.level == b.level && a.faulty == b.faulty
                     && (a.armDeadline == 0 <==> b.armDeadline == 0))
  }

  lemma Survives(a: State, b: State, holding: bool, t: Task)
    requires TaskOk(a, t) && Leaves(a, b, holding) && (holding ==> !Holds(t))
    ensures TaskOk(b, t)
  {
  }

  lemma SessionRt(s: System, t: Task, o: Outcome, m: Move)
    requires RtOk(s.rt) && OfSession(t)
    ensures RtOk(ThreadRt(s.rt, t, o, m)) && Leaves(s.rt, ThreadRt(s.rt, t, o, m), false)
  {
  }

  /** A session handler's next step relies on nothing. */
  lemma SessionTask(s: System, rt: State, t: Task)
    ensures TaskOk(rt, SessionNext(s, t)) && !Holds(SessionNext(s, t))
  {
  }

  lemma ExecuteRt(s: System, t: Task, o: Outcome, m: Move)
    requires RtOk(s.rt) && TaskOk(s.rt, t) && OfExecute(t)
    requires t.Ramp? && m.Raise? ==> t.ready && m.to <= t.levelMax
    requires t.Ramp? && m.Lower? ==> m.to <= s.rt.level
    ensures RtOk(ThreadRt(s.rt, t, o, m)) && Leaves(s.rt, ThreadRt(s.rt, t, o, m), Holds(t))
    ensures TaskOk(ThreadRt(s.rt, t, o, m), ExecuteNext(s, t, o, m))
  {
    if t.ExeArmed? || t.ExeLatch? || t.ExeStart? || t.ExeCheck? {
      assert ThreadRt(s.rt, t, o, m) == s.rt;
    }
  }

  lemma DeviceRt(s: System, t: Task, o: Outcome, m: Move)
    requires RtOk(s.rt) && TaskOk(s.rt, t) && !OfSession(t) && !OfExecute(t)
    ensures RtOk(ThreadRt(s.rt, t, o, m)) && Leaves(s.rt, ThreadRt(s.rt, t, o, m), Holds(t))
    ensures TaskOk(ThreadRt(s.rt, t, o, m), DeviceNext(s, t, o))
  {
  }

  lemma ThreadRtKeeps(s: System, t: Task, o: Outcome, m: Move)
    requires RtOk(s.rt) && TaskOk(s.rt, t)
    requires t.Ramp? && m.Raise? ==> t.ready && m.to <= t.levelMax
    requires t.Ramp? && m.Lower? ==> m.to <= s.rt.level
    ensures RtOk(ThreadRt(s.rt, t, o, m)) && Leaves(s.rt, ThreadRt(s.rt, t, o, m), Holds(t))
    ensures TaskOk(ThreadRt(s.rt, t, o, m), ThreadNext(s, t, o, m))
    ensures Holds(ThreadNext(s, t, o, m)) && !Holds(t) ==> Takes(t) || (s.dev.Nobody? && (t.HealthTry? || t.RenewTry?))
  {
    if OfSession(t) {
      SessionRt(s, t, o, m);
      SessionTask(s, ThreadRt(s.rt, t, o, m), t);
    } else if OfExecute(t) {
      ExecuteRt(s, t, o, m);
    } else {
      DeviceRt(s, t, o, m);
    }
  }

  /** The output stays down: only a raise lifts it, only while a deadline stands. */
  lemma ThreadLow(s: System, th: nat, o: Outcome, m: Move)
    requires Inv(s) && th in s.threads && Enabled(s, Run(th, o, m))
    ensures Low(RunThread(s, th, o, m))
  {
    var t := s.threads[th];
    ThreadRtKeeps(s, t, o, m);
    var u := RunThread(s, th, o, m);
    if Holds(t) {
      if OfExecute(t) { ExecuteLow(s, th, o, m); } else { DeviceLow(s, th, o, m); }
    } else if u.dev == s.dev {
      assert Dropping(s) == Dropping(u);
    }
  }

  lemma ExecuteLow(s: System, th: nat, o: Outcome, m: Move)
    requires Inv(s) && th in s.threads && Enabled(s, Run(th, o, m)) && Holds(s.threads[th]) && OfExecute(s.threads[th])
    ensures Low(RunThread(s, th, o, m))
  {
    assert s.dev == Thread(th);
  }

  lemma DeviceLow(s: System, th: nat, o: Outcome, m: Move)
    requires Inv(s) && th in s.threads && Enabled(s, Run(th, o, m)) && Holds(s.threads[th]) && !OfExecute(s.threads[th])
    ensures Low(RunThread(s, th, o, m))
  {
    assert s.dev == Thread(th);
  }

  lemma ThreadLock(s: System, th: nat, o: Outcome, m: Move)
    requires Inv(s) && th in s.threads && Enabled(s, Run(th, o, m))
    ensures LockOk(RunThread(s, th, o, m))
  {
    ThreadRtKeeps(s, s.threads[th], o, m);
    var u := RunThread(s, th, o, m);
    forall j | j in u.threads && Holds(u.threads[j]) ensures u.dev == Thread(j) {
      if j != th { assert j in s.threads && Holds(s.threads[j]); }
    }
  }

  lemma ThreadKeeps(s: System, th: nat, o: Outcome, m: Move)
    requires Inv(s) && th in s.threads && Enabled(s, Run(th, o, m))
    ensures Inv(RunThread(s, th, o, m))
  {
    var t := s.threads[th];
    ThreadRtKeeps(s, t, o, m);
    ThreadLow(s, th, o, m);
    ThreadLock(s, th, o, m);
    var u := RunThread(s, th, o, m);
    forall j | j in u.threads ensures TaskOk(u.rt, u.threads[j]) {
      if j != th { Survives(s.rt, u.rt, Holds(t), s.threads[j]); }
    }
  }

  lemma ArmKeeps(s: System, o: Outcome)
    requires Inv(s) && Enabled(s, RunArm(o))
    ensures Inv(StepArm(s, o))
  {
    var u := StepArm(s, o);
    forall j | j in u.threads ensures TaskOk(u.rt, u.threads[j]) {
      Survives(s.rt, u.rt, HoldsArm(s.armer), s.threads[j]);
    }
  }

  lemma StepKeeps(s: System, ev: Event)
    requires Inv(s)
    ensures Inv(Step(s, ev))
  {
    if Enabled(s, ev) {
      match ev
      case Tick(ms) =>
        var u := Step(s, ev);
        forall j | j in u.threads ensures TaskOk(u.rt, u.threads[j]) {
          Survives(s.rt, u.rt, false, s.threads[j]);
        }
      case Call(_, _) =>
      case Run(th, o, m) => ThreadKeeps(s, th, o, m);
      case RunArm(o) => ArmKeeps(s, o);
    }
  }

  /** Every run keeps the invariant, whatever the calls, their order and the driver's failures. */
  lemma {:induction false} PlayKeeps(now: nat, configured: int, evs: seq<Event>)
    ensures Inv(Play(Init(now, configured), evs))
  {
    if evs != [] {
      PlayKeeps(now, configured, evs[..|evs| - 1]);
      StepKeeps(Play(Init(now, configured), evs[..|evs| - 1]), evs[|evs| - 1]);
    }
  }
}
