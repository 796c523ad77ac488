/**
 * The fail-closed promises, over every run: the latch holds against a running
 * command, no deadline means no output, and the window is bounded.
 */
module EstimTheorems {
  import opened Wrappers
  import opened EstimRuntime
  import opened EstimSystem
  import opened EstimInvariant

  // ---- no deadline, no output --------------------------------------------------

  predicate ReleasesSucceed(evs: seq<Event>) {
    forall k | 0 <= k < |evs| :: (evs[k].Run? || evs[k].RunArm? ==> evs[k].o.released)
  }

  lemma NotFaulty(s: System, ev: Event)
    requires !s.rt.faulty && (ev.Run? || ev.RunArm? ==> ev.o.released)
    ensures !Step(s, ev).rt.faulty
  {
    if Enabled(s, ev) && ev.Run? {
      StaysSound(s.rt, s.threads[ev.th], ev.o, ev.m);
    }
  }

  lemma StaysSound(rt: State, t: Task, o: Outcome, m: Move)
    requires !rt.faulty && o.released
    ensures !ThreadRt(rt, t, o, m).faulty
  {
  }

  lemma {:induction false} NeverFaulty(now: nat, configured: int, evs: seq<Event>)
    requires ReleasesSucceed(evs)
    ensures !Play(Init(now, configured), evs).rt.faulty
  {
    if evs != [] {
      NeverFaulty(now, configured, evs[..|evs| - 1]);
      NotFaulty(Play(Init(now, configured), evs[..|evs| - 1]), evs[|evs| - 1]);
    }
  }

  /** If the driver's releases succeed, a device nobody is driving and no deadline covers is at zero. */
  lemma ZeroWithoutDeadline(now: nat, configured: int, evs: seq<Event>)
    requires ReleasesSucceed(evs)
    ensures var s := Play(Init(now, configured), evs); s.dev.Nobody? && s.rt.armDeadline == 0 ==> s.rt.level == 0
  {
    PlayKeeps(now, configured, evs);
    NeverFaulty(now, configured, evs);
  }

  /** No output passes what its command was allowed, or the device's own top. */
  lemma LevelBounded(now: nat, configured: int, evs: seq<Event>, th: nat)
    ensures var s := Play(Init(now, configured), evs);
            && s.rt.level <= Top(s.rt.caps) <= LEVEL_SCALE_MAX
            && (th in s.threads && s.threads[th].Ramp? && s.threads[th].raises > 0 ==> s.rt.level <= s.threads[th].levelMax)
  {
    PlayKeeps(now, configured, evs);
    var s := Play(Init(now, configured), evs);
    if th in s.threads {
      assert TaskOk(s.rt, s.threads[th]);
    }
  }

  // ---- the latch ------------------------------------------------------------------

  /** A goroutine inside Execute with an actuation command, and how often its driver has raised the output. */
  predicate InExecute(t: Task) { t.ExeArmed? || Executing(t) }

  function Raises(t: Task): nat { if t.Ramp? then t.raises else if t.ExeAfter? then t.raises else 0 }

  function Due(t: Task): nat { if t.Ramp? && t.ready then 1 else 0 }

  /** Where the goroutine goes once its Execute has returned. */
  predicate PastExecute(t: Task) {
    t.Done? || t.CommandFree? || ((t.RelCancel? || t.RelLock? || t.RelClear? || t.RelDrive?) && t.after.ToCommand?)
  }

  /** From a on, the Execute of th has got no further than the latch allows. */
  predicate Held(a: System, b: System, th: nat)
    requires th in a.threads
  {
    && th in b.threads
    && (PastExecute(b.threads[th])
        || (&& InExecute(b.threads[th]) && b.rt.cancel
            && Raises(a.threads[th]) <= Raises(b.threads[th])
            && Raises(b.threads[th]) + Due(b.threads[th]) <= Raises(a.threads[th]) + Due(a.threads[th])
            && (Raises(b.threads[th]) == Raises(a.threads[th]) ==> b.rt.level <= a.rt.level)))
  }

  lemma OthersHold(a: System, s: System, th: nat, ev: Event)
    requires Inv(s) && th in a.threads && Held(a, s, th) && Enabled(s, ev) && !(ev.Run? && ev.th == th)
    ensures Held(a, Step(s, ev), th)
  {
    if InExecute(s.threads[th]) {
      assert s.dev == Thread(th);
      if ev.Run? {
        ThreadRtKeeps(s, s.threads[ev.th], ev.o, ev.m);
        CancelStays(s.rt, s.threads[ev.th], ev.o, ev.m);
      }
    }
  }

  lemma CancelStays(rt: State, t: Task, o: Outcome, m: Move)
    ensures rt.cancel ==> ThreadRt(rt, t, o, m).cancel
  {
  }

  lemma ItselfHolds(a: System, s: System, th: nat, o: Outcome, m: Move)
    requires Inv(s) && th in a.threads && Held(a, s, th) && Enabled(s, Run(th, o, m))
    ensures Held(a, Step(s, Run(th, o, m)), th)
  {
    if InExecute(s.threads[th]) {
      CancelStays(s.rt, s.threads[th], o, m);
    }
  }

  /**
   * Once the latch is set while an Execute has the device, it stays set until
   * that Execute returns, and its driver raises the output at most once more:
   * the step it had already polled for, if any.
   */
  lemma {:induction false} LatchSticks(now: nat, configured: int, evs: seq<Event>, more: seq<Event>, th: nat)
    requires var s := Play(Init(now, configured), evs); th in s.threads && InExecute(s.threads[th]) && s.rt.cancel
    ensures Held(Play(Init(now, configured), evs), Play(Init(now, configured), evs + more), th)
  {
    var s := Play(Init(now, configured), evs);
    PlayOn(Init(now, configured), evs, more);
    if more != [] {
      var less, last := more[..|more| - 1], more[|more| - 1];
      LatchSticks(now, configured, evs, less, th);
      PlayOn(Init(now, configured), evs, less);
      PlayKeeps(now, configured, evs + less);
      var t := Play(s, less);
      if Enabled(t, last) {
        if last.Run? && last.th == th { ItselfHolds(s, t, th, last.o, last.m); } else { OthersHold(s, t, th, last); }
      }
    }
  }

  // ---- the arm window --------------------------------------------------------------

  /** In every state the deadline is at most the window past the last arming or acknowledged heartbeat. */
  lemma WindowBounded(now: nat, configured: int, evs: seq<Event>)
    ensures var rt := Play(Init(now, configured), evs).rt;
            && (rt.armDeadline != 0 ==> rt.armDeadline <= rt.renewedAt + MAX_ARM_WINDOW)
            && rt.renewedAt <= rt.now && rt.renewedUntil <= rt.armDeadline
            && (Armed(rt) ==> rt.now < rt.renewedAt + MAX_ARM_WINDOW)
  {
    PlayKeeps(now, configured, evs);
  }

  lemma OnlyExtendRenews(rt: State, t: Task, o: Outcome, m: Move)
    requires RtOk(rt)
    ensures var u := ThreadRt(rt, t, o, m);
            (u.renewedAt != rt.renewedAt || u.armDeadline > rt.armDeadline) ==> t.AckExtend? && Armed(rt) && u.renewedAt == rt.now
  {
  }

  /** Only an arming that worked and the extension of an armed device push the window, and then to its full length from now. */
  lemma OnlyTheseRenew(s: System, ev: Event)
    requires Inv(s)
    ensures var t := Step(s, ev);
            t.rt.renewedAt != s.rt.renewedAt || t.rt.armDeadline > s.rt.armDeadline ==>
              && t.rt.renewedAt == s.rt.now && t.rt.armDeadline == s.rt.now + s.rt.window
              && ((ev.RunArm? && s.armer == ArmSettle(true)) || (ev.Run? && s.threads[ev.th].AckExtend? && Armed(s.rt)))
  {
    if Enabled(s, ev) && ev.Run? {
      OnlyExtendRenews(s.rt, s.threads[ev.th], ev.o, ev.m);
    }
  }

  lemma {:induction false} WindowStands(now: nat, configured: int, evs: seq<Event>)
    ensures Play(Init(now, configured), evs).rt.window == if 0 < configured <= 1_800_000 then configured else 1_800_000
  {
    if evs != [] {
      WindowStands(now, configured, evs[..|evs| - 1]);
      PlayKeeps(now, configured, evs[..|evs| - 1]);
      StepWindow(Play(Init(now, configured), evs[..|evs| - 1]), evs[|evs| - 1]);
    }
  }

  lemma StepWindow(s: System, ev: Event)
    requires Inv(s)
    ensures Step(s, ev).rt.window == s.rt.window
  {
    if Enabled(s, ev) && ev.Run? {
      ThreadRtKeeps(s, s.threads[ev.th], ev.o, ev.m);
    }
  }

  /**
   * An arming whose driver calls worked, and an extension of an armed device, do open the window: the
   * one configured, or 30 minutes.
   */
  lemma WindowOpens(now: nat, configured: int, evs: seq<Event>, ev: Event)
    requires var s := Play(Init(now, configured), evs);
             && Enabled(s, ev)
             && ((ev.RunArm? && s.armer == ArmSettle(true)) || (ev.Run? && s.threads[ev.th].AckExtend? && Armed(s.rt)))
    ensures var s := Play(Init(now, configured), evs);
            Step(s, ev).rt.armDeadline == s.rt.now + if 0 < configured <= 1_800_000 then configured else 1_800_000
  {
    WindowStands(now, configured, evs);
  }

  /** An acknowledgment leads to an extension exactly when it is for the session attached, or names none. */
  lemma ExtendsOnlyInSession(s: System, th: nat, o: Outcome, m: Move)
    requires th in s.threads && s.threads[th].AckMark?
    ensures var t := Step(s, Run(th, o, m)); var from := s.threads[th].from;
            && t.link.lastAck == s.rt.now
            && (t.threads[th].AckExtend? <==> s.link.attached && (from == None || from == Some(s.link.sid)))
  {
  }

  /** Nothing else begins one. */
  lemma OnlyAcksExtend(s: System, ev: Event, th: nat)
    requires th in Step(s, ev).threads && Step(s, ev).threads[th].AckExtend?
    requires th in s.threads ==> !s.threads[th].AckExtend?
    ensures th in s.threads && s.threads[th].AckMark? && s.link.attached
  {
  }
}
