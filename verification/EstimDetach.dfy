/**
 * What a detach leaves behind, over every run: the device down for good when
 * no arming was waiting for it, and, when one was, a way to end up armed.
 */
module EstimDetach {
  import opened Wrappers
  import opened EstimRuntime
  import opened EstimSystem
  import opened EstimInvariant
  import opened EstimTheorems

  // ---- what lasts until a session attaches ---------------------------------------------

  /** How far an arming still has to go. */
  function Rank(t: ArmTask): nat {
    match t case ArmLock => 5 case ArmClear => 4 case ArmDrive => 3 case ArmSettle(_) => 2 case ArmFinish => 1 case ArmIdle => 0
  }

  /** No session is attached, so no arming starts: the one met only goes on. */
  predicate Apart(s: System, met: ArmTask) { !s.link.attached && Rank(s.armer) <= Rank(met) }

  /** An arming past its clearing of the latch does not clear it again. */
  predicate Latched(s: System, met: ArmTask) { Rank(met) < Rank(ArmClear) ==> s.rt.cancel }

  predicate Driving(s: System) { s.dev.Thread? && s.dev.th in s.threads && Executing(s.threads[s.dev.th]) }

  /** No deadline, nobody driving, and no arming that could change that. */
  predicate Disarmed(s: System) {
    !s.link.attached && Rank(s.armer) <= Rank(ArmFinish) && s.rt.armDeadline == 0 && !Driving(s)
  }

  predicate HeldIsDown(s: System) { s.rt.device ==> s.rt.level == 0 }

  /** What a Release's ending says of the output: brought down, or at least not that of a held device. */
  predicate Brought(s: System, ending: Ending) {
    (ending.Zeroed? ==> s.rt.level == 0) && (!ending.StillHeld? ==> HeldIsDown(s))
  }

  lemma ApartLasts(s: System, ev: Event, met: ArmTask)
    requires Inv(s) && Apart(s, met) && Step(s, ev).link.attaches == s.link.attaches
    ensures Apart(Step(s, ev), met)
    ensures Latched(s, met) ==> Latched(Step(s, ev), met)
  {
    if Enabled(s, ev) && ev.Run? {
      CancelStays(s.rt, s.threads[ev.th], ev.o, ev.m);
    }
  }

  lemma DisarmLasts(s: System, ev: Event)
    requires Inv(s) && Disarmed(s) && Step(s, ev).link.attaches == s.link.attaches
    ensures Disarmed(Step(s, ev))
    ensures s.rt.level == 0 ==> Step(s, ev).rt.level == 0
    ensures HeldIsDown(s) ==> HeldIsDown(Step(s, ev))
  {
    ApartLasts(s, ev, ArmFinish);
    StepKeeps(s, ev);
    if Enabled(s, ev) && ev.Run? {
      var t := s.threads[ev.th];
      if Holds(t) {
        assert s.dev == Thread(ev.th);
      }
      ThreadRtKeeps(s, t, ev.o, ev.m);
      NoDriverStarts(s, t, ev.o, ev.m);
      NothingRises(s.rt, t, ev.o, ev.m);
    }
  }

  /** Without a deadline no goroutine gets as far as the driver. */
  lemma NoDriverStarts(s: System, t: Task, o: Outcome, m: Move)
    requires s.rt.armDeadline == 0 && !Executing(t)
    ensures !Executing(ThreadNext(s, t, o, m))
  {
    if OfSession(t) {
      SessionDrivesNone(s, t);
    } else if OfExecute(t) {
      UnarmedRefused(s, t, o, m);
    } else {
      DeviceDrivesNone(s, t, o);
    }
  }

  lemma SessionDrivesNone(s: System, t: Task)
    ensures !Executing(SessionNext(s, t))
  {
  }

  lemma UnarmedRefused(s: System, t: Task, o: Outcome, m: Move)
    requires s.rt.armDeadline == 0 && !Executing(t)
    ensures !Executing(ExecuteNext(s, t, o, m))
  {
  }

  lemma DeviceDrivesNone(s: System, t: Task, o: Outcome)
    ensures !Executing(DeviceNext(s, t, o))
  {
  }

  /** Nor does a deadline appear, or the output rise. */
  lemma NothingRises(rt: State, t: Task, o: Outcome, m: Move)
    requires rt.armDeadline == 0 && !Executing(t)
    ensures var u := ThreadRt(rt, t, o, m);
            && u.armDeadline == 0 && (rt.level == 0 ==> u.level == 0)
            && ((rt.device ==> rt.level == 0) && u.device ==> u.level == 0)
  {
  }

  // ---- a detach, step by step --------------------------------------------------------------

  /** What holds since the mark, so long as no session has attached. */
  predicate Since(s: System, met: ArmTask, since: nat, latched: bool) {
    since <= s.link.attaches && (since == s.link.attaches ==> Apart(s, met) && (latched ==> Latched(s, met)))
  }

  /** A detach that met no arming waiting for the device has disarmed it. */
  predicate Down(s: System, met: ArmTask, since: nat) { since == s.link.attaches && !met.ArmLock? ==> Disarmed(s) }

  predicate DetachOk(s: System, t: Task) {
    match t
    case DetachCancel(met, since) => Since(s, met, since, false)
    case RelCancel(ToDetach(met, since)) => Since(s, met, since, true)
    case RelLock(ToDetach(met, since)) => Since(s, met, since, true)
    case RelClear(ToDetach(met, since)) => Since(s, met, since, true)
    case RelDrive(ToDetach(met, since)) => Since(s, met, since, true) && Down(s, met, since)
    case DetachReset(met, since, ending) => DetachedOk(s, met, since, ending)
    case Detached(met, since, ending) => DetachedOk(s, met, since, ending)
    case _ => true
  }

  predicate DetachedOk(s: System, met: ArmTask, since: nat, ending: Ending) {
    && Since(s, met, since, true) && Down(s, met, since)
    && (since == s.link.attaches && !met.ArmLock? ==> Brought(s, ending))
  }

  predicate DetachesOk(s: System) { forall th | th in s.threads :: DetachOk(s, s.threads[th]) }

  lemma OthersDetachOk(s: System, ev: Event, t: Task)
    requires Inv(s) && DetachOk(s, t)
    ensures DetachOk(Step(s, ev), t)
  {
    var u := Step(s, ev);
    assert u.link.attaches >= s.link.attaches;
    if u.link.attaches == s.link.attaches && InDetach(t) {
      if Apart(s, MetBy(t)) { ApartLasts(s, ev, MetBy(t)); }
      if Disarmed(s) { DisarmLasts(s, ev); }
    }
  }

  function MetBy(t: Task): ArmTask
    requires InDetach(t)
  {
    if t.DetachCancel? || t.DetachReset? || t.Detached? then t.met else t.after.met
  }

  function SinceOf(t: Task): nat
    requires InDetach(t)
  {
    if t.DetachCancel? || t.DetachReset? || t.Detached? then t.since else t.after.since
  }

  predicate InDetach(t: Task) {
    || t.DetachCancel? || t.DetachReset? || t.Detached?
    || ((t.RelCancel? || t.RelLock? || t.RelClear? || t.RelDrive?) && t.after.ToDetach?)
  }

  lemma OnlyMarksBegin(s: System, t: Task, o: Outcome, m: Move)
    requires !InDetach(t) && !t.DetachMark?
    ensures !InDetach(ThreadNext(s, t, o, m))
  {
    if OfSession(t) {
      SessionBeginsNone(s, t);
    } else if OfExecute(t) {
      ExecuteBeginsNone(s, t, o, m);
    } else {
      DeviceBeginsNone(s, t, o);
    }
  }

  lemma SessionBeginsNone(s: System, t: Task)
    requires !InDetach(t) && !t.DetachMark?
    ensures !InDetach(SessionNext(s, t))
  {
  }

  lemma ExecuteBeginsNone(s: System, t: Task, o: Outcome, m: Move)
    requires OfExecute(t)
    ensures !InDetach(ExecuteNext(s, t, o, m))
  {
  }

  lemma DeviceBeginsNone(s: System, t: Task, o: Outcome)
    requires !InDetach(t) && !OfSession(t)
    ensures !InDetach(DeviceNext(s, t, o))
  {
  }

  lemma ReleaseAdvances(s: System, th: nat, o: Outcome, m: Move)
    requires Inv(s) && th in s.threads && DetachOk(s, s.threads[th]) && Enabled(s, Run(th, o, m))
    requires InDetach(s.threads[th]) && (s.threads[th].RelClear? || s.threads[th].RelDrive?)
    ensures DetachOk(RunThread(s, th, o, m), RunThread(s, th, o, m).threads[th])
  {
    assert s.dev == Thread(th);
    assert TaskOk(s.rt, s.threads[th]);
  }

  lemma DetachAdvances(s: System, th: nat, o: Outcome, m: Move)
    requires Inv(s) && th in s.threads && DetachOk(s, s.threads[th]) && Enabled(s, Run(th, o, m))
    ensures DetachOk(RunThread(s, th, o, m), RunThread(s, th, o, m).threads[th])
  {
    var t := s.threads[th];
    var u := RunThread(s, th, o, m);
    if !InDetach(t) && !t.DetachMark? {
      OnlyMarksBegin(s, t, o, m);
      assert !InDetach(u.threads[th]);
    } else if t.RelClear? || t.RelDrive? {
      ReleaseAdvances(s, th, o, m);
    } else if t.DetachReset? {
      OthersDetachOk(s, Run(th, o, m), t);
    }
  }

  lemma StepDetaches(s: System, ev: Event)
    requires Inv(s) && DetachesOk(s)
    ensures DetachesOk(Step(s, ev))
  {
    var u := Step(s, ev);
    forall th | th in u.threads ensures DetachOk(u, u.threads[th]) {
      if th in s.threads {
        if Enabled(s, ev) && ev.Run? && ev.th == th {
          DetachAdvances(s, th, ev.o, ev.m);
        } else {
          OthersDetachOk(s, ev, s.threads[th]);
        }
      }
    }
  }

  lemma {:induction false} PlayDetaches(now: nat, configured: int, evs: seq<Event>)
    ensures DetachesOk(Play(Init(now, configured), evs))
  {
    if evs != [] {
      PlayDetaches(now, configured, evs[..|evs| - 1]);
      PlayKeeps(now, configured, evs[..|evs| - 1]);
      StepDetaches(Play(Init(now, configured), evs[..|evs| - 1]), evs[|evs| - 1]);
    }
  }

  /**
   * A detach that met no arming waiting for the device leaves, in every state
   * until a session attaches again, the device unarmed and no driver running
   * a command. The output is zero if the driver's release went through, and
   * otherwise that of no held device unless the release was cut off by the
   * end of the program. The latch is still set if the arming, if any, was past
   * clearing it.
   */
  lemma DetachQuiescence(now: nat, configured: int, evs: seq<Event>, th: nat)
    requires var s := Play(Init(now, configured), evs);
             th in s.threads && s.threads[th].Detached? && !s.threads[th].met.ArmLock? && s.threads[th].since == s.link.attaches
    ensures var s := Play(Init(now, configured), evs); var t := s.threads[th];
            && !s.link.attached && s.rt.armDeadline == 0 && !Armed(s.rt)
            && (forall j | j in s.threads :: !Executing(s.threads[j]))
            && (t.ending.Zeroed? ==> s.rt.level == 0)
            && (!t.ending.StillHeld? && s.rt.device ==> s.rt.level == 0)
            && (t.met.ArmIdle? ==> !s.link.arming)
            && (!t.met.ArmClear? ==> s.rt.cancel)
  {
    PlayKeeps(now, configured, evs);
    PlayDetaches(now, configured, evs);
    var s := Play(Init(now, configured), evs);
    assert DetachOk(s, s.threads[th]);
  }
}
