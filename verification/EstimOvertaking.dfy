/**
 * A detach and an arming under way: which of them wins, and what a stale
 * heartbeat leads to.
 */
module EstimOvertaking {
  import opened Wrappers
  import opened EstimRuntime
  import opened EstimSystem
  import opened EstimInvariant
  import opened EstimTheorems
  import opened EstimDetach

  // ---- the mark stands ------------------------------------------------------------------

  lemma MarkStands(s: System, ev: Event, th: nat)
    requires th in s.threads && InDetach(s.threads[th])
    ensures var t := Step(s, ev);
            && th in t.threads && InDetach(t.threads[th])
            && MetBy(t.threads[th]) == MetBy(s.threads[th]) && SinceOf(t.threads[th]) == SinceOf(s.threads[th])
  {
  }

  lemma {:induction false} MarkKept(s: System, more: seq<Event>, th: nat)
    requires th in s.threads && InDetach(s.threads[th])
    ensures var t := Play(s, more);
            && th in t.threads && InDetach(t.threads[th])
            && MetBy(t.threads[th]) == MetBy(s.threads[th]) && SinceOf(t.threads[th]) == SinceOf(s.threads[th])
  {
    if more != [] {
      MarkKept(s, more[..|more| - 1], th);
      MarkStands(Play(s, more[..|more| - 1]), more[|more| - 1], th);
    }
  }

  // ---- getting there -------------------------------------------------------------------------

  ghost predicate Reaches(s: System, t: System) { exists evs: seq<Event> :: Play(s, evs) == t }

  lemma ReachesOnce(s: System, t: System, ev: Event)
    requires Reaches(s, t)
    ensures Reaches(s, Step(t, ev))
  {
    var evs :| Play(s, evs) == t;
    assert (evs + [ev])[..|evs + [ev]| - 1] == evs;
    assert Play(s, evs + [ev]) == Step(t, ev);
  }

  lemma ReachesItself(s: System)
    ensures Reaches(s, s)
  {
    assert Play(s, []) == s;
  }

  const SMOOTH := Outcome(true, true, false, 0, NO_CAPS)

  /** One step of a goroutine in which nothing goes wrong and its driver, if any, polls. */
  lemma Goes(s: System, t: System, th: nat) returns (u: System)
    requires Reaches(s, t) && Enabled(t, Run(th, SMOOTH, Poll))
    ensures u == RunThread(t, th, SMOOTH, Poll) && Reaches(s, u)
  {
    ReachesOnce(s, t, Run(th, SMOOTH, Poll));
    u := RunThread(t, th, SMOOTH, Poll);
  }

  lemma ReachesOn(s: System, t: System, u: System)
    requires Reaches(s, t) && Reaches(t, u)
    ensures Reaches(s, u)
  {
    var evs :| Play(s, evs) == t;
    var more :| Play(t, more) == u;
    PlayOn(s, evs, more);
  }

  /** What a continuation that only lets others finish leaves as it was. */
  predicate Waits(s: System, t: System, th: nat) {
    t.link == s.link && t.armer == s.armer && t.rt.window == s.rt.window && th in s.threads && th in t.threads
        && t.threads[th] == s.threads[th]
  }

  /** How many steps a goroutine holding the device is from letting it go, when nothing goes wrong. */
  function Left(t: Task): nat {
    if t.ExeCheck? then 8 else if t.ExeArmed? then 7 else if t.ExeLatch? then 6 else if t.ExeStart? then 5 else if t.Ramp? then 4
    else if t.ExeAfter? || t.OpenDrive? then 3
    else if t.RelClear? || t.ExeClear? || t.OpenNotify? || t.RenewDrive? then 2
    else 1
  }

  lemma ExecuteGoesOn(s: System, t: Task)
    requires Holds(t) && OfExecute(t)
    ensures var k := ExecuteNext(s, t, SMOOTH, End(true)); Holds(k) ==> Left(k) < Left(t)
    ensures ThreadRt(s.rt, t, SMOOTH, End(true)).window == s.rt.window && ThreadLink(s, t) == s.link
  {
  }

  lemma DeviceGoesOn(s: System, t: Task)
    requires Holds(t) && !OfExecute(t) && !s.link.attached
    ensures var k := DeviceNext(s, t, SMOOTH); Holds(k) ==> Left(k) < Left(t)
    ensures ThreadRt(s.rt, t, SMOOTH, End(true)).window == s.rt.window && ThreadLink(s, t) == s.link
  {
  }

  lemma HolderGoesOn(s: System, j: nat) returns (t: System)
    requires LockOk(s) && s.dev == Thread(j) && !s.link.attached
    ensures t == Step(s, Run(j, SMOOTH, End(true)))
    ensures t.link == s.link && t.armer == s.armer && t.rt.window == s.rt.window && j in t.threads
            && t.threads == s.threads[j := t.threads[j]]
    ensures t.dev.Nobody? || (t.dev == Thread(j) && Left(t.threads[j]) < Left(s.threads[j]))
  {
    t := RunThread(s, j, SMOOTH, End(true));
    if OfExecute(s.threads[j]) {
      ExecuteGoesOn(s, s.threads[j]);
    } else {
      DeviceGoesOn(s, s.threads[j]);
    }
  }

  /** Whoever has the device lets it go. */
  lemma DeviceFreed(s: System, th: nat) returns (t: System)
    requires Inv(s) && !s.link.attached && s.armer.ArmLock? && th in s.threads && s.threads[th].DetachCancel?
    ensures Reaches(s, t) && Waits(s, t, th) && Inv(t) && t.dev.Nobody?
  {
    ReachesItself(s);
    t := s;
    while !t.dev.Nobody?
      invariant Reaches(s, t) && Waits(s, t, th) && Inv(t)
      decreases if t.dev.Nobody? then 0 else if t.dev.Thread? && t.dev.th in t.threads then Left(t.threads[t.dev.th]) else 1
    {
      var j := t.dev.th;
      var ev := Run(j, SMOOTH, End(true));
      StepKeeps(t, ev);
      ReachesOnce(s, t, ev);
      t := HolderGoesOn(t, j);
    }
  }

  lemma {:induction false} Above(names: set<nat>) returns (j: nat)
    ensures forall k :: k in names ==> k < j
  {
    if names == {} {
      j := 0;
    } else {
      var k :| k in names;
      var i := Above(names - {k});
      j := if i <= k then k + 1 else i;
      assert forall n :: n in names ==> n == k || n in names - {k};
    }
  }

  /** A device is found and held. */
  lemma DeviceComes(s: System, j: nat) returns (t: System)
    requires s.dev.Nobody? && !s.rt.device && !s.link.attached && j !in s.threads
    ensures Reaches(s, t)
    ensures t == s.(rt := Opened(s.rt, NO_CAPS), threads := s.threads[j := Done])
  {
    ReachesItself(s);
    ReachesOnce(s, s, Call(j, OpenLock));
    t := Goes(s, s.(threads := s.threads[j := OpenLock]), j);
    assert t.threads == s.threads[j := OpenDrive];
    var u := DeviceOpens(t, j);
    ReachesOn(s, t, u);
    t := u;
  }

  lemma DeviceOpens(s: System, j: nat) returns (t: System)
    requires s.dev == Thread(j) && !s.rt.device && !s.link.attached && j in s.threads && s.threads[j].OpenDrive?
    ensures Reaches(s, t)
    ensures t == s.(rt := Opened(s.rt, NO_CAPS), dev := Nobody, threads := s.threads[j := Done])
  {
    ReachesItself(s);
    t := Goes(s, s, j);
    assert t.threads == s.threads[j := OpenNotify];
    t := Goes(s, t, j);
    assert t.threads == s.threads[j := Done];
  }

  /** An arming waits for the device while no session is attached. */
  predicate Overtaken(s: System) { !s.link.attached && s.rt.device && s.dev.Nobody? && s.armer.ArmLock? }

  /** The device is free and there, if need be found again. */
  lemma DeviceReady(s: System, th: nat) returns (t: System)
    requires Inv(s) && !s.link.attached && s.armer.ArmLock? && th in s.threads && s.threads[th].DetachCancel?
    ensures Reaches(s, t) && Waits(s, t, th) && Overtaken(t)
  {
    t := DeviceFreed(s, th);
    if !t.rt.device {
      var j := Above(t.threads.Keys);
      var u := DeviceComes(t, j);
      ReachesOn(s, t, u);
      t := u;
    }
  }

  /** The detach goes through while the arming still waits. */
  lemma DetachCompletes(s: System, th: nat) returns (t: System)
    requires th in s.threads && s.threads[th].DetachCancel? && Overtaken(s)
    ensures Reaches(s, t) && Overtaken(t) && t.link == s.link && t.rt.window == s.rt.window
    ensures th in t.threads && t.threads[th] == Detached(s.threads[th].met, s.threads[th].since, Zeroed)
  {
    var after := ToDetach(s.threads[th].met, s.threads[th].since);
    ReachesItself(s);
    t := Goes(s, s, th);
    assert t.threads == s.threads[th := RelCancel(after)];
    var u := ReleaseBegins(t, th);
    ReachesOn(s, t, u);
    var v := ReleaseCompletes(u, th);
    ReachesOn(s, u, v);
    t := v;
  }

  lemma ReleaseBegins(s: System, th: nat) returns (t: System)
    requires th in s.threads && s.threads[th].RelCancel? && Overtaken(s)
    ensures Reaches(s, t) && Overtaken(t) && t.link == s.link && t.rt.window == s.rt.window
    ensures th in t.threads && t.threads[th] == RelLock(s.threads[th].after)
  {
    ReachesItself(s);
    t := Goes(s, s, th);
  }

  lemma ReleaseCompletes(s: System, th: nat) returns (t: System)
    requires th in s.threads && s.threads[th].RelLock? && s.threads[th].after.ToDetach? && Overtaken(s)
    ensures Reaches(s, t) && Overtaken(t) && t.link == s.link && t.rt.window == s.rt.window
    ensures th in t.threads && t.threads[th] == Detached(s.threads[th].after.met, s.threads[th].after.since, Zeroed)
  {
    var after := s.threads[th].after;
    ReachesItself(s);
    t := Goes(s, s, th);
    assert t == s.(dev := Thread(th), threads := s.threads[th := RelClear(after)]);
    var u := DeviceReleased(t, th);
    ReachesOn(s, t, u);
    t := u;
  }

  lemma DeviceReleased(s: System, th: nat) returns (t: System)
    requires th in s.threads && s.threads[th].RelClear? && s.threads[th].after.ToDetach?
    requires s.dev == Thread(th) && s.rt.device && !s.link.attached && s.armer.ArmLock?
    ensures Reaches(s, t) && Overtaken(t) && t.link == s.link && t.rt.window == s.rt.window
    ensures th in t.threads && t.threads[th] == Detached(s.threads[th].after.met, s.threads[th].after.since, Zeroed)
  {
    var after := s.threads[th].after;
    ReachesItself(s);
    t := Goes(s, s, th);
    assert t.threads == s.threads[th := RelDrive(after)];
    var u := OutputsReleased(t, th);
    ReachesOn(s, t, u);
    t := u;
  }

  lemma OutputsReleased(s: System, th: nat) returns (t: System)
    requires th in s.threads && s.threads[th].RelDrive? && s.threads[th].after.ToDetach?
    requires s.dev == Thread(th) && s.rt.device && !s.link.attached && s.armer.ArmLock?
    ensures Reaches(s, t) && Overtaken(t) && t.link == s.link && t.rt.window == s.rt.window
    ensures th in t.threads && t.threads[th] == Detached(s.threads[th].after.met, s.threads[th].after.since, Zeroed)
  {
    var after := s.threads[th].after;
    ReachesItself(s);
    t := Goes(s, s, th);
    assert t.threads == s.threads[th := DetachReset(after.met, after.since, Zeroed)];
    t := Goes(s, t, th);
  }

  /** The arming takes the device after the detach has let it go. */
  lemma ArmingGoesOn(s: System) returns (t: System)
    requires Overtaken(s) && 0 < s.rt.window
    ensures Reaches(s, t) && Armed(t.rt) && t.threads == s.threads && t.link == s.link.(arming := false)
  {
    ReachesItself(s);
    t := s;
    while !t.armer.ArmIdle?
      invariant Reaches(s, t) && t.threads == s.threads && t.rt.device && 0 < t.rt.window
      invariant t.link == if t.armer.ArmIdle? then s.link.(arming := false) else s.link
      invariant t.armer.ArmLock? ==> t.dev.Nobody?
      invariant !t.armer.ArmLock? && !t.armer.ArmClear? ==> !t.rt.cancel
      invariant t.armer.ArmSettle? ==> t.armer.ok
      invariant t.armer.ArmFinish? || t.armer.ArmIdle? ==> Armed(t.rt)
      decreases match t.armer case ArmLock => 5 case ArmClear => 4 case ArmDrive => 3 case ArmSettle(_) =>
          2 case ArmFinish => 1 case ArmIdle => 0
    {
      ReachesOnce(s, t, RunArm(SMOOTH));
      t := StepArm(t, SMOOTH);
    }
  }

  // ---- which of them wins ------------------------------------------------------------------

  /** The detach of th is through, no session has attached since, and the device is armed. */
  predicate Overtook(s: System, th: nat, attaches: nat) {
    th in s.threads && s.threads[th].Detached? && !s.link.attached && s.link.attaches == attaches && Armed(s.rt)
  }

  lemma ArmingWins(s: System, th: nat) returns (t: System)
    requires Inv(s) && !s.link.attached && s.armer.ArmLock? && th in s.threads && s.threads[th].DetachCancel?
    ensures Reaches(s, t) && Overtook(t, th, s.link.attaches)
    ensures t.threads[th] == Detached(s.threads[th].met, s.threads[th].since, Zeroed)
  {
    var ready := DeviceReady(s, th);
    var gone := DetachCompletes(ready, th);
    ReachesOn(s, ready, gone);
    t := ArmingGoesOn(gone);
    ReachesOn(s, gone, t);
  }

  lemma DetachWins(now: nat, configured: int, evs: seq<Event>, th: nat, more: seq<Event>)
    requires var s := Play(Init(now, configured), evs); th in s.threads && InDetach(s.threads[th]) && !MetBy(s.threads[th]).ArmLock?
    ensures var s := Play(Init(now, configured), evs); !Overtook(Play(s, more), th, SinceOf(s.threads[th]))
  {
    var s := Play(Init(now, configured), evs);
    PlayOn(Init(now, configured), evs, more);
    MarkKept(s, more, th);
    if Overtook(Play(s, more), th, SinceOf(s.threads[th])) {
      DetachQuiescence(now, configured, evs + more, th);
    }
  }

  /**
   * In every reachable state a detach about to mark the session can end with
   * the device armed and no session attached, for some continuation, exactly
   * when an arming is then waiting for the device: one that has the device
   * already is undone by the release, and none can start.
   */
  lemma OvertakenExactly(now: nat, configured: int, evs: seq<Event>, th: nat, o: Outcome, m: Move)
    requires var s := Play(Init(now, configured), evs); th in s.threads && s.threads[th].DetachMark?
    ensures var s := Play(Init(now, configured), evs); var marked := Step(s, Run(th, o, m));
            (exists t: System :: Reaches(marked, t) && Overtook(t, th, s.link.attaches)) <==> s.armer.ArmLock?
  {
    var s := Play(Init(now, configured), evs);
    var ev := Run(th, o, m);
    var marked := Step(s, ev);
    assert marked.threads[th] == DetachCancel(s.armer, s.link.attaches);
    assert (evs + [ev])[..|evs + [ev]| - 1] == evs;
    PlayKeeps(now, configured, evs + [ev]);
    if s.armer.ArmLock? {
      var t := ArmingWins(marked, th);
    } else {
      forall t: System | Reaches(marked, t) ensures !Overtook(t, th, s.link.attaches) {
        var more :| Play(marked, more) == t;
        DetachWins(now, configured, evs + [ev], th, more);
      }
    }
  }

  /** A session attaches, which starts an arming. */
  lemma AttachArms(s: System) returns (t: System)
    requires s.dev.Nobody? && s.rt.device && s.rt.armDeadline == 0 && s.armer.ArmIdle? && !s.link.arming && !s.link.attached
    requires 1 !in s.threads
    ensures Reaches(s, t)
    ensures t.dev.Nobody? && t.rt.device && t.armer.ArmLock? && t.link.arming && t.threads == s.threads[1 := Done]
  {
    ReachesItself(s);
    ReachesOnce(s, s, Call(1, AttachMark(7)));
    t := s.(threads := s.threads[1 := AttachMark(7)]);
    t := Goes(s, t, 1);
    assert t.threads == s.threads[1 := AttachReset];
    var u := AutoArms(t, 1);
    ReachesOn(s, t, u);
    t := u;
  }

  lemma AutoArms(s: System, th: nat) returns (t: System)
    requires s.dev.Nobody? && s.rt.device && s.rt.armDeadline == 0 && s.armer.ArmIdle? && !s.link.arming && s.link.attached
    requires th in s.threads && s.threads[th].AttachReset?
    ensures Reaches(s, t)
    ensures t.dev.Nobody? && t.rt.device && t.armer.ArmLock? && t.link.arming && t.threads == s.threads[th := Done]
  {
    ReachesItself(s);
    t := Goes(s, s, th);
    assert t.threads == s.threads[th := AutoArm] && t.link == s.link && t.dev == s.dev && t.armer == s.armer;
    t := Goes(s, t, th);
    assert t.threads == s.threads[th := Done];
  }

  /** And it does happen: a run that ends detached and armed. */
  lemma DetachDuringArming(now: nat, configured: int) returns (t: System)
    ensures Reaches(Init(now, configured), t)
    ensures 2 in t.threads && t.threads[2] == Detached(ArmLock, t.link.attaches, Zeroed) && !t.link.attached && Armed(t.rt)
  {
    var s := Init(now, configured);
    var held := DeviceComes(s, 0);
    var arming := AttachArms(held);
    ReachesOn(s, held, arming);
    ReachesOnce(s, arming, Call(2, DetachMark));
    var begun := Goes(s, arming.(threads := arming.threads[2 := DetachMark]), 2);
    var evs :| Play(s, evs) == begun;
    PlayKeeps(now, configured, evs);
    t := ArmingWins(begun, 2);
    ReachesOn(s, begun, t);
  }

  // ---- the heartbeat ---------------------------------------------------------------

  predicate DetachPath(t: Task) { t.DetachMark? || InDetach(t) }

  predicate StaleTick(s: System, t: Task) { t.BeatJudge? && s.rt.now - t.acked > ACK_STALE }

  lemma StaleStep(s: System, ev: Event, th: nat)
    requires th in s.threads && (StaleTick(s, s.threads[th]) || DetachPath(s.threads[th]))
    ensures th in Step(s, ev).threads
    ensures StaleTick(Step(s, ev), Step(s, ev).threads[th]) || DetachPath(Step(s, ev).threads[th])
  {
    if Enabled(s, ev) && ev.Run? {
      TimeStands(s.rt, s.threads[ev.th], ev.o, ev.m);
    }
  }

  lemma TimeStands(rt: State, t: Task, o: Outcome, m: Move)
    ensures ThreadRt(rt, t, o, m).now == rt.now
  {
  }

  /**
   * A heartbeat tick that finds the last acknowledgment over 15 s old detaches, and once through, no
   * arming met waiting, has disarmed the device.
   */
  lemma {:induction false} StaleTickDetaches(now: nat, configured: int, evs: seq<Event>, more: seq<Event>, th: nat)
    requires var s := Play(Init(now, configured), evs); th in s.threads && StaleTick(s, s.threads[th])
    ensures var s := Play(Init(now, configured), evs + more);
            && th in s.threads && (StaleTick(s, s.threads[th]) || DetachPath(s.threads[th]))
            && (s.threads[th].Detached? && !s.threads[th].met.ArmLock? && s.threads[th].since == s.link.attaches
                ==> !Armed(s.rt) && s.rt.armDeadline == 0)
  {
    PlayOn(Init(now, configured), evs, more);
    PlayDetaches(now, configured, evs + more);
    if more == [] {
    } else {
      var less := more[..|more| - 1];
      StaleTickDetaches(now, configured, evs, less, th);
      PlayOn(Init(now, configured), evs, less);
      StaleStep(Play(Init(now, configured), evs + less), more[|more| - 1], th);
    }
    var s := Play(Init(now, configured), evs + more);
    assert DetachOk(s, s.threads[th]);
  }
}
