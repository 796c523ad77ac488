/**
 * When a publication waits for a replacement and until when, told by the
 * calls and the clock alone.
 */
module ServeHandover {
  import opened Wrappers
  import opened ServePublication

  /** The state the first n events lead to. */
  function At(now: int, evs: seq<Event>, n: nat): Publication
    requires n <= |evs|
  {
    Play(Published(now), evs[..n])
  }

  /** The clock after the first n events. */
  function Clock(now: int, evs: seq<Event>, n: nat): int
    requires n <= |evs|
  {
    if n == 0 then now else Clock(now, evs, n - 1) + if evs[n - 1].Tick? then evs[n - 1].ms else 0
  }

  /** The publishers that have joined and not left after the first n events. */
  function Publishers(now: int, evs: seq<Event>, n: nat): int
    requires n <= |evs|
  {
    if n == 0 then 1
    else Publishers(now, evs, n - 1) + if !Taken(now, evs, n - 1) then 0 else if evs[n - 1].Join? then 1
        else if evs[n - 1].Release? then -1 else 0
  }

  /** Event j happens: it is not a call nobody could make. */
  predicate Taken(now: int, evs: seq<Event>, j: nat)
    requires j < |evs|
  {
    Enabled(At(now, evs, j), evs[j])
  }

  /** When a handover announced at this time with this grace lapses; 0 stands for eight seconds. */
  function Deadline(time: int, grace: int): int { time + if grace == 0 then 8_000 else grace }

  /** Call a announced the handover that is armed after n events: no other since, nobody joined, not closed. */
  predicate Announced(now: int, evs: seq<Event>, n: nat, a: nat)
    requires n <= |evs|
  {
    && a < n && evs[a].Arm? && Taken(now, evs, a)
    && forall j :: a < j < n && Taken(now, evs, j) ==> !evs[j].Arm? && !evs[j].Join? && !evs[j].CloseRuns?
  }

  ghost predicate HandoverTold(p: Publication, now: int, evs: seq<Event>, n: nat)
    requires n <= |evs|
  {
    && p.now == Clock(now, evs, n) && p.live == Publishers(now, evs, n)
    && (forall a: nat :: Announced(now, evs, n, a) ==> p.handover == Some(Deadline(Clock(now, evs, a), evs[a].grace)))
    && ((forall a: nat :: !Announced(now, evs, n, a)) ==> p.handover.None?)
  }

  lemma AnnouncedOn(now: int, evs: seq<Event>, n: nat, a: nat)
    requires n < |evs|
    ensures Announced(now, evs, n + 1, a) <==>
            (a == n && evs[n].Arm? && Taken(now, evs, n)) ||
            (Announced(now, evs, n, a) && !(Taken(now, evs, n) && (evs[n].Arm? || evs[n].Join? || evs[n].CloseRuns?)))
  {
  }

  lemma StepHandover(p: Publication, ev: Event)
    requires Enabled(p, ev)
    ensures Step(p, ev).handover == (if ev.Arm? then Some(Deadline(p.now, ev.grace)) else if ev.Join?
            || ev.CloseRuns? then None else p.handover)
    ensures Step(p, ev).now == p.now + if ev.Tick? then ev.ms else 0
    ensures Step(p, ev).live == p.live + if ev.Join? then 1 else if ev.Release? then -1 else 0
  {
  }

  lemma HandoverOn(now: int, evs: seq<Event>, n: nat)
    requires n < |evs| && HandoverTold(At(now, evs, n), now, evs, n)
    ensures HandoverTold(At(now, evs, n + 1), now, evs, n + 1)
  {
    var p, q, next := At(now, evs, n), At(now, evs, n + 1), n + 1;
    assert q == Step(p, evs[n]) by {
      assert evs[..n + 1][..n] == evs[..n];
    }
    if Taken(now, evs, n) {
      StepHandover(p, evs[n]);
    }
    forall a: nat
      ensures Announced(now, evs, next, a) <==>
              (a == n && evs[n].Arm? && Taken(now, evs, n)) ||
              (Announced(now, evs, n, a) && !(Taken(now, evs, n) && (evs[n].Arm? || evs[n].Join? || evs[n].CloseRuns?)))
    {
      AnnouncedOn(now, evs, n, a);
    }
    if Taken(now, evs, n) && evs[n].Arm? {
      assert Announced(now, evs, next, n);
    } else if exists a: nat :: Announced(now, evs, n, a) {
      var a: nat :| Announced(now, evs, n, a);
      assert Announced(now, evs, next, a) || (Taken(now, evs, n) && (evs[n].Join? || evs[n].CloseRuns?));
    }
  }

  lemma {:induction false} RunHandover(now: int, evs: seq<Event>, n: nat)
    requires n <= |evs|
    ensures HandoverTold(At(now, evs, n), now, evs, n)
  {
    if n > 0 {
      RunHandover(now, evs, n - 1);
      HandoverOn(now, evs, n - 1);
    }
  }

  /**
   * A handover is armed until exactly the deadline of the last announcement, unless somebody has joined
   * on it or the stream has closed.
   */
  lemma HandoverExactly(now: int, evs: seq<Event>, deadline: int)
    ensures Play(Published(now), evs).handover == Some(deadline) <==>
            exists a: nat :: Announced(now, evs, |evs|, a) && deadline == Deadline(Clock(now, evs, a), evs[a].grace)
  {
    RunHandover(now, evs, |evs|);
    assert evs[..|evs|] == evs;
    if exists a: nat :: Announced(now, evs, |evs|, a) {
      var a: nat :| Announced(now, evs, |evs|, a);
    }
  }

  /** Another publisher can join exactly while the last announcement's deadline is ahead. */
  lemma JoinsExactly(now: int, evs: seq<Event>)
    ensures Enabled(Play(Published(now), evs), Join) <==>
            !Play(Published(now), evs).closed &&
            exists a: nat :: Announced(now, evs, |evs|, a) && Clock(now, evs, |evs|) < Deadline(Clock(now, evs, a), evs[a].grace)
  {
    RunHandover(now, evs, |evs|);
    assert evs[..|evs|] == evs;
    if exists a: nat :: Announced(now, evs, |evs|, a) {
      var a: nat :| Announced(now, evs, |evs|, a);
    }
  }

  /** The last announcement's deadline lies behind this time, or there is none. */
  ghost predicate Lapsed(now: int, evs: seq<Event>, time: int) {
    forall a: nat :: Announced(now, evs, |evs|, a) ==> Deadline(Clock(now, evs, a), evs[a].grace) <= time
  }

  lemma LeaveOutcome(p: Publication, at: int)
    requires Inv(p) && Open(p) && Enabled(p, Release(at))
    ensures var t := Step(p, Release(at));
            && (t.closing <==> p.live == 1 && (p.handover.None? || p.handover.value <= at))
            && (!t.closing && p.live == 1 ==> p.handover.Some? && t.grace == Some(Timer(p.gens, p.now + p.handover.value - at)))
            && (p.live > 1 ==> t.grace == p.grace && t.released == p.released)
  {
  }

  lemma LapsedTold(p: Publication, now: int, evs: seq<Event>, time: int)
    requires HandoverTold(p, now, evs, |evs|)
    ensures Lapsed(now, evs, time) <==> p.handover.None? || p.handover.value <= time
    ensures p.handover.Some? ==> exists a: nat :: Announced(now, evs, |evs|, a) && p.handover.value == Deadline(Clock(now, evs, a), evs[a].grace)
  {
    if exists a: nat :: Announced(now, evs, |evs|, a) {
      var a: nat :| Announced(now, evs, |evs|, a);
    }
  }

  /**
   * A publisher leaving an open stream ends it exactly when it was the only
   * one left and no handover was armed at the time it read; leaving last under
   * an armed handover, it starts the timer that waits out what was left of it.
   */
  ghost predicate LeavesSo(p: Publication, t: Publication, now: int, evs: seq<Event>, at: int) {
    && (t.closing <==> Publishers(now, evs, |evs|) == 1 && Lapsed(now, evs, at))
    && (!t.closing && Publishers(now, evs, |evs|) == 1 ==>
          exists a: nat :: Announced(now, evs, |evs|, a)
            && t.grace == Some(Timer(p.gens, Clock(now, evs, |evs|) + Deadline(Clock(now, evs, a), evs[a].grace) - at)))
    && (Publishers(now, evs, |evs|) > 1 ==> t.grace == p.grace && t.released == p.released)
  }

  lemma LeavingTold(p: Publication, now: int, evs: seq<Event>, at: int, t: Publication)
    requires HandoverTold(p, now, evs, |evs|)
    requires t.closing <==> p.live == 1 && (p.handover.None? || p.handover.value <= at)
    requires !t.closing && p.live == 1 ==> p.handover.Some? && t.grace == Some(Timer(p.gens, p.now + p.handover.value - at))
    requires p.live > 1 ==> t.grace == p.grace && t.released == p.released
    ensures LeavesSo(p, t, now, evs, at)
  {
    LapsedTold(p, now, evs, at);
  }

  lemma LeavingExactly(now: int, evs: seq<Event>, at: int)
    requires var p := Play(Published(now), evs); Open(p) && Enabled(p, Release(at))
    ensures var p := Play(Published(now), evs); LeavesSo(p, Step(p, Release(at)), now, evs, at)
  {
    var p := Play(Published(now), evs);
    RunHandover(now, evs, |evs|);
    PlayKeeps(now, evs);
    assert evs[..|evs|] == evs;
    LeaveOutcome(p, at);
    LeavingTold(p, now, evs, at, Step(p, Release(at)));
  }

  // ---- while it waits ------------------------------------------------------------------

  /** Waiting for a replacement until due. */
  predicate Waiting(p: Publication, due: int) {
    Open(p) && p.live == 0 && p.grace == Some(Timer(p.gens, due)) && p.gens !in p.callbacks
  }

  lemma {:induction false} WaitKeeps(p: Publication, more: seq<Event>)
    requires Inv(p)
    ensures Inv(Play(p, more))
  {
    if more != [] {
      WaitKeeps(p, more[..|more| - 1]);
      StepKeeps(Play(p, more[..|more| - 1]), more[|more| - 1]);
    }
  }

  lemma TimePasses(p: Publication, ev: Event)
    ensures Step(p, ev).now >= p.now
  {
  }

  lemma WaitStep(p: Publication, due: int, ev: Event)
    requires Inv(p) && Waiting(p, due) && !ev.Join? && !ev.CloseCall? && Step(p, ev).now < due
    ensures Waiting(Step(p, ev), due)
  {
    match ev
    case Callback(gen) =>
    case _ =>
  }

  /** Without a replacement and a Close call the stream stays open until the timer is due, whatever older timers do. */
  lemma {:induction false} WaitsUntilDue(p: Publication, due: int, more: seq<Event>)
    requires Inv(p) && Waiting(p, due)
    requires forall j :: 0 <= j < |more| ==> !more[j].Join? && !more[j].CloseCall?
    requires Play(p, more).now < due
    ensures Waiting(Play(p, more), due)
  {
    if more != [] {
      var less, last := more[..|more| - 1], more[|more| - 1];
      var q := Play(p, less);
      TimePasses(q, last);
      WaitKeeps(p, less);
      WaitsUntilDue(p, due, less);
      WaitStep(q, due, last);
    }
  }

  /** Once it is due its callback ends the stream, unless somebody joins first; then no callback set before does. */
  lemma DueEnds(p: Publication, due: int)
    requires Inv(p) && Waiting(p, due) && p.now >= due
    ensures Enabled(p, TimerFires) && Enabled(Step(p, TimerFires), Callback(p.gens)) && Step(Step(p, TimerFires),
            Callback(p.gens)).closing
    ensures var t := Step(p, TimerFires);
            Enabled(t, Join) ==> !Step(Step(t, Join), Callback(p.gens)).closing
  {
  }
}
