/**
 * When a driver may be driven, and when a device must be released: each
 * promise stated on the state a step finds and the state it leaves.
 */
module EstimDriving {
  import opened Wrappers
  import opened EstimRuntime
  import opened EstimSystem
  import opened EstimInvariant
  import opened EstimTheorems

  // ---- starting a driver ------------------------------------------------------------------

  /** The device is held, its window open, and the latch clear. */
  predicate InWindow(rt: State) { rt.device && 0 < rt.armDeadline && rt.now < rt.armDeadline && !rt.cancel }

  /**
   * In every reachable state, a goroutine gets on to the driver only while the device is held, inside
   * its window and not latched.
   */
  lemma DriverStartsArmed(now: nat, configured: int, evs: seq<Event>, ev: Event, th: nat)
    requires var s := Play(Init(now, configured), evs);
             && th in Step(s, ev).threads && Executing(Step(s, ev).threads[th])
             && (th in s.threads ==> !Executing(s.threads[th]))
    ensures InWindow(Play(Init(now, configured), evs).rt)
  {
    var s := Play(Init(now, configured), evs);
    assert Enabled(s, ev) && ev.Run? && ev.th == th;
    var t := s.threads[th];
    if OfSession(t) {
      SessionStartsNone(s, t);
    } else if OfExecute(t) {
      ExecuteStarts(s, t, ev.o, ev.m);
    } else {
      DeviceStartsNone(s, t, ev.o);
    }
  }

  lemma SessionStartsNone(s: System, t: Task)
    ensures !Executing(SessionNext(s, t))
  {
  }

  lemma DeviceStartsNone(s: System, t: Task, o: Outcome)
    ensures !Executing(DeviceNext(s, t, o))
  {
  }

  lemma ExecuteStarts(s: System, t: Task, o: Outcome, m: Move)
    requires !Executing(t) && Executing(ExecuteNext(s, t, o, m))
    ensures InWindow(s.rt)
  {
  }

  /** An actuation command that comes to its turn outside the window releases the device instead. */
  lemma RefusedOutsideWindow(s: System, th: nat, o: Outcome, m: Move)
    requires th in s.threads && s.threads[th].ExeArmed? && !InWindow(s.rt)
    ensures var t := Step(s, Run(th, o, m)); t.threads[th].RelCancel? && t.dev.Nobody? && t.rt == s.rt
  {
  }

  /** What the session and the device let a command ask for, in its own numbers. */
  predicate Bounded(cmd: Command, caps: Capabilities, settings: Settings) {
    match cmd
    case SetMode(mode) => exists k :: 0 <= k < |caps.modes| && mode == Some(caps.modes[k])
    case SetLevel(level) =>
      level.Some? && 0 <= level.value && (level.value == 0 || (level.value <= caps.levelMax
          && level.value <= settings.levelMax && level.value <= 99))
    case AdjustLevel(delta) => delta.Some? && (1 <= delta.value <= 5 || -5 <= delta.value <= -1)
    case SetTempo(percent) => caps.tempo && percent.Some? && 0 <= percent.value <= 100
    case AdjustTempo(delta) => caps.tempo && delta.Some? && (1 <= delta.value <= 10 || -10 <= delta.value <= -1)
    case _ => true
  }

  lemma AllowedMeansBounded(cmd: Command, caps: Capabilities, settings: Settings)
    ensures CapsAllow(cmd, caps, settings) <==> Bounded(cmd, caps, settings)
  {
  }

  /**
   * The driver is given exactly the commands within bounds, and the least of the three level limits;
   * others release the device.
   */
  lemma DriverGetsBounded(s: System, th: nat, o: Outcome, m: Move)
    requires th in s.threads && s.threads[th].ExeStart?
    ensures var t := Step(s, Run(th, o, m)); var n := InForce(s.rt); var k := t.threads[th];
            && (k.Ramp? <==> Bounded(s.threads[th].cmd, s.rt.caps, n))
            && (!k.Ramp? ==> k.RelCancel?)
            && (k.Ramp? && k.levelMax > 0 ==> k.levelMax <= s.rt.caps.levelMax && k.levelMax <= n.levelMax && k.levelMax <= 99)
            && (k.Ramp? && 0 <= s.rt.caps.levelMax && 0 <= n.levelMax ==> k.levelMax in {s.rt.caps.levelMax, n.levelMax, 99})
  {
    AllowedMeansBounded(s.threads[th].cmd, s.rt.caps, InForce(s.rt));
  }

  /** Nothing else starts a ramp. */
  lemma OnlyStartsRamp(s: System, ev: Event, th: nat)
    requires th in Step(s, ev).threads && Step(s, ev).threads[th].Ramp? && (th in s.threads ==> !s.threads[th].Ramp?)
    ensures th in s.threads && s.threads[th].ExeStart?
  {
    if Enabled(s, ev) && ev.Run? && ev.th == th {
      var t := s.threads[th];
      if OfSession(t) {
        SessionStartsNone(s, t);
      } else if !OfExecute(t) {
        DeviceStartsNone(s, t, ev.o);
      }
    }
  }

  // ---- one command at a time ---------------------------------------------------------------

  /** The goroutine has the session's one turn for a command. */
  predicate Owns(t: Task) {
    || t.CommandFree? || t.ExeStatus? || t.Ramp? || t.ExeAfter?
    || ((t.ExeLock? || t.ExeCheck? || t.ExeArmed? || t.ExeLatch? || t.ExeStart?) && !t.cmd.ReleaseVerb?)
    || ((t.RelCancel? || t.RelLock? || t.RelClear? || t.RelDrive?) && t.after == ToCommand(true))
  }

  /** A release verb does not get to the checks of an actuation. */
  predicate NotRelease(t: Task) { t.ExeArmed? || t.ExeLatch? || t.ExeStart? ==> !t.cmd.ReleaseVerb? }

  predicate OneOwner(s: System) {
    && (forall j :: j in s.threads ==> NotRelease(s.threads[j]))
    && (forall j, k :: j in s.threads && k in s.threads && Owns(s.threads[j]) && Owns(s.threads[k]) ==> j == k)
    && (forall j :: j in s.threads && Owns(s.threads[j]) ==> s.link.busy)
  }

  /** A turn begins with a command that found none running and ends by being given back. */
  lemma OwnsNext(s: System, t: Task, o: Outcome, m: Move)
    requires NotRelease(t)
    ensures NotRelease(ThreadNext(s, t, o, m))
    ensures Owns(ThreadNext(s, t, o, m)) ==> Owns(t) || (t.CommandMark? && !s.link.busy && ThreadLink(s, t).busy)
    ensures Owns(t) ==> Owns(ThreadNext(s, t, o, m)) || t.CommandFree?
    ensures !t.CommandFree? && s.link.busy ==> ThreadLink(s, t).busy
  {
    if OfSession(t) {
      SessionOwns(s, t);
    } else if OfExecute(t) {
      ExecuteOwns(s, t, o, m);
    } else {
      DeviceOwns(s, t, o);
    }
  }

  lemma SessionOwns(s: System, t: Task)
    requires OfSession(t)
    ensures NotRelease(SessionNext(s, t))
    ensures Owns(SessionNext(s, t)) ==> t.CommandMark? && !s.link.busy && ThreadLink(s, t).busy
    ensures Owns(t) ==> t.CommandFree?
  {
  }

  lemma ExecuteOwns(s: System, t: Task, o: Outcome, m: Move)
    requires OfExecute(t) && NotRelease(t)
    ensures NotRelease(ExecuteNext(s, t, o, m))
    ensures Owns(ExecuteNext(s, t, o, m)) <==> Owns(t)
  {
  }

  lemma DeviceOwns(s: System, t: Task, o: Outcome)
    requires !OfSession(t) && !OfExecute(t)
    ensures NotRelease(DeviceNext(s, t, o))
    ensures Owns(DeviceNext(s, t, o)) <==> Owns(t)
  {
  }

  lemma StepOwner(s: System, ev: Event)
    requires OneOwner(s)
    ensures OneOwner(Step(s, ev))
  {
    if Enabled(s, ev) && ev.Run? {
      OwnsNext(s, s.threads[ev.th], ev.o, ev.m);
      var t := Step(s, ev);
      forall j | j in t.threads && Owns(t.threads[j]) ensures t.link.busy && (Owns(t.threads[ev.th]) ==> j == ev.th) {
        if j != ev.th { assert j in s.threads && t.threads[j] == s.threads[j]; }
      }
    }
  }

  /** In every run at most one command is on its way to the device or on it, and while one is the session is busy. */
  lemma {:induction false} OneCommandAtATime(now: nat, configured: int, evs: seq<Event>)
    ensures OneOwner(Play(Init(now, configured), evs))
  {
    if evs != [] {
      OneCommandAtATime(now, configured, evs[..|evs| - 1]);
      StepOwner(Play(Init(now, configured), evs[..|evs| - 1]), evs[|evs| - 1]);
    }
  }

  // ---- when a release must follow ------------------------------------------------------------

  /** The expiry check releases exactly a device whose deadline has come. */
  lemma ExpiryReleases(s: System, th: nat, o: Outcome, m: Move)
    requires th in s.threads && s.threads[th].ExpireRead?
    ensures var t := Step(s, Run(th, o, m)).threads[th];
            if s.rt.armDeadline != 0 && s.rt.armDeadline <= s.rt.now then t == RelCancel(Stop) else t.Done?
  {
  }

  /**
   * New settings release an armed device unless they are the ones in force, or keep the power range and
   * bear the level last read.
   */
  lemma SettingsRelease(s: System, th: nat, o: Outcome, m: Move)
    requires th in s.threads && s.threads[th].SettingsTake? && s.threads[th].settings.Valid()
    ensures var n := s.threads[th].settings; var t := Step(s, Run(th, o, m));
            && t.rt.settings == Some(n)
            && (t.threads[th].RelCancel? <==> InWindow(s.rt) && InForce(s.rt) != n
                                              && (InForce(s.rt).power != n.power || n.levelMax < s.rt.seen))
  {
  }

  /** A heartbeat tick detaches exactly when the last acknowledgment it read is over 15 seconds old. */
  lemma StaleExactly(s: System, th: nat, o: Outcome, m: Move)
    requires th in s.threads && s.threads[th].BeatJudge?
    ensures var t := Step(s, Run(th, o, m)).threads[th];
            if s.rt.now - s.threads[th].acked > 15_000 then t.DetachMark? else t.Done?
  {
  }

  /** An arming starts only for an attached session, on a held device not already armed, one at a time. */
  lemma ArmingStarts(s: System, ev: Event)
    requires LockOk(s) && s.armer.ArmIdle? && !Step(s, ev).armer.ArmIdle?
    ensures s.link.attached && !s.link.arming && s.rt.device && !InWindow(s.rt)
  {
  }

  /** A device is held only once its release and a full reading worked, and then at zero and not armed by that. */
  lemma HeldOnceReleased(s: System, ev: Event)
    requires Inv(s) && !s.rt.device && Step(s, ev).rt.device
    ensures ev.Run? && ev.o.released && ev.o.rest
    ensures var t := Step(s, ev); t.rt.level == 0 && t.rt.armDeadline == 0 && !InWindow(t.rt)
  {
  }

  /**
   * A reading that keeps failing, with nobody shutting down, gives the device up, latched and unarmed;
   * one that works keeps it.
   */
  lemma HealthLoses(s: System, th: nat, o: Outcome, m: Move)
    requires th in s.threads && s.threads[th].HealthRead? && s.rt.device
    ensures var t := Step(s, Run(th, o, m)).rt;
            && (t.device <==> o.rest || o.ctxEnded)
            && (!t.device ==> t.cancel && t.armDeadline == 0)
            && (t.device ==> t.armDeadline == s.rt.armDeadline && t.cancel == s.rt.cancel)
  {
  }

  /** A release that is not through leaves a held device only when it was cut off by the end of the program. */
  lemma ReleaseKeepsOrLoses(s: System, th: nat, o: Outcome, m: Move)
    requires th in s.threads && s.threads[th].RelDrive? && s.rt.device
    ensures var t := Step(s, Run(th, o, m)).rt;
            && (o.released ==> t.level == 0)
            && (t.device <==> (o.released && o.rest) || o.ctxEnded)
            && (!t.device ==> t.cancel && t.armDeadline == 0)
  {
  }
}
