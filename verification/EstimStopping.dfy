/**
 * Where a stop leads, and which calls get as far as the device: each stated on
 * the state a step finds and the state it leaves.
 */
module EstimStopping {
  import opened Wrappers
  import opened EstimRuntime
  import opened EstimSystem
  import opened EstimInvariant
  import opened EstimTheorems
  import opened EstimDriving

  // ---- commands ------------------------------------------------------------------------

  /** A command is taken up for the session attached; a stop from whichever session, as long as one is. */
  lemma CommandsHeard(s: System, th: nat, o: Outcome, m: Move)
    requires th in s.threads && s.threads[th].CommandAsk?
    ensures var c, t := s.threads[th], Step(s, Run(th, o, m));
            t.threads[th] == (if s.link.attached && (c.sid == s.link.sid || c.cmd == ReleaseVerb) then CommandMark(c.cmd, c.hasId) else Done)
            && t.rt == s.rt && t.link == s.link
  {
  }

  /** A stop latches at once and goes on whatever command is running; any other command only when none is. */
  lemma CommandsTaken(s: System, th: nat, o: Outcome, m: Move)
    requires th in s.threads && s.threads[th].CommandMark?
    ensures var c, t := s.threads[th], Step(s, Run(th, o, m));
            if c.cmd == ReleaseVerb then
              t.rt.cancel && t.link == s.link && t.threads[th] == (if c.hasId then ExeLock(c.cmd) else RelCancel(Stop))
            else
              && t.rt == s.rt && t.link.busy
              && t.threads[th] == (if s.link.busy then Done else if c.cmd == Malformed || !c.hasId then CommandFree else ExeLock(c.cmd))
  {
  }

  /** On the way from a stop, a fault or a limit to the driver's release. */
  predicate Releasing(t: Task) {
    match t
    case CommandMark(cmd, _) => cmd.ReleaseVerb?
    case ExeLock(cmd) => cmd.ReleaseVerb?
    case ExeCheck(cmd) => cmd.ReleaseVerb?
    case ExeClear => true
    case ExeRelease => true
    case RelCancel(_) => true
    case RelLock(_) => true
    case RelClear(_) => true
    case RelDrive(_) => true
    case _ => false
  }

  /** A release gone through leaves the output at zero; one that did not leaves a held device only when the program was ending. */
  predicate BroughtDown(s: System, t: System, o: Outcome) {
    && t.rt.armDeadline == 0
    && (s.rt.device ==> (o.released && t.rt.level == 0) || (!o.released && (t.rt.device ==> o.ctxEnded)))
  }

  /** Whoever is on the way to a release gets there: it leaves that way only by its own step, with no device held or one brought down, and the arm over. */
  lemma ReleasesGoThrough(s: System, ev: Event, th: nat)
    requires Inv(s) && th in s.threads && Releasing(s.threads[th])
    requires th in Step(s, ev).threads ==> !Releasing(Step(s, ev).threads[th])
    ensures ev.Run? && ev.th == th && BroughtDown(s, Step(s, ev), ev.o)
  {
    assert TaskOk(s.rt, s.threads[th]);
    if ev.Run? && ev.th == th && Enabled(s, ev) {
      ReleaseStep(s, th, ev.o, ev.m);
    }
  }

  lemma ReleaseStep(s: System, th: nat, o: Outcome, m: Move)
    requires Inv(s) && th in s.threads && Releasing(s.threads[th]) && Enabled(s, Run(th, o, m))
    requires TaskOk(s.rt, s.threads[th]) && !Releasing(Step(s, Run(th, o, m)).threads[th])
    ensures BroughtDown(s, Step(s, Run(th, o, m)), o)
  {
  }

  /** A stop with a device held takes the arm away before the driver is asked to release. */
  lemma StopsDisarm(s: System, th: nat, o: Outcome, m: Move)
    requires th in s.threads && Enabled(s, Run(th, o, m))
    requires s.threads[th].ExeClear? || s.threads[th].RelClear?
    ensures var t := Step(s, Run(th, o, m)); t.rt.armDeadline == 0 && !InWindow(t.rt) && t.rt.level == s.rt.level
  {
  }

  /** Where a failure sends its goroutine: every end of an actuation but a clean one releases the device. */
  lemma FailuresRelease(s: System, th: nat, o: Outcome, m: Move)
    requires th in s.threads && Enabled(s, Run(th, o, m)) && (Executing(s.threads[th]) || s.threads[th].ExeArmed?)
    ensures var t := Step(s, Run(th, o, m)).threads[th];
            Executing(t) || t.RelCancel? || (t.CommandFree? && s.threads[th].ExeAfter? && o.rest)
    ensures s.threads[th].Ramp? && m.Poll? && s.rt.cancel ==> Step(s, Run(th, o, m)).threads[th].RelCancel?
    ensures s.threads[th].Ramp? && m == End(false) ==> Step(s, Run(th, o, m)).threads[th].RelCancel?
  {
  }

  // ---- other calls ---------------------------------------------------------------------

  /** A selection goes on only while nothing is armed, and lets a held device go only for another. */
  lemma SelectionsWait(s: System, th: nat, o: Outcome, m: Move)
    requires th in s.threads
    ensures var t := Step(s, Run(th, o, m)).threads[th];
            && (s.threads[th].SelectAsk? ==> (t.SelectHeld? <==> !InWindow(s.rt)) && (InWindow(s.rt) ==> t.Done?))
            && (s.threads[th].SelectHeld? ==> t == if s.threads[th].other && s.rt.device then CloseCancel(true) else OpenLock)
  {
  }

  /** Settings are taken only for the session attached, and only valid ones. */
  lemma SettingsHeard(s: System, th: nat, o: Outcome, m: Move)
    requires th in s.threads && s.threads[th].SettingsAsk?
    ensures var c, t := s.threads[th], Step(s, Run(th, o, m));
            && (t.threads[th] == SettingsTake(c.sid, c.settings) || t.threads[th].Done?) && t.rt == s.rt
            && (t.threads[th].SettingsTake? <==> s.link.attached && s.link.sid == c.sid && !c.settings.power.Other? && 0 <= c.settings.levelMax <= 99)
  {
  }

  /** A device's own countdown is renewed only while armed, a minute behind the window, with nobody on the device, and recorded only if still armed. */
  lemma RenewsExactly(s: System, th: nat, o: Outcome, m: Move)
    requires th in s.threads && Enabled(s, Run(th, o, m))
    ensures var t := Step(s, Run(th, o, m));
            && (s.threads[th].RenewRead? ==>
                  t.threads[th] == if InWindow(s.rt) && s.rt.armDeadline >= s.rt.renewedUntil + 60_000 then RenewTry(s.rt.armDeadline) else Done)
            && (s.threads[th].RenewTry? ==> t.threads[th] == if s.dev.Nobody? then RenewDrive(s.threads[th].until) else Done)
            && (s.threads[th].RenewDrive? ==> t.threads[th] == if s.rt.device && o.rest then RenewSet(s.threads[th].until) else Done)
            && (s.threads[th].RenewSet? ==>
                  t.rt == s.rt.(renewedUntil := if InWindow(s.rt) then s.threads[th].until else s.rt.renewedUntil))
  {
  }
}
