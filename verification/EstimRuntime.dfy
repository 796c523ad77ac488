/**
 * The fail-closed hold on one device: the fields two locks guard, and every
 * critical section on them, first as functions and then as the object's
 * methods. The device is its output level and a driver whose calls may fail.
 */
module EstimRuntime {
  import opened Wrappers

  // Milliseconds.
  const MAX_ARM_WINDOW: nat := 1_800_000
  const RENEW_SLACK: nat := 60_000
  const ACK_STALE: nat := 15_000

  const DEFAULT_LEVEL_CAP := 85
  const LEVEL_SCALE_MAX := 99
  const LEVEL_DELTA_CAP := 5
  const TEMPO_PERCENT_CAP := 100
  const TEMPO_DELTA_CAP := 10

  datatype Power = Normal | High | Other

  datatype Capabilities = Capabilities(levelMax: int, modes: seq<int>, tempo: bool, powerModes: set<Power>, levelMaxDefault: int)

  datatype Settings = Settings(power: Power, levelMax: int) {
    predicate Valid() { !power.Other? && 0 <= levelMax <= LEVEL_SCALE_MAX }
  }

  datatype Command =
    | Malformed
    | StatusVerb
    | ReleaseVerb
    | SetMode(mode: Option<int>)
    | SetLevel(level: Option<int>)
    | AdjustLevel(delta: Option<int>)
    | SetTempo(percent: Option<int>)
    | AdjustTempo(delta: Option<int>)

  function DefaultSettingsFor(caps: Capabilities): Settings {
    var known := caps.levelMax > 0 || caps.powerModes != {};
    Settings(if known && High !in caps.powerModes then Normal else High,
             if caps.levelMaxDefault > 0 then caps.levelMaxDefault else DEFAULT_LEVEL_CAP)
  }

  function Min(a: int, b: int): int { if a < b then a else b }

  /** The level no command may pass: never over the device's own top, the session's or the scale's. */
  function LevelMaxFor(caps: Capabilities, settings: Settings): (top: nat)
    ensures top <= Top(caps) <= LEVEL_SCALE_MAX
    ensures top > 0 ==> top <= settings.levelMax
    ensures 0 <= caps.levelMax && 0 <= settings.levelMax ==> top in {caps.levelMax, settings.levelMax, 99}
  {
    var least := Min(caps.levelMax, Min(settings.levelMax, LEVEL_SCALE_MAX));
    if least > 0 then least else 0
  }

  /** The most any settings let a device be driven to. */
  function Top(caps: Capabilities): nat {
    var least := Min(caps.levelMax, LEVEL_SCALE_MAX);
    if least > 0 then least else 0
  }

  predicate Within(delta: Option<int>, cap: int) { delta.Some? && delta.value != 0 && -cap <= delta.value <= cap }

  predicate CapsAllow(cmd: Command, caps: Capabilities, settings: Settings) {
    match cmd
    case SetMode(mode) => mode.Some? && mode.value in caps.modes
    case SetLevel(level) => level.Some? && 0 <= level.value <= LevelMaxFor(caps, settings)
    case AdjustLevel(delta) => Within(delta, LEVEL_DELTA_CAP)
    case SetTempo(percent) => caps.tempo && percent.Some? && 0 <= percent.value <= TEMPO_PERCENT_CAP
    case AdjustTempo(delta) => caps.tempo && Within(delta, TEMPO_DELTA_CAP)
    case _ => true
  }

  /**
   * What the locks guard. A zero time is 0. level is the output of the device
   * last held, faulty whether its last Release failed, both also after it has
   * been given up; seen is the level last read from it;
   * renewedAt, when Arm or an extension last set the deadline.
   */
  datatype State = State(device: bool, caps: Capabilities, level: nat, faulty: bool, seen: nat,
                         cancel: bool, armDeadline: nat, renewedUntil: nat, renewedAt: nat,
                         settings: Option<Settings>, now: nat, window: nat)

  /** How long one arming lasts: what was configured, when that is sensible. */
  function Window(configured: int): (w: nat)
    ensures 0 < w <= MAX_ARM_WINDOW
    ensures 0 < configured <= MAX_ARM_WINDOW ==> w == configured
  {
    if configured <= 0 || configured > MAX_ARM_WINDOW then MAX_ARM_WINDOW else configured
  }

  const NO_CAPS := Capabilities(0, [], false, {}, 0)

  function NewState(now: nat, configured: int): State {
    State(false, NO_CAPS, 0, false, 0, false, 0, 0, 0, None, now, Window(configured))
  }

  predicate Armed(s: State) { s.device && s.armDeadline != 0 && s.now < s.armDeadline && !s.cancel }

  function InForce(s: State): Settings { if s.settings.Some? then s.settings.value else DefaultSettingsFor(s.caps) }

  /** How the driver's calls in one section turn out. */
  datatype Outcome = Outcome(released: bool, rest: bool, ctxEnded: bool, left: nat, caps: Capabilities)

  // ---- sections ------------------------------------------------------------------

  function Latch(s: State): State { s.(cancel := true) }

  function ClearArm(s: State): State { s.(armDeadline := 0, renewedUntil := 0) }

  /** A release puts the output to zero or, failing, leaves some of it. */
  function DriverRelease(s: State, o: Outcome): State {
    if o.released then s.(level := 0, faulty := false)
    else s.(level := if o.left < s.level then o.left else s.level, faulty := true)
  }

  function Read(s: State): State { s.(seen := s.level) }

  /** The device is forgotten as it is: giving it up brings nothing down. */
  function Fault(s: State): State { ClearArm(Latch(s)).(device := false, seen := 0) }

  /** A device that stopped answering is given up, then released as far as it can be. */
  function LostDevice(s: State, o: Outcome): State { DriverRelease(Fault(s), o) }

  /** A fresh device, released before it is held. */
  function Opened(s: State, caps: Capabilities): State {
    s.(device := true, caps := caps, level := 0, faulty := false, seen := 0)
  }

  /** A clean close releases the device, as far as it can, and lets it go. */
  function Closed(s: State, o: Outcome): State { ClearArm(DriverRelease(s, o)).(device := false, seen := 0) }

  function FinishArm(s: State, ok: bool): State {
    if ok then s.(armDeadline := s.now + s.window, renewedUntil := s.now + s.window, renewedAt := s.now)
    else ClearArm(Latch(s))
  }

  function Extend(s: State): State {
    if Armed(s) then s.(armDeadline := s.now + s.window, renewedAt := s.now) else s
  }

  predicate NeedsRenewal(s: State) { Armed(s) && s.armDeadline - s.renewedUntil >= RENEW_SLACK }

  function Renewed(s: State, until: nat): State { if Armed(s) then s.(renewedUntil := until) else s }

  predicate Expired(s: State) { s.armDeadline != 0 && s.now >= s.armDeadline }

  function TakeSettings(s: State, n: Settings): State { if n.Valid() then s.(settings := Some(n)) else s }

  /** Whether new settings release the device: armed, and not to be taken in place. */
  predicate MustRelease(s: State, n: Settings) {
    n.Valid() && InForce(s) != n && Armed(s) && !(InForce(s).power == n.power && s.seen <= n.levelMax)
  }

  /** What is left of the device after Release's driver calls, latch and arm already cleared. */
  function Released(s: State, o: Outcome): State {
    if o.released && o.rest then Read(DriverRelease(s, o))
    else if o.ctxEnded then DriverRelease(s, o)
    else Fault(DriverRelease(s, o))
  }

  /** How a Release ended: the driver's went through; it did not, and no device is held; or one still is. */
  datatype Ending = Zeroed | Unheld | StillHeld

  function EndingOf(o: Outcome): Ending { if o.released then Zeroed else if o.ctxEnded then StillHeld else Unheld }

  /** How many failed readings in a row give a device up. */
  function Tries(armed: bool): nat { if armed then 2 else 3 }

  datatype Verdict = Healthy | Stopping | Lost

  /** Reading after reading until one works, the context ends or there are no more tries. */
  function Judge(readings: seq<Outcome>, tries: nat): Verdict
    requires |readings| >= tries > 0
  {
    if readings[0].rest then Healthy
    else if readings[0].ctxEnded then Stopping
    else if tries == 1 then Lost
    else Judge(readings[1..], tries - 1)
  }

  /** A device is given up on exactly when every reading failed and nobody was shutting down. */
  lemma {:induction false} LostMeansEveryReadingFailed(readings: seq<Outcome>, tries: nat)
    requires |readings| >= tries > 0
    ensures Judge(readings, tries).Lost? <==> forall k :: 0 <= k < tries ==> !readings[k].rest && !readings[k].ctxEnded
  {
    if tries > 1 && !readings[0].rest && !readings[0].ctxEnded {
      LostMeansEveryReadingFailed(readings[1..], tries - 1);
      assert forall k :: 1 <= k < tries ==> readings[k] == readings[1..][k - 1];
      assert forall k :: 0 <= k < tries - 1 ==> readings[1..][k] == readings[k + 1];
    }
  }

  /** The runtime as an object: each method is one critical section, under the lock or locks the section needs. */
  class Runtime {
    var device: bool
    var caps: Capabilities
    var level: nat
    var faulty: bool
    var seen: nat
    var cancel: bool
    var armDeadline: nat
    var renewedUntil: nat
    var renewedAt: nat
    var settings: Option<Settings>
    var now: nat
    const window: nat

    ghost function Value(): State reads this {
      State(device, caps, level, faulty, seen, cancel, armDeadline, renewedUntil, renewedAt, settings, now, window)
    }

    constructor (start: nat, configured: int)
      ensures Value() == NewState(start, configured)
    {
      device, caps, level, faulty, seen := false, NO_CAPS, 0, false, 0;
      cancel, armDeadline, renewedUntil, renewedAt := false, 0, 0, 0;
      settings, now := None, start;
      window := if configured <= 0 || configured > MAX_ARM_WINDOW then MAX_ARM_WINDOW else configured;
    }

    method IsArmed() returns (armed: bool)
      ensures armed == Armed(Value())
    {
      armed := device && armDeadline != 0 && now < armDeadline && !cancel;
    }

    method RequestCancel()
      modifies this
      ensures Value() == Latch(old(Value()))
    {
      cancel := true;
    }

    method ClearDeadlines()
      modifies this
      ensures Value() == ClearArm(old(Value()))
    {
      armDeadline, renewedUntil := 0, 0;
    }

    /** The driver's Release, on the held device. */
    method ReleaseOutputs(o: Outcome)
      modifies this
      ensures Value() == DriverRelease(old(Value()), o)
    {
      if o.released {
        level := 0;
      } else if o.left < level {
        level := o.left;
      }
      faulty := !o.released;
    }

    method GiveUp()
      modifies this
      ensures Value() == Fault(old(Value()))
    {
      RequestCancel();
      ClearDeadlines();
      device, seen := false, 0;
    }

    /** A device that stopped answering. */
    method GiveUpLost(o: Outcome)
      modifies this
      ensures Value() == LostDevice(old(Value()), o)
    {
      GiveUp();
      ReleaseOutputs(o);
    }

    method Hold(found: Capabilities)
      modifies this
      ensures Value() == Opened(old(Value()), found)
    {
      device, caps, level, faulty, seen := true, found, 0, false, 0;
    }

    method LetGo(o: Outcome)
      modifies this
      ensures Value() == Closed(old(Value()), o)
    {
      ReleaseOutputs(o);
      device, seen := false, 0;
      ClearDeadlines();
    }

    /** Release from the driver's turn on: reports how it ended. */
    method ReleaseDevice(o: Outcome) returns (ending: Ending)
      modifies this
      ensures Value() == Released(old(Value()), o) && ending == EndingOf(o)
      ensures ending.Zeroed? ==> level == 0
      ensures ending.Unheld? ==> !device
    {
      ReleaseOutputs(o);
      if o.released && o.rest {
        seen := level;
      } else if !o.ctxEnded {
        GiveUp();
      }
      ending := if o.released then Zeroed else if o.ctxEnded then StillHeld else Unheld;
    }

    method SettleArm(ok: bool)
      modifies this
      ensures Value() == FinishArm(old(Value()), ok)
    {
      if ok {
        armDeadline := now + window;
        renewedUntil, renewedAt := armDeadline, now;
      } else {
        RequestCancel();
        ClearDeadlines();
      }
    }

    method ExtendArm() returns (renewed: bool)
      modifies this
      ensures Value() == Extend(old(Value())) && renewed == Armed(old(Value()))
    {
      renewed := IsArmed();
      if renewed {
        armDeadline, renewedAt := now + window, now;
      }
    }

    method RenewedDevice(until: nat)
      modifies this
      ensures Value() == Renewed(old(Value()), until)
    {
      var armed := IsArmed();
      if armed {
        renewedUntil := until;
      }
    }

    method SetSettings(n: Settings) returns (release: bool)
      modifies this
      ensures Value() == TakeSettings(old(Value()), n) && release == MustRelease(old(Value()), n)
    {
      if !n.Valid() {
        return false;
      }
      var prev := if settings.Some? then settings.value else DefaultSettingsFor(caps);
      settings := Some(n);
      var armed := IsArmed();
      if prev == n || !armed {
        return false;
      }
      release := !(prev.power == n.power && seen <= n.levelMax);
    }

    /** HealthCheck's readings, and what follows from them; last is how releasing a lost device turns out. */
    method HealthCheck(readings: seq<Outcome>, last: Outcome) returns (v: Verdict)
      requires device && |readings| >= 3
      modifies this
      ensures v == Judge(readings, Tries(Armed(old(Value()))))
      ensures v.Lost? <==>
                  forall k :: 0 <= k < (if Armed(old(Value())) then 2 else 3) ==> !readings[k].rest && !readings[k].ctxEnded
      ensures Value() == match v case Healthy => Read(old(Value())) case Stopping => old(Value()) case Lost =>
              LostDevice(old(Value()), last)
    {
      var armed := IsArmed();
      var tries := if armed then 2 else 3;
      LostMeansEveryReadingFailed(readings, tries);
      var attempt := 0;
      while attempt < tries - 1 && !readings[attempt].rest && !readings[attempt].ctxEnded
        invariant 0 <= attempt < tries
        invariant Judge(readings, tries) == Judge(readings[attempt..], tries - attempt)
      {
        assert readings[attempt..][1..] == readings[attempt + 1..];
        attempt := attempt + 1;
      }
      if readings[attempt].rest {
        seen := level;
        return Healthy;
      }
      if readings[attempt].ctxEnded {
        return Stopping;
      }
      GiveUpLost(last);
      return Lost;
    }
  }
}
