/**
 * The runtime and its session under concurrency: every goroutine is a task
 * whose next critical section, driver call or latch access is one step, and
 * the device lock is held between steps by at most one of them.
 */
module EstimSystem {
  import opened Wrappers
  import opened EstimRuntime

  /** What the companion session guards with its own lock; attaches counts the sessions attached. */
  datatype Link = Link(attached: bool, sid: nat, lastAck: nat, busy: bool, arming: bool, attaches: nat)

  function Attach(l: Link, sid: nat, now: nat): Link {
    l.(attached := true, sid := sid, lastAck := now, attaches := l.attaches + 1)
  }

  /** A session the connector is not attached to yet: its settings are not those in force. */
  predicate Fresh(l: Link, sid: nat) { !l.attached || l.sid != sid }

  predicate Mine(l: Link, from: Option<nat>) { l.attached && (from.None? || from.value == l.sid) }

  predicate MayArm(l: Link, rt: State) { l.attached && !l.arming && !Armed(rt) && rt.device }

  /** The session as an object: each method is one critical section under its lock. */
  class Session {
    const runtime: Runtime
    var attached: bool
    var sid: nat
    var lastAck: nat
    var busy: bool
    var arming: bool
    ghost var attaches: nat

    ghost function Value(): Link reads this { Link(attached, sid, lastAck, busy, arming, attaches) }

    constructor (r: Runtime)
      ensures Value() == Link(false, 0, 0, false, false, 0) && runtime == r
    {
      runtime := r;
      attached, sid, lastAck, busy, arming, attaches := false, 0, 0, false, false, 0;
    }

    method CompanionAttached(id: nat, now: nat) returns (newer: bool)
      modifies this
      ensures Value() == Attach(old(Value()), id, now) && newer == Fresh(old(Value()), id)
    {
      newer := !attached || sid != id;
      sid, attached, lastAck := id, true, now;
      attaches := attaches + 1;
    }

    method HeartbeatAcked(from: Option<nat>, now: nat) returns (mine: bool)
      modifies this
      ensures Value() == old(Value()).(lastAck := now) && mine == Mine(old(Value()), from)
    {
      lastAck := now;
      mine := attached && (from.None? || from.value == sid);
    }

    /** The first section of a detach. */
    method Forget()
      modifies this
      ensures Value() == old(Value()).(attached := false)
    {
      attached := false;
    }

    /** The section of autoArm: goes ahead at most once at a time. */
    method TryArm() returns (go: bool)
      modifies this
      ensures go == old(MayArm(Value(), runtime.Value()))
      ensures Value() == if go then old(Value()).(arming := true) else old(Value())
    {
      var armed := runtime.IsArmed();
      if !attached || arming || armed || !runtime.device {
        return false;
      }
      arming := true;
      go := true;
    }

    method ArmReturned()
      modifies this
      ensures Value() == old(Value()).(arming := false)
    {
      arming := false;
    }

    /** One command at a time: false when another is still running. */
    method TakeTurn() returns (free: bool)
      modifies this
      ensures Value() == old(Value()).(busy := true) && free == !old(busy)
    {
      free := !busy;
      busy := true;
    }

    method CommandDone()
      modifies this
      ensures Value() == old(Value()).(busy := false)
    {
      busy := false;
    }
  }

  /** The one goroutine that may be arming. */
  datatype ArmTask = ArmIdle | ArmLock | ArmClear | ArmDrive | ArmSettle(ok: bool) | ArmFinish

  /** What follows a Release. A detach remembers where it met the arming, and how many sessions had attached. */
  datatype After = Stop | ToDetach(met: ArmTask, since: nat) | ToSettings(sid: nat) | ToCommand(owner: bool)

  /** The next step of a goroutine. */
  datatype Task =
    | Done
    // the service's messages and the session's own timers
    | AttachMark(sid: nat) | AttachReset | AutoArm
    | AckMark(from: Option<nat>) | AckExtend
    | BeatRead | BeatJudge(acked: nat)
    | DetachMark | DetachCancel(met: ArmTask, since: nat)
    | DetachReset(met: ArmTask, since: nat, ending: Ending) | Detached(met: ArmTask, since: nat, ending: Ending)
    | SettingsAsk(sid: nat, settings: Settings) | SettingsTake(sid: nat, settings: Settings)
    | SettingsDone(sid: nat, released: bool)
    | CommandAsk(sid: nat, cmd: Command, hasId: bool) | CommandMark(cmd: Command, hasId: bool) | CommandFree
    // Release
    | RelCancel(after: After) | RelLock(after: After) | RelClear(after: After) | RelDrive(after: After)
    // Execute; a ramp polls the latch before each raise
    | ExeLock(cmd: Command) | ExeCheck(cmd: Command) | ExeClear | ExeRelease | ExeStatus
    | ExeArmed(cmd: Command) | ExeLatch(cmd: Command) | ExeStart(cmd: Command)
    | Ramp(levelMax: nat, ready: bool, raises: nat) | ExeAfter(raises: nat)
    // the device's coming and going
    | OpenLock | OpenDrive | OpenNotify | OpenArm
    | CloseCancel(reopen: bool) | CloseLock(reopen: bool) | CloseDrive(reopen: bool)
    | SelectAsk(other: bool) | SelectHeld(other: bool)
    // supervision
    | HealthTry | HealthRead | ExpireRead
    | RenewRead | RenewTry(until: nat) | RenewDrive(until: nat) | RenewSet(until: nat)

  datatype Holder = Nobody | Thread(th: nat) | Armer

  datatype System = System(rt: State, link: Link, dev: Holder, armer: ArmTask, threads: map<nat, Task>)

  /** What a driver does next inside Execute. */
  datatype Move = Poll | Raise(to: nat) | Lower(to: nat) | End(ok: bool)

  datatype Event =
    | Tick(ms: nat)
    | Call(th: nat, task: Task)
    | Run(th: nat, o: Outcome, m: Move)
    | RunArm(o: Outcome)

  function Init(now: nat, configured: int): System {
    System(NewState(now, configured), Link(false, 0, 0, false, false, 0), Nobody, ArmIdle, map[])
  }

  /** Where a goroutine can start. */
  predicate Entry(t: Task) {
    || t.AttachMark? || t.AckMark? || t.BeatRead? || t.DetachMark? || t.SettingsAsk? || t.CommandAsk?
    || t.OpenLock? || t.SelectAsk? || (t.CloseCancel? && !t.reopen) || t.HealthTry? || t.ExpireRead? || t.RenewRead?
  }

  predicate Takes(t: Task) { t.RelLock? || t.ExeLock? || t.OpenLock? || t.CloseLock? }

  predicate Executing(t: Task) { t.ExeLatch? || t.ExeStart? || t.Ramp? || t.ExeAfter? }

  /** The device lock is held between the previous step and this one. */
  predicate Holds(t: Task) {
    || t.RelClear? || t.RelDrive?
    || t.ExeCheck? || t.ExeClear? || t.ExeRelease? || t.ExeStatus? || t.ExeArmed? || Executing(t)
    || t.OpenDrive? || t.OpenNotify? || t.OpenArm? || t.CloseDrive? || t.HealthRead? || t.RenewDrive? || t.RenewSet?
  }

  predicate HoldsArm(t: ArmTask) { t.ArmClear? || t.ArmDrive? || t.ArmSettle? }

  predicate Enabled(s: System, ev: Event) {
    match ev
    case Tick(_) => true
    case Call(th, t) => th !in s.threads && Entry(t)
    case Run(th, _, m) =>
      && th in s.threads
      && !s.threads[th].Done? && !s.threads[th].Detached?
      && (Takes(s.threads[th]) ==> s.dev.Nobody?)
      && (s.threads[th].Ramp? && m.Raise? ==> s.threads[th].ready && m.to <= s.threads[th].levelMax)
      && (s.threads[th].Ramp? && m.Lower? ==> m.to <= s.rt.level)
    case RunArm(_) => !s.armer.ArmIdle? && (s.armer.ArmLock? ==> s.dev.Nobody?)
  }

  // ---- one step of a goroutine -------------------------------------------------

  function ThreadRt(rt: State, t: Task, o: Outcome, m: Move): State {
    match t
    case AttachReset => rt.(settings := None)
    case AckExtend => Extend(rt)
    case DetachCancel(_, _) => Latch(rt)
    case DetachReset(_, _, _) => rt.(settings := None)
    case SettingsTake(_, n) => TakeSettings(rt, n)
    case CommandMark(cmd, _) => if cmd.ReleaseVerb? then Latch(rt) else rt
    case RelCancel(_) => Latch(rt)
    case RelClear(_) => ClearArm(rt)
    case RelDrive(_) => Released(rt, o)
    case ExeClear => ClearArm(rt)
    case ExeRelease => var r := DriverRelease(rt, o); if o.released && o.rest then Read(r) else r
    case ExeStatus => if o.rest then Read(rt) else rt
    case Ramp(_, _, _) => if m.Raise? || m.Lower? then rt.(level := m.to) else rt
    case ExeAfter(_) => if o.rest then Read(rt) else rt
    case OpenDrive => if !rt.device && o.released && o.rest then Opened(rt, o.caps) else rt
    case CloseCancel(_) => Latch(rt)
    case CloseDrive(_) => if rt.device then Closed(rt, o) else rt
    case HealthRead => if !rt.device || (!o.rest && o.ctxEnded) then rt else if o.rest then Read(rt) else LostDevice(rt, o)
    case RenewSet(until) => Renewed(rt, until)
    case _ => rt
  }

  /** autoArm goes ahead: attached, not arming, not armed, and a device to arm. */
  predicate ArmStarts(s: System, t: Task) {
    (t.AutoArm? || t.OpenArm?) && MayArm(s.link, s.rt)
  }

  function ThreadLink(s: System, t: Task): Link {
    var l := s.link;
    match t
    case AttachMark(sid) => Attach(l, sid, s.rt.now)
    case AckMark(_) => l.(lastAck := s.rt.now)
    case DetachMark => l.(attached := false)
    case CommandMark(cmd, _) => if cmd.ReleaseVerb? then l else l.(busy := true)
    case CommandFree => l.(busy := false)
    case AutoArm => if ArmStarts(s, t) then l.(arming := true) else l
    case OpenArm => if ArmStarts(s, t) then l.(arming := true) else l
    case _ => l
  }

  function AfterRelease(after: After, ending: Ending): Task {
    match after
    case Stop => Done
    case ToDetach(met, since) => DetachReset(met, since, ending)
    case ToSettings(sid) => SettingsDone(sid, true)
    case ToCommand(owner) => if owner then CommandFree else Done
  }

  /** A command that failed on the device is followed by a release. */
  function Failed(cmd: Command): Task { RelCancel(ToCommand(!cmd.ReleaseVerb?)) }

  function SessionNext(s: System, t: Task): Task {
    match t
    case AttachMark(sid) => if Fresh(s.link, sid) then AttachReset else AutoArm
    case AttachReset => AutoArm
    case AckMark(from) => if Mine(s.link, from) then AckExtend else Done
    case AckExtend => if Armed(s.rt) then Done else AutoArm
    case BeatRead => if s.link.attached then BeatJudge(s.link.lastAck) else Done
    case BeatJudge(acked) => if s.rt.now - acked > ACK_STALE then DetachMark else Done
    case DetachMark => DetachCancel(s.armer, s.link.attaches)
    case DetachCancel(met, since) => RelCancel(ToDetach(met, since))
    case DetachReset(met, since, ending) => Detached(met, since, ending)
    case SettingsAsk(sid, n) => if s.link.attached && s.link.sid == sid && n.Valid() then SettingsTake(sid, n) else Done
    case SettingsTake(sid, n) => if MustRelease(s.rt, n) then RelCancel(ToSettings(sid)) else SettingsDone(sid, false)
    case SettingsDone(sid, released) => if s.link.attached && s.link.sid == sid && released then AutoArm else Done
    case CommandAsk(sid, cmd, hasId) =>
      if s.link.attached && (s.link.sid == sid || cmd.ReleaseVerb?) then CommandMark(cmd, hasId) else Done
    case CommandMark(cmd, hasId) =>
      if cmd.ReleaseVerb? then (if hasId then ExeLock(cmd) else RelCancel(Stop))
      else if s.link.busy then Done
      else if cmd.Malformed? || !hasId then CommandFree
      else ExeLock(cmd)
    case _ => Done
  }

  function ExecuteNext(s: System, t: Task, o: Outcome, m: Move): Task {
    match t
    case ExeLock(cmd) => ExeCheck(cmd)
    case ExeCheck(cmd) =>
      if !s.rt.device then Failed(cmd)
      else if cmd.StatusVerb? then ExeStatus
      else if cmd.ReleaseVerb? then ExeClear
      else ExeArmed(cmd)
    case ExeClear => ExeRelease
    case ExeRelease => if o.released && o.rest then Done else Failed(ReleaseVerb)
    case ExeStatus => if o.rest then CommandFree else Failed(StatusVerb)
    case ExeArmed(cmd) => if Armed(s.rt) then ExeLatch(cmd) else Failed(cmd)
    case ExeLatch(cmd) => if s.rt.cancel then Failed(cmd) else ExeStart(cmd)
    case ExeStart(cmd) =>
      if CapsAllow(cmd, s.rt.caps, InForce(s.rt)) then Ramp(LevelMaxFor(s.rt.caps, InForce(s.rt)), false, 0) else Failed(cmd)
    case Ramp(top, ready, n) =>
      (match m
       case Poll => if s.rt.cancel then RelCancel(ToCommand(true)) else Ramp(top, true, n)
       case Raise(_) => Ramp(top, false, n + 1)
       case Lower(_) => Ramp(top, false, n)
       case End(ok) => if ok then ExeAfter(n) else RelCancel(ToCommand(true)))
    case ExeAfter(_) => if o.rest then CommandFree else RelCancel(ToCommand(true))
    case _ => Done
  }

  function DeviceNext(s: System, t: Task, o: Outcome): Task {
    match t
    case RelCancel(after) => RelLock(after)
    case RelLock(after) => RelClear(after)
    case RelClear(after) => if s.rt.device then RelDrive(after) else AfterRelease(after, Unheld)
    case RelDrive(after) => AfterRelease(after, EndingOf(o))
    case OpenLock => OpenDrive
    case OpenDrive => if !s.rt.device && o.released && o.rest then OpenNotify else Done
    case OpenNotify => if s.link.attached then OpenArm else Done
    case CloseCancel(reopen) => CloseLock(reopen)
    case CloseLock(reopen) => CloseDrive(reopen)
    case CloseDrive(reopen) => if reopen then OpenLock else Done
    case SelectAsk(other) => if Armed(s.rt) then Done else SelectHeld(other)
    case SelectHeld(other) => if other && s.rt.device then CloseCancel(true) else OpenLock
    case HealthTry => if s.dev.Nobody? then HealthRead else Done
    case ExpireRead => if Expired(s.rt) then RelCancel(Stop) else Done
    case RenewRead => if NeedsRenewal(s.rt) then RenewTry(s.rt.armDeadline) else Done
    case RenewTry(until) => if s.dev.Nobody? then RenewDrive(until) else Done
    case RenewDrive(until) => if s.rt.device && o.rest then RenewSet(until) else Done
    case _ => Done
  }

  predicate OfSession(t: Task) {
    || t.AttachMark? || t.AttachReset? || t.AutoArm? || t.AckMark? || t.AckExtend? || t.BeatRead? || t.BeatJudge?
    || t.DetachMark? || t.DetachCancel? || t.DetachReset? || t.Detached?
    || t.SettingsAsk? || t.SettingsTake? || t.SettingsDone? || t.CommandAsk? || t.CommandMark? || t.CommandFree?
  }

  predicate OfExecute(t: Task) {
    t.ExeLock? || t.ExeCheck? || t.ExeClear? || t.ExeRelease? || t.ExeStatus? || t.ExeArmed? || Executing(t)
  }

  function ThreadNext(s: System, t: Task, o: Outcome, m: Move): Task {
    if OfSession(t) then SessionNext(s, t)
    else if OfExecute(t) then ExecuteNext(s, t, o, m)
    else DeviceNext(s, t, o)
  }

  function Pass(dev: Holder, who: Holder, before: bool, after: bool): Holder {
    if after then who else if before then Nobody else dev
  }

  function RunThread(s: System, th: nat, o: Outcome, m: Move): System
    requires th in s.threads
  {
    var t := s.threads[th];
    var next := ThreadNext(s, t, o, m);
    System(ThreadRt(s.rt, t, o, m), ThreadLink(s, t), Pass(s.dev, Thread(th), Holds(t), Holds(next)),
           if ArmStarts(s, t) then ArmLock else s.armer, s.threads[th := next])
  }

  // ---- one step of arming ---------------------------------------------------------

  function ArmRt(rt: State, t: ArmTask, o: Outcome): State {
    match t
    case ArmClear => if rt.device then rt.(cancel := false) else rt
    case ArmDrive => var r := DriverRelease(rt, o); if o.released && o.rest then Read(r) else r
    case ArmSettle(ok) => FinishArm(rt, ok)
    case _ => rt
  }

  function ArmNext(rt: State, t: ArmTask, o: Outcome): ArmTask {
    match t
    case ArmLock => ArmClear
    case ArmClear => if rt.device then ArmDrive else ArmFinish
    case ArmDrive => ArmSettle(o.released && o.rest)
    case ArmSettle(_) => ArmFinish
    case _ => ArmIdle
  }

  function StepArm(s: System, o: Outcome): System {
    var next := ArmNext(s.rt, s.armer, o);
    System(ArmRt(s.rt, s.armer, o), if s.armer.ArmFinish? then s.link.(arming := false) else s.link,
           Pass(s.dev, Armer, HoldsArm(s.armer), HoldsArm(next)), next, s.threads)
  }

  // ---- runs -------------------------------------------------------------------------

  function Step(s: System, ev: Event): System {
    if !Enabled(s, ev) then s
    else match ev
      case Tick(ms) => s.(rt := s.rt.(now := s.rt.now + ms))
      case Call(th, t) => s.(threads := s.threads[th := t])
      case Run(th, o, m) => RunThread(s, th, o, m)
      case RunArm(o) => StepArm(s, o)
  }

  /** The state after a run of events, latest last; an event that is not enabled does nothing. */
  function Play(s: System, evs: seq<Event>): System {
    if evs == [] then s else Step(Play(s, evs[..|evs| - 1]), evs[|evs| - 1])
  }

  lemma {:induction false} PlayOn(s: System, evs: seq<Event>, more: seq<Event>)
    ensures Play(s, evs + more) == Play(Play(s, evs), more)
  {
    if more == [] {
      assert evs + more == evs;
    } else {
      PlayOn(s, evs, more[..|more| - 1]);
      assert (evs + more)[..|evs + more| - 1] == evs + more[..|more| - 1];
    }
  }
}
