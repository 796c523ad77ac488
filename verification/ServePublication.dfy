/**
 * One hold on the stream across its publishers: who still has to release it,
 * when it waits for a replacement, and when it ends.
 */
module ServePublication {
  import opened Wrappers

  /** A timer that closes the publication if generation gen is still waiting when it is due. */
  datatype Timer = Timer(gen: nat, due: int)

  const DEFAULT_GRACE := 8_000

  /**
   * The publication's fields; the callbacks of timers that have gone off and
   * not yet run; whether a close has been decided and done, and whether a
   * caller asked for it. live counts the publishers that have joined and not
   * yet released.
   */
  datatype Publication = Publication(now: int, handover: Option<int>, gens: nat, owed: nat, released: bool,
                                     grace: Option<Timer>, callbacks: multiset<nat>,
                                     closing: bool, asked: bool, closed: bool, live: nat)

  function Published(now: int): Publication {
    Publication(now, None, 1, 0, false, None, multiset{}, false, false, false, 1)
  }

  predicate HandoverArmed(p: Publication) { p.handover.Some? && p.now < p.handover.value }

  datatype Event =
    | Tick(ms: nat)
    | Arm(grace: int)        // ArmHandover
    | Release(at: int)       // a publisher leaves; at is the time it read before taking the lock
    | Join                   // Publish with compatible medias
    | TimerFires
    | Callback(gen: nat)
    | CloseCall              // Close by somebody other than a release or a timer
    | CloseRuns

  predicate Enabled(p: Publication, ev: Event) {
    match ev
    case Tick(_) => true
    case Arm(_) => p.live > 0
    case Release(at) => p.live > 0 && at <= p.now
    case Join => !p.closed && HandoverArmed(p)
    case TimerFires => p.grace.Some? && p.grace.value.due <= p.now
    case Callback(gen) => gen in p.callbacks
    case CloseCall => true
    case CloseRuns => p.closing && !p.closed
  }

  function ArmHandover(p: Publication, grace: int): Publication {
    p.(handover := Some(p.now + if grace == 0 then DEFAULT_GRACE else grace))
  }

  /** The publisher leaving; true when nothing is left to wait for. */
  function Leave(p: Publication, at: int): (Publication, bool) {
    if p.owed > 0 then (p.(owed := p.owed - 1), false)
    else if p.handover.None? || at >= p.handover.value then (p, true)
    else (p.(released := true, grace := Some(Timer(p.gens, p.now + (p.handover.value - at)))), false)
  }

  function Take(p: Publication): Publication {
    p.(grace := None, handover := None, owed := if p.released then p.owed else p.owed + 1, released := false, gens := p.gens + 1)
  }

  predicate Stale(p: Publication, gen: nat) { p.handover.Some? && p.gens == gen }

  function Step(p: Publication, ev: Event): Publication {
    if !Enabled(p, ev) then p
    else match ev
      case Tick(ms) => p.(now := p.now + ms)
      case Arm(grace) => ArmHandover(p, grace)
      case Release(at) =>
        var (q, close) := Leave(p, at);
        q.(live := p.live - 1, closing := p.closing || close)
      case Join => Take(p).(live := p.live + 1)
      case TimerFires => p.(grace := None, callbacks := p.callbacks + multiset{p.grace.value.gen})
      case Callback(gen) => p.(callbacks := p.callbacks - multiset{gen}, closing := p.closing || Stale(p, gen))
      case CloseCall => p.(closing := true, asked := true)
      case CloseRuns => p.(grace := None, handover := None, closed := true)
  }

  function Play(p: Publication, evs: seq<Event>): Publication {
    if evs == [] then p else Step(Play(p, evs[..|evs| - 1]), evs[|evs| - 1])
  }

  // ---- what every run keeps -------------------------------------------------------

  predicate Open(p: Publication) { !p.closing && !p.closed }

  /** The releases still to come: the replaced publishers', and the current one's unless it has left. */
  function Expected(p: Publication): nat { p.owed + if p.released then 0 else 1 }

  predicate TimersOk(p: Publication) {
    && (p.grace.Some? ==> p.grace.value.gen <= p.gens)
    && (p.grace.Some? && p.grace.value.gen == p.gens ==> p.released && p.handover.Some? && p.grace.value.due >= p.handover.value)
    && (forall g | g in p.callbacks :: g <= p.gens && (g == p.gens ==> p.released && p.handover.Some? && p.now >= p.handover.value))
  }

  predicate Inv(p: Publication) {
    && (p.closed ==> p.closing)
    && (Open(p) ==> p.live == Expected(p) && TimersOk(p) && (p.released ==> p.owed == 0))
    && (p.closing && !p.asked ==> p.live == 0 && (p.handover.None? || p.now >= p.handover.value))
    && (Open(p) && p.live == 0 ==> (p.grace.Some? && p.grace.value.gen == p.gens) || p.gens in p.callbacks)
  }

  lemma StepKeeps(p: Publication, ev: Event)
    requires Inv(p)
    ensures Inv(Step(p, ev))
  {
  }

  lemma {:induction false} PlayKeeps(now: int, evs: seq<Event>)
    ensures Inv(Play(Published(now), evs))
  {
    if evs != [] {
      PlayKeeps(now, evs[..|evs| - 1]);
      StepKeeps(Play(Published(now), evs[..|evs| - 1]), evs[|evs| - 1]);
    }
  }

  /** While the publication is open, the publishers not yet released are those owed and the current one. */
  lemma PublishersAccounted(now: int, evs: seq<Event>)
    ensures var p := Play(Published(now), evs); Open(p) ==> p.live == p.owed + if p.released then 0 else 1
  {
    PlayKeeps(now, evs);
  }

  /** Neither a release nor a timer ends the stream under a publisher. */
  lemma ClosesOnlyUnpublished(now: int, evs: seq<Event>)
    ensures var p := Play(Published(now), evs); p.closing && !p.asked ==> p.live == 0
  {
    PlayKeeps(now, evs);
  }

  /** Open with no publisher, it always has its end in sight: this generation's timer, set or gone off. */
  lemma NeverAbandoned(now: int, evs: seq<Event>)
    ensures var p := Play(Published(now), evs);
            Open(p) && p.live == 0 ==> (p.grace.Some? && p.grace.value.gen == p.gens) || p.gens in p.callbacks
  {
    PlayKeeps(now, evs);
  }

  /** The publication as an object, under its lock. */
  class Hold {
    var handover: Option<int>
    var gens: nat
    var owed: nat
    var released: bool
    var grace: Option<Timer>

    ghost predicate Holds(p: Publication) reads this {
      p.handover == handover && p.gens == gens && p.owed == owed && p.released == released && p.grace == grace
    }

    constructor (now: int)
      ensures Holds(Published(now))
    {
      handover, gens, owed, released, grace := None, 1, 0, false, None;
    }

    method Announce(ghost p: Publication, now: int, wait: int)
      requires Holds(p) && p.now == now
      modifies this
      ensures Holds(ArmHandover(p, wait))
    {
      handover := Some(now + if wait == 0 then DEFAULT_GRACE else wait);
    }

    /** Release: whether the caller must close. at was read before the lock was had, now after. */
    method Left(ghost p: Publication, at: int, now: int) returns (close: bool)
      requires Holds(p) && p.now == now
      modifies this
      ensures Holds(Leave(p, at).0) && close == Leave(p, at).1
    {
      if owed > 0 {
        owed := owed - 1;
        return false;
      }
      if handover.None? || at >= handover.value {
        return true;
      }
      released := true;
      grace := Some(Timer(gens, now + (handover.value - at)));
      return false;
    }

    method Joined(ghost p: Publication)
      requires Holds(p)
      modifies this
      ensures Holds(Take(p))
    {
      grace, handover := None, None;
      if !released {
        owed := owed + 1;
      }
      released := false;
      gens := gens + 1;
    }

    method IsStale(ghost p: Publication, gen: nat) returns (stale: bool)
      requires Holds(p)
      ensures stale == Stale(p, gen)
    {
      stale := handover.Some? && gens == gen;
    }
  }
}
