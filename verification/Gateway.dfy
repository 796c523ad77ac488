/**
 * The gateway's control state: which connector is expected, which is
 * attached, and the camera the producer chose through it.
 */
module Gateway {
  import opened Wrappers

  /** An expectation; id is which one, since a handshake is for one expectation and no other. */
  datatype Expectation = Expectation(id: nat, key: string, ticketHash: string, expiresAt: int, attachedOnce: bool)

  datatype Attached = Attached(session: nat, key: string)

  /** targetKey is whose connector was attached when the target was set; made, how many expectations there have been. */
  datatype State = State(expected: Option<Expectation>, attached: Option<Attached>, target: string, targetKey: string, made: nat)

  const NEW_STATE := State(None, None, "", "", 0)

  // ---- critical sections ------------------------------------------------------------

  /** The connector the session already had: the one attached or, with none, the one last expected. */
  predicate SameConnector(s: State, key: string) {
    if s.attached.Some? then s.attached.value.key == key else s.expected.Some? && s.expected.value.key == key
  }

  function Expect(s: State, key: string, hash: string, expiresAt: int): State {
    var exp := Expectation(s.made, key, hash, expiresAt, s.attached.Some? && SameConnector(s, key));
    var t := s.(expected := Some(exp), made := s.made + 1);
    if SameConnector(s, key) then t else t.(target := "", attached := None)
  }

  /** The target, or a refusal when no connector is attached. */
  function SetTarget(s: State, target: string): State {
    if s.attached.None? then s else s.(target := target, targetKey := s.attached.value.key)
  }

  /** Clearing takes the lock twice: to forget, then to drop the connector. */
  function Forget(s: State): State { s.(expected := None, target := "") }

  function Drop(s: State): State { s.(attached := None) }

  /** A connector that finished its handshake for expectation id. */
  function Attach(s: State, id: nat, session: nat): State {
    if s.expected.Some? && s.expected.value.id == id then
      s.(expected := Some(s.expected.value.(attachedOnce := true)), attached := Some(Attached(session, s.expected.value.key)))
    else s
  }

  function Detach(s: State, session: nat): State {
    if s.attached.Some? && s.attached.value.session == session then Drop(s) else s
  }

  /** The expectation a ticket is good for. */
  function ExpectationFor(s: State, hash: string, now: int): Option<Expectation> {
    if s.expected.Some? && s.expected.value.ticketHash == hash && (s.expected.value.attachedOnce
        || now <= s.expected.value.expiresAt)
    then s.expected else None
  }

  datatype Event =
    | ExpectCall(key: string, hash: string, expiresAt: int)
    | TargetCall(target: string)
    | ClearForgets
    | ClearDrops
    | HandshakeDone(id: nat, session: nat)
    | SessionEnds(session: nat)

  function Step(s: State, ev: Event): State {
    match ev
    case ExpectCall(key, hash, expiresAt) => Expect(s, key, hash, expiresAt)
    case TargetCall(target) => SetTarget(s, target)
    case ClearForgets => Forget(s)
    case ClearDrops => Drop(s)
    case HandshakeDone(id, session) => Attach(s, id, session)
    case SessionEnds(session) => Detach(s, session)
  }

  function Play(evs: seq<Event>): State {
    if evs == [] then NEW_STATE else Step(Play(evs[..|evs| - 1]), evs[|evs| - 1])
  }

  // ---- what every run keeps ------------------------------------------------------------

  /** The target is its connector's: nobody else is expected or attached while it stands. */
  predicate TargetBelongs(s: State) {
    s.target != "" ==> && (s.expected.Some? ==> s.expected.value.key == s.targetKey)
                       && (s.attached.Some? ==> s.attached.value.key == s.targetKey)
  }

  predicate Inv(s: State) {
    && TargetBelongs(s)
    && (s.expected.Some? ==> s.expected.value.id < s.made)
    && (s.expected.Some? && s.attached.Some? ==> s.expected.value.key == s.attached.value.key && s.expected.value.attachedOnce)
  }

  lemma StepKeeps(s: State, ev: Event)
    requires Inv(s)
    ensures Inv(Step(s, ev))
  {
  }

  /**
   * However clears, drops, handshakes and expectations interleave, the target is reached only through
   * the connector it was chosen on.
   */
  lemma {:induction false} TargetBelongsAlways(evs: seq<Event>)
    ensures Inv(Play(evs))
  {
    if evs != [] {
      TargetBelongsAlways(evs[..|evs| - 1]);
      StepKeeps(Play(evs[..|evs| - 1]), evs[|evs| - 1]);
    }
  }

  /**
   * A new expectation keeps the target exactly when it is for the target's connector and that one is
   * attached or was expected.
   */
  lemma ReExpectKeepsTarget(evs: seq<Event>, key: string, hash: string, expiresAt: int)
    requires Play(evs).target != ""
    ensures var s := Play(evs); var t := Expect(s, key, hash, expiresAt);
            && (t.target == s.target <==> key == s.targetKey && (s.attached.Some? || s.expected.Some?))
            && (t.target != s.target ==> t.target == "" && t.attached.None?)
  {
    TargetBelongsAlways(evs);
  }

  /** While its connector is attached a ticket never expires, under whichever expectation of that connector. */
  lemma AttachedTicketNeverExpires(evs: seq<Event>, now: int)
    requires Play(evs).attached.Some? && Play(evs).expected.Some?
    ensures ExpectationFor(Play(evs), Play(evs).expected.value.ticketHash, now) == Play(evs).expected
  {
  }

  predicate ForOther(s: State, ev: Event) { ev.ExpectCall? && ev.key != s.targetKey }

  /**
   * A target, once set, stays through any number of drops, re-dials and new tickets for its connector,
   * as long as nothing is cleared and no target replaces it.
   */
  lemma {:induction false} TargetSurvives(evs: seq<Event>, more: seq<Event>)
    requires Play(evs).target != "" && Play(evs).expected.Some?
    requires forall k :: 0 <= k < |more| ==> !more[k].ClearForgets? && !more[k].TargetCall? && !ForOther(Play(evs), more[k])
    ensures Play(evs + more).target == Play(evs).target && Play(evs + more).targetKey == Play(evs).targetKey
    ensures Play(evs + more).expected.Some?
  {
    TargetBelongsAlways(evs);
    if more == [] {
      assert evs + more == evs;
    } else {
      var less := more[..|more| - 1];
      TargetSurvives(evs, less);
      TargetBelongsAlways(evs + less);
      assert (evs + more)[..|evs + more| - 1] == evs + less;
    }
  }

  /** The server as an object: each method is one critical section under its lock. */
  class Server {
    var expected: Option<Expectation>
    var attached: Option<Attached>
    var target: string
    ghost var targetKey: string
    ghost var made: nat

    ghost function Value(): State reads this { State(expected, attached, target, targetKey, made) }

    constructor ()
      ensures Value() == NEW_STATE
    {
      expected, attached, target, targetKey, made := None, None, "", "", 0;
    }

    /** A new expectation; the session to close, when it is another connector's. */
    method HandleExpect(id: nat, key: string, hash: string, expiresAt: int) returns (close: Option<Attached>)
      requires id == made
      modifies this
      ensures Value() == Expect(old(Value()), key, hash, expiresAt)
      ensures close == if SameConnector(old(Value()), key) then None else old(attached)
    {
      var prev, att := expected, attached;
      var same := (att.Some? && att.value.key == key) || (att.None? && prev.Some? && prev.value.key == key);
      var once := false;
      if att.Some? && same {
        once := true;
        att := None;
      } else if !same {
        target := "";
        attached := None;
      }
      expected := Some(Expectation(id, key, hash, expiresAt, once));
      made := made + 1;
      close := att;
    }

    method HandleTarget(address: string) returns (accepted: bool)
      modifies this
      ensures Value() == SetTarget(old(Value()), address) && accepted == old(attached).Some?
    {
      if attached.None? {
        return false;
      }
      target := address;
      targetKey := attached.value.key;
      accepted := true;
    }

    method ForgetSession()
      modifies this
      ensures Value() == Forget(old(Value()))
    {
      expected, target := None, "";
    }

    method DropConnector() returns (close: Option<Attached>)
      modifies this
      ensures Value() == Drop(old(Value())) && close == old(attached)
    {
      close := attached;
      attached := None;
    }

    method AttachConnector(id: nat, session: nat) returns (taken: bool, close: Option<Attached>)
      modifies this
      ensures Value() == Attach(old(Value()), id, session)
      ensures taken <==> old(expected).Some? && old(expected).value.id == id
      ensures close == if taken then old(attached) else None
    {
      if expected.None? || expected.value.id != id {
        return false, None;
      }
      expected := Some(expected.value.(attachedOnce := true));
      close := attached;
      attached := Some(Attached(session, expected.value.key));
      taken := true;
    }

    method DetachConnector(session: nat)
      modifies this
      ensures Value() == Detach(old(Value()), session)
    {
      if attached.Some? && attached.value.session == session {
        attached := None;
      }
    }

    method Admit(hash: string, now: int) returns (exp: Option<Expectation>)
      ensures exp == ExpectationFor(Value(), hash, now)
    {
      if expected.None? || expected.value.ticketHash != hash || (!expected.value.attachedOnce && now > expected.value.expiresAt) {
        return None;
      }
      exp := expected;
    }
  }
}
