/**
 * The gateway's state after any run, told by the calls alone: which
 * expectation stands, whose tunnel is held, which target is chosen, and which
 * tickets are admitted.
 */
module GatewayRuns {
  import opened Wrappers
  import opened Gateway

  /** How many of the first n calls were expectations. */
  function Calls(evs: seq<Event>, n: nat): nat
    requires n <= |evs|
  {
    if n == 0 then 0 else Calls(evs, n - 1) + if evs[n - 1].ExpectCall? then 1 else 0
  }

  /** Call k is the last expectation of the first n calls, not cleared since. */
  predicate Stands(evs: seq<Event>, n: nat, k: nat)
    requires n <= |evs|
  {
    k < n && evs[k].ExpectCall? && forall j :: k < j < n ==> !evs[j].ExpectCall? && !evs[j].ClearForgets?
  }

  /** Event h is a finished handshake for the expectation of call k, which still stands. */
  predicate Accepted(evs: seq<Event>, h: nat, k: nat)
    requires h < |evs|
  {
    evs[h].HandshakeDone? && Stands(evs, h, k) && evs[h].id == Calls(evs, k)
  }

  /** Some handshake is accepted at j. */
  predicate Taken(evs: seq<Event>, j: nat)
    requires j < |evs|
  {
    exists k: nat :: k < j && Accepted(evs, j, k)
  }

  /** Event j ends the tunnel held since h for the connector of call k. */
  predicate Ends(evs: seq<Event>, j: nat, h: nat, k: nat)
    requires k < h < j < |evs| && evs[h].HandshakeDone? && evs[k].ExpectCall?
  {
    || evs[j].ClearDrops? || evs[j] == SessionEnds(evs[h].session)
    || (evs[j].ExpectCall? && evs[j].key != evs[k].key) || Taken(evs, j)
  }

  /** After n events the tunnel of handshake h is held, for the connector of call k. */
  predicate Holds(evs: seq<Event>, n: nat, h: nat, k: nat)
    requires n <= |evs|
  {
    h < n && Accepted(evs, h, k) && forall j :: h < j < n ==> !Ends(evs, j, h, k)
  }

  ghost predicate SomeHolds(evs: seq<Event>, n: nat, key: string)
    requires n <= |evs|
  {
    exists h: nat, k: nat :: Holds(evs, n, h, k) && evs[k].key == key
  }

  ghost predicate NoneHolds(evs: seq<Event>, n: nat)
    requires n <= |evs|
  {
    forall h: nat, k: nat :: !Holds(evs, n, h, k)
  }

  /** The connector of call k has been attached under it: kept from the expectation before, or by a handshake since. */
  ghost predicate AttachedUnder(evs: seq<Event>, n: nat, k: nat)
    requires k < n <= |evs| && evs[k].ExpectCall?
  {
    SomeHolds(evs, k, evs[k].key) || exists h: nat :: k < h < n && Accepted(evs, h, k)
  }

  // ---- the state says the same ------------------------------------------------------------

  ghost predicate ExpectedTold(s: State, evs: seq<Event>, n: nat)
    requires n <= |evs|
  {
    && s.made == Calls(evs, n)
    && (s.expected.None? ==> forall k: nat :: !Stands(evs, n, k))
    && (s.expected.Some? ==> exists k: nat :: Stands(evs, n, k))
    && forall k: nat :: Stands(evs, n, k) ==>
         var e := s.expected;
         && e.Some? && e.value.id == Calls(evs, k) && e.value.key == evs[k].key && e.value.ticketHash == evs[k].hash
         && e.value.expiresAt == evs[k].expiresAt && (e.value.attachedOnce <==> AttachedUnder(evs, n, k))
  }

  ghost predicate AttachedTold(s: State, evs: seq<Event>, n: nat)
    requires n <= |evs|
  {
    && (s.attached.None? ==> NoneHolds(evs, n))
    && (s.attached.Some? ==> exists h: nat, k: nat :: Holds(evs, n, h, k))
    && forall h: nat, k: nat :: Holds(evs, n, h, k) ==> s.attached == Some(Attached(evs[h].session, evs[k].key))
  }

  lemma OneStands(evs: seq<Event>, n: nat, k: nat, m: nat)
    requires n <= |evs| && Stands(evs, n, k) && Stands(evs, n, m)
    ensures k == m
  {
  }

  lemma {:induction false} CallsGrow(evs: seq<Event>, k: nat, n: nat)
    requires k < n <= |evs| && evs[k].ExpectCall?
    ensures Calls(evs, k) < Calls(evs, n)
  {
    if k < n - 1 {
      CallsGrow(evs, k, n - 1);
    }
  }

  /** A handshake is accepted exactly when it is for the expectation that stands. */
  lemma AcceptedTold(s: State, evs: seq<Event>, n: nat)
    requires n < |evs| && evs[n].HandshakeDone? && ExpectedTold(s, evs, n)
    ensures Taken(evs, n) <==> s.expected.Some? && s.expected.value.id == evs[n].id
    ensures forall k: nat :: Accepted(evs, n, k) ==> s.expected.Some? && s.expected.value.key == evs[k].key
  {
    if s.expected.Some? {
      var k: nat :| Stands(evs, n, k);
      if s.expected.value.id == evs[n].id {
        assert Accepted(evs, n, k);
      }
    }
  }

  lemma StandsOn(evs: seq<Event>, n: nat, k: nat)
    requires n < |evs|
    ensures Stands(evs, n + 1, k) <==>
                (k == n && evs[n].ExpectCall?) || (Stands(evs, n, k) && !evs[n].ExpectCall? && !evs[n].ClearForgets?)
  {
  }

  lemma HoldsOn(evs: seq<Event>, n: nat, h: nat, k: nat)
    requires n < |evs|
    ensures Holds(evs, n + 1, h, k) <==> (h == n && Accepted(evs, n, k)) || (Holds(evs, n, h, k) && !Ends(evs, n, h, k))
  {
  }

  lemma UnderOn(evs: seq<Event>, n: nat, k: nat)
    requires k < n < |evs| && evs[k].ExpectCall?
    ensures AttachedUnder(evs, n + 1, k) <==> AttachedUnder(evs, n, k) || Accepted(evs, n, k)
  {
  }

  lemma TakenOn(s: State, evs: seq<Event>, n: nat)
    requires n < |evs| && ExpectedTold(s, evs, n) && AttachedTold(s, evs, n) && Taken(evs, n)
    ensures AttachedTold(Step(s, evs[n]), evs, n + 1)
  {
    AcceptedTold(s, evs, n);
    var m: nat :| Accepted(evs, n, m);
    assert Holds(evs, n + 1, n, m);
    var next := n + 1;
    forall h: nat, k: nat ensures Holds(evs, next, h, k) ==> h == n && Accepted(evs, n, k) {
      HoldsOn(evs, n, h, k);
    }
  }

  lemma EndsTold(s: State, evs: seq<Event>, n: nat, h: nat, k: nat)
    requires n < |evs| && ExpectedTold(s, evs, n) && !Taken(evs, n) && Holds(evs, n, h, k)
    requires s.attached == Some(Attached(evs[h].session, evs[k].key))
    ensures var t := Step(s, evs[n]); t.attached == if Ends(evs, n, h, k) then None else s.attached
  {
    if evs[n].HandshakeDone? {
      AcceptedTold(s, evs, n);
    }
  }

  lemma NothingComes(s: State, evs: seq<Event>, n: nat)
    requires n < |evs| && ExpectedTold(s, evs, n) && !Taken(evs, n) && s.attached.None?
    ensures Step(s, evs[n]).attached.None?
  {
    if evs[n].HandshakeDone? {
      AcceptedTold(s, evs, n);
    }
  }

  /** No handshake is accepted: the tunnel held stays, unless the event ends it. */
  lemma NotTakenOn(s: State, evs: seq<Event>, n: nat)
    requires n < |evs| && ExpectedTold(s, evs, n) && AttachedTold(s, evs, n) && !Taken(evs, n)
    ensures AttachedTold(Step(s, evs[n]), evs, n + 1)
  {
    var next := n + 1;
    forall h: nat, k: nat ensures Holds(evs, next, h, k) <==> Holds(evs, n, h, k) && !Ends(evs, n, h, k) {
      HoldsOn(evs, n, h, k);
      assert !Accepted(evs, n, k);
    }
    if s.attached.None? {
      NothingComes(s, evs, n);
    } else {
      forall h: nat, k: nat | Holds(evs, n, h, k)
        ensures Step(s, evs[n]).attached == if Ends(evs, n, h, k) then None else s.attached
      {
        EndsTold(s, evs, n, h, k);
      }
      var h: nat, k: nat :| Holds(evs, n, h, k);
      assert Step(s, evs[n]).attached.Some? ==> Holds(evs, next, h, k);
    }
  }

  lemma AttachedOn(s: State, evs: seq<Event>, n: nat)
    requires n < |evs| && ExpectedTold(s, evs, n) && AttachedTold(s, evs, n)
    ensures AttachedTold(Step(s, evs[n]), evs, n + 1)
  {
    if Taken(evs, n) {
      TakenOn(s, evs, n);
    } else {
      NotTakenOn(s, evs, n);
    }
  }

  lemma ExpectedOn(s: State, evs: seq<Event>, n: nat)
    requires n < |evs| && ExpectedTold(s, evs, n) && AttachedTold(s, evs, n) && Inv(s)
    ensures ExpectedTold(Step(s, evs[n]), evs, n + 1)
  {
    var t := Step(s, evs[n]);
    if evs[n].HandshakeDone? {
      AcceptedTold(s, evs, n);
    }
    forall k: nat ensures Stands(evs, n + 1, k) <==>
        (k == n && evs[n].ExpectCall?) || (Stands(evs, n, k) && !evs[n].ExpectCall? && !evs[n].ClearForgets?) {
      StandsOn(evs, n, k);
    }
    forall k: nat | Stands(evs, n + 1, k)
      ensures t.expected.Some? && t.expected.value.id == Calls(evs, k) && t.expected.value.key == evs[k].key
      ensures t.expected.value.ticketHash == evs[k].hash && t.expected.value.expiresAt == evs[k].expiresAt
      ensures t.expected.value.attachedOnce <==> AttachedUnder(evs, n + 1, k)
    {
      if k == n {
        KeptTold(s, evs, n);
      } else {
        UnderOn(evs, n, k);
        if evs[n].HandshakeDone? && Taken(evs, n) {
          var m: nat :| Accepted(evs, n, m);
          OneStands(evs, n, k, m);
        }
      }
    }
    if t.expected.Some? {
      if evs[n].ExpectCall? {
        assert Stands(evs, n + 1, n);
      } else {
        var k: nat :| Stands(evs, n, k);
        assert Stands(evs, n + 1, k);
      }
    }
  }

  /** A new expectation starts attached exactly when its connector's tunnel is held. */
  lemma KeptTold(s: State, evs: seq<Event>, n: nat)
    requires n < |evs| && evs[n].ExpectCall? && AttachedTold(s, evs, n)
    ensures Step(s, evs[n]).expected.value.attachedOnce <==> AttachedUnder(evs, n + 1, n)
  {
    if s.attached.Some? {
      var h: nat, k: nat :| Holds(evs, n, h, k);
    }
  }

  lemma {:induction false} RunTold(evs: seq<Event>, n: nat)
    requires n <= |evs|
    ensures ExpectedTold(Play(evs[..n]), evs, n) && AttachedTold(Play(evs[..n]), evs, n)
  {
    if n > 0 {
      RunTold(evs, n - 1);
      var s := Play(evs[..n - 1]);
      TargetBelongsAlways(evs[..n - 1]);
      assert evs[..n][..n - 1] == evs[..n - 1];
      AttachedOn(s, evs, n - 1);
      ExpectedOn(s, evs, n - 1);
    }
  }

  // ---- the target ------------------------------------------------------------------------

  /** The connector the session has after n events: the one held or, with none held, the one expected. */
  ghost predicate Has(evs: seq<Event>, n: nat, key: string)
    requires n <= |evs|
  {
    SomeHolds(evs, n, key) || (NoneHolds(evs, n) && exists k: nat :: Stands(evs, n, k) && evs[k].key == key)
  }

  /** Event j takes or replaces the target. */
  ghost predicate Retargets(evs: seq<Event>, j: nat)
    requires j < |evs|
  {
    || evs[j].ClearForgets? || (evs[j].TargetCall? && !NoneHolds(evs, j))
    || (evs[j].ExpectCall? && !Has(evs, j, evs[j].key))
  }

  /**
   * Call t is the last to choose a target, made while a tunnel was held; it was neither cleared nor
   * another connector expected since.
   */
  ghost predicate Chosen(evs: seq<Event>, n: nat, t: nat)
    requires n <= |evs|
  {
    t < n && evs[t].TargetCall? && !NoneHolds(evs, t) && forall j :: t < j < n ==> !Retargets(evs, j)
  }

  ghost predicate TargetTold(target: string, evs: seq<Event>, n: nat)
    requires n <= |evs|
  {
    && (forall t: nat :: Chosen(evs, n, t) ==> target == evs[t].target)
    && ((forall t: nat :: !Chosen(evs, n, t)) ==> target == "")
  }

  lemma HasTold(s: State, evs: seq<Event>, n: nat, key: string)
    requires n <= |evs| && ExpectedTold(s, evs, n) && AttachedTold(s, evs, n)
    ensures SameConnector(s, key) <==> Has(evs, n, key)
    ensures s.attached.None? <==> NoneHolds(evs, n)
  {
    if s.attached.Some? {
      var h: nat, k: nat :| Holds(evs, n, h, k);
    } else if s.expected.Some? {
      var k: nat :| Stands(evs, n, k);
    }
  }

  lemma ChosenOn(evs: seq<Event>, n: nat, t: nat)
    requires n < |evs|
    ensures Chosen(evs, n + 1, t) <==>
                (t == n && evs[n].TargetCall? && !NoneHolds(evs, n)) || (Chosen(evs, n, t) && !Retargets(evs, n))
  {
  }

  /** What one event makes of the target. */
  ghost function Retargeted(evs: seq<Event>, n: nat, target: string): string
    requires n < |evs|
  {
    if evs[n].TargetCall? && !NoneHolds(evs, n) then evs[n].target else if Retargets(evs, n) then "" else target
  }

  lemma StepTargets(s: State, evs: seq<Event>, n: nat)
    requires n < |evs| && ExpectedTold(s, evs, n) && AttachedTold(s, evs, n)
    ensures Step(s, evs[n]).target == Retargeted(evs, n, s.target)
  {
    if evs[n].ExpectCall? || evs[n].TargetCall? {
      HasTold(s, evs, n, if evs[n].ExpectCall? then evs[n].key else "");
    }
  }

  lemma TargetOn(target: string, evs: seq<Event>, n: nat)
    requires n < |evs| && TargetTold(target, evs, n)
    ensures TargetTold(Retargeted(evs, n, target), evs, n + 1)
  {
    var next := n + 1;
    forall t: nat
      ensures Chosen(evs, next, t) <==>
                  (t == n && evs[n].TargetCall? && !NoneHolds(evs, n)) || (Chosen(evs, n, t) && !Retargets(evs, n))
    {
      ChosenOn(evs, n, t);
    }
    if evs[n].TargetCall? && !NoneHolds(evs, n) {
      assert Chosen(evs, next, n);
    } else if !Retargets(evs, n) && exists t: nat :: Chosen(evs, n, t) {
      var t: nat :| Chosen(evs, n, t);
      assert Chosen(evs, next, t);
    }
  }

  lemma {:induction false} RunTargets(evs: seq<Event>, n: nat)
    requires n <= |evs|
    ensures TargetTold(Play(evs[..n]).target, evs, n)
  {
    if n > 0 {
      RunTargets(evs, n - 1);
      RunTold(evs, n - 1);
      assert evs[..n][..n - 1] == evs[..n - 1];
      StepTargets(Play(evs[..n - 1]), evs, n - 1);
      TargetOn(Play(evs[..n - 1]).target, evs, n - 1);
    }
  }

  // ---- what a run comes to -----------------------------------------------------------------

  /**
   * A ticket is admitted exactly when the expectation that stands was made
   * with its hash and has not expired, or its connector has been attached under it.
   */
  lemma AdmitsExactly(evs: seq<Event>, hash: string, now: int)
    ensures ExpectationFor(Play(evs), hash, now).Some? <==>
            exists k: nat :: Stands(evs, |evs|, k) && evs[k].hash == hash && (now <= evs[k].expiresAt
                || AttachedUnder(evs, |evs|, k))
  {
    RunTold(evs, |evs|);
    assert evs[..|evs|] == evs;
    if Play(evs).expected.Some? {
      var k: nat :| Stands(evs, |evs|, k);
    }
  }

  /** The tunnel held is that of the last accepted handshake, unless it has ended, been dropped or been replaced since. */
  lemma AttachedExactly(evs: seq<Event>, session: nat, key: string)
    ensures Play(evs).attached == Some(Attached(session, key)) <==>
            exists h: nat, k: nat :: Holds(evs, |evs|, h, k) && evs[h].session == session && evs[k].key == key
  {
    RunTold(evs, |evs|);
    assert evs[..|evs|] == evs;
    if Play(evs).attached.Some? {
      var h: nat, k: nat :| Holds(evs, |evs|, h, k);
    }
  }

  /**
   * The target is the last one chosen while a tunnel was held, as long as
   * nothing was cleared since and every expectation since was for the
   * connector the session had; otherwise there is none.
   */
  lemma TargetExactly(evs: seq<Event>, target: string)
    requires target != ""
    ensures Play(evs).target == target <==> exists t: nat :: Chosen(evs, |evs|, t) && evs[t].target == target
  {
    RunTargets(evs, |evs|);
    assert evs[..|evs|] == evs;
    if exists t: nat :: Chosen(evs, |evs|, t) {
      var t: nat :| Chosen(evs, |evs|, t);
    }
  }
}
