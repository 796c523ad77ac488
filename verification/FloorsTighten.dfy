/** Applying floors only tightens, and applying them again changes nothing. */
module FloorsTighten {
  import opened Wrappers
  import opened Releases
  import opened Floors

  /** What every floor asks of an enclave, stated on the enclave alone. */
  predicate FloorAccepts(t: Text, f: FloorSet, host: string, c: Claims) {
    && (f.issuer != "" ==> c.issuer == f.issuer) && (f.jwksURL != "" ==> c.jwksURL == f.jwksURL)
    && (f.swName != "" ==> c.swName == f.swName) && (f.hwModel != "" ==> c.hwModel == f.hwModel)
    && (f.imageSignatures != [] ==> Signed(f.imageSignatures, c))
    && (f.minRelease != "" ==> ValidRelease(c.version) && CompareRelease(f.minRelease, c.version) <= 0)
    && c.dbgStat == DBG_PROD
    && (f.requireStable ==> c.stable) && (f.requireGpuCc ==> c.gpuMode == "ON" && c.gpus > 0)
    && (f.hostSuffixes != [] ==> HostUnderAny(t, host, f.hostSuffixes))
    && (f.projectID != "" ==> c.projectID == f.projectID)
    && (f.imagePrefix != "" ==> RefUnder(c.imageReference, f.imagePrefix))
  }

  /** Acceptance spelled out, check by check. */
  predicate Meets(t: Text, p: Policy, host: string, c: Claims) {
    && (p.hostSuffixes != [] ==> HostUnderAny(t, host, p.hostSuffixes))
    && c.issuer == p.issuer && c.jwksURL == p.jwksURL && c.swName == p.swName && c.hwModel == p.hwModel && c.secBoot
    && c.digest != "" && (p.allowedDigests != [] ==> c.digest in p.allowedDigests)
    && StampReasons(p.minRelease, c.version) == []
    && (c.dbgStat == DBG_PROD || (c.dbgStat == DBG_DEBUG && p.allowDebug))
    && MeetsPlatform(p, c)
  }

  predicate MeetsPlatform(p: Policy, c: Claims) {
    && (p.requireStable ==> c.stable) && (p.requireGpuCc ==> c.gpuMode == "ON" && c.gpus > 0)
    && (p.trainerURL != "" ==> TrimSlashes(c.trainerURL) == TrimSlashes(p.trainerURL))
    && (p.imageSignatures != [] ==> Signed(p.imageSignatures, c))
    && (p.projectID != "" ==> c.projectID == p.projectID)
    && (p.imagePrefix != "" ==> RefUnder(c.imageReference, p.imagePrefix))
    && c.bound && c.instanceID != ""
  }

  /** The list of reasons is empty exactly when every check passes. */
  lemma AcceptsMeansMeets(t: Text, p: Policy, host: string, c: Claims)
    ensures Accepts(t, p, host, c) <==> Meets(t, p, host, c)
  {
  }

  lemma ContradictsNothing(t: Text, f: FloorSet, p: Policy)
    ensures Contradictions(t, f, p) == [] <==>
            && !Differs(p.issuer, f.issuer) && !Differs(p.jwksURL, f.jwksURL) && !Differs(p.swName, f.swName)
                && !Differs(p.hwModel, f.hwModel)
            && (f.imageSignatures != [] && p.imageSignatures != [] ==> Trusted(p.imageSignatures, f.imageSignatures) != [])
            && SourceContradictions(f, p.sourceURI, p.imageRepo) == []
            && (f.hostSuffixes != [] && p.hostSuffixes != [] ==> Narrowed(t, p.hostSuffixes, f.hostSuffixes) != [])
            && !(p.projectID != "" && Differs(p.projectID, f.projectID))
            && (f.imagePrefix != "" && p.imagePrefix != "" ==> RefUnder(p.imagePrefix, f.imagePrefix))
  {
  }

  /** A signer the raised policy lists is one the served policy and the floor list. */
  lemma KeysTighten(served: seq<string>, floors: seq<string>, c: Claims)
    requires floors != [] && served != [] ==> Trusted(served, floors) != []
    requires Keys(served, floors) != [] ==> Signed(Keys(served, floors), c)
    ensures (served != [] ==> Signed(served, c)) && (floors != [] ==> Signed(floors, c))
  {
  }

  lemma HostsTighten(t: Text, served: seq<string>, floors: seq<string>, host: string)
    requires floors != [] && served != [] ==> Narrowed(t, served, floors) != []
    requires HostOk(t, Hosts(t, served, floors), host)
    ensures HostOk(t, served, host) && HostOk(t, floors, host)
  {
    if floors != [] && served != [] {
      var kept := Narrowed(t, served, floors);
      forall i | 0 <= i < |kept| ensures SuffixUnderAny(t, kept[i], floors) && kept[i] in served {
        assert kept[i] in kept;
      }
      HostsTransitive(t, host, kept, floors);
      var h := t.lower(TrimDot(host));
      var k :| 0 <= k < |kept| && Norm(t, kept[k]) != "" && HasSuffix(h, Norm(t, kept[k]));
      var j :| 0 <= j < |served| && served[j] == kept[k];
      assert Norm(t, served[j]) != "" && HasSuffix(h, Norm(t, served[j]));
    }
  }

  /** A release at least the raised minimum is at least the served one and the floor. */
  lemma ReleaseTightens(served: string, floor: string, version: string)
    requires StampReasons(Minimum(served, floor), version) == []
    ensures StampReasons(served, version) == []
    ensures floor != "" ==> ValidRelease(version) && CompareRelease(floor, version) <= 0
  {
    CompareIsPreorder(served, floor, version);
    CompareIsPreorder(floor, served, version);
    CompareIsPreorder(version, served, floor);
    CompareIsPreorder(version, floor, served);
  }

  /**
   * Floors only tighten: when Apply has nothing to object to, every enclave
   * accepted under the raised policy is accepted under the served one and
   * meets every floor.
   */
  lemma ApplyOnlyTightens(t: Text, f: FloorSet, p: Policy, host: string, c: Claims)
    requires Contradictions(t, f, p) == [] && Accepts(t, Raised(t, f, p), host, c)
    ensures Accepts(t, p, host, c) && FloorAccepts(t, f, host, c)
  {
    var r := Raised(t, f, p);
    AcceptsMeansMeets(t, r, host, c);
    AcceptsMeansMeets(t, p, host, c);
    ContradictsNothing(t, f, p);
    KeysTighten(p.imageSignatures, f.imageSignatures, c);
    HostsTighten(t, p.hostSuffixes, f.hostSuffixes, host);
    ReleaseTightens(p.minRelease, f.minRelease, c.version);
    if f.imagePrefix != "" && p.imagePrefix != "" {
      RefsTransitive(c.imageReference, p.imagePrefix, f.imagePrefix);
    }
  }

  /** The raised minimum asks no more than the served one and the floor. */
  lemma ReleaseMeets(served: string, floor: string, version: string)
    requires StampReasons(served, version) == []
    requires floor != "" ==> ValidRelease(version) && CompareRelease(floor, version) <= 0
    ensures StampReasons(Minimum(served, floor), version) == []
  {
    CompareIsPreorder(floor, version, floor);
  }

  /**
   * When Apply has nothing to object to, the raised policy accepts exactly the
   * enclaves that the served one accepts, that meet every floor, and that pass
   * the two lists narrowed by both: a key in both lists signed the image, and
   * the host lies under a served suffix that is itself under a floor.
   */
  lemma RaisedExactly(t: Text, f: FloorSet, p: Policy, host: string, c: Claims)
    requires Contradictions(t, f, p) == []
    ensures Accepts(t, Raised(t, f, p), host, c) <==>
            && Accepts(t, p, host, c) && FloorAccepts(t, f, host, c)
            && (f.imageSignatures != [] && p.imageSignatures != [] ==> Signed(Trusted(p.imageSignatures, f.imageSignatures), c))
            && (f.hostSuffixes != [] && p.hostSuffixes != [] ==> HostUnderAny(t, host, Narrowed(t, p.hostSuffixes, f.hostSuffixes)))
  {
    var r := Raised(t, f, p);
    AcceptsMeansMeets(t, r, host, c);
    AcceptsMeansMeets(t, p, host, c);
    ContradictsNothing(t, f, p);
    if Accepts(t, r, host, c) {
      ApplyOnlyTightens(t, f, p, host, c);
    }
    if Accepts(t, p, host, c) && FloorAccepts(t, f, host, c) {
      ReleaseMeets(p.minRelease, f.minRelease, c.version);
    }
  }

  lemma CrossedSignatures(c: Claims)
    requires c.keyIDs == ["a", "c"]
    ensures Signed(["a", "b"], c) && Signed(["b", "c"], c)
    ensures Trusted(["a", "b"], ["b", "c"]) != [] && !Signed(Trusted(["a", "b"], ["b", "c"]), c)
  {
    assert c.keyIDs[0] == "a" && c.keyIDs[1] == "c";
    var kept := Trusted(["a", "b"], ["b", "c"]);
    assert "b" in ["a", "b"] && "b" in kept && "a" !in kept && "c" !in kept;
  }

  /** The other way need not hold: an enclave both accept may carry one signature for each and none for both. */
  lemma ApplyCanBeStricter(t: Text) returns (f: FloorSet, p: Policy, host: string, c: Claims)
    ensures Contradictions(t, f, p) == [] && Accepts(t, p, host, c) && FloorAccepts(t, f, host, c)
    ensures !Accepts(t, Raised(t, f, p), host, c)
  {
    f := FloorSet("", "", "", "", ["b", "c"], "", false, false, "", "", [], "", "");
    p := Policy([], false, false, false, "", ["a", "b"], "", "", "", "", "", "", "", [], "", "");
    host := "";
    c := Claims("", "", "", "", true, "d", "", DBG_PROD, false, "", 0, "", ["a", "c"], "", "", true, "i");
    CrossedSignatures(c);
    assert Contradictions(t, f, p) == [] by { ContradictsNothing(t, f, p); }
    assert Accepts(t, p, host, c) by { AcceptsMeansMeets(t, p, host, c); }
    assert !Accepts(t, Raised(t, f, p), host, c) by { AcceptsMeansMeets(t, Raised(t, f, p), host, c); }
  }

  // ---- applying twice -------------------------------------------------------------------

  lemma {:induction false} KeepIsShorter(xs: seq<string>, wanted: string -> bool)
    ensures |Keep(xs, wanted)| <= |xs|
  {
    if xs != [] {
      KeepIsShorter(xs[..|xs| - 1], wanted);
    }
  }

  /** Keeping drops nothing exactly when everything is wanted. */
  lemma {:induction false} KeepsAll(xs: seq<string>, wanted: string -> bool)
    ensures Keep(xs, wanted) == xs <==> forall s :: s in xs ==> wanted(s)
  {
    if xs != [] {
      var before, last := xs[..|xs| - 1], xs[|xs| - 1];
      assert xs == before + [last];
      KeepsAll(before, wanted);
      KeepIsShorter(before, wanted);
    }
  }

  /** The floors' own suffixes all name hosts. */
  predicate Proper(t: Text, suffixes: seq<string>) { forall s :: s in suffixes ==> Norm(t, s) != "" }

  lemma ProperUnderThemselves(t: Text, floors: seq<string>)
    ensures (forall s :: s in floors ==> SuffixUnderAny(t, s, floors)) <==> Proper(t, floors)
  {
  }

  lemma KeysSettle(served: seq<string>, floors: seq<string>)
    requires floors != [] && served != [] ==> Trusted(served, floors) != []
    ensures var keys := Keys(served, floors);
            Keys(keys, floors) == keys && (floors != [] && keys != [] ==> Trusted(keys, floors) != [])
  {
    KeepsAll(Keys(served, floors), InFloors(floors));
  }

  lemma HostsSettle(t: Text, served: seq<string>, floors: seq<string>)
    requires floors != [] && served != [] ==> Narrowed(t, served, floors) != []
    ensures var hosts := Hosts(t, served, floors);
            (Hosts(t, hosts, floors) == hosts && (floors != [] && hosts != [] ==> Narrowed(t, hosts, floors) != []))
            <==> (floors != [] && served == [] ==> Proper(t, floors))
  {
    var hosts := Hosts(t, served, floors);
    if floors != [] {
      KeepsAll(hosts, UnderFloors(t, floors));
      if served == [] {
        ProperUnderThemselves(t, floors);
      }
    }
  }

  lemma MinimumSettles(served: string, floor: string)
    ensures Minimum(Minimum(served, floor), floor) == Minimum(served, floor)
  {
  }

  lemma RefUnderItself(r: string)
    ensures RefUnder(r, r)
  {
  }

  /**
   * Applied to what it made, Apply objects to nothing and changes nothing,
   * exactly when it did not have to fill in host suffixes one of which
   * names no host.
   */
  lemma ApplyIdempotent(t: Text, f: FloorSet, p: Policy)
    requires Contradictions(t, f, p) == []
    ensures var r := Raised(t, f, p);
            Contradictions(t, f, r) == [] && Raised(t, f, r) == r
            <==> (f.hostSuffixes != [] && p.hostSuffixes == [] ==> Proper(t, f.hostSuffixes))
  {
    var r := Raised(t, f, p);
    ContradictsNothing(t, f, p);
    ContradictsNothing(t, f, r);
    KeysSettle(p.imageSignatures, f.imageSignatures);
    HostsSettle(t, p.hostSuffixes, f.hostSuffixes);
    MinimumSettles(p.minRelease, f.minRelease);
    RefUnderItself(f.imagePrefix);
    SourceSettles(f, p.sourceURI, p.imageRepo);
  }

  lemma SourceSettles(f: FloorSet, uri: string, repo: string)
    requires SourceContradictions(f, uri, repo) == []
    ensures var fill := FillsSource(f, uri, repo);
            var u, i := if fill then f.sourceURI else uri, if fill then f.imageRepo else repo;
            !FillsSource(f, u, i) && SourceContradictions(f, u, i) == []
  {
  }
}
