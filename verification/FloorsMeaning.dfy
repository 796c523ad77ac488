/** What the checks of a policy ask for, each in its own words, and when Apply objects. */
module FloorsMeaning {
  import opened Wrappers
  import opened Releases
  import opened Floors

  // ---- hosts, images, addresses ----------------------------------------------------------

  /** A host or suffix in lower case without its final dot. */
  function Plain(t: Text, s: string): string {
    t.lower(if s != "" && s[|s| - 1] == '.' then s[..|s| - 1] else s)
  }

  function Dotted(s: string): string { if s != "" && s[0] == '.' then s else "." + s }

  lemma BelowExactly(h: string, base: string)
    requires base != ""
    ensures HasSuffix(h, Dotted(base)) <==> exists sub: string :: h == sub + Dotted(base)
  {
    if HasSuffix(h, Dotted(base)) {
      assert h == h[..|h| - |Dotted(base)|] + Dotted(base);
    }
  }

  /** The name h is something behind which the suffix follows. */
  ghost predicate Under(h: string, base: string) { base != "" && exists sub: string :: h == sub + Dotted(base) }

  lemma UnderExactly(t: Text, h: string, suffix: string)
    ensures Norm(t, suffix) != "" && HasSuffix(h, Norm(t, suffix)) <==> Under(h, Plain(t, suffix))
  {
    NormExactly(t, suffix);
    if Plain(t, suffix) != "" {
      BelowExactly(h, Plain(t, suffix));
    }
  }

  /** A host is let through when it is no address and is some name, a dot and one of the suffixes. */
  lemma HostsExactly(t: Text, host: string, suffixes: seq<string>)
    ensures HostUnderAny(t, host, suffixes) <==>
            !t.isIP(Plain(t, host)) && exists k :: 0 <= k < |suffixes| && Under(Plain(t, host), Plain(t, suffixes[k]))
  {
    var h := Plain(t, host);
    assert TrimDot(host) == if host != "" && host[|host| - 1] == '.' then host[..|host| - 1] else host;
    forall k | 0 <= k < |suffixes|
      ensures Norm(t, suffixes[k]) != "" && HasSuffix(h, Norm(t, suffixes[k])) <==> Under(h, Plain(t, suffixes[k]))
    {
      UnderExactly(t, h, suffixes[k]);
    }
  }

  lemma NormExactly(t: Text, s: string)
    ensures Norm(t, s) == if Plain(t, s) == "" then "" else Dotted(Plain(t, s))
  {
    assert TrimDot(s) == if s != "" && s[|s| - 1] == '.' then s[..|s| - 1] else s;
  }

  /** A reference is the image itself, the image with a tag or a digest behind it, or, under a path, anything behind the path. */
  lemma RefsExactly(ref: string, prefix: string)
    ensures RefUnder(ref, prefix) <==>
            if prefix != "" && prefix[|prefix| - 1] == '/' then exists image: string :: ref == prefix + image
            else ref == prefix || exists rest: string :: ref == prefix + "@" + rest || ref == prefix + ":" + rest
  {
    if HasPrefix(ref, prefix) {
      assert ref == prefix + ref[|prefix|..];
    }
    if HasPrefix(ref, prefix + "@") {
      assert ref == prefix + "@" + ref[|prefix| + 1..];
    }
    if HasPrefix(ref, prefix + ":") {
      assert ref == prefix + ":" + ref[|prefix| + 1..];
    }
  }

  function Slashes(n: nat): string { seq(n, _ => '/') }

  /** Two addresses are the same but for the slashes they end with. */
  lemma {:induction false} TrimsSlashes(s: string) returns (n: nat)
    ensures s == TrimSlashes(s) + Slashes(n)
    ensures TrimSlashes(s) != "" ==> TrimSlashes(s)[|TrimSlashes(s)| - 1] != '/'
  {
    if s != "" && s[|s| - 1] == '/' {
      var m := TrimsSlashes(s[..|s| - 1]);
      n := m + 1;
      assert s == s[..|s| - 1] + "/" && Slashes(n) == Slashes(m) + "/";
    } else {
      n := 0;
    }
  }

  // ---- every reason ----------------------------------------------------------------------

  /** A key the policy lists signed the image. */
  predicate SignedByOne(keys: seq<string>, c: Claims) { exists id :: id in c.keyIDs && id in keys && id != "" }

  /** Why an attestation is refused under a policy. */
  ghost predicate Refused(p: Policy, c: Claims, r: Reason) {
    match r
    case WrongSWName => c.swName != p.swName
    case WrongHWModel => c.hwModel != p.hwModel
    case NoSecBoot => !c.secBoot
    case NoDigest => c.digest == ""
    case DigestNotAllowed => c.digest != "" && p.allowedDigests != [] && c.digest !in p.allowedDigests
    case NoStamp => p.minRelease != "" && c.version == ""
    case BadStamp => p.minRelease != "" && c.version != "" && !ValidRelease(c.version)
    case TooOld => p.minRelease != "" && c.version != "" && ValidRelease(c.version) && CompareRelease(c.version, p.minRelease) < 0
    case DebugImage => c.dbgStat == "enabled" && !p.allowDebug
    case UnknownDebug => c.dbgStat != "enabled" && c.dbgStat != "disabled-since-boot"
    case NotStable => p.requireStable && !c.stable
    case GpuNotConfidential => p.requireGpuCc && c.gpuMode != "ON"
    case NoGpu => p.requireGpuCc && c.gpus == 0
    case WrongTrainer => p.trainerURL != "" && TrimSlashes(c.trainerURL) != TrimSlashes(p.trainerURL)
    case NotSigned => p.imageSignatures != [] && !SignedByOne(p.imageSignatures, c)
    case WrongProject => p.projectID != "" && c.projectID != p.projectID
    case WrongImage => p.imagePrefix != "" && !RefUnder(c.imageReference, p.imagePrefix)
    case NotBound => !c.bound
    case NoInstance => c.instanceID == ""
    case _ => false
  }

  lemma OneOf(a: seq<Reason>, b: seq<Reason>, r: Reason)
    ensures r in a + b <==> r in a || r in b
  {
  }

  lemma SignedExactly(keys: seq<string>, c: Claims)
    ensures Signed(keys, c) <==> SignedByOne(keys, c)
  {
    if SignedByOne(keys, c) {
      var id :| id in c.keyIDs && id in keys && id != "";
      var k :| 0 <= k < |c.keyIDs| && c.keyIDs[k] == id;
      assert c.keyIDs[k] != "" && c.keyIDs[k] in keys;
    }
  }

  lemma InFour(a: seq<Reason>, b: seq<Reason>, c: seq<Reason>, d: seq<Reason>, r: Reason)
    ensures r in a + b + c + d <==> r in a || r in b || r in c || r in d
  {
  }

  lemma ImageRefusals(p: Policy, c: Claims, r: Reason)
    ensures r in ImageReasons(p, c) <==>
            Refused(p, c, r) && r in {WrongSWName, WrongHWModel, NoSecBoot, NoDigest, DigestNotAllowed, NoStamp,
                BadStamp, TooOld, DebugImage, UnknownDebug}
  {
    var hardware := When(c.swName != p.swName, WrongSWName) + When(c.hwModel != p.hwModel, WrongHWModel) + When(!c.secBoot, NoSecBoot);
    var digest := if c.digest == "" then [NoDigest] else When(p.allowedDigests != [] && c.digest !in p.allowedDigests, DigestNotAllowed);
    var debug := if c.dbgStat == DBG_PROD then [] else if c.dbgStat == DBG_DEBUG then When(!p.allowDebug, DebugImage) else [UnknownDebug];
    assert ImageReasons(p, c) == hardware + digest + StampReasons(p.minRelease, c.version) + debug;
    InFour(hardware, digest, StampReasons(p.minRelease, c.version), debug, r);
  }

  function MachineReasons(p: Policy, c: Claims): seq<Reason> {
    When(p.requireStable && !c.stable, NotStable) + When(p.requireGpuCc && c.gpuMode != "ON", GpuNotConfidential)
    + When(p.requireGpuCc && c.gpus == 0, NoGpu)
  }

  function SignerReasons(p: Policy, c: Claims): seq<Reason> {
    When(p.trainerURL != "" && TrimSlashes(c.trainerURL) != TrimSlashes(p.trainerURL), WrongTrainer)
    + When(p.imageSignatures != [] && !Signed(p.imageSignatures, c), NotSigned)
  }

  function PlaceReasons(p: Policy, c: Claims): seq<Reason> {
    When(p.projectID != "" && c.projectID != p.projectID, WrongProject)
    + When(p.imagePrefix != "" && !RefUnder(c.imageReference, p.imagePrefix), WrongImage)
  }

  function BoundReasons(c: Claims): seq<Reason> { When(!c.bound, NotBound) + When(c.instanceID == "", NoInstance) }

  lemma PlatformParts(p: Policy, c: Claims)
    ensures PlatformReasons(p, c) == MachineReasons(p, c) + SignerReasons(p, c) + PlaceReasons(p, c) + BoundReasons(c)
  {
  }

  lemma MachineRefusals(p: Policy, c: Claims, r: Reason)
    ensures r in MachineReasons(p, c) <==> Refused(p, c, r) && r in {NotStable, GpuNotConfidential, NoGpu}
  {
  }

  lemma SignerRefusals(p: Policy, c: Claims, r: Reason)
    ensures r in SignerReasons(p, c) <==> Refused(p, c, r) && r in {WrongTrainer, NotSigned}
  {
    SignedExactly(p.imageSignatures, c);
  }

  lemma PlaceRefusals(p: Policy, c: Claims, r: Reason)
    ensures r in PlaceReasons(p, c) <==> Refused(p, c, r) && r in {WrongProject, WrongImage}
  {
  }

  lemma BoundRefusals(p: Policy, c: Claims, r: Reason)
    ensures r in BoundReasons(c) <==> Refused(p, c, r) && r in {NotBound, NoInstance}
  {
  }

  predicate OnPlatform(r: Reason) {
    r in {NotStable, GpuNotConfidential, NoGpu, WrongTrainer, NotSigned, WrongProject, WrongImage, NotBound, NoInstance}
  }

  lemma PlatformRefusals(p: Policy, c: Claims, r: Reason)
    ensures r in PlatformReasons(p, c) <==> Refused(p, c, r) && OnPlatform(r)
  {
    MachineRefusals(p, c, r);
    SignerRefusals(p, c, r);
    PlaceRefusals(p, c, r);
    BoundRefusals(p, c, r);
    FromParts(p, c, r);
  }

  lemma FromParts(p: Policy, c: Claims, r: Reason)
    ensures r in PlatformReasons(p, c) <==>
            r in MachineReasons(p, c) || r in SignerReasons(p, c) || r in PlaceReasons(p, c) || r in BoundReasons(c)
  {
    PlatformParts(p, c);
    InFour(MachineReasons(p, c), SignerReasons(p, c), PlaceReasons(p, c), BoundReasons(c), r);
  }

  /**
   * The reasons listed are exactly those there are, and an enclave is accepted exactly when its host and
   * keys are right and there is none.
   */
  lemma RefusalsExactly(t: Text, p: Policy, host: string, c: Claims)
    ensures forall r :: r in ImageReasons(p, c) + PlatformReasons(p, c) <==> Refused(p, c, r)
    ensures Accepts(t, p, host, c) <==>
            && (p.hostSuffixes != [] ==> HostUnderAny(t, host, p.hostSuffixes)) && c.issuer == p.issuer && c.jwksURL == p.jwksURL
            && forall r :: !Refused(p, c, r)
  {
    forall r ensures r in ImageReasons(p, c) + PlatformReasons(p, c) <==> Refused(p, c, r) {
      ImageRefusals(p, c, r);
      PlatformRefusals(p, c, r);
      OneOf(ImageReasons(p, c), PlatformReasons(p, c), r);
    }
    var all := ImageReasons(p, c) + PlatformReasons(p, c);
    assert all == [] <==> ImageReasons(p, c) == [] && PlatformReasons(p, c) == [];
    if all != [] {
      SomeListed(all);
    }
  }

  lemma SomeListed(rs: seq<Reason>)
    requires rs != []
    ensures exists r :: r in rs
  {
    assert rs[0] in rs;
  }

  /** Why a served policy contradicts the floors. */
  ghost predicate Objected(t: Text, f: FloorSet, p: Policy, r: Reason) {
    match r
    case WrongIssuer => f.issuer != "" && p.issuer != f.issuer
    case WrongKeys => f.jwksURL != "" && p.jwksURL != f.jwksURL
    case WrongSWName => f.swName != "" && p.swName != f.swName
    case WrongHWModel => f.hwModel != "" && p.hwModel != f.hwModel
    case NoTrustedKey => f.imageSignatures != [] && p.imageSignatures != [] && forall key :: key in p.imageSignatures ==> key !in f.imageSignatures
    case WrongSource => Sourced(f, p) && p.sourceURI != f.sourceURI
    case WrongRepo => Sourced(f, p) && p.imageRepo != f.imageRepo
    case NoTrustedHost => f.hostSuffixes != [] && p.hostSuffixes != [] && forall s :: s in p.hostSuffixes ==> !SuffixUnderAny(t, s, f.hostSuffixes)
    case WrongProject => f.projectID != "" && p.projectID != "" && p.projectID != f.projectID
    case LooserImage => f.imagePrefix != "" && p.imagePrefix != "" && !RefUnder(p.imagePrefix, f.imagePrefix)
    case _ => false
  }

  /** Both sources are floored and the policy says where its image is from. */
  predicate Sourced(f: FloorSet, p: Policy) { f.sourceURI != "" && f.imageRepo != "" && (p.sourceURI != "" || p.imageRepo != "") }

  lemma NothingKept(xs: seq<string>, wanted: string -> bool)
    ensures Keep(xs, wanted) == [] <==> forall s :: s in xs ==> !wanted(s)
  {
    if Keep(xs, wanted) != [] {
      assert Keep(xs, wanted)[0] in Keep(xs, wanted);
    }
    if exists s :: s in xs && wanted(s) {
      var s :| s in xs && wanted(s);
      assert s in Keep(xs, wanted);
    }
  }

  lemma KeyObjections(f: FloorSet, keys: seq<string>, r: Reason)
    ensures r in KeyContradictions(f.imageSignatures, keys) <==>
            r == NoTrustedKey && f.imageSignatures != [] && keys != [] && forall key :: key in keys ==> key !in f.imageSignatures
  {
    NothingKept(keys, InFloors(f.imageSignatures));
    assert forall key :: InFloors(f.imageSignatures)(key) <==> key in f.imageSignatures;
  }

  lemma HostObjections(t: Text, floors: seq<string>, suffixes: seq<string>, r: Reason)
    ensures r in HostContradictions(t, floors, suffixes) <==>
            r == NoTrustedHost && floors != [] && suffixes != [] && forall s :: s in suffixes ==> !SuffixUnderAny(t, s, floors)
  {
    NothingKept(suffixes, UnderFloors(t, floors));
    assert forall s :: UnderFloors(t, floors)(s) <==> SuffixUnderAny(t, s, floors);
  }

  /** Apply objects for exactly the reasons there are. */
  lemma ObjectionsExactly(t: Text, f: FloorSet, p: Policy, r: Reason)
    ensures r in Contradictions(t, f, p) <==> Objected(t, f, p, r)
  {
    KeyObjections(f, p.imageSignatures, r);
    HostObjections(t, f.hostSuffixes, p.hostSuffixes, r);
    NameObjections(f, p, r);
    SourceObjections(f, p, r);
    PlaceObjections(f, p, r);
  }

  lemma NameObjections(f: FloorSet, p: Policy, r: Reason)
    ensures r in NameContradictions(f, p.issuer, p.jwksURL, p.swName, p.hwModel) <==>
            || (r == WrongIssuer && f.issuer != "" && p.issuer != f.issuer) || (r == WrongKeys && f.jwksURL != "" && p.jwksURL != f.jwksURL)
            || (r == WrongSWName && f.swName != "" && p.swName != f.swName) || (r == WrongHWModel && f.hwModel != "" && p.hwModel != f.hwModel)
  {
  }

  lemma SourceObjections(f: FloorSet, p: Policy, r: Reason)
    ensures r in SourceContradictions(f, p.sourceURI, p.imageRepo) <==>
            (r == WrongSource && Sourced(f, p) && p.sourceURI != f.sourceURI) || (r == WrongRepo && Sourced(f, p)
                && p.imageRepo != f.imageRepo)
  {
  }

  lemma PlaceObjections(f: FloorSet, p: Policy, r: Reason)
    ensures r in PlaceContradictions(f, p.projectID, p.imagePrefix) <==>
            || (r == WrongProject && f.projectID != "" && p.projectID != "" && p.projectID != f.projectID)
            || (r == LooserImage && f.imagePrefix != "" && p.imagePrefix != "" && !RefUnder(p.imagePrefix, f.imagePrefix))
  {
  }

  /**
   * Without objections the raised policy's source is the floors', its lists are within the floors' and
   * its switches as strict, and nothing else has changed.
   */
  lemma RaisedWithinFloors(t: Text, f: FloorSet, p: Policy)
    requires forall r :: !Objected(t, f, p, r)
    ensures var q := Raised(t, f, p);
            && (f.sourceURI != "" && f.imageRepo != "" ==> q.sourceURI == f.sourceURI && q.imageRepo == f.imageRepo)
            && (f.imageSignatures != [] ==> q.imageSignatures != [] && forall key :: key in q.imageSignatures ==> key in f.imageSignatures)
            && (p.imageSignatures != [] ==> forall key :: key in q.imageSignatures ==> key in p.imageSignatures)
            && (f.minRelease != "" ==> q.minRelease in {p.minRelease, f.minRelease} && q.minRelease != "" && CompareRelease(q.minRelease, f.minRelease) >= 0)
            && (f.minRelease == "" ==> q.minRelease == p.minRelease) && !q.allowDebug
            && q.requireStable == (p.requireStable || f.requireStable) && q.requireGpuCc == (p.requireGpuCc || f.requireGpuCc)
            && q.allowedDigests == p.allowedDigests && q.trainerURL == p.trainerURL && q.issuer == p.issuer
                && q.jwksURL == p.jwksURL
            && q.swName == p.swName && q.hwModel == p.hwModel
  {
    assert !Objected(t, f, p, NoTrustedKey) && !Objected(t, f, p, WrongSource) && !Objected(t, f, p, WrongRepo);
    NothingKept(p.imageSignatures, InFloors(f.imageSignatures));
    CompareIsPreorder(f.minRelease, f.minRelease, f.minRelease);
  }
}
