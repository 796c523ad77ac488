/**
 * The enclave policy a server publishes, the floors this build holds it to,
 * and the checks of an attestation under a policy.
 */
module Floors {
  import opened Wrappers
  import opened Releases

  datatype Policy = Policy(
    allowedDigests: seq<string>, allowDebug: bool, requireStable: bool, requireGpuCc: bool, trainerURL: string,
    imageSignatures: seq<string>, minRelease: string, sourceURI: string, imageRepo: string,
    issuer: string, jwksURL: string, swName: string, hwModel: string,
    hostSuffixes: seq<string>, projectID: string, imagePrefix: string)

  datatype FloorSet = FloorSet(
    issuer: string, jwksURL: string, swName: string, hwModel: string, imageSignatures: seq<string>, minRelease: string,
    requireStable: bool, requireGpuCc: bool, sourceURI: string, imageRepo: string,
    hostSuffixes: seq<string>, projectID: string, imagePrefix: string)

  /**
   * What a verified token claims: the issuer and key set it was checked
   * with, the key ids of the image's signatures, and whether its nonces are
   * bound to this connection.
   */
  datatype Claims = Claims(
    issuer: string, jwksURL: string, swName: string, hwModel: string, secBoot: bool, digest: string, version: string,
    dbgStat: string, stable: bool, gpuMode: string, gpus: nat, trainerURL: string, keyIDs: seq<string>,
    projectID: string, imageReference: string, bound: bool, instanceID: string)

  /** Lower-casing, and telling an IP address from a host name. */
  datatype Text = Text(lower: string -> string, isIP: string -> bool)

  datatype Reason =
    | WrongIssuer | WrongKeys | WrongSWName | WrongHWModel | NoSecBoot | NoDigest | DigestNotAllowed
    | NoStamp | BadStamp | TooOld | DebugImage | UnknownDebug | NotStable | GpuNotConfidential | NoGpu
    | WrongTrainer | NotSigned | WrongProject | WrongImage | NotBound | NoInstance
    | NoTrustedKey | WrongSource | WrongRepo | NoTrustedHost | LooserImage

  const DBG_PROD := "disabled-since-boot"
  const DBG_DEBUG := "enabled"

  // ---- hosts and images -------------------------------------------------------------

  predicate HasPrefix(s: string, p: string) { |p| <= |s| && s[..|p|] == p }
  predicate HasSuffix(s: string, x: string) { |x| <= |s| && s[|s| - |x|..] == x }

  function TrimDot(s: string): string { if HasSuffix(s, ".") then s[..|s| - 1] else s }

  /** A host suffix as both checks compare it: lower case, no final dot, a leading one. */
  function Norm(t: Text, s: string): string {
    var x := t.lower(TrimDot(s));
    if x != "" && !HasPrefix(x, ".") then "." + x else x
  }

  predicate UnderSome(t: Text, x: string, suffixes: seq<string>) {
    exists k :: 0 <= k < |suffixes| && Norm(t, suffixes[k]) != "" && HasSuffix(x, Norm(t, suffixes[k]))
  }

  /** A host suffix names no more hosts than one of the floors. */
  predicate SuffixUnderAny(t: Text, s: string, floors: seq<string>) { Norm(t, s) != "" && UnderSome(t, Norm(t, s), floors) }

  /** A host, not an address, lies under one of the suffixes. */
  predicate HostUnderAny(t: Text, host: string, suffixes: seq<string>) {
    var h := t.lower(TrimDot(host));
    !t.isIP(h) && UnderSome(t, h, suffixes)
  }

  method HostAllowed(t: Text, host: string, suffixes: seq<string>) returns (ok: bool)
    ensures ok == HostUnderAny(t, host, suffixes)
  {
    var h := t.lower(TrimDot(host));
    if t.isIP(h) {
      return false;
    }
    for i := 0 to |suffixes|
      invariant forall k :: 0 <= k < i ==> !(Norm(t, suffixes[k]) != "" && HasSuffix(h, Norm(t, suffixes[k])))
    {
      var s := Norm(t, suffixes[i]);
      if s != "" && HasSuffix(h, s) {
        return true;
      }
    }
    return false;
  }

  /** A reference is the image at prefix, or, under a prefix ending in a slash, any image there. */
  predicate RefUnder(ref: string, prefix: string) {
    if HasSuffix(prefix, "/") then HasPrefix(ref, prefix)
    else ref == prefix || HasPrefix(ref, prefix + "@") || HasPrefix(ref, prefix + ":")
  }

  lemma SuffixTransitive(a: string, b: string, c: string)
    requires HasSuffix(a, b) && HasSuffix(b, c)
    ensures HasSuffix(a, c)
  {
    assert a[|a| - |c|..] == a[|a| - |b|..][|b| - |c|..];
  }

  lemma PrefixTransitive(a: string, b: string, c: string)
    requires HasPrefix(a, b) && HasPrefix(b, c)
    ensures HasPrefix(a, c)
  {
    assert a[..|c|] == a[..|b|][..|c|];
  }

  /** A host under a suffix that is under a floor is under the floor. */
  lemma HostsTransitive(t: Text, host: string, kept: seq<string>, floors: seq<string>)
    requires HostUnderAny(t, host, kept) && forall k :: 0 <= k < |kept| ==> SuffixUnderAny(t, kept[k], floors)
    ensures HostUnderAny(t, host, floors)
  {
    var h := t.lower(TrimDot(host));
    var k :| 0 <= k < |kept| && Norm(t, kept[k]) != "" && HasSuffix(h, Norm(t, kept[k]));
    var s := Norm(t, kept[k]);
    var j :| 0 <= j < |floors| && Norm(t, floors[j]) != "" && HasSuffix(s, Norm(t, floors[j]));
    SuffixTransitive(h, s, Norm(t, floors[j]));
  }

  /** An image under a reference that is under a prefix is under the prefix, whatever mixes of tags, digests and paths. */
  lemma RefsTransitive(ref: string, middle: string, prefix: string)
    requires RefUnder(ref, middle) && RefUnder(middle, prefix)
    ensures RefUnder(ref, prefix)
  {
    if ref != middle && middle != prefix {
      var m := if HasSuffix(middle, "/") then middle else if HasPrefix(ref, middle + "@") then middle + "@" else middle + ":";
      assert HasPrefix(m, middle);
      PrefixTransitive(ref, m, middle);
      if HasSuffix(prefix, "/") {
        PrefixTransitive(ref, middle, prefix);
      } else if HasPrefix(middle, prefix + "@") {
        PrefixTransitive(ref, middle, prefix + "@");
      } else {
        PrefixTransitive(ref, middle, prefix + ":");
      }
    }
  }

  // ---- checking claims ------------------------------------------------------------------

  function When(bad: bool, r: Reason): seq<Reason> { if bad then [r] else [] }

  function TrimSlashes(s: string): string {
    if s != "" && s[|s| - 1] == '/' then TrimSlashes(s[..|s| - 1]) else s
  }

  predicate Signed(keys: seq<string>, c: Claims) {
    exists k :: 0 <= k < |c.keyIDs| && c.keyIDs[k] != "" && c.keyIDs[k] in keys
  }

  /** The first of the image's key ids that the policy lists. */
  method SignerKeyID(keys: seq<string>, c: Claims) returns (id: string)
    ensures id != "" <==> Signed(keys, c)
    ensures id != "" ==> id in keys && id in c.keyIDs
  {
    for i := 0 to |c.keyIDs|
      invariant forall k :: 0 <= k < i ==> !(c.keyIDs[k] != "" && c.keyIDs[k] in keys)
    {
      if c.keyIDs[i] != "" && c.keyIDs[i] in keys {
        return c.keyIDs[i];
      }
    }
    return "";
  }

  function StampReasons(minRelease: string, version: string): seq<Reason> {
    if minRelease == "" then []
    else if version == "" then [NoStamp]
    else if !ValidRelease(version) then [BadStamp]
    else When(CompareRelease(version, minRelease) < 0, TooOld)
  }

  function ImageReasons(p: Policy, c: Claims): seq<Reason> {
    When(c.swName != p.swName, WrongSWName) + When(c.hwModel != p.hwModel, WrongHWModel) + When(!c.secBoot, NoSecBoot)
    + (if c.digest == "" then [NoDigest] else When(p.allowedDigests != [] && c.digest !in p.allowedDigests, DigestNotAllowed))
    + StampReasons(p.minRelease, c.version)
    + (if c.dbgStat == DBG_PROD then [] else if c.dbgStat == DBG_DEBUG then When(!p.allowDebug, DebugImage) else [UnknownDebug])
  }

  function PlatformReasons(p: Policy, c: Claims): seq<Reason> {
    When(p.requireStable && !c.stable, NotStable)
    + When(p.requireGpuCc && c.gpuMode != "ON", GpuNotConfidential) + When(p.requireGpuCc && c.gpus == 0, NoGpu)
    + When(p.trainerURL != "" && TrimSlashes(c.trainerURL) != TrimSlashes(p.trainerURL), WrongTrainer)
    + When(p.imageSignatures != [] && !Signed(p.imageSignatures, c), NotSigned)
    + When(p.projectID != "" && c.projectID != p.projectID, WrongProject)
    + When(p.imagePrefix != "" && !RefUnder(c.imageReference, p.imagePrefix), WrongImage)
    + When(!c.bound, NotBound) + When(c.instanceID == "", NoInstance)
  }

  method CheckClaims(p: Policy, c: Claims) returns (reasons: seq<Reason>)
    ensures reasons == ImageReasons(p, c) + PlatformReasons(p, c)
  {
    reasons := CheckImage(p, c);
    var more := CheckPlatform(p, c);
    reasons := reasons + more;
  }

  method CheckStamp(minRelease: string, version: string) returns (reasons: seq<Reason>)
    ensures reasons == StampReasons(minRelease, version)
  {
    if minRelease == "" {
      return [];
    }
    if version == "" {
      return [NoStamp];
    }
    var read := ReleaseNumbers(version);
    if !read.ok {
      return [BadStamp];
    }
    var order := Compare(version, minRelease);
    return When(order < 0, TooOld);
  }

  method CheckImage(p: Policy, c: Claims) returns (reasons: seq<Reason>)
    ensures reasons == ImageReasons(p, c)
  {
    reasons := When(c.swName != p.swName, WrongSWName);
    reasons := reasons + When(c.hwModel != p.hwModel, WrongHWModel);
    reasons := reasons + When(!c.secBoot, NoSecBoot);
    reasons := reasons + (if c.digest == "" then [NoDigest] else When(|p.allowedDigests| > 0 && c.digest !in p.allowedDigests, DigestNotAllowed));
    var stamp := CheckStamp(p.minRelease, c.version);
    reasons := reasons + stamp;
    reasons := reasons + (if c.dbgStat == DBG_PROD then [] else if c.dbgStat == DBG_DEBUG then When(!p.allowDebug,
        DebugImage) else [UnknownDebug]);
  }

  method CheckPlatform(p: Policy, c: Claims) returns (reasons: seq<Reason>)
    ensures reasons == PlatformReasons(p, c)
  {
    var signer := SignerKeyID(p.imageSignatures, c);
    reasons := When(p.requireStable && !c.stable, NotStable);
    reasons := reasons + When(p.requireGpuCc && c.gpuMode != "ON", GpuNotConfidential);
    reasons := reasons + When(p.requireGpuCc && c.gpus == 0, NoGpu);
    reasons := reasons + When(p.trainerURL != "" && TrimSlashes(c.trainerURL) != TrimSlashes(p.trainerURL), WrongTrainer);
    reasons := reasons + When(|p.imageSignatures| > 0 && signer == "", NotSigned);
    reasons := reasons + When(p.projectID != "" && c.projectID != p.projectID, WrongProject);
    reasons := reasons + When(p.imagePrefix != "" && !RefUnder(c.imageReference, p.imagePrefix), WrongImage);
    reasons := reasons + When(!c.bound, NotBound);
    reasons := reasons + When(c.instanceID == "", NoInstance);
  }

  predicate HostOk(t: Text, suffixes: seq<string>, host: string) { suffixes != [] ==> HostUnderAny(t, host, suffixes) }

  /** An enclave at host with these claims is accepted under the policy. */
  predicate Accepts(t: Text, p: Policy, host: string, c: Claims) {
    && HostOk(t, p.hostSuffixes, host) && c.issuer == p.issuer && c.jwksURL == p.jwksURL
    && ImageReasons(p, c) == [] && PlatformReasons(p, c) == []
  }

  // ---- applying floors ---------------------------------------------------------------------

  /** The entries wanted, in their order. */
  function Keep(xs: seq<string>, wanted: string -> bool): (kept: seq<string>)
    ensures forall s :: s in kept <==> s in xs && wanted(s)
  {
    if xs == [] then []
    else
      var before, last := xs[..|xs| - 1], xs[|xs| - 1];
      assert xs == before + [last];
      if wanted(last) then Keep(before, wanted) + [last] else Keep(before, wanted)
  }

  lemma KeepNext(xs: seq<string>, i: nat, wanted: string -> bool)
    requires i < |xs|
    ensures Keep(xs[..i + 1], wanted) == if wanted(xs[i]) then Keep(xs[..i], wanted) + [xs[i]] else Keep(xs[..i], wanted)
  {
    assert xs[..i + 1][..i] == xs[..i];
  }

  function InFloors(floors: seq<string>): string -> bool { s => s in floors }

  function UnderFloors(t: Text, floors: seq<string>): string -> bool { s => SuffixUnderAny(t, s, floors) }

  /** The served keys this build trusts. */
  function Trusted(keys: seq<string>, floors: seq<string>): seq<string> { Keep(keys, InFloors(floors)) }

  /** The served suffixes that lie under a floor. */
  function Narrowed(t: Text, suffixes: seq<string>, floors: seq<string>): seq<string> { Keep(suffixes, UnderFloors(t, floors)) }

  function Keys(keys: seq<string>, floors: seq<string>): seq<string> {
    if floors == [] then keys else if keys == [] then floors else if Trusted(keys, floors) == [] then keys
        else Trusted(keys, floors)
  }

  function Hosts(t: Text, suffixes: seq<string>, floors: seq<string>): seq<string> {
    if floors == [] then suffixes else if suffixes == [] then floors
    else if Narrowed(t, suffixes, floors) == [] then suffixes else Narrowed(t, suffixes, floors)
  }

  function Minimum(served: string, floor: string): string {
    if floor != "" && (served == "" || CompareRelease(served, floor) < 0) then floor else served
  }

  /** Nothing is served and both are floored: the floors are filled in. */
  predicate FillsSource(f: FloorSet, uri: string, repo: string) {
    f.sourceURI != "" && f.imageRepo != "" && uri == "" && repo == ""
  }

  /** The policy raised to the floors, where they do not contradict it. */
  function Raised(t: Text, f: FloorSet, p: Policy): Policy {
    p.(imageSignatures := Keys(p.imageSignatures, f.imageSignatures), minRelease := Minimum(p.minRelease, f.minRelease),
       allowDebug := false, requireStable := p.requireStable || f.requireStable, requireGpuCc := p.requireGpuCc || f.requireGpuCc,
       sourceURI := if FillsSource(f, p.sourceURI, p.imageRepo) then f.sourceURI else p.sourceURI,
       imageRepo := if FillsSource(f, p.sourceURI, p.imageRepo) then f.imageRepo else p.imageRepo,
       hostSuffixes := Hosts(t, p.hostSuffixes, f.hostSuffixes),
       projectID := if p.projectID == "" then f.projectID else p.projectID,
       imagePrefix := if p.imagePrefix == "" then f.imagePrefix else p.imagePrefix)
  }

  predicate Differs(got: string, want: string) { want != "" && got != want }

  function NameContradictions(f: FloorSet, issuer: string, jwksURL: string, swName: string, hwModel: string): seq<Reason> {
    When(Differs(issuer, f.issuer), WrongIssuer) + When(Differs(jwksURL, f.jwksURL), WrongKeys)
    + When(Differs(swName, f.swName), WrongSWName) + When(Differs(hwModel, f.hwModel), WrongHWModel)
  }

  function KeyContradictions(floors: seq<string>, keys: seq<string>): seq<Reason> {
    When(floors != [] && keys != [] && Trusted(keys, floors) == [], NoTrustedKey)
  }

  function HostContradictions(t: Text, floors: seq<string>, suffixes: seq<string>): seq<Reason> {
    When(floors != [] && suffixes != [] && Narrowed(t, suffixes, floors) == [], NoTrustedHost)
  }

  function PlaceContradictions(f: FloorSet, projectID: string, imagePrefix: string): seq<Reason> {
    When(projectID != "" && Differs(projectID, f.projectID), WrongProject)
    + When(f.imagePrefix != "" && imagePrefix != "" && !RefUnder(imagePrefix, f.imagePrefix), LooserImage)
  }

  /** Every way the policy contradicts the floors. */
  function Contradictions(t: Text, f: FloorSet, p: Policy): seq<Reason> {
    NameContradictions(f, p.issuer, p.jwksURL, p.swName, p.hwModel) + KeyContradictions(f.imageSignatures, p.imageSignatures)
    + SourceContradictions(f, p.sourceURI, p.imageRepo) + HostContradictions(t, f.hostSuffixes, p.hostSuffixes)
    + PlaceContradictions(f, p.projectID, p.imagePrefix)
  }

  function SourceContradictions(f: FloorSet, uri: string, repo: string): seq<Reason> {
    if f.sourceURI == "" || f.imageRepo == "" || FillsSource(f, uri, repo) then []
    else When(uri != f.sourceURI, WrongSource) + When(repo != f.imageRepo, WrongRepo)
  }

  /** The policy as an object: Apply tightens it in place, a part at a time. */
  class HeldPolicy {
    const served: Policy
    var imageSignatures: seq<string>
    var minRelease: string
    var allowDebug: bool
    var requireStable: bool
    var requireGpuCc: bool
    var sourceURI: string
    var imageRepo: string
    var hostSuffixes: seq<string>
    var projectID: string
    var imagePrefix: string

    ghost function Value(): Policy reads this {
      Policy(served.allowedDigests, allowDebug, requireStable, requireGpuCc, served.trainerURL, imageSignatures, minRelease,
             sourceURI, imageRepo, served.issuer, served.jwksURL, served.swName, served.hwModel, hostSuffixes,
                 projectID, imagePrefix)
    }

    constructor (p: Policy)
      ensures Value() == p && served == p
    {
      served := p;
      imageSignatures, minRelease, allowDebug := p.imageSignatures, p.minRelease, p.allowDebug;
      requireStable, requireGpuCc := p.requireStable, p.requireGpuCc;
      sourceURI, imageRepo, hostSuffixes := p.sourceURI, p.imageRepo, p.hostSuffixes;
      projectID, imagePrefix := p.projectID, p.imagePrefix;
    }

    method ApplyKeys(floors: seq<string>) returns (reasons: seq<Reason>)
      modifies `imageSignatures
      ensures imageSignatures == Keys(old(imageSignatures), floors)
      ensures reasons == KeyContradictions(floors, old(imageSignatures))
    {
      reasons := [];
      if |floors| > 0 {
        if |imageSignatures| == 0 {
          imageSignatures := floors;
        } else {
          var kept := KeepTrusted(imageSignatures, floors);
          if |kept| == 0 { reasons := [NoTrustedKey]; } else { imageSignatures := kept; }
        }
      }
    }

    method ApplyRelease(floor: string)
      modifies `minRelease
      ensures minRelease == Minimum(old(minRelease), floor)
    {
      if floor != "" {
        var order := Compare(minRelease, floor);
        if minRelease == "" || order < 0 { minRelease := floor; }
      }
    }

    method ApplySource(f: FloorSet) returns (reasons: seq<Reason>)
      modifies `sourceURI, `imageRepo
      ensures reasons == SourceContradictions(f, old(sourceURI), old(imageRepo))
      ensures sourceURI == (if FillsSource(f, old(sourceURI), old(imageRepo)) then f.sourceURI else old(sourceURI))
      ensures imageRepo == (if FillsSource(f, old(sourceURI), old(imageRepo)) then f.imageRepo else old(imageRepo))
    {
      reasons := [];
      if f.sourceURI != "" && f.imageRepo != "" {
        if sourceURI == "" && imageRepo == "" {
          sourceURI, imageRepo := f.sourceURI, f.imageRepo;
        } else {
          reasons := When(sourceURI != f.sourceURI, WrongSource) + When(imageRepo != f.imageRepo, WrongRepo);
        }
      }
    }

    method ApplyHosts(t: Text, floors: seq<string>) returns (reasons: seq<Reason>)
      modifies `hostSuffixes
      ensures hostSuffixes == Hosts(t, old(hostSuffixes), floors)
      ensures reasons == HostContradictions(t, floors, old(hostSuffixes))
    {
      reasons := [];
      if |floors| > 0 {
        if |hostSuffixes| == 0 {
          hostSuffixes := floors;
        } else {
          var kept := KeepNarrowed(t, hostSuffixes, floors);
          if |kept| == 0 { reasons := [NoTrustedHost]; } else { hostSuffixes := kept; }
        }
      }
    }

    method ApplyPlace(f: FloorSet) returns (reasons: seq<Reason>)
      modifies `projectID, `imagePrefix
      ensures projectID == (if old(projectID) == "" then f.projectID else old(projectID))
      ensures imagePrefix == (if old(imagePrefix) == "" then f.imagePrefix else old(imagePrefix))
      ensures reasons == PlaceContradictions(f, old(projectID), old(imagePrefix))
    {
      reasons := [];
      if f.projectID != "" {
        if projectID == "" {
          projectID := f.projectID;
        } else if projectID != f.projectID {
          reasons := reasons + [WrongProject];
        }
      }
      if f.imagePrefix != "" {
        if imagePrefix == "" {
          imagePrefix := f.imagePrefix;
        } else if !RefUnder(imagePrefix, f.imagePrefix) {
          reasons := reasons + [LooserImage];
        }
      }
    }

    /** What Apply makes of the keys, the release and the switches. */
    method ApplyImage(f: FloorSet) returns (reasons: seq<Reason>)
      modifies `imageSignatures, `minRelease, `allowDebug, `requireStable, `requireGpuCc
      ensures reasons == KeyContradictions(f.imageSignatures, old(imageSignatures))
      ensures imageSignatures == Keys(old(imageSignatures), f.imageSignatures)
              && minRelease == Minimum(old(minRelease), f.minRelease)
      ensures !allowDebug && requireStable == (old(requireStable) || f.requireStable)
              && requireGpuCc == (old(requireGpuCc) || f.requireGpuCc)
    {
      reasons := ApplyKeys(f.imageSignatures);
      ApplyRelease(f.minRelease);
      allowDebug, requireStable, requireGpuCc := false, requireStable || f.requireStable, requireGpuCc || f.requireGpuCc;
    }

    method Apply(t: Text, f: FloorSet) returns (reasons: seq<Reason>)
      modifies this
      ensures Value() == Raised(t, f, old(Value()))
      ensures reasons == Contradictions(t, f, old(Value()))
    {
      ghost var was := Value();
      var names := NameContradictions(f, served.issuer, served.jwksURL, served.swName, served.hwModel);
      var keys := ApplyImage(f);
      var source := ApplySource(f);
      var hosts := ApplyHosts(t, f.hostSuffixes);
      var place := ApplyPlace(f);
      reasons := names + keys + source + hosts + place;
      assert Value() == Raised(t, f, was);
    }
  }

  /** The keys in both lists, in the served order. */
  method KeepTrusted(keys: seq<string>, floors: seq<string>) returns (kept: seq<string>)
    ensures kept == Trusted(keys, floors)
  {
    kept := [];
    for i := 0 to |keys|
      invariant kept == Trusted(keys[..i], floors)
    {
      KeepNext(keys, i, InFloors(floors));
      if keys[i] in floors { kept := kept + [keys[i]]; }
    }
    assert keys[..|keys|] == keys;
  }

  method KeepNarrowed(t: Text, suffixes: seq<string>, floors: seq<string>) returns (kept: seq<string>)
    ensures kept == Narrowed(t, suffixes, floors)
  {
    kept := [];
    for i := 0 to |suffixes|
      invariant kept == Narrowed(t, suffixes[..i], floors)
    {
      KeepNext(suffixes, i, UnderFloors(t, floors));
      var lies := LiesUnder(t, suffixes[i], floors);
      if lies { kept := kept + [suffixes[i]]; }
    }
    assert suffixes[..|suffixes|] == suffixes;
  }

  method LiesUnder(t: Text, suffix: string, floors: seq<string>) returns (ok: bool)
    ensures ok == SuffixUnderAny(t, suffix, floors)
  {
    var s := Norm(t, suffix);
    if s == "" {
      return false;
    }
    for i := 0 to |floors|
      invariant forall k :: 0 <= k < i ==> !(Norm(t, floors[k]) != "" && HasSuffix(s, Norm(t, floors[k])))
    {
      var fl := Norm(t, floors[i]);
      if fl != "" && HasSuffix(s, fl) {
        return true;
      }
    }
    return false;
  }
}
