/** Which update offers an installed application accepts, and what any chain of accepted offers does to its version. */
module UpdatePolicy {
  import opened Ordering

  datatype UpdateChannel = InternalCandidate | Stable

  /** The three numbers of a version, and the candidate suffix when there is one. */
  datatype Version = Version(base: seq<nat>, suffix: Option<string>)

  datatype Identity = Identity(
    version: Version, channel: UpdateChannel, sequence: int, platform: string, arch: string, schema: int,
    sourceCommit: string, migrationSource: string)

  datatype Offer = Offer(identity: Identity, sha256: string, size: int, artifactPath: string, signed: bool)

  /** `shaped`: the payload parsed to the exact fields, formats and ranges; `trusted`: a known key signed it. */
  datatype Envelope = Envelope(trusted: bool, shaped: bool, offer: Offer)

  datatype UpdateError = SignatureInvalid | IdentityInvalid | TargetMismatch | ReplayOrDowngrade

  const MAX_SIZE: int := 2147483648

  /** `findIndex` of the first position where the two differ. */
  function FirstDifference(a: seq<nat>, b: seq<nat>): (i: int)
    ensures -1 <= i < |a|
  {
    if a == [] then -1
    else if b == [] || a[0] != b[0] then 0
    else
      var i := FirstDifference(a[1..], b[1..]);
      if i < 0 then -1 else i + 1
  }

  /** A version of three numbers. */
  predicate Numbered(v: Version) {
    |v.base| == 3
  }

  predicate Safe(v: Version) {
    forall i :: 0 <= i < |v.base| ==> v.base[i] <= MAX_SAFE_INTEGER
  }

  function Extension(platform: string): string {
    if platform == "win32" then "exe" else if platform == "darwin" then "dmg" else "AppImage"
  }

  /** What the channel demands of the offered version's form. */
  predicate ChannelForm(o: Offer) {
    match o.identity.channel
    case Stable => o.identity.version.suffix.None? && o.signed
    case InternalCandidate =>
      |o.identity.sourceCommit| >= 8 && o.identity.version.suffix == Some(o.identity.sourceCommit[..8])
  }

  /** The checks in the order they are made. */
  function VerifyUpdateOffer(e: Envelope, current: Identity): Result<Offer, UpdateError>
    requires Numbered(current.version)
  {
    var o := e.offer;
    var next := o.identity;
    if !e.trusted then Failure(SignatureInvalid)
    else if !e.shaped || o.size < 1 || o.size > MAX_SIZE then Failure(IdentityInvalid)
    else if next.channel != current.channel || next.platform != current.platform || next.arch != current.arch
            || next.schema != current.schema || next.migrationSource != current.migrationSource
      then Failure(TargetMismatch)
    else if !Numbered(next.version) || !ChannelForm(o) then Failure(IdentityInvalid)
    else
      var diff := FirstDifference(next.version.base, current.version.base);
      if next.channel.Stable? && (diff < 0 || next.version.base[diff] < current.version.base[diff])
          then Failure(ReplayOrDowngrade)
      else if !Safe(next.version) || (diff >= 0 && next.version.base[diff] < current.version.base[diff])
      then Failure(ReplayOrDowngrade)
      else if next.sequence <= current.sequence || next.sourceCommit == current.sourceCommit
      then Failure(ReplayOrDowngrade)
      else if o.artifactPath != "/artifacts/" + o.sha256 + "/Sestina." + Extension(current.platform)
          then Failure(IdentityInvalid)
      else Success(o)
  }

  // ----- The order of versions -----

  /** Dictionary order on the numbers of a version. */
  predicate Below(a: seq<nat>, b: seq<nat>)
    requires |a| == |b|
  {
    a != [] && (a[0] < b[0] || (a[0] == b[0] && Below(a[1..], b[1..])))
  }

  lemma {:induction false} DifferenceDecides(a: seq<nat>, b: seq<nat>)
    requires |a| == |b|
    ensures var i := FirstDifference(a, b);
            && (i < 0 <==> a == b)
            && (i >= 0 ==> (a[i] < b[i] <==> Below(a, b)) && (b[i] < a[i] <==> Below(b, a)))
  {
    if a != [] {
      if a[0] == b[0] {
        DifferenceDecides(a[1..], b[1..]);
        assert a == [a[0]] + a[1..] && b == [b[0]] + b[1..];
      }
    }
  }

  lemma {:induction false} BelowIsTransitive(a: seq<nat>, b: seq<nat>, c: seq<nat>)
    requires |a| == |b| == |c| && Below(a, b) && Below(b, c)
    ensures Below(a, c)
  {
    if a[0] == b[0] && b[0] == c[0] {
      BelowIsTransitive(a[1..], b[1..], c[1..]);
    }
  }

  predicate NotBelow(now: Version, before: Version)
    requires Numbered(now) && Numbered(before)
  {
    now.base == before.base || Below(before.base, now.base)
  }

  /**
   * What accepting means: the same target, a later sequence, another commit, and no lower version; stable always a
   * higher one.
   */
  lemma AcceptedOfferAdvances(e: Envelope, current: Identity)
    requires Numbered(current.version) && VerifyUpdateOffer(e, current).Success?
    ensures var next := e.offer.identity;
            && e.trusted && VerifyUpdateOffer(e, current).value == e.offer
            && Numbered(next.version) && next.sequence > current.sequence && next.sourceCommit != current.sourceCommit
            && NotBelow(next.version, current.version)
            && (current.channel.Stable? ==> Below(current.version.base, next.version.base))
            && next == next.(channel := current.channel, platform := current.platform, arch := current.arch,
                             schema := current.schema, migrationSource := current.migrationSource)
  {
    DifferenceDecides(e.offer.identity.version.base, current.version.base);
  }

  /** The other way round: everything that is demanded, and nothing else, with versions in dictionary order. */
  lemma AcceptedExactlyWhen(e: Envelope, current: Identity)
    requires Numbered(current.version)
    ensures var o, next := e.offer, e.offer.identity;
            VerifyUpdateOffer(e, current).Success? <==>
              && e.trusted && e.shaped && 1 <= o.size <= 2147483648
              && next.channel == current.channel && next.platform == current.platform && next.arch == current.arch
              && next.schema == current.schema && next.migrationSource == current.migrationSource
              && |next.version.base| == 3 && (forall i :: 0 <= i < 3 ==> next.version.base[i] <= 9007199254740991)
              && (next.channel == Stable ==> o.signed && next.version.suffix == None)
              && (next.channel == InternalCandidate ==>
                    |next.sourceCommit| >= 8 && next.version.suffix == Some(next.sourceCommit[..8]))
              && (if next.channel.Stable? then Below(current.version.base, next.version.base)
                  else NotBelow(next.version, current.version))
              && next.sequence > current.sequence && next.sourceCommit != current.sourceCommit
              && o.artifactPath ==
                 "/artifacts/" + o.sha256 + "/Sestina." +
                 (if current.platform == "win32" then "exe" else if current.platform == "darwin" then "dmg"
                  else "AppImage")
    // Which refusal: trust first, then form and size, then the target; a version or sequence that does not advance is
    // reported as a replay.
    ensures VerifyUpdateOffer(e, current) == Failure(SignatureInvalid) <==> !e.trusted
    ensures VerifyUpdateOffer(e, current) == Failure(TargetMismatch) <==>
              var o, next := e.offer, e.offer.identity;
              && e.trusted && e.shaped && 1 <= o.size <= 2147483648
              && !(next.channel == current.channel && next.platform == current.platform && next.arch == current.arch
                   && next.schema == current.schema && next.migrationSource == current.migrationSource)
  {
    if Numbered(e.offer.identity.version) {
      OneIsBelow(e.offer.identity.version.base, current.version.base);
      DifferenceDecides(e.offer.identity.version.base, current.version.base);
    }
  }

  lemma {:induction false} OneIsBelow(a: seq<nat>, b: seq<nat>)
    requires |a| == |b|
    ensures a == b || Below(a, b) || Below(b, a)
    ensures !(Below(a, b) && Below(b, a))
    ensures a == b ==> !Below(a, b)
  {
    if a != [] {
      OneIsBelow(a[1..], b[1..]);
      assert a == [a[0]] + a[1..] && b == [b[0]] + b[1..];
    }
  }

  // ----- Chains of installed offers -----

  /** Each offer is accepted by the identity the one before it installed. */
  ghost predicate Chain(start: Identity, es: seq<Envelope>)
    requires Numbered(start.version)
    decreases |es|
  {
    es == [] || (VerifyUpdateOffer(es[0], start).Success? &&
                 (AcceptedOfferAdvances(es[0], start); Chain(es[0].offer.identity, es[1..])))
  }

  /**
   * Along any chain the sequence strictly rises and the version never falls; on the stable channel it strictly
   * rises.
   */
  lemma {:induction false} ChainAdvances(start: Identity, es: seq<Envelope>)
    requires Numbered(start.version) && Chain(start, es) && es != []
    ensures var last := es[|es| - 1].offer.identity;
            && Numbered(last.version) && last.sequence >= start.sequence + |es|
            && NotBelow(last.version, start.version)
            && last.channel == start.channel && last.platform == start.platform
            && (start.channel.Stable? ==> Below(start.version.base, last.version.base))
    decreases |es|
  {
    AcceptedOfferAdvances(es[0], start);
    var next := es[0].offer.identity;
    if |es| > 1 {
      ChainAdvances(next, es[1..]);
      var last := es[|es| - 1].offer.identity;
      assert es[1..][|es| - 2] == es[|es| - 1];
      if Below(start.version.base, next.version.base) && Below(next.version.base, last.version.base) {
        BelowIsTransitive(start.version.base, next.version.base, last.version.base);
      }
    }
  }

  /** No offer is accepted a second time, however many others were installed since. */
  lemma NoReplay(start: Identity, e: Envelope, between: seq<Envelope>)
    requires Numbered(start.version) && Chain(start, [e] + between)
    ensures var last := ([e] + between)[|between|].offer.identity;
            Numbered(last.version) && VerifyUpdateOffer(e, last).Failure?
  {
    AcceptedOfferAdvances(e, start);
    assert ([e] + between)[0] == e && ([e] + between)[1..] == between;
    if between != [] {
      ChainAdvances(e.offer.identity, between);
      assert ([e] + between)[|between|] == between[|between| - 1];
    }
    var last := ([e] + between)[|between|].offer.identity;
    if VerifyUpdateOffer(e, last).Success? {
      AcceptedOfferAdvances(e, last);
    }
  }
}
