/**
 Which version may be installed (lib/fry_core/ota_health.cpp, lib/fry_core/ota_version_guard.h). A
 null C string behaves as the empty one in all of these.
 */
module OtaHealth {
  import opened Prelude
  import opened Semver

  const PERMANENT_STRIKES: Byte := 3

  datatype OtaDecision = Update | NotNewer | WrongChannel | BadVersion | NoBuild | NotInRollout

  /** The fields of a manifest the decision uses, and the outcome of the rollout gate. */
  datatype Manifest = Manifest(channel: string, latest: string, url: string, sha: string, inRollout: bool)

  function OrProd(channel: string): string {
    if channel == "" then "prod" else channel
  }

  predicate IsSkippedBadVersion(candidate: string, badver: string) {
    candidate != "" && badver != "" && candidate == badver
  }

  function DecideOtaUpdate(m: Manifest, ownChannel: string, current: string, badver: string): OtaDecision {
    if OrProd(m.channel) != OrProd(ownChannel) then WrongChannel
    else if m.latest == "" || Precedence(Parse(m.latest), Parse(current)) <= 0 then NotNewer
    else if IsSkippedBadVersion(m.latest, badver) then BadVersion
    else if !m.inRollout then NotInRollout
    else if m.url == "" || m.sha == "" then NoBuild
    else Update
  }

  /** The two channels agree, no channel meaning "prod". */
  predicate SameChannel(a: string, b: string) {
    a == b || (a == "" && b == "prod") || (a == "prod" && b == "")
  }

  lemma Reversed(v: Version, w: Version)
    ensures Precedence(v, w) > 0 <==> Precedence(w, v) < 0
  {
    PrecedenceLaws(v, w, v);
  }

  /** The manifest names a version that outranks the running one. */
  predicate Newer(m: Manifest, current: string) {
    m.latest != "" && Precedence(Parse(current), Parse(m.latest)) < 0
  }

  /** What a decision tells: which of the demands, in this order, was the first not met. */
  predicate Tells(d: OtaDecision, m: Manifest, ownChannel: string, current: string, badver: string) {
    if !SameChannel(m.channel, ownChannel) then d == WrongChannel
    else if !Newer(m, current) then d == NotNewer
    else if m.latest == badver then d == BadVersion
    else if !m.inRollout then d == NotInRollout
    else if m.url == "" || m.sha == "" then d == NoBuild
    else d == Update
  }

  lemma DecisionTells(m: Manifest, ownChannel: string, current: string, badver: string)
    ensures Tells(DecideOtaUpdate(m, ownChannel, current, badver), m, ownChannel, current, badver)
  {
    Reversed(Parse(m.latest), Parse(current));
  }

  /** An update is offered exactly when all of it holds: this board's channel, a named version that
      outranks the running one and is not the one held back, the board's rollout turn, and a build with
      its digest. So no demand can mask another. */
  lemma UpdateIff(m: Manifest, ownChannel: string, current: string, badver: string)
    ensures DecideOtaUpdate(m, ownChannel, current, badver).Update? <==>
      && SameChannel(m.channel, ownChannel) && Newer(m, current) && m.latest != badver
      && m.inRollout && m.url != "" && m.sha != ""
  {
    DecisionTells(m, ownChannel, current, badver);
  }

  predicate ShouldRecordBadVersion(pending: string, running: string, lastInvalid: bool) {
    pending != "" && lastInvalid && pending != running
  }

  /** The mislabel rule of ota_version_guard.h. */
  predicate ShouldRejectManifestVersion(pending: string, running: string, rolledBack: bool, planned: bool) {
    pending != "" && running != "" && !rolledBack && !planned && pending != running
  }

  /** The new count, and whether to persist it. */
  function NextStrikeCount(badver: string, badn: Byte, rolledBackFrom: string, planned: bool): (Byte, bool) {
    if rolledBackFrom == "" || planned then (badn, false)
    else if badver != "" && badver == rolledBackFrom then (if badn < 255 then badn + 1 else badn, true)
    else (1, true)
  }

  predicate SkipBadVersion(latest: string, badver: string, badn: Byte, firstCheck: bool) {
    IsSkippedBadVersion(latest, badver) && (badn >= PERMANENT_STRIKES || firstCheck)
  }

  predicate StrikesReset(latest: string, badver: string) {
    latest != "" && badver != "" && latest != badver
  }

  // ---- forward only ----------------------------------------------------------------------------

  /** What one check is given: the manifest, the board's channel and the bad version it holds. */
  datatype Offer = Offer(m: Manifest, own: string, badver: string)

  /** The versions a board runs in turn when every accepted update is installed. */
  function Installed(current: string, offers: seq<Offer>): seq<string>
    decreases |offers|
  {
    if offers == [] then []
    else if DecideOtaUpdate(offers[0].m, offers[0].own, current, offers[0].badver).Update? then
      [offers[0].m.latest] + Installed(offers[0].m.latest, offers[1..])
    else Installed(current, offers[1..])
  }

  function Parsed(vs: seq<string>): (r: seq<Version>)
    ensures |r| == |vs| && forall i :: 0 <= i < |r| ==> r[i] == Parse(vs[i])
  {
    if vs == [] then [] else [Parse(vs[0])] + Parsed(vs[1..])
  }

  predicate Rising(x: Version, vs: seq<Version>)
    decreases |vs|
  {
    vs != [] ==> Precedence(vs[0], x) > 0 && Rising(vs[0], vs[1..])
  }

  /** Each update is a step up in precedence. */
  lemma {:induction false} InstalledRises(current: string, offers: seq<Offer>)
    ensures Rising(Parse(current), Parsed(Installed(current, offers)))
    decreases |offers|
  {
    if offers != [] {
      var m := offers[0].m;
      if DecideOtaUpdate(m, offers[0].own, current, offers[0].badver).Update? {
        InstalledRises(m.latest, offers[1..]);
        var rest := Installed(m.latest, offers[1..]);
        assert ([m.latest] + rest)[1..] == rest;
        assert ([Parse(m.latest)] + Parsed(rest))[1..] == Parsed(rest);
      } else {
        InstalledRises(current, offers[1..]);
      }
    }
  }

  lemma {:induction false} RisingPairs(x: Version, vs: seq<Version>)
    requires Rising(x, vs)
    ensures forall i :: 0 <= i < |vs| ==> Precedence(vs[i], x) > 0
    ensures forall i, j :: 0 <= i < j < |vs| ==> Precedence(vs[j], vs[i]) > 0
    decreases |vs|
  {
    if vs != [] {
      RisingPairs(vs[0], vs[1..]);
      forall i | 0 < i < |vs|
        ensures Precedence(vs[i], vs[0]) > 0 && Precedence(vs[i], x) > 0
      {
        assert vs[1..][i - 1] == vs[i];
        Outranks(vs[i], vs[0], x);
      }
      forall i, j | 0 < i < j < |vs|
        ensures Precedence(vs[j], vs[i]) > 0
      {
        assert vs[1..][i - 1] == vs[i] && vs[1..][j - 1] == vs[j];
      }
    }
  }

  lemma Outranks(v: Version, w: Version, x: Version)
    requires Precedence(v, w) > 0 && Precedence(w, x) > 0
    ensures Precedence(v, x) > 0
  {
    PrecedenceLaws(x, w, v);
    PrecedenceLaws(w, v, x);
    PrecedenceLaws(v, x, w);
  }

  /**
   Over any manifests, what the board runs only moves up: every installed version outranks the first
   one and all installed before it, so none is ever installed twice, nor one that differs from it in
   build metadata only.
   */
  lemma ForwardOnly(current: string, offers: seq<Offer>)
    ensures var vs := Parsed(Installed(current, offers));
      && (forall i :: 0 <= i < |vs| ==> Precedence(vs[i], Parse(current)) > 0)
      && (forall i, j :: 0 <= i < j < |vs| ==> Precedence(vs[j], vs[i]) > 0 && vs[j] != vs[i])
  {
    InstalledRises(current, offers);
    var vs := Parsed(Installed(current, offers));
    RisingPairs(Parse(current), vs);
    forall i, j | 0 <= i < j < |vs|
      ensures Precedence(vs[j], vs[i]) > 0 && vs[j] != vs[i]
    {
      PrecedenceLaws(vs[i], vs[j], vs[i]);
    }
  }
}
