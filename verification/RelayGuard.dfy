/**
 Whom the SOCKS5 relay lets in (lib/fry_core/relay_guard.h): the server's tunnel address is recovered
 from the stored route list, and the relay listens exactly when somebody else could be admitted.
 */
module RelayGuard {
  import opened Prelude
  import opened Cidr
  import Routes
  import opened RoutePlanner

  const MIN_TUNNEL_PREFIX := 8
  const MAX_SUBNET_PREFIX := 31
  const ENTRY_SIZE := 20

  datatype GuardConfig = GuardConfig(deviceIp: U32, prefix: Prefix, serverIp: U32)

  predicate IpInSubnet(ip: U32, deviceIp: U32, prefix: Prefix) {
    Masked(ip, prefix) == Masked(deviceIp, prefix)
  }

  predicate PrefixAdmitsPeers(prefix: Prefix) {
    MIN_TUNNEL_PREFIX <= prefix <= MAX_SUBNET_PREFIX
  }

  predicate RelayEnabled(g: GuardConfig) {
    PrefixAdmitsPeers(g.prefix) || g.serverIp != 0
  }

  predicate PeerAdmitted(src: U32, g: GuardConfig) {
    (g.serverIp != 0 && src == g.serverIp)
    || (PrefixAdmitsPeers(g.prefix) && IpInSubnet(src, g.deviceIp, g.prefix))
  }

  ghost predicate AdmitsAnother(g: GuardConfig) {
    exists src: U32 :: src != g.deviceIp && PeerAdmitted(src, g)
  }

  /** The relay listens exactly when the guard would admit some address besides the device's own. */
  lemma EnabledIffAdmits(g: GuardConfig)
    requires g.serverIp != g.deviceIp || g.serverIp == 0
    ensures RelayEnabled(g) <==> AdmitsAnother(g)
  {
    if PrefixAdmitsPeers(g.prefix) {
      var peer := Neighbour(g.deviceIp, g.prefix);
      assert peer != g.deviceIp && PeerAdmitted(peer, g);
    } else if g.serverIp != 0 {
      assert PeerAdmitted(g.serverIp, g);
    }
  }

  /** Another address of the same subnet. */
  lemma Neighbour(ip: U32, p: Prefix) returns (peer: U32)
    requires p < 32
    ensures peer != ip && IpInSubnet(peer, ip, p)
  {
    var b := Block(Masked(ip, p), p);
    MaskedIsNetwork(ip, p);
    Routes.MaskedIsProper(ip, p);
    assert Size(p) == 2 * Pow2(32 - p - 1);
    peer := if ip == b.net then ip + 1 else b.net;
    assert Holds(b, peer) && Holds(b, ip);
    InBlockIsRange(peer, b);
    InBlockIsRange(ip, b);
  }

  /** Nobody outside the tunnel's subnet but the server itself is admitted. */
  lemma AdmittedMeans(src: U32, g: GuardConfig)
    ensures PeerAdmitted(src, g) <==>
      || (g.serverIp != 0 && src == g.serverIp)
      || (8 <= g.prefix <= 31 && Holds(Block(Masked(g.deviceIp, g.prefix), g.prefix), src))
  {
    var b := Block(Masked(g.deviceIp, g.prefix), g.prefix);
    MaskedIsNetwork(g.deviceIp, g.prefix);
    InBlockIsRange(src, b);
  }

  // ---- the server's address --------------------------------------------------------------------

  /** The text before the first ';'. */
  function Entry(csv: string): (e: string)
    ensures e <= csv && ';' !in e
    ensures |e| < |csv| ==> csv[|e|] == ';'
  {
    if csv == "" || csv[0] == ';' then "" else [csv[0]] + Entry(csv[1..])
  }

  /** The address an entry names, if it is a /32 other than the device's. */
  function Named(e: string, deviceIp: U32): Option<U32> {
    if !(0 < |e| < ENTRY_SIZE) then None else
    match ParseCidr(e)
    case None => None
    case Some((ip, p)) => if p == 32 && ip != deviceIp then Some(ip) else None
  }

  function Pick(csv: string, deviceIp: U32): U32
    decreases |csv|
  {
    if csv == "" then 0 else
    var e := Entry(csv);
    if Named(e, deviceIp).Some? then Named(e, deviceIp).value
    else if |e| == |csv| then 0
    else Pick(csv[|e| + 1..], deviceIp)
  }

  method EntryLength(p: string) returns (end: nat)
    ensures end == |Entry(p)|
  {
    end := 0;
    while end < |p| && p[end] != ';'
      invariant end <= |p| && |Entry(p)| == end + |Entry(p[end..])|
    {
      assert p[end..][1..] == p[end + 1..];
      end := end + 1;
    }
  }

  /** One entry, through the 20-character copy buffer. */
  method ReadEntry(e: string, deviceIp: U32) returns (r: Option<U32>)
    ensures r == Named(e, deviceIp)
  {
    if !(0 < |e| < ENTRY_SIZE) { return None; }
    var parsed := ParseIpv4Cidr(e);
    if parsed.Some? && parsed.value.1 == 32 && parsed.value.0 != deviceIp {
      return Some(parsed.value.0);
    }
    r := None;
  }

  method PickServerTunnelAddress(csv: Option<string>, deviceIp: U32) returns (ip: U32)
    ensures ip == if csv.None? then 0 else Pick(csv.value, deviceIp)
  {
    if csv.None? { return 0; }
    var p := csv.value;
    while p != ""
      invariant Pick(p, deviceIp) == Pick(csv.value, deviceIp)
      decreases |p|
    {
      var end := EntryLength(p);
      assert p[..end] == Entry(p);
      var named := ReadEntry(p[..end], deviceIp);
      if named.Some? { return named.value; }
      if end == |p| { break; }
      p := p[end + 1..];
    }
    ip := 0;
  }

  /** The address the first naming entry names. */
  function FirstNamed(entries: seq<string>, deviceIp: U32): U32 {
    if entries == [] then 0
    else if Named(entries[0], deviceIp).Some? then Named(entries[0], deviceIp).value
    else FirstNamed(entries[1..], deviceIp)
  }

  lemma {:induction false} EntryOf(e: string, rest: string)
    requires ';' !in e && (rest == "" || rest[0] == ';')
    ensures Entry(e + rest) == e
  {
    if e == "" {
      assert e + rest == rest;
    } else {
      assert (e + rest)[1..] == e[1..] + rest;
      EntryOf(e[1..], rest);
    }
  }

  lemma {:induction false} JoinedFromLeft(entries: seq<string>)
    requires |entries| > 1
    ensures Joined(entries) == entries[0] + (";" + Joined(entries[1..]))
  {
    var n := |entries| - 1;
    if n > 1 {
      JoinedFromLeft(entries[..n]);
      assert entries[..n][1..] == entries[1..][..n - 1];
    }
  }

  lemma PickStep(e: string, rest: string, deviceIp: U32)
    requires e != "" && ';' !in e
    ensures Pick(e, deviceIp) == if Named(e, deviceIp).Some? then Named(e, deviceIp).value else 0
    ensures Pick(e + (";" + rest), deviceIp)
         == if Named(e, deviceIp).Some? then Named(e, deviceIp).value else Pick(rest, deviceIp)
  {
    EntryOf(e, "");
    assert e + "" == e;
    EntryOf(e, ";" + rest);
    assert (e + (";" + rest))[|e| + 1..] == rest;
  }

  lemma {:induction false} PickFromJoined(entries: seq<string>, deviceIp: U32)
    requires forall e :: e in entries ==> e != "" && ';' !in e
    ensures Pick(Joined(entries), deviceIp) == FirstNamed(entries, deviceIp)
  {
    if entries != [] {
      var e := entries[0];
      assert e in entries;
      PickStep(e, Joined(entries[1..]), deviceIp);
      if |entries| > 1 {
        JoinedFromLeft(entries);
        PickFromJoined(entries[1..], deviceIp);
      }
    }
  }

  /** The first /32 in the plan that is not the device's own; 0 when there is none. */
  function FirstPeer(bs: seq<Block>, deviceIp: U32): U32 {
    if bs == [] then 0
    else if bs[0].prefix == 32 && bs[0].net != deviceIp then bs[0].net
    else FirstPeer(bs[1..], deviceIp)
  }

  lemma NamedByFormat(b: Block, deviceIp: U32)
    ensures Named(FormatCidr(b), deviceIp) == if b.prefix == 32 && b.net != deviceIp then Some(b.net) else None
  {
    FormatFits(b);
    CidrRoundTrip(b);
  }

  lemma {:induction false} NamedIsPeer(bs: seq<Block>, deviceIp: U32)
    ensures FirstNamed(Texts(bs), deviceIp) == FirstPeer(bs, deviceIp)
    ensures forall e :: e in Texts(bs) ==> e != "" && ';' !in e
  {
    if bs != [] {
      NamedByFormat(bs[0], deviceIp);
      FormatFits(bs[0]);
      NamedIsPeer(bs[1..], deviceIp);
      assert Texts(bs)[1..] == Texts(bs[1..]);
    }
  }

  /** From the stored list the relay recovers exactly the first /32 that is not the device. */
  lemma PickRecovers(bs: seq<Block>, deviceIp: U32)
    ensures Pick(Csv(bs), deviceIp) == FirstPeer(bs, deviceIp)
  {
    NamedIsPeer(bs, deviceIp);
    PickFromJoined(Texts(bs), deviceIp);
  }

  /** A server whose /32 is the first peer of the plan reaches the relay. */
  lemma FirstPeerAdmitted(plan: seq<Block>, deviceIp: U32, prefix: Prefix)
    requires FirstPeer(plan, deviceIp) != 0
    ensures var g := GuardConfig(deviceIp, prefix, Pick(Csv(plan), deviceIp));
      RelayEnabled(g) && PeerAdmitted(FirstPeer(plan, deviceIp), g)
  {
    PickRecovers(plan, deviceIp);
  }

  /** From the server's answer to the relay's guard: when the list of allowed addresses begins with the
      server's own /32, and that is neither the device's address nor one of the station's, the plan made
      for the tunnel address is stored, read back, and the server is admitted. */
  lemma PlannedServerAdmitted(address: Option<string>, rest: seq<Option<string>>, s: Routes.Sta, server: U32)
    requires address.Some? && ParseCidr(address.value).Some?
    requires server != 0 && server != ParseCidr(address.value).value.0 && !Routes.Avoided(s, server)
    ensures
      var (deviceIp, prefix) := ParseCidr(address.value).value;
      var plan := Routes.Plan(address, [Some(FormatCidr(Block(server, 32)))] + rest, s);
      && plan.Some?
      && var g := GuardConfig(deviceIp, prefix, Pick(Csv(plan.value), deviceIp));
         g.serverIp == server && RelayEnabled(g) && PeerAdmitted(server, g)
  {
    var entry, b := Some(FormatCidr(Block(server, 32))), Block(server, 32);
    var allowed := [entry] + rest;
    var (deviceIp, prefix) := ParseCidr(address.value).value;
    assert allowed[..1] == [entry] && [entry][..0] == [];
    assert Size(32) == 1;
    Routes.FormatIsCandidate(b);
    assert Routes.Keep([], entry, s) == [b];
    assert Routes.KeepAll([entry], s) == [b];
    Routes.KeptInOrder(allowed, 1, s);
    var plan := Routes.Plan(address, allowed, s).value;
    assert plan[0] == b;
    FirstPeerAdmitted(plan, deviceIp, prefix);
    PickRecovers(plan, deviceIp);
  }
}
