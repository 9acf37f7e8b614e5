/**
 The WireGuard route plan (lib/fry_core/wg_provision.cpp:247-353): candidates are narrowed away from
 the board's own station address and gateway, at most three are kept, and the plan is never empty.
 */
module Routes {
  import opened Prelude
  import opened Cidr
  import opened CidrText

  const MAX_ROUTES := 3
  const MIN_PREFIX := 8

  /** The station's address, prefix and gateway; 0 means unknown. */
  datatype Sta = Sta(ip: U32, prefix: int, gw: U32)

  predicate StaActive(s: Sta) { s.prefix > 0 && s.ip != 0 }
  predicate GwActive(s: Sta) { s.prefix > 0 && s.gw != 0 }

  /** The addresses no route may capture. */
  predicate Avoided(s: Sta, addr: U32) {
    (StaActive(s) && addr == s.ip) || (GwActive(s) && addr == s.gw)
  }

  function Lower(b: Block): Block
    requires b.prefix < 32
  {
    Block(b.net, b.prefix + 1)
  }

  /** The half with the new distinguishing bit set. */
  function Upper(b: Block): Block
    requires b.prefix < 32 && b.net + Size(b.prefix + 1) < TWO32
  {
    Block(b.net + Size(b.prefix + 1), b.prefix + 1)
  }

  /** A network that ends within the address space. */
  predicate Proper(b: Block) {
    IsNetwork(b) && b.net + Size(b.prefix) <= TWO32
  }

  /** A number with k + 1 low bits clear has k of them clear, and so has the next multiple of 2^k. */
  lemma {:induction false} HalvesAreClear(n: nat, k: nat)
    requires ClearLow(n, k + 1) == n
    ensures ClearLow(n, k) == n && ClearLow(n + Pow2(k), k) == n + Pow2(k)
  {
    if k > 0 {
      HalvesAreClear(n / 2, k - 1);
      assert (n + Pow2(k)) / 2 == n / 2 + Pow2(k - 1);
    }
  }

  /** A multiple of 2^k below 2^m leaves room for 2^k more. */
  lemma {:induction false} RoomAbove(n: nat, k: nat, m: nat)
    requires k <= m && ClearLow(n, k) == n < Pow2(m)
    ensures n + Pow2(k) <= Pow2(m)
  {
    if k > 0 { RoomAbove(n / 2, k - 1, m - 1); }
  }

  /** The two halves are networks and share the block's addresses between them. */
  lemma Halves(b: Block)
    requires Proper(b) && b.prefix < 32
    ensures b.net + Size(b.prefix + 1) < TWO32
    ensures Proper(Lower(b)) && Proper(Upper(b))
    ensures Size(b.prefix) == 2 * Size(b.prefix + 1)
    ensures forall a: U32 :: Holds(b, a) <==> Holds(Lower(b), a) || Holds(Upper(b), a)
    ensures forall a: U32 :: !(Holds(Lower(b), a) && Holds(Upper(b), a))
  {
    HalvesAreClear(b.net, 31 - b.prefix);
  }

  /** One halving away from `addr`. */
  function Half(b: Block, addr: U32): (h: Block)
    requires Proper(b) && b.prefix < 32 && Holds(b, addr)
    ensures Proper(h) && h.prefix == b.prefix + 1 && !Holds(h, addr)
    ensures forall a: U32 :: Holds(h, a) ==> Holds(b, a)
  {
    Halves(b);
    if Holds(Lower(b), addr) then Upper(b) else Lower(b)
  }

  function Narrow(b: Block, s: Sta): Option<Block>
    requires Proper(b)
    decreases 32 - b.prefix
  {
    var staIn, gwIn := StaActive(s) && Holds(b, s.ip), GwActive(s) && Holds(b, s.gw);
    if !staIn && !gwIn then Some(b)
    else if b.prefix == 32 then None
    else Narrow(Half(b, if staIn then s.ip else s.gw), s)
  }

  /** Some address of the block may be routed. */
  ghost predicate Usable(b: Block, s: Sta) {
    exists a: U32 :: Holds(b, a) && !Avoided(s, a)
  }

  predicate Clean(b: Block, s: Sta) {
    !(StaActive(s) && Holds(b, s.ip)) && !(GwActive(s) && Holds(b, s.gw))
  }

  lemma CleanHoldsNone(b: Block, s: Sta, a: U32)
    requires Clean(b, s) && Holds(b, a)
    ensures !Avoided(s, a)
  {
  }

  /**
   Narrowing is exact: the result is a sub-block without the station's addresses, reached in at most
   two halvings and not at all when there is nothing to avoid; a candidate is dropped exactly when
   every address in it is one of the two.
   */
  lemma NarrowExact(b: Block, s: Sta)
    requires Proper(b)
    ensures Narrow(b, s).Some? <==> Usable(b, s)
    ensures Narrow(b, s).Some? ==> var n := Narrow(b, s).value;
      && Proper(n) && Clean(n, s) && b.prefix <= n.prefix <= b.prefix + 2
      && (forall a: U32 :: Holds(n, a) ==> Holds(b, a))
      && (n == b <==> Clean(b, s))
  {
    if Clean(b, s) {
      assert Holds(b, b.net);
      CleanHoldsNone(b, s, b.net);
    } else if b.prefix == 32 {
      assert Size(32) == 1;
    } else if StaActive(s) && Holds(b, s.ip) {
      var h := Half(b, s.ip);
      OneLeft(h, s);
      FullHalf(b, h, s);
    } else {
      var h := Half(b, s.gw);
      assert Clean(h, s) && Holds(h, h.net);
      CleanHoldsNone(h, s, h.net);
    }
  }

  /** With the station's own address out, only the gateway is left to avoid. */
  lemma OneLeft(b: Block, s: Sta)
    requires Proper(b) && !Holds(b, s.ip)
    ensures Narrow(b, s).Some? <==> Usable(b, s)
    ensures Narrow(b, s).Some? ==> var n := Narrow(b, s).value;
      && Proper(n) && Clean(n, s) && b.prefix <= n.prefix <= b.prefix + 1
      && (forall a: U32 :: Holds(n, a) ==> Holds(b, a))
  {
    if Clean(b, s) {
      assert Holds(b, b.net);
      CleanHoldsNone(b, s, b.net);
    } else if b.prefix == 32 {
      assert Size(32) == 1;
    } else {
      var h := Half(b, s.gw);
      assert Clean(h, s) && Holds(h, h.net);
      CleanHoldsNone(h, s, h.net);
    }
  }

  /** If the chosen half has nothing usable it is the gateway alone, and the other half the station. */
  lemma FullHalf(b: Block, h: Block, s: Sta)
    requires Proper(b) && b.prefix < 32 && StaActive(s) && Holds(b, s.ip) && h == Half(b, s.ip)
    ensures Usable(b, s) <==> Usable(h, s)
  {
    Halves(b);
    if h.prefix < 32 {
      BigIsUsable(h, s);
    } else {
      assert Size(32) == 1 && Size(31) == 2;
    }
    if Usable(h, s) {
      var a: U32 :| Holds(h, a) && !Avoided(s, a);
      assert Holds(b, a);
    }
  }

  /** The gateway alone cannot fill a block of two or more. */
  lemma BigIsUsable(b: Block, s: Sta)
    requires Proper(b) && b.prefix < 32 && !Holds(b, s.ip)
    ensures Usable(b, s)
  {
    Halves(b);
    var a: U32 := if b.net == s.gw then b.net + 1 else b.net;
    assert Holds(b, a) && !Avoided(s, a);
  }

  /** narrowAwayFromSta's loop. */
  method NarrowAwayFromSta(net: U32, prefix: Prefix, s: Sta) returns (r: Option<Block>)
    requires Proper(Block(net, prefix))
    ensures r == Narrow(Block(net, prefix), s)
  {
    var b := Block(net, prefix);
    while true
      invariant Proper(b) && Narrow(b, s) == Narrow(Block(net, prefix), s)
      decreases 32 - b.prefix
    {
      InBlockIsRange(s.ip, b);
      InBlockIsRange(s.gw, b);
      var staIn := StaActive(s) && AddrInBlock(s.ip, b);
      var gwIn := GwActive(s) && AddrInBlock(s.gw, b);
      if !staIn && !gwIn { return Some(b); }
      if b.prefix == 32 { return None; }
      Halves(b);
      var lower, upper := Lower(b), Upper(b);
      InBlockIsRange(s.ip, lower);
      InBlockIsRange(s.gw, lower);
      if staIn {
        b := if AddrInBlock(s.ip, lower) then upper else lower;
      } else {
        b := if AddrInBlock(s.gw, lower) then upper else lower;
      }
    }
  }

  // ---- the plan --------------------------------------------------------------------------------

  lemma Pow32()
    ensures Pow2(32) == TWO32
  {
    assert Pow2(8) == 256;
    assert Pow2(16) == 0x1_0000;
    assert Pow2(24) == 0x100_0000;
  }

  function NetworkOf(ip: U32, p: Prefix): (b: Block)
    ensures Proper(b) && Holds(b, ip) && b.prefix == p
  {
    MaskedIsProper(ip, p);
    MaskedIsNetwork(ip, p);
    Block(Masked(ip, p), p)
  }

  lemma MaskedIsProper(ip: U32, p: Prefix)
    ensures Proper(Block(Masked(ip, p), p))
  {
    MaskedIsNetwork(ip, p);
    Pow32();
    RoomAbove(Masked(ip, p), 32 - p, 32);
  }

  /** A usable entry of the server's list: well-formed and not wider than a /8. */
  function Candidate(entry: Option<string>): (c: Option<Block>)
    ensures c.Some? ==> Proper(c.value) && c.value.prefix >= MIN_PREFIX
  {
    if entry.None? then None else
    match ParseCidr(entry.value)
    case None => None
    case Some((ip, p)) => if p < MIN_PREFIX then None else Some(NetworkOf(ip, p))
  }

  /** One entry of the list. */
  function Keep(kept: seq<Block>, entry: Option<string>, s: Sta): seq<Block> {
    var c := Candidate(entry);
    if |kept| >= MAX_ROUTES || c.None? || c.value in kept || Narrow(c.value, s).None? then kept
    else kept + [Narrow(c.value, s).value]
  }

  function KeepAll(allowed: seq<Option<string>>, s: Sta): seq<Block> {
    if allowed == [] then []
    else Keep(KeepAll(allowed[..|allowed| - 1], s), allowed[|allowed| - 1], s)
  }

  /** planWgRoutes. None: the tunnel address is malformed. */
  function Plan(address: Option<string>, allowed: seq<Option<string>>, s: Sta): Option<seq<Block>> {
    if address.None? || ParseCidr(address.value).None? then None
    else
      var (ip, p) := ParseCidr(address.value).value;
      var kept := KeepAll(allowed, s);
      Some(if kept == [] then [NetworkOf(ip, p)] else kept)
  }

  /** b is what narrowing made of some entry. */
  ghost predicate From(b: Block, allowed: seq<Option<string>>, s: Sta) {
    exists e :: e in allowed && Candidate(e).Some? && Narrow(Candidate(e).value, s) == Some(b)
  }

  /** Every route comes from an entry, captures neither of the board's addresses and is a /8 or
      narrower; there are at most three. */
  lemma {:induction false} KeptAreSafe(allowed: seq<Option<string>>, s: Sta)
    ensures |KeepAll(allowed, s)| <= MAX_ROUTES
    ensures forall b :: b in KeepAll(allowed, s) ==>
      From(b, allowed, s) && Proper(b) && Clean(b, s) && b.prefix >= MIN_PREFIX
  {
    if allowed != [] {
      var n := |allowed| - 1;
      var front, e := allowed[..n], allowed[n];
      KeptAreSafe(front, s);
      assert e in allowed;
      forall b | b in KeepAll(front, s)
        ensures From(b, allowed, s)
      {
        var x :| x in front && Candidate(x).Some? && Narrow(Candidate(x).value, s) == Some(b);
        assert x in allowed;
      }
      if Candidate(e).Some? {
        NarrowExact(Candidate(e).value, s);
      }
    }
  }

  /** Nothing usable is lost before three are kept: an entry is in the plan, as it is or narrowed. */
  lemma {:induction false} KeptAreEnough(allowed: seq<Option<string>>, s: Sta, e: Option<string>)
    requires e in allowed && Candidate(e).Some? && Usable(Candidate(e).value, s)
    ensures var kept, c := KeepAll(allowed, s), Candidate(e).value;
      |kept| >= MAX_ROUTES || c in kept || (Narrow(c, s).Some? && Narrow(c, s).value in kept)
  {
    var n := |allowed| - 1;
    NarrowExact(Candidate(e).value, s);
    if e in allowed[..n] {
      KeptAreEnough(allowed[..n], s, e);
    } else {
      assert e == allowed[n];
    }
  }

  /** The plan has one to three routes; only when the list holds nothing usable is it the tunnel's
      own subnet, whatever addresses that contains. */
  lemma PlanShape(address: Option<string>, allowed: seq<Option<string>>, s: Sta)
    requires Plan(address, allowed, s).Some?
    ensures var plan := Plan(address, allowed, s).value;
      1 <= |plan| <= MAX_ROUTES
    ensures KeepAll(allowed, s) == [] <==>
      forall e :: e in allowed && Candidate(e).Some? ==> !Usable(Candidate(e).value, s)
  {
    KeptAreSafe(allowed, s);
    if KeepAll(allowed, s) == [] {
      forall e | e in allowed && Candidate(e).Some?
        ensures !Usable(Candidate(e).value, s)
      {
        if Usable(Candidate(e).value, s) { KeptAreEnough(allowed, s, e); }
      }
    } else {
      var b := KeepAll(allowed, s)[0];
      assert b in KeepAll(allowed, s);
      var e :| e in allowed && Candidate(e).Some? && Narrow(Candidate(e).value, s) == Some(b);
      NarrowExact(Candidate(e).value, s);
    }
  }

  /** What an entry names: the block of an address and a prefix of 8 to 32, written out. */
  lemma CandidateMeans(text: string, b: Block)
    ensures Candidate(Some(text)) == Some(b) <==>
      exists ip: U32 :: Means(text, ip, b.prefix) && b.prefix >= 8 && b.net == Masked(ip, b.prefix)
  {
    if ParseCidr(text).Some? {
      var (ip, p) := ParseCidr(text).value;
      ParseExact(text, ip, p);
    }
    forall ip: U32 | Means(text, ip, b.prefix)
      ensures ParseCidr(text) == Some((ip, b.prefix))
    {
      ParseExact(text, ip, b.prefix);
    }
  }

  /** The board's own address and its gateway's are off limits as far as they are known, and nothing else
      is. */
  lemma AvoidedMeans(s: Sta, a: U32)
    ensures Avoided(s, a) <==> s.prefix > 0 && a != 0 && a in {s.ip, s.gw}
  {
  }

  /** Entry e of the list can be routed. */
  ghost predicate UsableEntry(e: Option<string>, s: Sta) {
    Candidate(e).Some? && Usable(Candidate(e).value, s)
  }

  /** The plan itself. It is refused exactly when the tunnel address is malformed. With a usable entry it
      routes only what entries name, keeps clear of the station's addresses, and has every usable entry,
      as it is or narrowed, unless it is full. Without one it is the tunnel's own subnet. */
  lemma PlanMeans(address: Option<string>, allowed: seq<Option<string>>, s: Sta)
    ensures Plan(address, allowed, s).None? <==> address.None? || ParseCidr(address.value).None?
    ensures Plan(address, allowed, s).Some? ==>
      var plan := Plan(address, allowed, s).value;
      if exists e :: e in allowed && UsableEntry(e, s)
      then
        && 1 <= |plan| <= 3
        && (forall b :: b in plan ==> From(b, allowed, s) && Proper(b) && Clean(b, s) && b.prefix >= 8)
        && (forall e :: e in allowed && UsableEntry(e, s) ==> |plan| == 3 || Routed(Candidate(e).value, plan, s))
      else
        && |plan| == 1 && Proper(plan[0])
        && plan[0].prefix == ParseCidr(address.value).value.1
        && Masked(ParseCidr(address.value).value.0, plan[0].prefix) == plan[0].net
  {
    if Plan(address, allowed, s).Some? {
      PlanShape(address, allowed, s);
      KeptAreSafe(allowed, s);
      forall e | e in allowed && UsableEntry(e, s)
        ensures |KeepAll(allowed, s)| >= MAX_ROUTES || Routed(Candidate(e).value, KeepAll(allowed, s), s)
      {
        KeptAreEnough(allowed, s, e);
      }
    }
  }

  /** c is planned, as it is or narrowed. */
  predicate Routed(c: Block, plan: seq<Block>, s: Sta)
    requires Proper(c)
  {
    c in plan || (Narrow(c, s).Some? && Narrow(c, s).value in plan)
  }

  /** The routes come in the order of the entries: what the first entries are planned as stays in front,
      whatever follows. */
  lemma {:induction false} KeptInOrder(allowed: seq<Option<string>>, i: nat, s: Sta)
    requires i <= |allowed|
    ensures KeepAll(allowed[..i], s) <= KeepAll(allowed, s)
    decreases |allowed| - i
  {
    if i == |allowed| {
      assert allowed[..i] == allowed;
    } else {
      KeptInOrder(allowed, i + 1, s);
      assert allowed[..i + 1][..i] == allowed[..i];
    }
  }

  predicate Distinct(bs: seq<Block>) {
    forall i, j :: 0 <= i < j < |bs| ==> bs[i] != bs[j]
  }

  /** Entry i is met while there is room, has to be narrowed, and its narrowed block is already a route. */
  predicate NarrowsOntoRoute(allowed: seq<Option<string>>, s: Sta, i: nat)
    requires i < |allowed|
  {
    var kept, c := KeepAll(allowed[..i], s), Candidate(allowed[i]);
    && |kept| < MAX_ROUTES && c.Some? && !Clean(c.value, s)
    && Narrow(c.value, s).Some? && Narrow(c.value, s).value in kept
  }

  /**
   The duplicate test compares an entry before narrowing with routes after it. So the routes are
   distinct exactly when no entry, met while there is room, narrows onto a route already kept.
   */
  lemma {:induction false} DistinctIff(allowed: seq<Option<string>>, s: Sta)
    ensures Distinct(KeepAll(allowed, s)) <==>
      forall i :: 0 <= i < |allowed| ==> !NarrowsOntoRoute(allowed, s, i)
  {
    if allowed != [] {
      var n := |allowed| - 1;
      var front := allowed[..n];
      DistinctIff(front, s);
      forall i | 0 <= i < n
        ensures NarrowsOntoRoute(front, s, i) <==> NarrowsOntoRoute(allowed, s, i)
      {
        assert front[..i] == allowed[..i];
      }
      LastDecides(KeepAll(front, s), allowed, s);
      assert (forall i :: 0 <= i < |allowed| ==> !NarrowsOntoRoute(allowed, s, i)) <==>
             (forall i :: 0 <= i < n ==> !NarrowsOntoRoute(allowed, s, i)) && !NarrowsOntoRoute(allowed, s, n);
    }
  }

  lemma LastDecides(kept: seq<Block>, allowed: seq<Option<string>>, s: Sta)
    requires allowed != [] && kept == KeepAll(allowed[..|allowed| - 1], s)
    ensures Distinct(KeepAll(allowed, s)) <==>
      Distinct(kept) && !NarrowsOntoRoute(allowed, s, |allowed| - 1)
  {
    var e := allowed[|allowed| - 1];
    KeptAreSafe(allowed[..|allowed| - 1], s);
    assert KeepAll(allowed, s) == Keep(kept, e, s);
    if Candidate(e).Some? {
      var c := Candidate(e).value;
      NarrowExact(c, s);
      if |kept| < MAX_ROUTES && c !in kept && Narrow(c, s).Some? {
        DistinctAppend(kept, Narrow(c, s).value);
      }
    }
  }

  lemma DistinctAppend(bs: seq<Block>, b: Block)
    ensures Distinct(bs + [b]) <==> Distinct(bs) && b !in bs
  {
    var r := bs + [b];
    if Distinct(r) {
      forall i | 0 <= i < |bs| ensures bs[i] != b { assert r[i] != r[|bs|]; }
      forall i, j | 0 <= i < j < |bs| ensures bs[i] != bs[j] { assert r[i] != r[j]; }
    }
  }

  /** In particular when every entry is clean. */
  lemma DistinctWithoutNarrowing(allowed: seq<Option<string>>, s: Sta)
    requires forall e :: e in allowed && Candidate(e).Some? ==> Clean(Candidate(e).value, s)
    ensures Distinct(KeepAll(allowed, s))
  {
    DistinctIff(allowed, s);
  }

  /** Two different entries are planned as one route twice when the first names what the second is
      narrowed to. */
  lemma NarrowedOntoFirst(b: Option<string>, a: Option<string>, s: Sta)
    requires Candidate(a).Some? && !Clean(Candidate(a).value, s)
    requires Candidate(b).Some? && Narrow(Candidate(a).value, s) == Candidate(b)
    ensures var x := Candidate(b).value; KeepAll([b, a], s) == [x, x]
  {
    var x := Candidate(b).value;
    NarrowExact(Candidate(a).value, s);
    NarrowExact(x, s);
    assert [b, a][..1] == [b] && [b][..0] == [];
    assert KeepAll([b], s) == Keep([], b, s) == [x];
    assert KeepAll([b, a], s) == Keep([x], a, s);
  }

  lemma FormatIsCandidate(b: Block)
    requires Proper(b) && b.prefix >= MIN_PREFIX
    ensures Candidate(Some(FormatCidr(b))) == Some(b)
  {
    CidrRoundTrip(b);
    NetworkIsItself(b);
  }

  /** Such a list: a /32 and the /31 around it, on a board whose own address is the other one of the
      two, as with 10.0.0.0/32, 10.0.0.0/31 and 10.0.0.1. */
  lemma TwoEntriesCollide(net: U32, staPrefix: int)
    requires net % 2 == 0 && net + 1 < TWO32 && staPrefix > 0
    ensures var one, two := Block(net, 32), Block(net, 31);
      KeepAll([Some(FormatCidr(one)), Some(FormatCidr(two))], Sta(net + 1, staPrefix, 0)) == [one, one]
  {
    var one, two := Block(net, 32), Block(net, 31);
    PairNarrows(net, staPrefix);
    FormatIsCandidate(one);
    FormatIsCandidate(two);
    NarrowedOntoFirst(Some(FormatCidr(one)), Some(FormatCidr(two)), Sta(net + 1, staPrefix, 0));
  }

  lemma PairNarrows(net: U32, staPrefix: int)
    requires net % 2 == 0 && net + 1 < TWO32 && staPrefix > 0
    ensures var one, two, s := Block(net, 32), Block(net, 31), Sta(net + 1, staPrefix, 0);
      Proper(one) && Proper(two) && !Clean(two, s) && Narrow(two, s) == Some(one)
  {
    var one, two, s := Block(net, 32), Block(net, 31), Sta(net + 1, staPrefix, 0);
    assert Size(32) == 1 && Size(31) == 2;
    assert ClearLow(net, 0) == net == ClearLow(net, 1);
    assert Half(two, s.ip) == one;
  }

  lemma NetworkIsItself(b: Block)
    requires IsNetwork(b)
    ensures NetworkOf(b.net, b.prefix) == b
  {
  }

  /** An entry sent twice is kept twice exactly when it had to be narrowed. */
  lemma RepeatedEntry(e: Option<string>, s: Sta)
    requires Candidate(e).Some? && Usable(Candidate(e).value, s)
    ensures |KeepAll([e, e], s)| == (if Clean(Candidate(e).value, s) then 1 else 2)
    ensures Distinct(KeepAll([e, e], s)) <==> Clean(Candidate(e).value, s)
  {
    var c := Candidate(e).value;
    NarrowExact(c, s);
    var n := Narrow(c, s).value;
    assert [e, e][..1] == [e] && [e][..0] == [];
    assert KeepAll([e], s) == Keep([], e, s) == [n];
    assert KeepAll([e, e], s) == Keep([n], e, s);
    if !Clean(c, s) {
      assert Keep([n], e, s) == [n, n];
      assert [n, n][0] == [n, n][1];
    }
  }
}
