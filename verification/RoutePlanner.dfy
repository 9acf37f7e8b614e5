/**
 The loops of lib/fry_core/wg_provision.cpp behind the route plan: the text parser, the planner with
 its three-entry table, and the joined list the client stores (src/esp32/wg_provision_client.cpp:220-224).
 A C string pointer is the string from that pointer on.
 */
module RoutePlanner {
  import opened Prelude
  import opened Cidr
  import opened Routes

  method ParseOctetDigits(s: string) returns (n: nat, v: nat)
    ensures n == 0 <==> ReadNumber(s).None?
    ensures n <= |s| && (n > 0 ==> ReadNumber(s) == Some((v, s[n..])))
  {
    n, v := 0, 0;
    while n < 3 && n < |s| && IsDigit(s[n])
      invariant n <= 3 && n <= |s|
      invariant forall k :: 0 <= k < n ==> IsDigit(s[k])
      invariant n == 0 ==> v == 0
      invariant n == 1 ==> v == DigitValue(s[0])
      invariant n == 2 ==> v == 10 * DigitValue(s[0]) + DigitValue(s[1])
      invariant n == 3 ==> v == 10 * (10 * DigitValue(s[0]) + DigitValue(s[1])) + DigitValue(s[2])
      decreases 3 - n
    {
      v := v * 10 + DigitValue(s[n]);
      n := n + 1;
    }
  }

  method ReadOctets(s: string) returns (r: Option<(seq<Byte>, string)>)
    ensures r == Octets(s, [])
  {
    var p := s;
    var octets: seq<Byte> := [];
    for i := 0 to 4
      invariant |octets| == i
      invariant i < 4 ==> Octets(s, []) == Octets(p, octets)
      invariant i == 4 ==> Octets(s, []) == Some((octets, p))
    {
      var n, v := ParseOctetDigits(p);
      if n == 0 || v > 255 { return None; }
      p := p[n..];
      if i < 3 {
        if p == "" || p[0] != '.' { return None; }
        p := p[1..];
      }
      octets := octets + [v];
    }
    r := Some((octets, p));
  }

  method ParseIpv4Cidr(s: string) returns (r: Option<(U32, Prefix)>)
    ensures r == ParseCidr(s)
  {
    var quad := ReadOctets(s);
    if quad.None? { return None; }
    var (o, p) := quad.value;
    if p == "" || p[0] != '/' { return None; }
    p := p[1..];
    var n, pfx := ParseOctetDigits(p);
    if n == 0 || pfx > 32 { return None; }
    if p[n..] != "" { return None; }
    r := Some((Join4(o[0], o[1], o[2], o[3]), pfx));
  }

  /** The planner: the loop over the list, the search for a duplicate, the fallback. */
  method PlanWgRoutes(address: Option<string>, allowed: seq<Option<string>>, s: Sta)
    returns (plan: Option<seq<Block>>)
    ensures plan == Plan(address, allowed, s)
  {
    if address.None? { return None; }
    var addr := ParseIpv4Cidr(address.value);
    if addr.None? { return None; }
    var kept := [];
    var i := 0;
    while i < |allowed| && |kept| < MAX_ROUTES
      invariant i <= |allowed| && kept == KeepAll(allowed[..i], s)
    {
      assert allowed[..i + 1][..i] == allowed[..i];
      kept := PlanEntry(kept, allowed[i], s);
      i := i + 1;
    }
    FullStaysFull(allowed, i, s);
    if |kept| == 0 { kept := [NetworkOf(addr.value.0, addr.value.1)]; }
    plan := Some(kept);
  }

  lemma {:induction false} FullStaysFull(allowed: seq<Option<string>>, i: nat, s: Sta)
    requires i <= |allowed| && (i == |allowed| || |KeepAll(allowed[..i], s)| >= MAX_ROUTES)
    ensures KeepAll(allowed, s) == KeepAll(allowed[..i], s)
    decreases |allowed| - i
  {
    if i == |allowed| {
      assert allowed[..i] == allowed;
    } else {
      assert allowed[..i + 1][..i] == allowed[..i];
      FullStaysFull(allowed, i + 1, s);
    }
  }

  method ReadCandidate(entry: Option<string>) returns (c: Option<Block>)
    ensures c == Candidate(entry)
  {
    if entry.None? { return None; }
    var parsed := ParseIpv4Cidr(entry.value);
    if parsed.None? { return None; }
    var (ip, prefix) := parsed.value;
    if prefix < MIN_PREFIX { return None; }
    c := Some(NetworkOf(ip, prefix));
  }

  /** One turn of the loop, the search for a duplicate included. */
  method PlanEntry(kept: seq<Block>, entry: Option<string>, s: Sta) returns (r: seq<Block>)
    requires |kept| < MAX_ROUTES
    ensures r == Keep(kept, entry, s)
  {
    var c := ReadCandidate(entry);
    r := kept;
    if c.None? { return; }
    for j := 0 to |kept|
      invariant c.value !in kept[..j]
    {
      if kept[j] == c.value { return; }
    }
    assert kept[..|kept|] == kept;
    var narrowed := NarrowAwayFromSta(c.value.net, c.value.prefix, s);
    if narrowed.Some? { r := kept + [narrowed.value]; }
  }

  function Texts(bs: seq<Block>): (ts: seq<string>)
    ensures |ts| == |bs|
  {
    if bs == [] then [] else [FormatCidr(bs[0])] + Texts(bs[1..])
  }

  lemma {:induction false} TextAt(bs: seq<Block>, i: nat)
    requires i < |bs|
    ensures Texts(bs)[i] == FormatCidr(bs[i])
  {
    if i > 0 { TextAt(bs[1..], i - 1); }
  }

  /** The entries with a ';' between each two. */
  function Joined(entries: seq<string>): string {
    if entries == [] then ""
    else if |entries| == 1 then entries[0]
    else Joined(entries[..|entries| - 1]) + ";" + entries[|entries| - 1]
  }

  /** The list the client stores. */
  function Csv(bs: seq<Block>): string {
    Joined(Texts(bs))
  }

  method JoinRoutes(bs: seq<Block>) returns (csv: string)
    ensures csv == Csv(bs)
  {
    csv := "";
    ghost var ts := Texts(bs);
    for i := 0 to |bs|
      invariant csv == Joined(ts[..i])
    {
      assert ts[..i + 1][..i] == ts[..i];
      TextAt(bs, i);
      if i > 0 { csv := csv + ";"; }
      csv := csv + FormatCidr(bs[i]);
    }
    assert ts[..|bs|] == ts;
  }
}
