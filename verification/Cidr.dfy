/**
 IPv4 blocks and their text (lib/fry_core/wg_provision.cpp:24-35, 112-160). Addresses are in host
 order, the first octet being the most significant. Masking with a prefix's mask clears the low 32-p
 bits, one at a time.
 */
module Cidr {
  import opened Prelude

  function Pow2(n: nat): (r: nat)
    ensures r >= 1
  {
    if n == 0 then 1 else 2 * Pow2(n - 1)
  }

  type Prefix = p: int | 0 <= p <= 32

  /** The number of addresses of a /p block. */
  function Size(p: Prefix): (n: nat)
    ensures n >= 1
  {
    Pow2(32 - p)
  }

  /** n with its low k bits cleared. */
  function ClearLow(n: nat, k: nat): (r: nat)
    ensures r <= n
  {
    if k == 0 then n else 2 * ClearLow(n / 2, k - 1)
  }

  /** addr & prefixToMask(p). */
  function Masked(addr: U32, p: Prefix): U32 {
    ClearLow(addr, 32 - p)
  }

  datatype Block = Block(net: U32, prefix: Prefix)

  /** The network address has no bits below its mask. */
  predicate IsNetwork(b: Block) {
    Masked(b.net, b.prefix) == b.net
  }

  predicate Holds(b: Block, addr: U32) {
    b.net <= addr < b.net + Size(b.prefix)
  }

  /** addrInBlock. */
  predicate AddrInBlock(addr: U32, b: Block) {
    Masked(addr, b.prefix) == b.net
  }

  /** Clearing twice is clearing once, and takes off less than 2^k. */
  lemma {:induction false} ClearLowBounds(n: nat, k: nat)
    ensures ClearLow(ClearLow(n, k), k) == ClearLow(n, k) && n < ClearLow(n, k) + Pow2(k)
  {
    if k > 0 { ClearLowBounds(n / 2, k - 1); }
  }

  lemma {:induction false} ClearLowIs(net: nat, n: nat, k: nat)
    requires ClearLow(net, k) == net <= n < net + Pow2(k)
    ensures ClearLow(n, k) == net
  {
    if k > 0 { ClearLowIs(net / 2, n / 2, k - 1); }
  }

  /** The masked comparison is membership in the address range. */
  lemma InBlockIsRange(addr: U32, b: Block)
    requires IsNetwork(b)
    ensures AddrInBlock(addr, b) <==> Holds(b, addr)
  {
    ClearLowBounds(addr, 32 - b.prefix);
    if Holds(b, addr) { ClearLowIs(b.net, addr, 32 - b.prefix); }
  }

  lemma MaskedIsNetwork(addr: U32, p: Prefix)
    ensures IsNetwork(Block(Masked(addr, p), p)) && Holds(Block(Masked(addr, p), p), addr)
  {
    ClearLowBounds(addr, 32 - p);
  }

  // ---- text ------------------------------------------------------------------------------------

  predicate IsDigit(c: char) { '0' <= c <= '9' }

  /** The value of at most three digits, and what follows them. No digit: None. */
  function ReadNumber(s: string): Option<(nat, string)> {
    if s == "" || !IsDigit(s[0]) then None
    else
      var x := DigitValue(s[0]);
      if |s| < 2 || !IsDigit(s[1]) then Some((x, s[1..]))
      else
        var y := 10 * x + DigitValue(s[1]);
        if |s| < 3 || !IsDigit(s[2]) then Some((y, s[2..]))
        else Some((10 * y + DigitValue(s[2]), s[3..]))
  }

  function DigitValue(c: char): (d: nat)
    requires IsDigit(c)
    ensures d < 10
  {
    c as int - '0' as int
  }

  function ReadOctet(s: string): Option<(Byte, string)> {
    match ReadNumber(s)
    case None => None
    case Some((v, rest)) => if v > 255 then None else Some((v, rest))
  }

  function Skip(c: char, s: string): Option<string> {
    if s != "" && s[0] == c then Some(s[1..]) else None
  }

  /** Octets with dots between them, four in all, and what follows the last. */
  function Octets(s: string, before: seq<Byte>): (r: Option<(seq<Byte>, string)>)
    requires |before| < 4
    ensures r.Some? ==> |r.value.0| == 4
    decreases 4 - |before|
  {
    match ReadOctet(s)
    case None => None
    case Some((v, rest)) =>
      if |before| == 3 then Some((before + [v], rest))
      else match Skip('.', rest) case None => None case Some(t) => Octets(t, before + [v])
  }

  function Join4(a: Byte, b: Byte, c: Byte, d: Byte): U32 {
    a * 0x100_0000 + b as int * 0x1_0000 + c as int * 0x100 + d as int
  }

  /** "/nn" with nothing behind it. */
  function ReadPrefix(s: string): Option<Prefix> {
    match Skip('/', s)
    case None => None
    case Some(t) =>
      match ReadNumber(t)
      case None => None
      case Some((p, rest)) => if p > 32 || rest != "" then None else Some(p)
  }

  /** parseIpv4Cidr: "a.b.c.d/nn". */
  function ParseCidr(s: string): Option<(U32, Prefix)> {
    match Octets(s, [])
    case None => None
    case Some((o, rest)) =>
      match ReadPrefix(rest)
      case None => None
      case Some(p) => Some((Join4(o[0], o[1], o[2], o[3]), p))
  }

  /** formatIpv4Cidr. */
  function FormatCidr(b: Block): string {
    var a := b.net;
    DottedQuad(a / 0x100_0000, a / 0x1_0000 % 256, a / 0x100 % 256, a % 256) + "/" + Decimal(b.prefix)
  }

  lemma ReadDecimal(v: int, rest: string)
    requires 0 <= v < 1000 && (rest == "" || !IsDigit(rest[0]))
    ensures ReadNumber(Decimal(v) + rest) == Some((v, rest))
  {
    var d := Decimal(v);
    var s := d + rest;
    assert s[|d|..] == rest;
    assert forall k :: 0 <= k < |d| ==> s[k] == d[k];
    assert rest != "" ==> s[|d|] == rest[0];
  }

  lemma OctetRead(v: Byte, c: char, rest: string)
    requires !IsDigit(c)
    ensures ReadOctet(Decimal(v) + ([c] + rest)) == Some((v, [c] + rest))
    ensures Skip(c, [c] + rest) == Some(rest)
  {
    ReadDecimal(v, [c] + rest);
  }

  lemma Pieces(n: U32)
    ensures n / 0x100_0000 < 256
    ensures Join4(n / 0x100_0000, n / 0x1_0000 % 256, n / 0x100 % 256, n % 256) == n
  {
    var x := n / 0x100;
    var y := x / 0x100;
    assert n / 0x1_0000 == y && n / 0x100_0000 == y / 0x100;
  }

  /** Formatting and parsing a block give the block back. */
  lemma CidrRoundTrip(b: Block)
    ensures ParseCidr(FormatCidr(b)) == Some((b.net, b.prefix))
  {
    var n := b.net;
    Pieces(n);
    QuadRoundTrip(n / 0x100_0000, n / 0x1_0000 % 256, n / 0x100 % 256, n % 256, b.prefix);
  }

  lemma OctetsStep(v: Byte, rest: string, before: seq<Byte>)
    requires |before| < 3
    ensures Octets(Decimal(v) + ("." + rest), before) == Octets(rest, before + [v])
  {
    OctetRead(v, '.', rest);
  }

  lemma OctetsLast(v: Byte, rest: string, before: seq<Byte>)
    requires |before| == 3
    ensures Octets(Decimal(v) + ("/" + rest), before) == Some((before + [v], "/" + rest))
  {
    OctetRead(v, '/', rest);
  }

  lemma PrefixRead(p: Prefix)
    ensures ReadPrefix("/" + Decimal(p)) == Some(p)
  {
    ReadDecimal(p, "");
    assert Decimal(p) + "" == Decimal(p);
    assert ("/" + Decimal(p))[1..] == Decimal(p);
  }

  lemma QuadSplit(a: string, b: string, c: string, d: string, p: string)
    ensures a + "." + b + "." + c + "." + d + "/" + p
         == a + ("." + (b + ("." + (c + ("." + (d + ("/" + p)))))))
  {
  }

  lemma QuadRoundTrip(a: Byte, b: Byte, c: Byte, d: Byte, p: Prefix)
    ensures ParseCidr(DottedQuad(a, b, c, d) + "/" + Decimal(p)) == Some((Join4(a, b, c, d), p))
  {
    QuadSplit(Decimal(a), Decimal(b), Decimal(c), Decimal(d), Decimal(p));
    var s3 := Decimal(d) + ("/" + Decimal(p));
    var s2 := Decimal(c) + ("." + s3);
    var s1 := Decimal(b) + ("." + s2);
    OctetsStep(a, s1, []);
    OctetsStep(b, s2, [a]);
    OctetsStep(c, s3, [a, b]);
    OctetsLast(d, Decimal(p), [a, b, c]);
    PrefixRead(p);
    assert [] + [a] == [a] && [a] + [b] == [a, b] && [a, b] + [c] == [a, b, c];
  }

  /** No entry is longer than the 19 characters a buffer of 20 holds. */
  lemma FormatFits(b: Block)
    ensures 9 <= |FormatCidr(b)| <= 18
    ensures ';' !in FormatCidr(b)
  {
    var n := b.net;
    Pieces(n);
    DecimalFits(n / 0x100_0000);
    DecimalFits(n / 0x1_0000 % 256);
    DecimalFits(n / 0x100 % 256);
    DecimalFits(n % 256);
    DecimalFits(b.prefix);
    assert |Decimal(b.prefix)| <= 2;
  }

  lemma DecimalFits(v: int)
    requires 0 <= v < 1000
    ensures 1 <= |Decimal(v)| <= 3 && ';' !in Decimal(v)
  {
  }
}
