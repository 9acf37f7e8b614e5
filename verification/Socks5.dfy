/**
 SOCKS5 greeting and CONNECT parsing (lib/fry_core/socks5_parse.cpp), RFC 1928 sections 3 to 5.

 The wire formats are stated declaratively (`IsGreeting`, `IsConnect`) and the parsers are proved
 to accept exactly the streams that start with such a message.
 */
module Socks5 {
  import opened Prelude

  datatype AddrType = IPv4 | Domain

  datatype ConnectRequest = ConnectRequest(addrType: AddrType, host: string, port: int)

  const NO_REQUEST := ConnectRequest(IPv4, "", 0)

  datatype GreetingResult =
    | GreetingNeedMore
    | GreetingOk(used: nat)
    | GreetingMalformed
    | GreetingNoMethod

  datatype ConnectOutcome =
    | ConnectNeedMore
    | ConnectOk(used: nat, req: ConnectRequest)
    | ConnectMalformed
    | UnsupportedCommand
    | UnsupportedAddrType

  function Text(bytes: seq<Byte>): string {
    seq(|bytes|, i requires 0 <= i < |bytes| => bytes[i] as char)
  }

  /** Network byte order. */
  function Word16(hi: Byte, lo: Byte): int {
    hi as int * 256 + lo as int
  }

  // ---- the messages of RFC 1928 --------------------------------------------------------------

  /** Section 3: VER NMETHODS METHODS, version 5, offering method 0 (no authentication). */
  ghost predicate IsGreeting(m: seq<Byte>) {
    && |m| >= 2
    && |m| == 2 + m[1] as int
    && m[0] == 5
    && 0 in m[2..]
  }

  /** Sections 4 and 5: VER CMD RSV ATYP DST.ADDR DST.PORT with CMD = CONNECT and an IPv4 or
      domain-name address; RSV is not looked at. */
  ghost predicate IsConnect(m: seq<Byte>, req: ConnectRequest) {
    && |m| >= 7
    && m[0] == 5
    && m[1] == 1
    && req.port == 256 * m[|m| - 2] as int + m[|m| - 1] as int
    && match req.addrType
       case IPv4 =>
         m[3] == 1 && |m| == 10 && req.host == DottedQuad(m[4], m[5], m[6], m[7])
       case Domain =>
         m[3] == 3 && |m| == 7 + m[4] as int && req.host == Text(m[5..|m| - 2])
  }

  // ---- the parsers ---------------------------------------------------------------------------

  function ParseGreeting(d: seq<Byte>): (r: GreetingResult)
    ensures r.GreetingOk? ==> 3 <= r.used <= |d|
  {
    if |d| < 2 || |d| < 2 + d[1] as int then GreetingNeedMore
    else if d[0] != 5 then GreetingMalformed
    else if 0 in d[2..2 + d[1]] then GreetingOk(2 + d[1] as int)
    else GreetingNoMethod
  }

  function ParseConnect(d: seq<Byte>): (r: ConnectOutcome)
    ensures r.ConnectOk? ==> 7 <= r.used <= |d|
  {
    if |d| < 4 then ConnectNeedMore
    else if d[0] != 5 then ConnectMalformed
    else if d[1] != 1 then UnsupportedCommand
    else if d[3] == 1 then
      if |d| < 10 then ConnectNeedMore
      else ConnectOk(10, ConnectRequest(IPv4, DottedQuad(d[4], d[5], d[6], d[7]), Word16(d[8], d[9])))
    else if d[3] == 3 then
      if |d| < 5 || |d| < 7 + d[4] as int then ConnectNeedMore
      else ConnectOk(7 + d[4] as int,
                     ConnectRequest(Domain, Text(d[5..5 + d[4]]), Word16(d[5 + d[4] as int], d[6 + d[4] as int])))
    else UnsupportedAddrType
  }

  /** The greeting parser accepts exactly the streams that begin with a greeting message, whatever
      follows it, and reports that message's length. */
  lemma GreetingExact(d: seq<Byte>, n: nat)
    ensures ParseGreeting(d) == GreetingOk(n) <==> n <= |d| && IsGreeting(d[..n])
  {
    if n <= |d| && 2 <= n {
      assert d[..n][2..] == d[2..n];
    }
  }

  /** Likewise for the CONNECT request: same length, same host, same port. */
  lemma ConnectExact(d: seq<Byte>, n: nat, req: ConnectRequest)
    ensures ParseConnect(d) == ConnectOk(n, req) <==> n <= |d| && IsConnect(d[..n], req)
  {
    if n <= |d| && 7 <= n {
      assert d[..n][5..n - 2] == d[5..n - 2];
    }
  }

  /** A verdict other than "need more" is final: bytes that arrive later do not change it. */
  lemma GreetingStable(d: seq<Byte>, more: seq<Byte>)
    requires !ParseGreeting(d).GreetingNeedMore?
    ensures ParseGreeting(d + more) == ParseGreeting(d)
  {
    assert (d + more)[2..2 + d[1]] == d[2..2 + d[1]];
  }

  lemma ConnectStable(d: seq<Byte>, more: seq<Byte>)
    requires !ParseConnect(d).ConnectNeedMore?
    ensures ParseConnect(d + more) == ParseConnect(d)
  {
    if ParseConnect(d).ConnectOk? && d[3] == 3 {
      assert (d + more)[5..5 + d[4]] == d[5..5 + d[4]];
    }
  }

  /** How many bytes a greeting announces itself to have; its count comes second. */
  function GreetingLength(d: seq<Byte>): nat {
    if |d| < 2 then 2 else 2 + d[1] as int
  }

  /** Waiting ends: a greeting that is all there is answered one way or the other, and only then. What is
      refused is another version, or an offer without "no authentication". */
  lemma GreetingDecides(d: seq<Byte>)
    ensures ParseGreeting(d).GreetingNeedMore? <==> |d| < GreetingLength(d)
    ensures ParseGreeting(d).GreetingMalformed? <==> |d| >= GreetingLength(d) && d[0] != 5
    ensures ParseGreeting(d).GreetingNoMethod? ==>
              d[0] == 5 && forall i :: 2 <= i < GreetingLength(d) ==> d[i] != 0
  {
    if |d| >= GreetingLength(d) {
      var methods := d[2..2 + d[1]];
      assert forall i :: 2 <= i < 2 + d[1] as int ==> d[i] == methods[i - 2];
    }
  }

  /** How many bytes a request has: four tell the kind of address, and a fifth the length of a domain. */
  function RequestLength(d: seq<Byte>): nat {
    if |d| < 4 || d[0] != 5 || d[1] != 1 then 4
    else if d[3] == 1 then 10
    else if d[3] != 3 then 4
    else if |d| < 5 then 5 else 7 + d[4] as int
  }

  /** The same for the request: a wrong version, a command other than CONNECT and an address type that is
      neither IPv4 nor a domain are refused by the fourth byte. */
  lemma RequestDecides(d: seq<Byte>)
    ensures ParseConnect(d).ConnectNeedMore? <==> |d| < RequestLength(d)
    ensures ParseConnect(d).ConnectMalformed? <==> |d| >= 4 && d[0] != 5
    ensures ParseConnect(d).UnsupportedCommand? <==> |d| >= 4 && d[0] == 5 && d[1] != 1
    ensures ParseConnect(d).UnsupportedAddrType? <==> |d| >= 4 && d[0] == 5 && d[1] == 1 && d[3] !in {1, 3}
  {
  }

  // ---- the parsers as the code runs them -----------------------------------------------------

  /** parseGreeting: the scan for method 0 over the receive buffer. */
  method ParseGreetingBuffer(data: array<Byte>, len: nat) returns (r: GreetingResult)
    requires len <= data.Length
    ensures r == ParseGreeting(data[..len])
  {
    if len < 2 { return GreetingNeedMore; }
    var nmethods: int := data[1];
    if len < 2 + nmethods { return GreetingNeedMore; }
    if data[0] != 5 { return GreetingMalformed; }
    var noAuth := false;
    var i := 0;
    while i < nmethods
      invariant 0 <= i <= nmethods
      invariant noAuth <==> 0 in data[2..2 + i]
    {
      if data[2 + i] == 0 {
        noAuth := true;
        assert data[..len][2..2 + nmethods][i] == 0;
        break;
      }
      i := i + 1;
    }
    assert data[..len][2..2 + nmethods] == data[2..2 + nmethods];
    r := if noAuth then GreetingOk(2 + nmethods) else GreetingNoMethod;
  }

  /** parseConnectRequest: the copy of the host bytes out of the receive buffer. */
  method ParseConnectBuffer(data: array<Byte>, len: nat) returns (r: ConnectOutcome)
    requires len <= data.Length
    ensures r == ParseConnect(data[..len])
  {
    if len < 4 { return ConnectNeedMore; }
    if data[0] != 5 { return ConnectMalformed; }
    if data[1] != 1 { return UnsupportedCommand; }
    if data[3] == 1 {
      if len < 10 { return ConnectNeedMore; }
      return ConnectOk(10, ConnectRequest(IPv4, DottedQuad(data[4], data[5], data[6], data[7]),
                                          Word16(data[8], data[9])));
    }
    if data[3] == 3 {
      if len < 5 { return ConnectNeedMore; }
      var dlen: int := data[4];
      if len < 7 + dlen { return ConnectNeedMore; }
      ghost var d := data[..len];
      var host := "";
      var i := 0;
      while i < dlen
        invariant 0 <= i <= dlen
        invariant host == Text(d[5..5 + i])
      {
        assert d[5..6 + i] == d[5..5 + i] + [d[5 + i]];
        host := host + [data[5 + i] as char];
        i := i + 1;
      }
      return ConnectOk(7 + dlen, ConnectRequest(Domain, host, Word16(data[5 + dlen], data[6 + dlen])));
    }
    return UnsupportedAddrType;
  }
}
