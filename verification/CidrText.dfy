/**
 Which texts the address parser takes (lib/fry_core/wg_provision.cpp:24-35, 112-138): exactly four decimal
 numbers of one to three digits, none above 255, with dots between them, a slash, and a decimal prefix
 of at most 32 with nothing behind it.
 */
module CidrText {
  import opened Prelude
  import opened Cidr

  /** One to three decimal digits that read as v; leading zeros are allowed. */
  predicate IsNumber(x: string, v: nat) {
    && 1 <= |x| <= 3 && (forall i :: 0 <= i < |x| ==> IsDigit(x[i]))
    && v == if |x| == 1 then DigitValue(x[0])
            else if |x| == 2 then 10 * DigitValue(x[0]) + DigitValue(x[1])
            else 100 * DigitValue(x[0]) + 10 * DigitValue(x[1]) + DigitValue(x[2])
  }

  lemma NumberReads(x: string, v: nat, rest: string)
    requires IsNumber(x, v) && (rest == "" || !IsDigit(rest[0]))
    ensures ReadNumber(x + rest) == Some((v, rest))
  {
    var s := x + rest;
    assert s[|x|..] == rest;
    assert rest != "" ==> s[|x|] == rest[0];
  }

  lemma NumberRead(s: string) returns (x: string)
    requires ReadNumber(s).Some?
    ensures var (v, rest) := ReadNumber(s).value; IsNumber(x, v) && s == x + rest
  {
    var (v, rest) := ReadNumber(s).value;
    x := s[..|s| - |rest|];
  }

  /** The text of an address with a prefix, the five numbers written as given. */
  function Written(o: seq<string>, p: string): string
    requires |o| == 4
  {
    o[0] + ("." + (o[1] + ("." + (o[2] + ("." + (o[3] + ("/" + p)))))))
  }

  predicate AreOctets(o: seq<string>, v: seq<Byte>) {
    |o| == |v| == 4 && forall i :: 0 <= i < 4 ==> IsNumber(o[i], v[i])
  }

  lemma OctetReads(x: string, v: Byte, c: char, rest: string)
    requires IsNumber(x, v) && !IsDigit(c)
    ensures ReadOctet(x + ([c] + rest)) == Some((v, [c] + rest)) && Skip(c, [c] + rest) == Some(rest)
  {
    NumberReads(x, v, [c] + rest);
  }

  lemma OctetsRead(o: seq<string>, v: seq<Byte>, p: string)
    requires AreOctets(o, v)
    ensures Octets(Written(o, p), []) == Some((v, "/" + p))
  {
    var s3 := o[3] + ("/" + p);
    var s2 := o[2] + ("." + s3);
    var s1 := o[1] + ("." + s2);
    OctetReads(o[0], v[0], '.', s1);
    OctetReads(o[1], v[1], '.', s2);
    OctetReads(o[2], v[2], '.', s3);
    OctetReads(o[3], v[3], '/', p);
    assert [] + [v[0]] == [v[0]] && [v[0]] + [v[1]] == [v[0], v[1]] && [v[0], v[1]] + [v[2]] == [v[0], v[1], v[2]];
    assert v == [v[0], v[1], v[2]] + [v[3]];
    assert Octets(s3, [v[0], v[1], v[2]]) == Some((v, "/" + p));
    assert Octets(s2, [v[0], v[1]]) == Octets(s3, [v[0], v[1], v[2]]);
    assert Octets(s1, [v[0]]) == Octets(s2, [v[0], v[1]]);
    assert Octets(Written(o, p), []) == Octets(s1, [v[0]]);
  }

  /** One octet taken off the front. */
  lemma OctetTaken(s: string, before: seq<Byte>) returns (x: string, v: Byte, rest: string)
    requires |before| < 3 && Octets(s, before).Some?
    ensures IsNumber(x, v) && s == x + ("." + rest) && Octets(s, before) == Octets(rest, before + [v])
  {
    x := NumberRead(s);
    var (n, tail) := ReadNumber(s).value;
    v := n;
    rest := tail[1..];
    assert tail == "." + rest;
  }

  lemma OctetsTaken(s: string) returns (o: seq<string>, tail: string)
    requires Octets(s, []).Some?
    ensures AreOctets(o, Octets(s, []).value.0) && tail == Octets(s, []).value.1
    ensures s == o[0] + ("." + (o[1] + ("." + (o[2] + ("." + (o[3] + tail))))))
  {
    var a, v, s1 := OctetTaken(s, []);
    var b, w, s2 := OctetTaken(s1, [] + [v]);
    var c, x, s3 := OctetTaken(s2, [] + [v] + [w]);
    var d, y, rest := LastTaken(s3, [] + [v] + [w] + [x]);
    o, tail := [a, b, c, d], rest;
    assert [] + [v] + [w] + [x] + [y] == [v, w, x, y];
  }

  lemma LastTaken(s: string, before: seq<Byte>) returns (x: string, v: Byte, rest: string)
    requires |before| == 3 && Octets(s, before).Some?
    ensures IsNumber(x, v) && s == x + rest && Octets(s, before) == Some((before + [v], rest))
  {
    x := NumberRead(s);
    v, rest := ReadOctet(s).value.0, ReadOctet(s).value.1;
  }

  /** A text is taken as an address and a prefix exactly when it is such numbers for them. */
  ghost predicate Means(s: string, ip: U32, p: Prefix) {
    exists o: seq<string>, v: seq<Byte>, x: string ::
      && AreOctets(o, v) && IsNumber(x, p) && s == Written(o, x)
      && ip == Join4(v[0], v[1], v[2], v[3])
  }

  lemma ParseExact(s: string, ip: U32, p: Prefix)
    ensures ParseCidr(s) == Some((ip, p)) <==> Means(s, ip, p)
  {
    if Means(s, ip, p) { MeantIsParsed(s, ip, p); }
    if ParseCidr(s) == Some((ip, p)) { ParsedIsMeant(s, ip, p); }
  }

  lemma MeantIsParsed(s: string, ip: U32, p: Prefix)
    requires Means(s, ip, p)
    ensures ParseCidr(s) == Some((ip, p))
  {
    var o: seq<string>, v: seq<Byte>, x: string :|
      && AreOctets(o, v) && IsNumber(x, p) && s == Written(o, x)
      && ip == Join4(v[0], v[1], v[2], v[3]);
    OctetsRead(o, v, x);
    PrefixReads(x, p);
  }

  lemma PrefixReads(x: string, p: Prefix)
    requires IsNumber(x, p)
    ensures ReadPrefix("/" + x) == Some(p)
  {
    NumberReads(x, p, "");
    assert x + "" == x && ("/" + x)[1..] == x;
  }

  lemma ParsedIsMeant(s: string, ip: U32, p: Prefix)
    requires ParseCidr(s) == Some((ip, p))
    ensures Means(s, ip, p)
  {
    var o, tail := OctetsTaken(s);
    var x := NumberRead(tail[1..]);
    assert x + "" == x && tail == "/" + x;
    assert s == Written(o, x);
    assert AreOctets(o, Octets(s, []).value.0);
  }
}
