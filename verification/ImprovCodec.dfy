/**
 The Improv Serial encoders and decoders (lib/fry_core/improv_serial.cpp:13-29 and 112-181), byte
 buffers and all, against the frames of module Improv and against each other.
 */
module ImprovCodec {
  import opened Prelude
  import opened Improv
  import S = ImprovSerial

  const MAX_SSID := 32
  const MAX_PASS := 64

  // ---- encoders --------------------------------------------------------------------------------

  method WriteFrame(out: array<Byte>, ptype: Byte, len: Byte) returns (n: nat)
    requires out.Length >= 9
    modifies out
    ensures n == 9 && out[..9] == HEADER + [VERSION, ptype, len]
  {
    for i := 0 to 6
      invariant out[..i] == HEADER[..i]
    {
      out[i] := HEADER[i];
    }
    out[6], out[7], out[8] := VERSION, ptype, len;
    n := 9;
  }

  method SealPacket(out: array<Byte>, n: nat) returns (total: nat)
    requires n < out.Length && n < 0x1_0000
    modifies out
    ensures total == n + 1
    ensures out[..n + 1] == old(out[..n]) + [Sum(old(out[..n])) % 256]
  {
    var sum: U32 := 0;
    ghost var was := out[..n];
    for i := 0 to n
      invariant sum == Sum(out[..i]) && out[..n] == was
    {
      assert out[..i + 1] == out[..i] + [out[i]];
      S.SumAppend(out[..i], out[i]);
      S.SumBound(out[..i + 1]);
      sum := (sum + out[i]) % TWO32;
    }
    out[n] := sum % 256;
    assert out[..n + 1] == was + [sum % 256];
    total := n + 1;
  }

  /** encodeCurrentState and encodeError: a packet of one byte. */
  method EncodeByte(ptype: Byte, value: Byte, out: array<Byte>) returns (n: nat)
    modifies out
    ensures n == if out.Length < 11 then 0 else 11
    ensures n == 0 ==> out[..] == old(out[..])
    ensures n > 0 ==> out[..n] == Frame(ptype, [value])
  {
    if out.Length < 11 { return 0; }
    n := WriteFrame(out, ptype, 1);
    out[n] := value;
    assert out[..10] == Head(ptype, [value]);
    n := SealPacket(out, n + 1);
  }

  predicate Short(strings: seq<seq<Byte>>) {
    forall i :: 0 <= i < |strings| ==> |strings[i]| <= 255
  }

  function Pack(strings: seq<seq<Byte>>): seq<Byte>
    requires Short(strings)
  {
    if strings == [] then [] else [|strings[0]|] + strings[0] + Pack(strings[1..])
  }

  lemma {:induction false} PackAppend(strings: seq<seq<Byte>>, s: seq<Byte>)
    requires Short(strings) && |s| <= 255
    ensures Pack(strings + [s]) == Pack(strings) + ([|s|] + s)
  {
    if strings == [] {
      assert strings + [s] == [s] && [s][1..] == [];
      assert [|s|] + s + [] == [|s|] + s;
    } else {
      assert (strings + [s])[1..] == strings[1..] + [s];
      PackAppend(strings[1..], s);
    }
  }

  lemma {:induction false} PackPrefix(strings: seq<seq<Byte>>, i: nat)
    requires Short(strings) && i <= |strings|
    ensures |Pack(strings[..i])| <= |Pack(strings)|
    decreases |strings| - i
  {
    if i == |strings| {
      assert strings[..i] == strings;
    } else {
      PackPrefix(strings, i + 1);
      PackAppend(strings[..i], strings[i]);
      assert strings[..i + 1] == strings[..i] + [strings[i]];
    }
  }

  /** Every string is there and the packet and the buffer hold them all. */
  predicate Encodable(strings: seq<Option<seq<Byte>>>, cap: nat) {
    && (forall i :: 0 <= i < |strings| ==> strings[i].Some? && |strings[i].value| <= 255)
    && 2 + |Pack(Values(strings))| <= MAX_PAYLOAD
    && 12 + |Pack(Values(strings))| <= cap
  }

  function Values(strings: seq<Option<seq<Byte>>>): (vs: seq<seq<Byte>>)
    requires forall i :: 0 <= i < |strings| ==> strings[i].Some? && |strings[i].value| <= 255
    ensures |vs| == |strings| && forall i :: 0 <= i < |vs| ==> vs[i] == strings[i].value
  {
    seq(|strings|, i requires 0 <= i < |strings| => strings[i].value)
  }

  function ResultPayload(command: Byte, data: seq<Byte>): seq<Byte>
    requires |data| <= 255
  {
    [command, |data|] + data
  }

  /** The first loop of encodeRpcResult: the size of the strings, unless one is missing or too long. */
  method Measure(strings: seq<Option<seq<Byte>>>) returns (ok: bool, size: nat)
    ensures ok <==> forall i :: 0 <= i < |strings| ==> strings[i].Some? && |strings[i].value| <= 255
    ensures ok ==> size == |Pack(Values(strings))|
  {
    size := 0;
    for i := 0 to |strings|
      invariant forall k :: 0 <= k < i ==> strings[k].Some? && |strings[k].value| <= 255
      invariant size == |Pack(Values(strings[..i]))|
    {
      if strings[i].None? || |strings[i].value| > 255 { return false, 0; }
      PackAppend(Values(strings[..i]), strings[i].value);
      assert Values(strings[..i + 1]) == Values(strings[..i]) + [strings[i].value];
      size := size + 1 + |strings[i].value|;
    }
    assert strings[..|strings|] == strings;
    ok := true;
  }

  method EncodeRpcResult(command: Byte, strings: seq<Option<seq<Byte>>>, out: array<Byte>) returns (n: nat)
    modifies out
    ensures n > 0 <==> Encodable(strings, out.Length)
    ensures n <= out.Length
    ensures n > 0 ==>
      out[..n] == Frame(TYPE_RPC_RESULT, ResultPayload(command, Pack(Values(strings))))
    ensures n == 0 ==> out[..] == old(out[..])
  {
    var ok, size := Measure(strings);
    if !ok || 2 + size > MAX_PAYLOAD || out.Length < 12 + size { return 0; }
    n := WriteFrame(out, TYPE_RPC_RESULT, 2 + size);
    ghost var first := out[..9];
    out[9], out[10] := command, size;
    n := 11;
    ghost var front := first + [command, size];
    assert out[..9] == first && out[9..11] == [command, size];
    assert out[..11] == out[..9] + out[9..11];
    n := CopyStrings(strings, out, front);
    HeadOfResult(command, Pack(Values(strings)));
    n := SealPacket(out, n);
  }

  lemma HeadOfResult(command: Byte, data: seq<Byte>)
    requires 2 + |data| <= MAX_PAYLOAD
    ensures HEADER + [VERSION, TYPE_RPC_RESULT, 2 + |data|] + [command, |data|] + data
         == Head(TYPE_RPC_RESULT, ResultPayload(command, data))
  {
    var payload := ResultPayload(command, data);
    assert [command, |data|] + data == payload;
  }

  /** The second loop: each string behind its length. */
  method CopyStrings(strings: seq<Option<seq<Byte>>>, out: array<Byte>, ghost front: seq<Byte>) returns (n: nat)
    requires forall i :: 0 <= i < |strings| ==> strings[i].Some? && |strings[i].value| <= 255
    requires |front| == 11 && out.Length >= 12 + |Pack(Values(strings))| && out[..11] == front
    modifies out
    ensures n == 11 + |Pack(Values(strings))|
    ensures out[..n] == front + Pack(Values(strings))
  {
    n := 11;
    ghost var vs := Values(strings);
    ghost var done: seq<Byte> := [];
    assert Pack(vs[..0]) == [];
    for i := 0 to |strings|
      invariant done == Pack(vs[..i]) && n == 11 + |done| < out.Length
      invariant out[..n] == front + done
    {
      PackAppend(vs[..i], vs[i]);
      assert vs[..i + 1] == vs[..i] + [vs[i]];
      PackPrefix(vs, i + 1);
      n := CopyString(strings[i].value, out, n);
      Regroup(front, done, [|vs[i]|] + vs[i]);
      done := done + ([|vs[i]|] + vs[i]);
    }
    assert vs[..|strings|] == vs;
  }

  lemma Regroup(a: seq<Byte>, b: seq<Byte>, c: seq<Byte>)
    ensures a + b + c == a + (b + c)
  {
  }

  method CopyString(s: seq<Byte>, out: array<Byte>, at: nat) returns (n: nat)
    requires |s| <= 255 && at + 1 + |s| <= out.Length
    modifies out
    ensures n == at + 1 + |s| && out[..n] == old(out[..at]) + ([|s|] + s)
  {
    ghost var done := out[..at];
    out[at] := |s|;
    assert out[..at + 1] == done + [|s|];
    CopyAt(s, out, at + 1);
    n := at + 1 + |s|;
    assert out[..n] == out[..at + 1] + out[at + 1..n];
  }

  /** memcpy. */
  method CopyAt(src: seq<Byte>, dst: array<Byte>, at: nat)
    requires at + |src| <= dst.Length
    modifies dst
    ensures dst[..at] == old(dst[..at]) && dst[at..at + |src|] == src
    ensures dst[at + |src|..] == old(dst[at + |src|..])
  {
    for i := 0 to |src|
      invariant dst[..at] == old(dst[..at]) && dst[at..at + i] == src[..i]
      invariant dst[at + |src|..] == old(dst[at + |src|..])
    {
      dst[at + i] := src[i];
      assert dst[at..at + i + 1] == dst[at..at + i] + [src[i]];
    }
  }

  /** How a client takes the strings apart again. */
  function Unpack(data: seq<Byte>): Option<seq<seq<Byte>>>
    decreases |data|
  {
    if data == [] then Some([])
    else
      var n := data[0] as int + 1;
      if |data| < n then None
      else match Unpack(data[n..])
        case None => None
        case Some(rest) => Some([data[1..n]] + rest)
  }

  lemma UnpackOne(s: seq<Byte>, tail: seq<Byte>, rest: seq<seq<Byte>>)
    requires |s| <= 255 && Unpack(tail) == Some(rest)
    ensures Unpack([|s|] + s + tail) == Some([s] + rest)
  {
    var back := [|s|] + s + tail;
    assert back[1 + |s|..] == tail && back[1..1 + |s|] == s;
  }

  /** The strings a client reads out of a result are the ones encoded. */
  lemma {:induction false} ResultRoundTrip(strings: seq<seq<Byte>>)
    requires Short(strings)
    ensures Unpack(Pack(strings)) == Some(strings)
  {
    if strings != [] {
      var s, rest := strings[0], strings[1..];
      ResultRoundTrip(rest);
      UnpackOne(s, Pack(rest), rest);
      assert Pack(strings) == [|s|] + s + Pack(rest);
      assert strings == [s] + rest;
    }
  }

  /** What the device sends never upsets an Improv parser, whatever it had matched before. */
  lemma EncoderOutputPasses(k: nat, ptype: Byte, payload: seq<Byte>, n: nat)
    requires k < 6 && |payload| <= MAX_PAYLOAD && 1 <= n <= |Frame(ptype, payload)|
    requires ptype in {TYPE_CURRENT_STATE, TYPE_ERROR_STATE, TYPE_RPC_RESULT}
    ensures LastResult(Hunting(k), Frame(ptype, payload)[..n]) == Quiet
  {
    FrameGoesThrough(k, ptype, payload, n);
  }

  // ---- decoders --------------------------------------------------------------------------------

  function WifiPayload(ssid: seq<Byte>, pass: seq<Byte>): seq<Byte>
    requires |ssid| <= 255 && |pass| <= 255
  {
    [|ssid|] + ssid + [|pass|] + pass
  }

  predicate Settings(data: seq<Byte>, ssid: seq<Byte>, pass: seq<Byte>, ssidCap: nat, passCap: nat) {
    && |ssid| <= 32 && |pass| <= 64 && |ssid| < ssidCap && |pass| < passCap
    && WifiPayload(ssid, pass) <= data
  }

  function DecodeWifi(data: seq<Byte>, ssidCap: nat, passCap: nat): Option<(seq<Byte>, seq<Byte>)> {
    if |data| < 1 then None else
    var n := data[0];
    if n > MAX_SSID || n >= ssidCap || |data| < 1 + n + 1 then None else
    var m := data[1 + n];
    if m > MAX_PASS || m >= passCap || |data| < 1 + n + 1 + m then None
    else Some((data[1..1 + n], data[2 + n..2 + n + m]))
  }

  /** Decoding succeeds exactly on data that begins with a network and a password that fit, and
      yields those; anything behind them is ignored. */
  lemma WifiSettingsExact(data: seq<Byte>, ssid: seq<Byte>, pass: seq<Byte>, ssidCap: nat, passCap: nat)
    ensures DecodeWifi(data, ssidCap, passCap) == Some((ssid, pass))
      <==> Settings(data, ssid, pass, ssidCap, passCap)
  {
    if Settings(data, ssid, pass, ssidCap, passCap) {
      var w := WifiPayload(ssid, pass);
      assert data[..|w|] == w;
      assert data[0] == w[0] && data[1 + |ssid|] == w[1 + |ssid|] == |pass|;
      assert data[1..1 + |ssid|] == w[1..1 + |ssid|] == ssid;
      assert data[2 + |ssid|..2 + |ssid| + |pass|] == w[2 + |ssid|..] == pass;
    }
  }

  method DecodeWifiSettings(data: seq<Byte>, ssid: array<Byte>, pass: array<Byte>) returns (ok: bool)
    requires ssid != pass
    modifies ssid, pass
    ensures ok <==> DecodeWifi(data, ssid.Length, pass.Length).Some?
    ensures ok ==> var (s, p) := DecodeWifi(data, ssid.Length, pass.Length).value;
      ssid[..|s| + 1] == s + [0] && pass[..|p| + 1] == p + [0]
    ensures !ok ==> ssid[..] == old(ssid[..]) && pass[..] == old(pass[..])
  {
    if |data| < 1 { return false; }
    var ssidLen := data[0];
    if ssidLen > MAX_SSID || ssidLen >= ssid.Length { return false; }
    if |data| < 1 + ssidLen + 1 { return false; }
    var passLen := data[1 + ssidLen];
    if passLen > MAX_PASS || passLen >= pass.Length { return false; }
    if |data| < 1 + ssidLen + 1 + passLen { return false; }
    CopyAt(data[1..1 + ssidLen], ssid, 0);
    ssid[ssidLen] := 0;
    CopyAt(data[2 + ssidLen..2 + ssidLen + passLen], pass, 0);
    pass[passLen] := 0;
    ok := true;
  }

  /** A key write is its length byte and exactly that many bytes, which must fit with their NUL. */
  method DecodeKeyWrite(data: seq<Byte>, key: array<Byte>) returns (ok: bool)
    modifies key
    ensures ok <==> |data| >= 1 && data[0] == |data| - 1 < key.Length
    ensures ok ==> key[..|data|] == data[1..] + [0]
    ensures !ok ==> key[..] == old(key[..])
  {
    if |data| < 1 { return false; }
    var keyLen := data[0];
    if keyLen as int + 1 != |data| || keyLen >= key.Length { return false; }
    CopyAt(data[1..1 + keyLen], key, 0);
    key[keyLen] := 0;
    ok := true;
  }
}
