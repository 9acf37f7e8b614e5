/**
 Improv Serial framing (lib/fry_core/improv_serial.cpp): the byte-at-a-time parser as a function of
 its state, the packets, and what each guarantees about the other.
 */
module Improv {
  import opened Prelude

  /** "IMPROV" */
  const HEADER: seq<Byte> := [0x49, 0x4D, 0x50, 0x52, 0x4F, 0x56]
  const VERSION: Byte := 1
  const TYPE_CURRENT_STATE: Byte := 1
  const TYPE_ERROR_STATE: Byte := 2
  const TYPE_RPC: Byte := 3
  const TYPE_RPC_RESULT: Byte := 4
  const MAX_PAYLOAD := 128

  /** What the parser has of the current packet. */
  datatype State =
    | Hunting(k: nat)                                        // k bytes of the header matched
    | AtVersion
    | AtType
    | AtLength(ptype: Byte)
    | InPayload(ptype: Byte, len: nat, got: seq<Byte>)
    | AtChecksum(ptype: Byte, payload: seq<Byte>)

  datatype Result = Quiet | Rpc(command: Byte, data: seq<Byte>) | BadChecksum | Malformed

  predicate Valid(s: State) {
    match s
    case Hunting(k) => k < 6
    case InPayload(_, len, got) => |got| < len <= MAX_PAYLOAD
    case AtChecksum(_, payload) => |payload| <= MAX_PAYLOAD
    case _ => true
  }

  function Sum(bytes: seq<Byte>): nat {
    if bytes == [] then 0 else Sum(bytes[..|bytes| - 1]) + bytes[|bytes| - 1]
  }

  /** A packet up to its checksum. */
  function Head(ptype: Byte, payload: seq<Byte>): seq<Byte>
    requires |payload| <= MAX_PAYLOAD
  {
    HEADER + [VERSION, ptype, |payload|] + payload
  }

  function Frame(ptype: Byte, payload: seq<Byte>): seq<Byte>
    requires |payload| <= MAX_PAYLOAD
  {
    Head(ptype, payload) + [Sum(Head(ptype, payload)) % 256]
  }

  /** restart: the byte that broke the packet may begin the next one. */
  function Restart(b: Byte): State {
    Hunting(if b == HEADER[0] then 1 else 0)
  }

  /** An RPC packet's payload is a command, the length of its data and the data. */
  function Verdict(ptype: Byte, payload: seq<Byte>, checksum: Byte): Result
    requires |payload| <= MAX_PAYLOAD
  {
    if checksum != Sum(Head(ptype, payload)) % 256 then BadChecksum
    else if ptype != TYPE_RPC then Quiet
    else if |payload| < 2 || payload[1] != |payload| - 2 then Malformed
    else Rpc(payload[0], payload[2..])
  }

  function Feed(s: State, b: Byte): (r: (State, Result))
    requires Valid(s)
    ensures Valid(r.0)
  {
    match s
    case Hunting(k) =>
      if b == HEADER[k] then (if k + 1 == 6 then AtVersion else Hunting(k + 1), Quiet)
      else (Restart(b), Quiet)
    case AtVersion => if b != VERSION then (Restart(b), Malformed) else (AtType, Quiet)
    case AtType => (AtLength(b), Quiet)
    case AtLength(t) =>
      if b > MAX_PAYLOAD then (Restart(b), Malformed)
      else (if b == 0 then AtChecksum(t, []) else InPayload(t, b, []), Quiet)
    case InPayload(t, len, got) =>
      (if |got| + 1 == len then AtChecksum(t, got + [b]) else InPayload(t, len, got + [b]), Quiet)
    case AtChecksum(t, payload) => (Restart(b), Verdict(t, payload, b))
  }

  function After(s: State, bytes: seq<Byte>): (r: State)
    requires Valid(s)
    ensures Valid(r)
  {
    if bytes == [] then s else Feed(After(s, bytes[..|bytes| - 1]), bytes[|bytes| - 1]).0
  }

  /** What the last of these bytes yields. */
  function LastResult(s: State, bytes: seq<Byte>): Result
    requires Valid(s) && bytes != []
  {
    Feed(After(s, bytes[..|bytes| - 1]), bytes[|bytes| - 1]).1
  }

  // ---- the header search is exact --------------------------------------------------------------

  predicate EndsWith(s: seq<Byte>, w: seq<Byte>) {
    |w| <= |s| && s[|s| - |w|..] == w
  }

  lemma {:induction false} EndsLonger(s: seq<Byte>, b: Byte, j: nat)
    requires j < 6
    ensures EndsWith(s + [b], HEADER[..j + 1]) <==> EndsWith(s, HEADER[..j]) && b == HEADER[j]
  {
    var t := s + [b];
    assert HEADER[..j + 1] == HEADER[..j] + [HEADER[j]];
    if |s| >= j {
      assert t[|t| - j - 1..] == s[|s| - j..] + [b];
      assert EndsWith(t, HEADER[..j + 1]) ==> (s[|s| - j..] + [b])[j] == HEADER[j];
      assert EndsWith(t, HEADER[..j + 1]) ==> (s[|s| - j..] + [b])[..j] == HEADER[..j];
      assert s[|s| - j..] == (s[|s| - j..] + [b])[..j];
    }
  }

  /** Two partial matches at once would need a letter twice in the header. */
  lemma OneMatch(s: seq<Byte>, i: nat, j: nat)
    requires i < j <= 6 && EndsWith(s, HEADER[..i]) && EndsWith(s, HEADER[..j])
    ensures i == 0
  {
    LastOf(s, j);
    if i > 0 { LastOf(s, i); }
  }

  lemma LastOf(s: seq<Byte>, j: nat)
    requires 0 < j <= 6 && EndsWith(s, HEADER[..j])
    ensures s[|s| - 1] == HEADER[j - 1]
  {
    assert s[|s| - j..][j - 1] == HEADER[..j][j - 1];
  }

  /** The matched part is the longest header prefix the bytes end with. */
  predicate Tracks(s: State, bytes: seq<Byte>) {
    if EndsWith(bytes, HEADER) then s == AtVersion
    else s.Hunting? && s.k < 6 && EndsWith(bytes, HEADER[..s.k])
         && forall j :: s.k < j < 6 ==> !EndsWith(bytes, HEADER[..j])
  }

  /** From the start, the parser leaves the header stage exactly at the end of the first IMPROV. */
  lemma {:induction false} FindsFirstHeader(bytes: seq<Byte>)
    requires forall i :: 0 <= i < |bytes| ==> !EndsWith(bytes[..i], HEADER)
    ensures Tracks(After(Hunting(0), bytes), bytes)
  {
    if bytes == [] {
      assert EndsWith(bytes, HEADER[..0]);
    } else {
      var n := |bytes| - 1;
      var before, b := bytes[..n], bytes[n];
      forall i | 0 <= i < |before| ensures !EndsWith(before[..i], HEADER) {
        assert before[..i] == bytes[..i];
      }
      FindsFirstHeader(before);
      assert !EndsWith(before, HEADER);
      assert bytes == before + [b];
      TracksOn(After(Hunting(0), before), before, b);
    }
  }

  lemma TracksOn(s: State, before: seq<Byte>, b: Byte)
    requires Valid(s) && Tracks(s, before) && !EndsWith(before, HEADER)
    ensures Tracks(Feed(s, b).0, before + [b])
  {
    assert HEADER[..5 + 1] == HEADER;
    forall j | 0 <= j < 6
      ensures EndsWith(before + [b], HEADER[..j + 1]) <==> EndsWith(before, HEADER[..j]) && b == HEADER[j]
    {
      EndsLonger(before, b, j);
    }
    forall j | 0 <= j < 6 && EndsWith(before, HEADER[..j]) ensures j == s.k || j == 0 {
      if j < s.k { OneMatch(before, j, s.k); }
    }
    StepTracks(s, before, before + [b], b);
  }

  lemma StepTracks(s: State, before: seq<Byte>, bytes: seq<Byte>, b: Byte)
    requires s.Hunting? && s.k < 6 && EndsWith(before, HEADER[..s.k]) && HEADER[..6] == HEADER
    requires forall j :: 0 <= j < 6 ==>
      (EndsWith(bytes, HEADER[..j + 1]) <==> EndsWith(before, HEADER[..j]) && b == HEADER[j])
    requires forall j :: 0 <= j < 6 && EndsWith(before, HEADER[..j]) ==> j == s.k || j == 0
    ensures Tracks(Feed(s, b).0, bytes)
  {
    var r := Feed(s, b).0;
    assert EndsWith(bytes, HEADER[..0]) && EndsWith(before, HEADER[..0]);
    assert EndsWith(bytes, HEADER[..5 + 1]) <==> EndsWith(before, HEADER[..5]) && b == HEADER[5];
    forall j | 0 < j < 6 ensures EndsWith(bytes, HEADER[..j]) ==> r.Hunting? && j <= r.k {
      assert EndsWith(bytes, HEADER[..(j - 1) + 1]) <==> EndsWith(before, HEADER[..j - 1]) && b == HEADER[j - 1];
    }
    if r.Hunting? && r.k > 0 {
      assert EndsWith(bytes, HEADER[..(r.k - 1) + 1]) <==> EndsWith(before, HEADER[..r.k - 1]) && b == HEADER[r.k - 1];
    }
  }

  // ---- frames ----------------------------------------------------------------------------------

  lemma {:induction false} AfterSplit(s: State, xs: seq<Byte>, ys: seq<Byte>)
    requires Valid(s)
    ensures After(s, xs + ys) == After(After(s, xs), ys)
  {
    if ys == [] {
      assert xs + ys == xs;
    } else {
      assert (xs + ys)[..|xs + ys| - 1] == xs + ys[..|ys| - 1];
      AfterSplit(s, xs, ys[..|ys| - 1]);
    }
  }

  lemma AfterOne(s: State, b: Byte)
    requires Valid(s)
    ensures After(s, [b]) == Feed(s, b).0
  {
    assert [b][..0] == [];
  }

  /** A header is found whatever part of one was matched before it. */
  lemma {:induction false} AfterHeader(k: nat, n: nat)
    requires k < 6 && 1 <= n <= 6
    ensures After(Hunting(k), HEADER[..n]) == if n == 6 then AtVersion else Hunting(n)
  {
    if n == 1 {
      assert HEADER[..1] == [HEADER[0]];
      AfterOne(Hunting(k), HEADER[0]);
    } else {
      AfterHeader(k, n - 1);
      assert HEADER[..n][..n - 1] == HEADER[..n - 1];
    }
  }

  lemma {:induction false} AfterPayload(t: Byte, len: nat, got: seq<Byte>, rest: seq<Byte>)
    requires |got| < len <= MAX_PAYLOAD && |got| + |rest| <= len
    ensures After(InPayload(t, len, got), rest) ==
      if |got| + |rest| == len then AtChecksum(t, got + rest) else InPayload(t, len, got + rest)
  {
    if rest == [] {
      assert got + rest == got;
    } else {
      var n := |rest| - 1;
      AfterPayload(t, len, got, rest[..n]);
      assert got + rest == got + rest[..n] + [rest[n]];
    }
  }

  lemma AfterPreamble(k: nat, t: Byte, len: Byte)
    requires k < 6 && len <= MAX_PAYLOAD
    ensures After(Hunting(k), HEADER + [VERSION]) == AtType
    ensures After(Hunting(k), HEADER + [VERSION, t]) == AtLength(t)
    ensures After(Hunting(k), HEADER + [VERSION, t, len]) ==
      if len == 0 then AtChecksum(t, []) else InPayload(t, len, [])
  {
    AfterHeader(k, 6);
    assert HEADER[..6] == HEADER;
    assert (HEADER + [VERSION])[..6] == HEADER;
    assert (HEADER + [VERSION, t])[..7] == HEADER + [VERSION];
    assert (HEADER + [VERSION, t, len])[..8] == HEADER + [VERSION, t];
  }

  /** Where the parser is inside a frame: in step with it, whatever header part preceded. */
  lemma InStep(k: nat, t: Byte, payload: seq<Byte>, n: nat)
    requires k < 6 && |payload| <= MAX_PAYLOAD && 1 <= n <= 9 + |payload|
    ensures var s := After(Hunting(k), Frame(t, payload)[..n]);
      s == if n < 6 then Hunting(n) else if n == 6 then AtVersion else if n == 7 then AtType
           else if n == 8 then AtLength(t)
           else if n == 9 + |payload| then AtChecksum(t, payload)
           else InPayload(t, |payload|, payload[..n - 9])
  {
    var f := Frame(t, payload);
    AfterHeader(k, if n < 6 then n else 6);
    AfterPreamble(k, t, |payload|);
    if n <= 6 {
      assert f[..n] == HEADER[..n];
      assert HEADER[..6] == HEADER;
    } else if n == 7 {
      assert f[..n] == HEADER + [VERSION];
    } else if n == 8 {
      assert f[..n] == HEADER + [VERSION, t];
    } else {
      var front := HEADER + [VERSION, t, |payload|];
      assert f[..n] == front + payload[..n - 9];
      AfterSplit(Hunting(k), front, payload[..n - 9]);
      if payload == [] {
        assert payload[..n - 9] == [];
      } else {
        AfterPayload(t, |payload|, [], payload[..n - 9]);
        assert [] + payload[..n - 9] == payload[..n - 9];
        assert payload[..|payload|] == payload;
      }
    }
  }

  /**
   From any header-stage state a whole frame goes through without a complaint, its verdict comes on
   its last byte, and the parser is hunting again.
   */
  lemma FrameGoesThrough(k: nat, t: Byte, payload: seq<Byte>, n: nat)
    requires k < 6 && |payload| <= MAX_PAYLOAD && 1 <= n <= |Frame(t, payload)|
    ensures LastResult(Hunting(k), Frame(t, payload)[..n]) ==
      if n < |Frame(t, payload)| || t != TYPE_RPC then Quiet
      else if |payload| >= 2 && payload[1] == |payload| - 2 then Rpc(payload[0], payload[2..])
      else Malformed
    ensures After(Hunting(k), Frame(t, payload)).Hunting?
  {
    var f := Frame(t, payload);
    if n < |f| {
      QuietInside(k, t, payload, n);
    } else {
      assert f[..n] == f;
    }
    LastByte(k, t, payload);
  }

  lemma QuietInside(k: nat, t: Byte, payload: seq<Byte>, n: nat)
    requires k < 6 && |payload| <= MAX_PAYLOAD && 1 <= n < |Frame(t, payload)|
    ensures LastResult(Hunting(k), Frame(t, payload)[..n]) == Quiet
  {
    var f := Frame(t, payload);
    assert f[..n][..n - 1] == f[..n - 1];
    if n > 1 { InStep(k, t, payload, n - 1); }
  }

  lemma LastByte(k: nat, t: Byte, payload: seq<Byte>)
    requires k < 6 && |payload| <= MAX_PAYLOAD
    ensures var f := Frame(t, payload);
      && LastResult(Hunting(k), f) == Verdict(t, payload, Sum(Head(t, payload)) % 256)
      && After(Hunting(k), f).Hunting?
  {
    InStep(k, t, payload, 9 + |payload|);
  }

  /** A well-formed command is delivered with its exact data. */
  lemma CommandDelivered(k: nat, command: Byte, data: seq<Byte>)
    requires k < 6 && |data| + 2 <= MAX_PAYLOAD
    ensures LastResult(Hunting(k), Frame(TYPE_RPC, [command, |data|] + data)) == Rpc(command, data)
  {
    var payload := [command, |data|] + data;
    var f := Frame(TYPE_RPC, payload);
    assert f[..|f|] == f;
    FrameGoesThrough(k, TYPE_RPC, payload, |f|);
  }

  /** The packet on the wire: IMPROV, the version, the type, the length, the payload, and the low byte of
      the sum of all that. */
  lemma FrameBytes(t: Byte, payload: seq<Byte>)
    requires |payload| <= 128
    ensures var f := Frame(t, payload);
      f == ['I' as int, 'M' as int, 'P' as int, 'R' as int, 'O' as int, 'V' as int, 1, t, |payload|]
           + payload + [Sum(f[..|f| - 1]) % 256]
    ensures TYPE_CURRENT_STATE == 1 && TYPE_ERROR_STATE == 2 && TYPE_RPC == 3 && TYPE_RPC_RESULT == 4
  {
    var f := Frame(t, payload);
    assert f[..|f| - 1] == Head(t, payload);
  }

  // ---- complaints ------------------------------------------------------------------------------

  /** A wrong checksum is reported, and only that, whatever the type of the packet. */
  lemma ChecksumCaught(k: nat, t: Byte, payload: seq<Byte>, b: Byte)
    requires k < 6 && |payload| <= MAX_PAYLOAD
    ensures LastResult(Hunting(k), Head(t, payload) + [b]) == BadChecksum <==> b != Sum(Head(t, payload)) % 256
  {
    var bytes := Head(t, payload) + [b];
    InStep(k, t, payload, 9 + |payload|);
    assert Frame(t, payload)[..9 + |payload|] == Head(t, payload) == bytes[..|bytes| - 1];
  }

  /** A version other than 1 and a length above 128 break the packet off at once, as malformed. */
  lemma BreaksOff(k: nat, t: Byte, b: Byte)
    requires k < 6
    ensures LastResult(Hunting(k), HEADER + [b]) == (if b == 1 then Quiet else Malformed)
    ensures LastResult(Hunting(k), HEADER + [VERSION, t, b]) == (if b <= 128 then Quiet else Malformed)
  {
    AfterHeader(k, 6);
    AfterPreamble(k, t, 0);
    assert HEADER[..6] == HEADER == (HEADER + [b])[..6];
    assert (HEADER + [VERSION, t, b])[..8] == HEADER + [VERSION, t];
  }

  lemma {:induction false} SumChange(bytes: seq<Byte>, i: nat, b: Byte)
    requires i < |bytes|
    ensures Sum(bytes[i := b]) == Sum(bytes) - bytes[i] + b
  {
    var n := |bytes| - 1;
    if i < n {
      assert bytes[i := b][..n] == bytes[..n][i := b];
      SumChange(bytes[..n], i, b);
    } else {
      assert bytes[i := b][..n] == bytes[..n];
    }
  }

  /** One damaged byte of a payload never goes unnoticed: the packet with the old checksum is reported. */
  lemma DamageCaught(k: nat, t: Byte, payload: seq<Byte>, i: nat, b: Byte)
    requires k < 6 && |payload| <= MAX_PAYLOAD && i < |payload| && b != payload[i]
    ensures LastResult(Hunting(k), Frame(t, payload)[9 + i := b]) == BadChecksum
  {
    var head := Head(t, payload);
    var sum: Byte := Sum(head) % 256;
    var damaged := payload[i := b];
    assert head[9 + i] == payload[i] && Head(t, damaged) == head[9 + i := b];
    SumChange(head, 9 + i, b);
    ChecksumCaught(k, t, damaged, sum);
    assert Frame(t, payload)[9 + i := b] == Head(t, damaged) + [sum];
  }

  /** The bytes of the current packet, as the state remembers them. */
  function Current(s: State): seq<Byte>
    requires Valid(s)
  {
    match s
    case Hunting(k) => HEADER[..k]
    case AtVersion => HEADER
    case AtType => HEADER + [VERSION]
    case AtLength(t) => HEADER + [VERSION, t]
    case InPayload(t, len, got) => HEADER + [VERSION, t, len] + got
    case AtChecksum(t, payload) => Head(t, payload)
  }

  lemma {:induction false} CurrentIsReal(bytes: seq<Byte>)
    ensures EndsWith(bytes, Current(After(Hunting(0), bytes)))
  {
    if bytes != [] {
      var n := |bytes| - 1;
      CurrentIsReal(bytes[..n]);
      var s, b := After(Hunting(0), bytes[..n]), bytes[n];
      assert bytes == bytes[..n] + [b];
      CurrentGrows(s, b);
      var t := Feed(s, b).0;
      if Current(t) == Current(s) + [b] {
        EndsExtend(bytes[..n], Current(s), b);
      } else {
        assert t == Restart(b);
        assert HEADER[..1] == [HEADER[0]];
      }
    }
  }

  lemma CurrentGrows(s: State, b: Byte)
    requires Valid(s)
    ensures Current(Feed(s, b).0) == Current(s) + [b] || Feed(s, b).0 == Restart(b)
  {
    match s
    case Hunting(k) =>
      if b == HEADER[k] { assert HEADER[..k + 1] == HEADER[..k] + [b]; }
      assert HEADER[..6] == HEADER;
    case _ =>
  }

  lemma EndsExtend(s: seq<Byte>, w: seq<Byte>, b: Byte)
    requires EndsWith(s, w)
    ensures EndsWith(s + [b], w + [b])
  {
    assert (s + [b])[|s| - |w|..] == s[|s| - |w|..] + [b];
  }

  lemma VerdictIsFrame(t: Byte, payload: seq<Byte>, b: Byte)
    requires |payload| <= MAX_PAYLOAD && Verdict(t, payload, b).Rpc?
    ensures var r := Verdict(t, payload, b);
      payload == [r.command, |r.data|] + r.data && Head(t, payload) + [b] == Frame(TYPE_RPC, payload)
  {
  }

  lemma CommandStep(before: seq<Byte>, s: State, b: Byte, command: Byte, data: seq<Byte>)
    requires Valid(s) && EndsWith(before, Current(s)) && Feed(s, b).1 == Rpc(command, data)
    ensures |data| + 2 <= MAX_PAYLOAD && EndsWith(before + [b], Frame(TYPE_RPC, [command, |data|] + data))
  {
    assert s.AtChecksum?;
    VerdictIsFrame(s.ptype, s.payload, b);
    EndsExtend(before, Current(s), b);
  }

  /** A command is delivered only on the last byte of its frame, and with what the frame carries. */
  lemma CommandIsReal(bytes: seq<Byte>, command: Byte, data: seq<Byte>)
    requires bytes != [] && LastResult(Hunting(0), bytes) == Rpc(command, data)
    ensures |data| + 2 <= MAX_PAYLOAD && EndsWith(bytes, Frame(TYPE_RPC, [command, |data|] + data))
  {
    var before, b := bytes[..|bytes| - 1], bytes[|bytes| - 1];
    CurrentIsReal(before);
    CommandStep(before, After(Hunting(0), before), b, command, data);
    assert bytes == before + [b];
  }

  // ---- resynchronisation -----------------------------------------------------------------------

  /** The most bytes a state can take before it hunts again. */
  function Left(s: State): nat
    requires Valid(s)
  {
    match s
    case Hunting(_) => 0
    case AtVersion => MAX_PAYLOAD + 4
    case AtType => MAX_PAYLOAD + 3
    case AtLength(_) => MAX_PAYLOAD + 2
    case InPayload(_, len, got) => len - |got| + 1
    case AtChecksum(_, _) => 1
  }

  /** From any state, whatever bytes come, the parser hunts again within 132 of them. */
  lemma {:induction false} BackWithin(s: State, bytes: seq<Byte>) returns (n: nat)
    requires Valid(s) && |bytes| >= Left(s)
    ensures n <= Left(s) <= 132 && After(s, bytes[..n]).Hunting?
    decreases Left(s)
  {
    n := 0;
    if !s.Hunting? {
      var t := Feed(s, bytes[0]).0;
      n := BackWithin(t, bytes[1..]);
      assert bytes[..n + 1] == [bytes[0]] + bytes[1..][..n];
      AfterOne(s, bytes[0]);
      AfterSplit(s, [bytes[0]], bytes[1..][..n]);
      n := n + 1;
    } else {
      assert bytes[..0] == [];
    }
  }
}
