/**
 The Improv Serial reader with its fixed buffer, the encoders and the decoders as
 lib/fry_core/improv_serial.cpp writes them, against the frames of module Improv.
 */
module ImprovSerial {
  import opened Prelude
  import opened Improv

  datatype Stage = Header | Version | Type | Length | Payload | Checksum
  datatype Outcome = NoResult | GotRpc | ChecksumFailed | Rejected

  lemma SumAppend(bytes: seq<Byte>, b: Byte)
    ensures Sum(bytes + [b]) == Sum(bytes) + b
  {
    assert (bytes + [b])[..|bytes|] == bytes;
  }

  lemma {:induction false} SumBound(bytes: seq<Byte>)
    ensures Sum(bytes) <= 255 * |bytes|
  {
    if bytes != [] { SumBound(bytes[..|bytes| - 1]); }
  }

  function OutcomeOf(r: Result): Outcome {
    match r
    case Quiet => NoResult
    case Rpc(_, _) => GotRpc
    case BadChecksum => ChecksumFailed
    case Malformed => Rejected
  }

  class Parser {
    var stage: Stage
    var headerIdx: nat
    var ptype: Byte
    var len: Byte
    var got: nat
    var sum: U32
    const payload: array<Byte>
    var command: Byte
    var dataLen: Byte

    ghost predicate Shaped()
      reads this
    {
      payload.Length == MAX_PAYLOAD && headerIdx < 6 && len <= MAX_PAYLOAD
      && (stage == Payload ==> got < len)
    }

    ghost function Abs(): (s: State)
      reads this, payload
      requires Shaped()
      ensures Improv.Valid(s)
    {
      match stage
      case Header => Hunting(headerIdx)
      case Version => AtVersion
      case Type => AtType
      case Length => AtLength(ptype)
      case Payload => InPayload(ptype, len, payload[..got])
      case Checksum => AtChecksum(ptype, payload[..len])
    }

    /** The running sum is that of the packet's bytes so far. */
    ghost predicate Valid()
      reads this, payload
    {
      Shaped() && sum == Sum(Current(Abs()))
    }

    constructor ()
      ensures Valid() && Abs() == Hunting(0) && fresh(payload)
    {
      stage, headerIdx, ptype, len, got, sum, command, dataLen := Header, 0, 0, 0, 0, 0, 0, 0;
      payload := new Byte[MAX_PAYLOAD](_ => 0);
    }

    method Restart(b: Byte)
      requires Shaped()
      modifies this`stage, this`headerIdx, this`sum
      ensures Valid() && Abs() == Improv.Restart(b)
    {
      stage := Header;
      headerIdx := if b == HEADER[0] then 1 else 0;
      sum := if headerIdx == 1 then b else 0;
      assert Current(Hunting(1)) == [] + [HEADER[0]];
      SumAppend([], HEADER[0]);
    }

    /** One more byte of the packet goes into the sum, which cannot wrap. */
    method Count(b: Byte, ghost next: State)
      requires Valid() && Improv.Valid(next) && Current(next) == Current(Abs()) + [b]
      modifies this`sum
      ensures sum == Sum(Current(next))
    {
      SumAppend(Current(Abs()), b);
      SumBound(Current(next));
      sum := (sum + b) % TWO32;
    }

    method Feed(b: Byte) returns (r: Outcome)
      requires Valid()
      modifies this, payload
      ensures Valid() && Abs() == Improv.Feed(old(Abs()), b).0
      ensures r == OutcomeOf(Improv.Feed(old(Abs()), b).1)
      ensures r == GotRpc ==> Delivers(Improv.Feed(old(Abs()), b).1)
    {
      match stage {
        case Header =>
          FeedHeader(b);
          r := NoResult;
        case Version =>
          if b != VERSION {
            Restart(b);
            return Rejected;
          }
          FeedEasy(b);
          r := NoResult;
        case Type =>
          FeedEasy(b);
          r := NoResult;
        case Length =>
          if b > MAX_PAYLOAD {
            Restart(b);
            return Rejected;
          }
          FeedEasy(b);
          r := NoResult;
        case Payload =>
          Store(b);
          r := NoResult;
        case Checksum =>
          r := Judge(b);
      }
    }

    /** command(), data() and dataLen() give the delivered command. */
    ghost predicate Delivers(v: Result)
      reads this, payload
    {
      payload.Length == MAX_PAYLOAD && 2 + dataLen as int <= MAX_PAYLOAD
      && v == Rpc(command, payload[2..2 + dataLen])
    }

    method FeedHeader(b: Byte)
      requires Valid() && stage == Header
      modifies this`stage, this`headerIdx, this`sum
      ensures Valid() && Abs() == Improv.Feed(old(Abs()), b).0
    {
      if b == HEADER[headerIdx] {
        ghost var next := Improv.Feed(Abs(), b).0;
        HeaderGrows(headerIdx, b);
        Count(b, next);
        if headerIdx + 1 == 6 {
          stage := Version;
        } else {
          headerIdx := headerIdx + 1;
        }
        assert Abs() == next;
      } else {
        Restart(b);
      }
    }

    static lemma HeaderGrows(k: nat, b: Byte)
      requires k < 6 && b == HEADER[k]
      ensures Current(Improv.Feed(Hunting(k), b).0) == Current(Hunting(k)) + [b]
    {
      CurrentGrows(Hunting(k), b);
      assert HEADER[..k + 1] == HEADER[..k] + [b];
      assert HEADER[..6] == HEADER;
    }

    /** A version, type or length byte the packet may have. */
    method FeedEasy(b: Byte)
      requires Valid() && stage in {Version, Type, Length}
      requires (stage == Version ==> b == VERSION) && (stage == Length ==> b <= MAX_PAYLOAD)
      modifies this`stage, this`ptype, this`len, this`got, this`sum
      ensures Valid() && Abs() == Improv.Feed(old(Abs()), b).0
    {
      ghost var next := Improv.Feed(Abs(), b).0;
      CurrentGrows(Abs(), b);
      assert Current(next) == Current(Abs()) + [b];
      Count(b, next);
      if stage == Version {
        stage := Type;
      } else if stage == Type {
        ptype, stage := b, Length;
      } else {
        len, got := b, 0;
        stage := if len != 0 then Payload else Checksum;
      }
      assert Abs() == next;
    }

    method Store(b: Byte)
      requires Valid() && stage == Payload
      modifies this`sum, this`got, this`stage, payload
      ensures Valid() && Abs() == Improv.Feed(old(Abs()), b).0
    {
      ghost var next, had := Improv.Feed(Abs(), b).0, payload[..got];
      Grows(ptype, len, had, b);
      Count(b, next);
      Put(b);
      assert Abs() == next;
    }

    method Put(b: Byte)
      requires Shaped() && stage == Payload
      modifies this`got, this`stage, payload
      ensures Shaped() && Abs() == Improv.Feed(old(Abs()), b).0
    {
      ghost var had := payload[..got];
      payload[got] := b;
      got := got + 1;
      assert payload[..got] == had + [b];
      if got == len { stage := Checksum; }
    }

    static lemma Grows(t: Byte, len: Byte, had: seq<Byte>, b: Byte)
      requires |had| < len <= MAX_PAYLOAD
      ensures var s := InPayload(t, len, had);
        Current(Improv.Feed(s, b).0) == Current(s) + [b]
    {
      CurrentGrows(InPayload(t, len, had), b);
    }

    method Judge(b: Byte) returns (r: Outcome)
      requires Valid() && stage == Checksum
      modifies this`stage, this`headerIdx, this`sum, this`command, this`dataLen
      ensures Valid() && Abs() == Improv.Restart(b)
      ensures var v := Verdict(ptype, payload[..len], b);
        r == OutcomeOf(v) && (r == GotRpc ==> Delivers(v))
    {
      var ok := b == sum % 256;
      Restart(b);
      if !ok { return ChecksumFailed; }
      if ptype != TYPE_RPC { return NoResult; }
      if len < 2 || len as int - 2 != payload[1] { return Rejected; }
      command, dataLen := payload[0], payload[1];
      assert payload[..len][2..] == payload[2..2 + dataLen];
      r := GotRpc;
    }
  }
}
