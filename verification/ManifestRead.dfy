/**
 Reading the OTA manifest's body (lib/fry_core/ota_manifest_read.h:68-94) from a connection on which
 data, the peer's FIN and time move on between any two calls.
 */
module ManifestRead {
  import opened Prelude

  const CHUNK := 128

  datatype ReadResult = Ok | Closed | TimedOut | NoRoom

  /** What happens before one call: bytes land, then perhaps the FIN; `give` bounds what a read returns. */
  datatype Landing = Landing(bytes: nat, fin: bool, ms: nat, give: nat)

  /** No single call takes three days. */
  const CALL_MAX_MS := 0x1000_0000

  class Conn {
    const sent: seq<Byte>            // everything the peer ever sends
    const schedule: nat -> Landing
    var calls: nat
    var arrived: nat
    var consumed: nat
    var fin: bool
    var now: int
    ghost var lastData: int          // when a read last returned something
    ghost var sawOpen: bool          // what connected() said last

    /** A FIN follows the last byte. */
    ghost predicate Valid()
      reads this
    {
      consumed <= arrived <= |sent| && (fin ==> arrived == |sent|)
    }

    /** A read asked for queued bytes never comes back empty. */
    ghost predicate ReadsGive() {
      forall k :: schedule(k).give > 0
    }

    constructor (sent: seq<Byte>, schedule: nat -> Landing, now: int)
      ensures Valid() && consumed == 0 && this.sent == sent
    {
      this.sent, this.schedule, this.now, lastData := sent, schedule, now, now;
      calls, arrived, consumed, fin, sawOpen := 0, 0, 0, false, true;
    }

    method Advance() returns (give: nat)
      requires Valid()
      modifies this`calls, this`arrived, this`fin, this`now
      ensures Valid() && old(arrived) <= arrived && (old(fin) ==> fin) && (ReadsGive() ==> give > 0)
      ensures old(now) <= now < old(now) + CALL_MAX_MS
    {
      var l := schedule(calls);
      calls := calls + 1;
      arrived := Min(arrived + l.bytes, |sent|);
      fin := fin || (l.fin && arrived == |sent|);
      now := now + l.ms % CALL_MAX_MS;
      give := l.give;
    }

    /** The TCP state alone: false once the FIN is in, whatever is still queued. */
    method Connected() returns (open: bool)
      requires Valid()
      modifies this`calls, this`arrived, this`fin, this`now, this`sawOpen
      ensures Valid() && old(arrived) <= arrived && (!open <==> fin) && (old(fin) ==> fin) && sawOpen == open
      ensures old(now) <= now < old(now) + CALL_MAX_MS
    {
      var give := Advance();
      open := !fin;
      sawOpen := open;
    }

    method Available() returns (n: nat)
      requires Valid()
      modifies this`calls, this`arrived, this`fin, this`now
      ensures Valid() && n == arrived - consumed && (old(fin) ==> fin)
      ensures old(now) <= now < old(now) + CALL_MAX_MS
    {
      var give := Advance();
      n := arrived - consumed;
    }

    /** Some of the queued bytes, in order; nothing at all is possible. */
    method Read(want: nat) returns (data: seq<Byte>)
      requires Valid()
      modifies this`calls, this`arrived, this`fin, this`now, this`consumed, this`lastData
      ensures Valid() && |data| <= want && consumed == old(consumed) + |data| && (old(fin) ==> fin)
      ensures ReadsGive() && want > 0 && old(consumed) < old(arrived) ==> data != []
      ensures lastData == if data == [] then old(lastData) else now
      ensures data == sent[old(consumed)..consumed]
      ensures old(now) <= now < old(now) + CALL_MAX_MS
    {
      var give := Advance();
      var r := Min(give, Min(want, arrived - consumed));
      data := sent[consumed..consumed + r];
      consumed := consumed + r;
      if data != [] { lastData := now; }
    }

    method NowMs() returns (t: int)
      requires Valid()
      modifies this`calls, this`arrived, this`fin, this`now
      ensures Valid() && t == now && (old(fin) ==> fin)
      ensures old(now) <= now < old(now) + CALL_MAX_MS
    {
      var give := Advance();
      t := now;
    }

    /** idle: at least a millisecond goes by. */
    method Idle()
      requires Valid()
      modifies this`calls, this`arrived, this`fin, this`now
      ensures Valid() && old(now) < now <= old(now) + CALL_MAX_MS && (old(fin) ==> fin)
    {
      var give := Advance();
      now := now + 1;
    }
  }

  class Sink {
    const room: nat
    var body: seq<Byte>

    constructor (room: nat)
      ensures body == [] && this.room == room
    {
      this.room, body := room, [];
    }

    method Append(data: seq<Byte>) returns (ok: bool)
      modifies this`body
      ensures ok <==> |old(body)| + |data| <= room
      ensures body == if ok then old(body) + data else old(body)
    {
      ok := |body| + |data| <= room;
      if ok { body := body + data; }
    }
  }

  /** One read and its append; what the sink has had since `from` stays contiguous. */
  method Take(c: Conn, want: nat, out: Sink, ghost from: nat) returns (n: nat, ok: bool)
    requires c.Valid() && from <= c.consumed
    modifies c, out
    ensures c.Valid() && n <= want && c.consumed == old(c.consumed) + n && (old(c.fin) ==> c.fin)
    ensures c.sawOpen == old(c.sawOpen) && old(c.now) <= c.now < old(c.now) + CALL_MAX_MS
    ensures n > 0 ==> c.lastData == c.now
    ensures n == 0 ==> c.lastData == old(c.lastData) && out.body == old(out.body)
    ensures c.ReadsGive() && want > 0 && old(c.consumed) < old(c.arrived) ==> n > 0
    ensures !ok ==> out.body == old(out.body) && |old(out.body)| + n > out.room
    ensures ok ==> forall b :: old(out.body) == b + c.sent[from..old(c.consumed)] ==>
      out.body == b + c.sent[from..c.consumed]
  {
    var data := c.Read(want);
    n, ok := |data|, true;
    assert c.sent[from..c.consumed - n] + data == c.sent[from..c.consumed];
    if n > 0 { ok := out.Append(data); }
  }

  /**
   Ok: the sink gained exactly the next `expected` bytes of the stream, in order. Closed: the peer
   never sent that many, and all it did send is in the sink. TimedOut: nothing arrived for the whole
   timeout. NoRoom: they do not fit. Nothing read is ever dropped or reordered otherwise.
   A close is never mistaken for silence: as long as reads give what is queued, TimedOut is only said of
   a connection that was open when last looked at, and one that is over from the start gives Ok or Closed.
   */
  method ReadManifestBody(c: Conn, expected: nat, timeoutMs: nat, out: Sink) returns (r: ReadResult)
    requires c.Valid() && timeoutMs < TWO31
    modifies c, out
    ensures c.Valid() && old(c.consumed) <= c.consumed <= old(c.consumed) + expected
    ensures r != NoRoom ==> out.body == old(out.body) + c.sent[old(c.consumed)..c.consumed]
    ensures r == Ok <==> r != NoRoom && c.consumed == old(c.consumed) + expected
    ensures r == Closed ==> c.consumed == |c.sent| < old(c.consumed) + expected
    ensures r == TimedOut ==> c.now >= old(c.now) + timeoutMs
    ensures r == TimedOut && c.consumed > old(c.consumed) ==> c.now >= c.lastData + timeoutMs
    ensures r == Closed ==> !c.sawOpen
    ensures c.ReadsGive() && r == TimedOut ==> c.sawOpen
    ensures c.ReadsGive() && old(c.fin) && r != NoRoom ==>
      r == if |c.sent| < old(c.consumed) + expected then Closed else Ok
    ensures r == NoRoom ==> |old(out.body)| + (c.consumed - old(c.consumed)) > out.room
    ensures old(out.body) <= out.body <= old(out.body) + c.sent[old(c.consumed)..c.consumed]
  {
    var got := 0;
    ghost var from := c.consumed;
    var last := c.NowMs();
    while got < expected
      invariant c.Valid() && c.consumed == from + got && got <= expected && (old(c.fin) ==> c.fin)
      invariant out.body == old(out.body) + c.sent[from..c.consumed]
      invariant old(c.now) <= last && (got > 0 ==> c.lastData <= last)
      invariant last <= c.now <= last + timeoutMs + CALL_MAX_MS
      decreases expected - got, last + timeoutMs + CALL_MAX_MS - c.now
    {
      var open := c.Connected();
      var avail := c.Available();
      if avail > 0 {
        var want := Min(Min(avail, CHUNK), expected - got);
        var n, ok := Take(c, want, out, from);
        if n > 0 {
          if !ok { return NoRoom; }
          got := got + n;
          last := c.NowMs();
          continue;
        }
      } else if !open {
        return Closed;
      }
      var t := c.NowMs();
      assert Elapsed(t, last) == t - last;
      if Elapsed(t, last) >= timeoutMs { return TimedOut; }
      c.Idle();
    }
    r := Ok;
  }
}
