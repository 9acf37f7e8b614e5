/**
 The relay slot as the firmware runs it: two fixed 1 KB buffers with offsets, updated in place
 (lib/fry_core/socks_relay_core.cpp), and the shim steps that move bytes between them and the
 sockets (src/esp32/vpn_wireguard.cpp:322-347, 515-549). Every method is proved to take the step
 `RelayModel` describes on the pending bytes, whatever the offsets were.
 */
module RelaySlotImpl {
  import opened Prelude
  import opened Socks5
  import opened RelayModel

  class RelaySlot {
    var phase: Phase
    var reason: CloseReason
    var flushReason: CloseReason
    var clientFd: int
    var upFd: int
    var fin: FinState
    var clk: Clocks
    var req: ConnectRequest
    const c2u: array<Byte>
    const u2c: array<Byte>
    var c2uOff: nat
    var c2uLen: nat
    var u2cOff: nat
    var u2cLen: nat

    ghost predicate Valid()
      reads this
    {
      && c2u.Length == BUF_SIZE && u2c.Length == BUF_SIZE && c2u != u2c
      && c2uOff <= c2uLen <= BUF_SIZE && u2cOff <= u2cLen <= BUF_SIZE
      && (c2uOff == c2uLen ==> c2uLen == 0) && (u2cOff == u2cLen ==> u2cLen == 0)
      // the parsers read from the start of the buffer
      && (phase.Greeting? || phase.Request? ==> c2uOff == 0)
    }

    /** The slot as `RelayModel` sees it: only the bytes between offset and length matter. */
    ghost function Abs(): Slot
      reads this, c2u, u2c
      requires Valid()
    {
      Slot(phase, reason, flushReason, clientFd, upFd, fin, clk,
           c2u[c2uOff..c2uLen], u2c[u2cOff..u2cLen], req)
    }

    constructor (clientFd: int, finGraceMs: U32, now: int)
      ensures Valid() && fresh(c2u) && fresh(u2c)
      ensures Abs() == SlotInit(clientFd, finGraceMs, now)
    {
      phase, reason, flushReason := Greeting, NoReason, NoReason;
      this.clientFd, upFd := clientFd, NO_FD;
      fin := ALL_OPEN;
      clk := Clocks(now, now, false, 0, finGraceMs, 0);
      req := NO_REQUEST;
      c2u, u2c := new Byte[BUF_SIZE](_ => 0), new Byte[BUF_SIZE](_ => 0);
      c2uOff, c2uLen, u2cOff, u2cLen := 0, 0, 0, 0;
    }

    method Close(why: CloseReason)
      requires Valid()
      modifies this
      ensures Valid() && Abs() == CloseSlot(old(Abs()), why)
    {
      if phase.Closed? { return; }
      phase, reason := Closed, why;
    }

    /** The pending bytes for the client move to the front of their buffer. */
    method Compact()
      requires Valid() && u2cOff > 0
      modifies this`u2cOff, this`u2cLen, u2c
      ensures Valid() && Abs() == old(Abs()) && u2cOff == 0 && u2cLen == |Abs().u2c|
    {
      ghost var pending := u2c[u2cOff..u2cLen];
      forall i | 0 <= i < u2cLen - u2cOff { u2c[i] := u2c[u2cOff + i]; }
      u2cLen, u2cOff := u2cLen - u2cOff, 0;
      assert u2c[u2cOff..u2cLen] == pending;
    }

    /** d goes behind the pending bytes. */
    method Append(d: seq<Byte>)
      requires Valid() && d != [] && u2cLen + |d| <= BUF_SIZE
      modifies this`u2cLen, u2c
      ensures Valid() && Abs() == old(Abs()).(u2c := old(Abs()).u2c + d)
    {
      ghost var pending := u2c[u2cOff..u2cLen];
      forall i | 0 <= i < |d| { u2c[u2cLen + i] := d[i]; }
      assert u2c[u2cOff..u2cLen] == pending;
      assert u2c[u2cLen..u2cLen + |d|] == d;
      assert u2c[u2cOff..u2cLen + |d|] == u2c[u2cOff..u2cLen] + u2c[u2cLen..u2cLen + |d|];
      u2cLen := u2cLen + |d|;
    }

    /** queueClient: append a reply, moving the pending bytes to the front first if need be. */
    method Queue(d: seq<Byte>)
      requires Valid()
      modifies this`u2cOff, this`u2cLen, u2c
      ensures Valid() && Abs() == QueueClient(old(Abs()), d)
    {
      if d == [] {
        assert u2c[u2cOff..u2cLen] + d == u2c[u2cOff..u2cLen];
        return;
      }
      if u2cLen + |d| > BUF_SIZE && u2cOff > 0 { Compact(); }
      if u2cLen + |d| > BUF_SIZE { return; }
      Append(d);
    }

    /** consumeFront: drop the parsed bytes and move the rest to the front. */
    method ConsumeFront(used: nat)
      requires Valid() && c2uOff == 0
      modifies this`c2uOff, this`c2uLen, c2u
      ensures Valid() && c2uOff == 0
      ensures var pending := old(Abs()).c2u;
        Abs() == old(Abs()).(c2u := if used > |pending| then [] else pending[used..])
    {
      var n := if used > c2uLen then c2uLen else used;
      ghost var rest := c2u[n..c2uLen];
      forall i | 0 <= i < c2uLen - n { c2u[i] := c2u[n + i]; }
      c2uLen, c2uOff := c2uLen - n, 0;
      assert c2u[c2uOff..c2uLen] == rest;
    }

    method Flushing(why: CloseReason, now: int)
      requires Valid()
      modifies this
      ensures Valid() && Abs() == EnterFlush(old(Abs()), why, now)
    {
      c2uOff, c2uLen := 0, 0;
      flushReason := why;
      phase := Flush;
      clk := clk.(phaseStartMs := now);
    }

    method AnswerGreeting(used: nat, now: int)
      requires Valid() && phase.Greeting? && used <= c2uLen
      modifies this, c2u, u2c
      ensures Valid() && Abs() == GreetingAnswered(old(Abs()), used, now)
    {
      ghost var was := Abs();
      Queue(METHOD_OK);
      ConsumeFront(used);
      assert Abs() == QueueClient(was, METHOD_OK).(c2u := was.c2u[used..]);
      NextPhase(Request, now);
    }

    method NextPhase(p: Phase, now: int)
      requires Valid() && c2uOff == 0
      modifies this`phase, this`clk
      ensures Valid() && Abs() == old(Abs()).(phase := p, clk := old(clk).(phaseStartMs := now))
    {
      phase := p;
      clk := clk.(phaseStartMs := now);
    }

    method ParseGreetingStep(now: int) returns (again: bool)
      requires Valid() && phase.Greeting?
      modifies this, c2u, u2c
      ensures Valid() && Advance(Abs(), now) == Advance(old(Abs()), now)
      ensures if again then phase.Request? else Abs() == Advance(old(Abs()), now)
    {
      again := false;
      assert c2u[..c2uLen] == c2u[c2uOff..c2uLen];
      var r := ParseGreetingBuffer(c2u, c2uLen);
      match r
      case GreetingNeedMore =>
      case GreetingOk(used) =>
        AnswerGreeting(used, now);
        again := true;
      case _ =>
        Queue(METHOD_NONE);
        Flushing(HandshakeBad, now);
    }

    method ParseRequestStep(now: int)
      requires Valid() && phase.Request?
      modifies this, c2u, u2c
      ensures Valid() && Abs() == AdvanceRequest(old(Abs()), now)
    {
      assert c2u[..c2uLen] == c2u[c2uOff..c2uLen];
      var r := ParseConnectBuffer(c2u, c2uLen);
      match r
      case ConnectNeedMore =>
      case ConnectOk(used, parsed) =>
        req := parsed;
        ConsumeFront(used);
        NextPhase(NeedConnect, now);
      case _ =>
        Queue(REPLY_FAIL);
        Flushing(HandshakeBad, now);
    }

    /** advance: parse as far as the buffered bytes allow, in a loop over the two messages. */
    method Parse(now: int)
      requires Valid()
      modifies this, c2u, u2c
      ensures Valid() && Abs() == Advance(old(Abs()), now)
    {
      var again := true;
      while again
        invariant Valid()
        invariant if again then Advance(Abs(), now) == Advance(old(Abs()), now)
                  else Abs() == Advance(old(Abs()), now)
        decreases again, if phase.Greeting? then 1 else 0
      {
        if phase.Greeting? {
          again := ParseGreetingStep(now);
        } else {
          if phase.Request? { ParseRequestStep(now); }
          again := false;
        }
      }
    }

    /** The first half of relayUpdate: arm what is due, or start the grace period. */
    method Arm(c2uEmpty: bool, u2cEmpty: bool, now: int)
      modifies this`fin, this`clk
      ensures fin == ArmFins(old(fin), c2uEmpty, u2cEmpty, old(clk).finGraceMs != 0)
      ensures clk == old(clk).(graceStartMs := if fin.graceUp && !old(fin).graceUp then now
                                               else old(clk).graceStartMs)
    {
      if !fin.clientRdOpen && c2uEmpty && !fin.upWrShut {
        if fin.upRdOpen && clk.finGraceMs != 0 && !fin.pendShutUp {
          if !fin.graceUp {
            fin := fin.(graceUp := true, dropUp := true);
            clk := clk.(graceStartMs := now);
          }
        } else {
          fin := fin.(graceUp := false, pendShutUp := true);
        }
      }
      if !fin.upRdOpen && u2cEmpty && !fin.clientWrShut { fin := fin.(pendShutClient := true); }
    }

    method Update(now: int)
      requires Valid()
      modifies this`phase, this`reason, this`fin, this`clk
      ensures Valid() && Abs() == RelayUpdate(old(Abs()), now)
    {
      if !phase.Relay? { return; }
      var c2uEmpty, u2cEmpty := c2uOff == c2uLen, u2cOff == u2cLen;
      assert c2uEmpty <==> Abs().c2u == [];
      assert u2cEmpty <==> Abs().u2c == [];
      Arm(c2uEmpty, u2cEmpty, now);
      if !fin.clientRdOpen && !fin.upRdOpen && c2uEmpty && u2cEmpty {
        phase, reason := Closed, Done;
        return;
      }
      if (!fin.clientRdOpen || !fin.upRdOpen) && !clk.halfClosing {
        clk := clk.(halfClosing := true, halfCloseStartMs := now);
      }
    }

    /** recvDest: where the next recv() may write, and how much. */
    method RecvDest(side: Side) returns (at: nat, room: nat)
      requires Valid()
      modifies this`c2uOff, this`c2uLen, this`u2cOff, this`u2cLen
      ensures Valid() && Abs() == old(Abs())
      ensures room == Room(Abs(), side)
      ensures room > 0 ==> at == (if side.Client? then c2uLen else u2cLen) && at + room == BUF_SIZE
    {
      room, at := 0, 0;
      if side.Client? {
        if phase.Greeting? || phase.Request? {
          room, at := BUF_SIZE - c2uLen, c2uLen;
        } else if phase.Relay? && fin.clientRdOpen && c2uOff == c2uLen {
          c2uOff, c2uLen := 0, 0;
          room := BUF_SIZE;
        }
      } else if phase.Relay? && fin.upRdOpen && u2cOff == u2cLen {
        u2cOff, u2cLen := 0, 0;
        room := BUF_SIZE;
      }
    }

    /** What a recv() return value stands for, given the bytes it left behind the pending ones. */
    ghost function Got(from: Side, ret: int, e: Errno): RecvResult
      reads this, c2u, u2c
      requires Valid()
    {
      if ret == 0 then Eof
      else if ret < 0 then RecvErr(e)
      else if from.Client? then Data(c2u[c2uLen..c2uLen + Min(ret, BUF_SIZE - c2uLen)])
      else Data(u2c[u2cLen..u2cLen + Min(ret, BUF_SIZE - u2cLen)])
    }

    /** Take the n bytes recv() left behind the pending ones. */
    method TakeIn(from: Side, n: nat)
      requires Valid() && n > 0
      requires n <= BUF_SIZE - (if from.Client? then c2uLen else u2cLen)
      modifies this`c2uLen, this`u2cLen
      ensures Valid()
      ensures Abs() == if from.Client? then old(Abs()).(c2u := old(Abs()).c2u + old(c2u[c2uLen..c2uLen + n]))
                       else old(Abs()).(u2c := old(Abs()).u2c + old(u2c[u2cLen..u2cLen + n]))
    {
      if from.Client? {
        ghost var all := c2u[c2uOff..c2uLen] + c2u[c2uLen..c2uLen + n];
        c2uLen := c2uLen + n;
        assert c2u[c2uOff..c2uLen] == all;
      } else {
        ghost var all := u2c[u2cOff..u2cLen] + u2c[u2cLen..u2cLen + n];
        u2cLen := u2cLen + n;
        assert u2c[u2cOff..u2cLen] == all;
      }
    }

    method HandleData(from: Side, n: nat, now: int)
      requires Valid() && n > 0 && Room(Abs(), from) > 0
      requires n <= BUF_SIZE - (if from.Client? then c2uLen else u2cLen)
      modifies this, c2u, u2c
      ensures Valid() && Abs() == Received(old(Abs()), from, old(Got(from, n, EAGAIN)), now)
    {
      if from.Client? && (phase.Greeting? || phase.Request?) {
        TakeIn(Client, n);
        clk := clk.(lastActivityMs := now);
        Parse(now);
      } else {
        HandlePayload(from, n, now);
      }
    }

    /** Payload of a relaying slot: the upstream's is dropped once the client has finished. */
    method HandlePayload(from: Side, n: nat, now: int)
      requires Valid() && n > 0 && phase.Relay?
      requires n <= BUF_SIZE - (if from.Client? then c2uLen else u2cLen)
      modifies this`c2uLen, this`u2cLen, this`clk
      ensures Valid() && Abs() == Received(old(Abs()), from, old(Got(from, n, EAGAIN)), now)
    {
      ghost var was, got := Abs(), Got(from, n, EAGAIN).bytes;
      if from.Client? {
        TakeIn(Client, n);
        assert Abs() == was.(c2u := was.c2u + got);
      } else if !fin.dropUp {
        TakeIn(Up, n);
        assert Abs() == was.(u2c := was.u2c + got);
      }
      clk := Touched(clk, now);
    }

    method HandleNoData(from: Side, ret: int, e: Errno, now: int)
      requires Valid() && ret <= 0
      modifies this
      ensures Valid() && Abs() == Received(old(Abs()), from, if ret == 0 then Eof else RecvErr(e), now)
    {
      var handshake := phase.Greeting? || phase.Request?;
      if ret < 0 {
        if !NotYet(e) { Close(if handshake then HandshakeEof else IoError); }
      } else if handshake {
        Close(HandshakeEof);
      } else if phase.Relay? {
        fin := ReadEnded(fin, from);
        clk := Touched(clk, now);
      }
    }

    /** onRecv. The count is clamped to the room behind the pending bytes. */
    method HandleRecv(from: Side, ret: int, e: Errno, now: int)
      requires Valid()
      // recvDest offered room for this side
      requires ret > 0 ==> Room(Abs(), from) > 0
      modifies this, c2u, u2c
      ensures Valid() && Abs() == OnRecv(old(Abs()), from, old(Got(from, ret, e)), now)
    {
      if phase.Free? || phase.Closed? { return; }
      if ret > 0 {
        var n := Min(ret, BUF_SIZE - (if from.Client? then c2uLen else u2cLen));
        assert Got(from, n, EAGAIN) == Got(from, ret, e);
        HandleData(from, n, now);
      } else {
        HandleNoData(from, ret, e, now);
      }
      Update(now);
    }

    /** The n bytes send() took leave the front of their buffer. */
    method TakeOutUp(n: nat)
      requires Valid() && n <= c2uLen - c2uOff && !phase.Greeting? && !phase.Request?
      modifies this`c2uOff, this`c2uLen
      ensures Valid() && Abs() == old(Abs()).(c2u := old(Abs()).c2u[n..])
    {
      ghost var rest := c2u[c2uOff + n..c2uLen];
      assert c2u[c2uOff..c2uLen][n..] == rest;
      c2uOff := c2uOff + n;
      if c2uOff == c2uLen { c2uOff, c2uLen := 0, 0; }
      assert c2u[c2uOff..c2uLen] == rest;
    }

    method TakeOutClient(n: nat)
      requires Valid() && n <= u2cLen - u2cOff
      modifies this`u2cOff, this`u2cLen
      ensures Valid() && Abs() == old(Abs()).(u2c := old(Abs()).u2c[n..])
    {
      ghost var rest := u2c[u2cOff + n..u2cLen];
      assert u2c[u2cOff..u2cLen][n..] == rest;
      u2cOff := u2cOff + n;
      if u2cOff == u2cLen { u2cOff, u2cLen := 0, 0; }
      assert u2c[u2cOff..u2cLen] == rest;
    }

    method HandleSent(to: Side, ret: nat, now: int)
      requires Valid() && SendSrc(Abs(), to) != []
      modifies this
      ensures Valid() && Abs() == Delivered(old(Abs()), to, Sent(ret), now)
    {
      if to.Up? {
        TakeOutUp(Min(ret, c2uLen - c2uOff));
      } else {
        TakeOutClient(Min(ret, u2cLen - u2cOff));
      }
      SentAfter(to, now);
    }

    /** What follows the bytes: a drained flush closes, a relay was active. */
    method SentAfter(to: Side, now: int)
      requires Valid() && IsLive(Abs())
      modifies this`phase, this`reason, this`clk
      ensures Valid()
      ensures var s := old(Abs());
        Abs() == if s.phase.Relay? then Touch(s, now)
                 else if to.Client? && s.phase.Flush? && s.u2c == [] then CloseSlot(s, s.flushReason)
                 else s
    {
      if to.Client? && phase.Flush? && u2cLen == 0 { phase, reason := Closed, flushReason; }
      if phase.Relay? { clk := Touched(clk, now); }
    }

    /** onSend. The count is clamped to the pending bytes. */
    method HandleSend(to: Side, ret: int, e: Errno, now: int)
      requires Valid()
      // sendSrc offered bytes toward this side
      requires ret > 0 ==> SendSrc(Abs(), to) != []
      modifies this, c2u, u2c
      ensures Valid()
      ensures Abs() == OnSend(old(Abs()), to,
                              if ret > 0 then Sent(ret) else if ret == 0 then NoProgress else SendErr(e), now)
    {
      if phase.Free? || phase.Closed? { return; }
      if ret > 0 {
        HandleSent(to, ret, now);
      } else if ret < 0 && !NotYet(e) {
        Close(if phase.Flush? then flushReason else IoError);
      }
      Update(now);
    }

    method HandleConnectStarted(fd: int, now: int)
      requires Valid()
      modifies this
      ensures Valid() && Abs() == OnConnectStarted(old(Abs()), fd, now)
    {
      if !phase.NeedConnect? { return; }
      upFd, phase := fd, Connecting;
      clk := clk.(phaseStartMs := now);
    }

    method HandleConnectResult(ok: bool, now: int)
      requires Valid()
      modifies this, u2c
      ensures Valid() && Abs() == OnConnectResult(old(Abs()), ok, now)
    {
      if !phase.NeedConnect? && !phase.Connecting? { return; }
      if !ok {
        Queue(REPLY_FAIL);
        Flushing(ConnectFail, now);
        return;
      }
      Queue(REPLY_OK);
      phase := Relay;
      clk := clk.(phaseStartMs := now, lastActivityMs := now);
    }

    method HandleTimer(t: Timing, now: int)
      requires Valid()
      modifies this, u2c
      ensures Valid() && Abs() == OnTimer(old(Abs()), t, now)
    {
      var inPhase := Elapsed(now, clk.phaseStartMs);
      match phase
      case Greeting => if inPhase >= t.greetingMs { Close(HandshakeTimeout); }
      case Request => if inPhase >= t.requestMs { Close(HandshakeTimeout); }
      case NeedConnect =>
        if inPhase >= t.connectMs { Queue(REPLY_FAIL); Flushing(ConnectTimeout, now); }
      case Connecting =>
        if inPhase >= t.connectMs { Queue(REPLY_FAIL); Flushing(ConnectTimeout, now); }
      case Relay =>
        if Elapsed(now, clk.lastActivityMs) >= t.idleMs {
          Close(Idle);
        } else if clk.halfClosing && Elapsed(now, clk.halfCloseStartMs) >= t.halfCloseMs {
          Close(HalfCloseTimeout);
        } else if fin.graceUp && Elapsed(now, clk.graceStartMs) >= clk.finGraceMs {
          fin := fin.(graceUp := false, pendShutUp := true);
        }
      case Flush => if inPhase >= t.flushMs { Close(flushReason); }
      case _ =>
    }

    // ---- the shim around the core ------------------------------------------------------------

    /** recv() leaves its bytes behind the pending ones. */
    method Land(from: Side, at: nat, bytes: seq<Byte>)
      requires Valid() && 0 < |bytes| && at == (if from.Client? then c2uLen else u2cLen)
      requires at + |bytes| <= BUF_SIZE
      modifies c2u, u2c
      ensures Valid() && Abs() == old(Abs()) && Got(from, |bytes|, EAGAIN) == Data(bytes)
    {
      ghost var up, down := c2u[c2uOff..c2uLen], u2c[u2cOff..u2cLen];
      var dst := if from.Client? then c2u else u2c;
      forall i | 0 <= i < |bytes| { dst[at + i] := bytes[i]; }
      assert dst[at..at + |bytes|] == bytes;
      assert c2u[c2uOff..c2uLen] == up;
      assert u2c[u2cOff..u2cLen] == down;
    }

    /** doRecv: recv() into the offered destination. `wire` is what the socket held; the bytes land
        in the buffer, behind whatever is pending, before the core hears of them. */
    method DoRecv(from: Side, wire: RecvResult, now: int)
      requires Valid()
      requires wire.Data? && Room(Abs(), from) > 0 ==> 0 < |wire.bytes| <= Room(Abs(), from)
      modifies this, c2u, u2c
      ensures Valid()
      ensures Abs() == if old(Room(Abs(), from)) == 0 then old(Abs()) else OnRecv(old(Abs()), from, wire, now)
    {
      var at, room := RecvDest(from);
      if room == 0 { return; }
      match wire
      case Data(bytes) =>
        Land(from, at, bytes);
        HandleRecv(from, |bytes|, EAGAIN, now);
      case Eof => HandleRecv(from, 0, EAGAIN, now);
      case RecvErr(e) => HandleRecv(from, -1, e, now);
    }

    /** drainAndClose reads off a socket into the buffer that feeds it; `junk` is what the reads left
        there. An armed FIN means that buffer is drained, so no pending byte is overwritten. */
    method Drain(side: Side, junk: seq<Byte>)
      requires Valid() && |junk| <= BUF_SIZE
      requires (if side.Up? then Abs().c2u else Abs().u2c) == []
      modifies c2u, u2c
      ensures Valid() && Abs() == old(Abs())
    {
      var scratch := if side.Client? then u2c else c2u;
      forall i | 0 <= i < |junk| { scratch[i] := junk[i]; }
    }

    /** onSideClosed, once the descriptor is gone. */
    method SideClosed(side: Side, now: int)
      requires Valid()
      modifies this
      ensures Valid()
      ensures var s := old(Abs());
        Abs() == OnSideClosed(if side.Client? then s.(clientFd := NO_FD) else s.(upFd := NO_FD), side, now)
    {
      if side.Client? { clientFd := NO_FD; } else { upFd := NO_FD; }
      fin := ReadEnded(fin, side);
      Update(now);
    }

    /** forwardFin: a FIN toward a peer that is still open drains and closes the descriptor. */
    method DoForwardFin(side: Side, junk: seq<Byte>, now: int) returns (a: FinAction)
      requires Valid() && |junk| <= BUF_SIZE
      requires if side.Up? then fin.pendShutUp ==> Abs().c2u == [] else fin.pendShutClient ==> Abs().u2c == []
      modifies this, c2u, u2c
      ensures Valid() && Abs() == ForwardFin(old(Abs()), side, now)
      ensures a == TakeFin(old(fin), side).1
    {
      var (f, act) := TakeFin(fin, side);
      fin, a := f, act;
      if !a.CloseSide? { return; }
      Drain(side, junk);
      SideClosed(side, now);
    }
  }
}
