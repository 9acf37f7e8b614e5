/**
 What every run of a relay slot keeps: no byte is lost, duplicated or reordered, the handshake does
 not depend on how its bytes were segmented, and each FIN is forwarded once and at the right time.

 A `Run` is a slot together with the history of what crossed its two sockets. `Legal` is the
 contract of the select loop around it (src/esp32/vpn_wireguard.cpp:322-347, 372-415, 524-549): it
 receives only into the room it was offered, sends only bytes it was given, and starts a connect
 with a descriptor select() can watch before it reports the connect's success.
 */
module RelayRuns {
  import opened Prelude
  import opened Socks5
  import opened RelayModel

  datatype Run = Run(
    s: Slot,
    clientIn: seq<Byte>,      // read from the client
    upIn: seq<Byte>,          // read from the upstream
    upOut: seq<Byte>,         // sent to the upstream
    clientOut: seq<Byte>,     // sent to the client
    kept: nat,                // how many bytes of upIn were taken before the relay began to drop
    joined: bool,             // Relay was reached
    ends: Ends)

  /** End-of-stream seen on each socket, and how often each kind of FIN was handed out toward it. */
  datatype Ends = Ends(clientEof: bool, upEof: bool,
                       clientHalfCloses: nat, clientCloses: nat, upHalfCloses: nat, upCloses: nat)

  datatype Event =
    | Recv(side: Side, got: RecvResult, now: int)
    | Send(to: Side, put: SendResult, now: int)
    | ConnectStarted(fd: int, now: int)
    | ConnectResult(ok: bool, now: int)
    | Timer(t: Timing, now: int)
    | Fin(side: Side, now: int)
    | ForceClose(why: CloseReason)

  predicate Legal(s: Slot, e: Event, fdSetSize: int) {
    match e
    case Recv(side, got, _) =>
      Room(s, side) > 0 && (got.Data? ==> 0 < |got.bytes| <= Room(s, side))
    case Send(to, put, _) =>
      SendSrc(s, to) != [] && (put.Sent? ==> 0 < put.n <= |SendSrc(s, to)|)
    case ConnectStarted(fd, _) => FdInRange(fd, fdSetSize)
    case ConnectResult(ok, _) => ok ==> !s.phase.NeedConnect?
    case ForceClose(why) => !why.Done?
    case _ => true
  }

  function Start(clientFd: int, finGraceMs: U32, now: int): Run {
    Run(SlotInit(clientFd, finGraceMs, now), [], [], [], [], 0, false, Ends(false, false, 0, 0, 0, 0))
  }

  function StepSlot(s: Slot, e: Event): Slot {
    match e
    case Recv(side, got, now) => OnRecv(s, side, got, now)
    case Send(to, put, now) => OnSend(s, to, put, now)
    case ConnectStarted(fd, now) => OnConnectStarted(s, fd, now)
    case ConnectResult(ok, now) => OnConnectResult(s, ok, now)
    case Timer(t, now) => OnTimer(s, t, now)
    case Fin(side, now) => ForwardFin(s, side, now)
    case ForceClose(why) => CloseSlot(s, why)
  }

  function SawEof(e: Ends, side: Side): Ends {
    match side
    case Client => e.(clientEof := true)
    case Up => e.(upEof := true)
  }

  function HandOut(e: Ends, side: Side, a: FinAction): Ends {
    match (side, a)
    case (Client, HalfClose) => e.(clientHalfCloses := e.clientHalfCloses + 1)
    case (Client, CloseSide) => e.(clientCloses := e.clientCloses + 1)
    case (Up, HalfClose) => e.(upHalfCloses := e.upHalfCloses + 1)
    case (Up, CloseSide) => e.(upCloses := e.upCloses + 1)
    case (_, NoFin) => e
  }

  /** The history an event leaves behind; the slot itself moves by `StepSlot`. */
  function Step(r: Run, e: Event): Run {
    var s' := StepSlot(r.s, e);
    var r1 := r.(s := s', joined := r.joined || s'.phase.Relay?);
    match e
    case Recv(Client, Data(bytes), _) => r1.(clientIn := r.clientIn + bytes)
    case Recv(Up, Data(bytes), _) =>
      r1.(upIn := r.upIn + bytes, kept := if r.s.fin.dropUp then r.kept else r.kept + |bytes|)
    case Recv(side, Eof, _) => r1.(ends := SawEof(r.ends, side))
    case Send(Up, Sent(n), _) => r1.(upOut := r.upOut + r.s.c2u[..Min(n, |r.s.c2u|)])
    case Send(Client, Sent(n), _) => r1.(clientOut := r.clientOut + r.s.u2c[..Min(n, |r.s.u2c|)])
    case Fin(side, _) => r1.(ends := HandOut(r.ends, side, TakeFin(r.s.fin, side).1))
    case _ => r1
  }

  ghost predicate LegalRun(r: Run, es: seq<Event>, fdSetSize: int)
    decreases |es|
  {
    es == [] || (Legal(r.s, es[0], fdSetSize) && LegalRun(Step(r, es[0]), es[1..], fdSetSize))
  }

  ghost function RunAll(r: Run, es: seq<Event>): Run
    decreases |es|
  {
    if es == [] then r else RunAll(Step(r, es[0]), es[1..])
  }

  // ---- the handshake as a function of the whole client stream ---------------------------------

  datatype Handshake =
    | AwaitGreeting
    | AwaitRequest(used: nat)
    | BadGreeting
    | BadRequest
    | Accepted(used: nat, req: ConnectRequest)

  function ParseHandshake(stream: seq<Byte>): (h: Handshake)
    ensures h.AwaitRequest? || h.Accepted? ==> h.used <= |stream|
  {
    match ParseGreeting(stream)
    case GreetingNeedMore => AwaitGreeting
    case GreetingOk(g) =>
      (match ParseConnect(stream[g..])
       case ConnectNeedMore => AwaitRequest(g)
       case ConnectOk(c, req) => Accepted(g + c, req)
       case _ => BadRequest)
    case _ => BadGreeting
  }

  /** An accepted stream is one greeting message, one CONNECT message, then payload. */
  lemma AcceptedMeans(stream: seq<Byte>)
    requires ParseHandshake(stream).Accepted?
    ensures exists g: nat, n: nat ::
      && g <= n == ParseHandshake(stream).used <= |stream|
      && IsGreeting(stream[..g]) && IsConnect(stream[g..n], ParseHandshake(stream).req)
  {
    var g := ParseGreeting(stream).used;
    var c := ParseConnect(stream[g..]).used;
    GreetingExact(stream, g);
    ConnectExact(stream[g..], c, ParseHandshake(stream).req);
    assert stream[g..][..c] == stream[g..g + c];
  }

  lemma HandshakeStable(stream: seq<Byte>, more: seq<Byte>)
    ensures !ParseHandshake(stream).AwaitGreeting? && !ParseHandshake(stream).AwaitRequest? ==>
              ParseHandshake(stream + more) == ParseHandshake(stream)
    ensures ParseHandshake(stream).AwaitRequest? ==>
              ParseGreeting(stream + more) == ParseGreeting(stream)
  {
    if !ParseGreeting(stream).GreetingNeedMore? {
      GreetingStable(stream, more);
      if ParseGreeting(stream).GreetingOk? {
        var g := ParseGreeting(stream).used;
        assert (stream + more)[g..] == stream[g..] + more;
        if !ParseConnect(stream[g..]).ConnectNeedMore? {
          ConnectStable(stream[g..], more);
        }
      }
    }
  }

  // ---- the invariant -------------------------------------------------------------------------

  /** Everything queued for the client so far, sent or pending. */
  function Replies(r: Run): seq<Byte> {
    r.clientOut + r.s.u2c
  }

  ghost predicate BeforeRelay(r: Run) {
    var s := r.s;
    var h := ParseHandshake(r.clientIn);
    && r.upIn == [] && r.upOut == [] && r.kept == 0
    && match s.phase
       case Greeting => h.AwaitGreeting? && s.c2u == r.clientIn && Replies(r) == []
       case Request => h.AwaitRequest? && s.c2u == r.clientIn[h.used..] && Replies(r) == METHOD_OK
       case NeedConnect =>
         h.Accepted? && h.req == s.req && s.c2u == r.clientIn[h.used..] && Replies(r) == METHOD_OK
       case Connecting =>
         h.Accepted? && h.req == s.req && s.c2u == r.clientIn[h.used..] && Replies(r) == METHOD_OK
       case Flush =>
         && s.c2u == []
         && !s.flushReason.Done?
         && Replies(r) == (if h.BadGreeting? then METHOD_NONE else METHOD_OK + REPLY_FAIL)
         && (if s.flushReason.HandshakeBad? then h.BadGreeting? || h.BadRequest? else h.Accepted?)
       case Closed => !s.reason.Done?
       case Relay => false
       case Free => false
  }

  ghost predicate InRelay(r: Run) {
    var s := r.s;
    var h := ParseHandshake(r.clientIn);
    && (s.phase.Relay? || s.phase.Closed?)
    && h.Accepted? && h.req == s.req
    && r.clientIn[h.used..] == r.upOut + s.c2u
    && r.kept <= |r.upIn|
    && (!s.fin.dropUp ==> r.kept == |r.upIn|)
    && Replies(r) == METHOD_OK + REPLY_OK + r.upIn[..r.kept]
    && (s.phase.Closed? && s.reason.Done? ==>
          s.c2u == [] && s.u2c == [] && !s.fin.clientRdOpen && !s.fin.upRdOpen)
  }

  ghost predicate Streams(r: Run) {
    && |r.s.c2u| <= BUF_SIZE
    && |r.s.u2c| <= BUF_SIZE
    && if r.joined then InRelay(r) else BeforeRelay(r)
  }

  /** The FIN discipline, on the flags alone. */
  ghost predicate FinOk(f: FinState, c2uEmpty: bool, u2cEmpty: bool, e: Ends) {
    // a source has ended only through its own FIN or because its descriptor was closed on purpose
    && (!f.clientRdOpen ==> e.clientEof || e.clientCloses > 0)
    && (!f.upRdOpen ==> e.upEof || e.upCloses > 0)
    && (e.clientCloses > 0 ==> !f.clientRdOpen)
    && (e.upCloses > 0 ==> !f.upRdOpen)
    // armed, in grace or handed out: the feeding buffer is drained for good
    && (f.pendShutUp || f.graceUp || f.upWrShut ==> !f.clientRdOpen && c2uEmpty)
    && (f.pendShutClient || f.clientWrShut ==> !f.upRdOpen && u2cEmpty)
    && !(f.pendShutUp && f.upWrShut) && !(f.pendShutClient && f.clientWrShut)
    && (f.graceUp ==> !f.pendShutUp && !f.upWrShut && f.dropUp)
    // one FIN per side, and a half-close only toward a peer whose own FIN was read
    && e.upHalfCloses + e.upCloses == (if f.upWrShut then 1 else 0)
    && e.clientHalfCloses + e.clientCloses == (if f.clientWrShut then 1 else 0)
    && (e.upHalfCloses > 0 ==> e.upEof)
    && (e.clientHalfCloses > 0 ==> e.clientEof)
  }

  ghost predicate Fins(r: Run) {
    && FinOk(r.s.fin, r.s.c2u == [], r.s.u2c == [], r.ends)
    && (!r.joined ==> r.s.fin == ALL_OPEN)
  }

  ghost predicate Descriptors(r: Run, fdSetSize: int) {
    && (FdInRange(r.s.clientFd, fdSetSize) || r.ends.clientCloses > 0)
    && (r.s.phase.Connecting? || r.s.phase.Relay? ==>
          FdInRange(r.s.upFd, fdSetSize) || r.ends.upCloses > 0)
  }

  ghost predicate Inv(r: Run, fdSetSize: int) {
    Streams(r) && Fins(r) && Descriptors(r, fdSetSize)
  }

  // ---- every event keeps it ------------------------------------------------------------------

  /** relayUpdate never touches a byte; it arms FINs, opens the grace period and ends the session. */
  lemma UpdateKeeps(r: Run, now: int, fdSetSize: int)
    requires Inv(r, fdSetSize)
    ensures Inv(r.(s := RelayUpdate(r.s, now)), fdSetSize)
  {
  }

  /** The request message, once the greeting (the first g bytes of the stream) has been answered. */
  lemma RequestKeeps(r: Run, g: nat, now: int)
    requires r.s.phase.Request? && !r.joined && r.upIn == [] && r.upOut == [] && r.kept == 0
    requires ParseGreeting(r.clientIn) == GreetingOk(g) && r.s.c2u == r.clientIn[g..]
    requires Replies(r) == METHOD_OK && |r.s.c2u| <= BUF_SIZE && |r.s.u2c| <= 2
    ensures Streams(r.(s := AdvanceRequest(r.s, now)))
  {
    assert r.clientOut + (r.s.u2c + REPLY_FAIL) == Replies(r) + REPLY_FAIL;
    if ParseConnect(r.s.c2u).ConnectOk? {
      var c := ParseConnect(r.s.c2u).used;
      assert r.s.c2u[c..] == r.clientIn[g + c..];
    }
  }

  lemma GreetingKeeps(r: Run, now: int)
    requires r.s.phase.Greeting? && !r.joined && r.upIn == [] && r.upOut == [] && r.kept == 0
    requires r.s.c2u == r.clientIn && r.clientOut == r.s.u2c == [] && |r.s.c2u| <= BUF_SIZE
    ensures Streams(r.(s := Advance(r.s, now)))
  {
    assert [] + METHOD_OK == METHOD_OK && [] + METHOD_NONE == METHOD_NONE;
    if ParseGreeting(r.clientIn).GreetingOk? {
      var g := ParseGreeting(r.clientIn).used;
      RequestKeeps(r.(s := GreetingAnswered(r.s, g, now)), g, now);
    }
  }

  lemma AdvanceKeeps(r: Run, bytes: seq<Byte>, now: int)
    requires Streams(r) && IsHandshake(r.s) && !r.joined
    requires |r.s.c2u| + |bytes| <= BUF_SIZE
    ensures Streams(r.(s := Received(r.s, Client, Data(bytes), now), clientIn := r.clientIn + bytes))
  {
    var r1 := r.(s := r.s.(c2u := r.s.c2u + bytes, clk := r.s.clk.(lastActivityMs := now)),
                 clientIn := r.clientIn + bytes);
    if r.s.phase.Greeting? {
      GreetingKeeps(r1, now);
    } else {
      HandshakeStable(r.clientIn, bytes);
      var g := ParseHandshake(r.clientIn).used;
      assert r1.clientIn[g..] == r.clientIn[g..] + bytes;
      assert |Replies(r)| == |r.clientOut| + |r.s.u2c|;
      RequestKeeps(r1, g, now);
    }
  }

  lemma HandshakeDataKeeps(r: Run, bytes: seq<Byte>, now: int, fdSetSize: int)
    requires Inv(r, fdSetSize) && IsHandshake(r.s) && |r.s.c2u| + |bytes| <= BUF_SIZE
    ensures Inv(r.(s := Received(r.s, Client, Data(bytes), now), clientIn := r.clientIn + bytes), fdSetSize)
  {
    AdvanceKeeps(r, bytes, now);
    AdvanceKeepsFins(r, bytes, now, fdSetSize);
  }

  lemma AdvanceKeepsFins(r: Run, bytes: seq<Byte>, now: int, fdSetSize: int)
    requires Fins(r) && Descriptors(r, fdSetSize) && IsHandshake(r.s) && !r.joined
    ensures var r1 := r.(s := Received(r.s, Client, Data(bytes), now), clientIn := r.clientIn + bytes);
      Fins(r1) && Descriptors(r1, fdSetSize)
  {
  }

  /** Payload behind an accepted handshake only ever extends it. */
  lemma PayloadGrows(stream: seq<Byte>, more: seq<Byte>)
    requires ParseHandshake(stream).Accepted?
    ensures ParseHandshake(stream + more) == ParseHandshake(stream)
    ensures (stream + more)[ParseHandshake(stream).used..] == stream[ParseHandshake(stream).used..] + more
  {
    HandshakeStable(stream, more);
  }

  lemma PayloadKeeps(r: Run, s: Slot, bytes: seq<Byte>)
    requires InRelay(r) && r.joined && r.s.phase.Relay? && r.s.c2u == [] && |r.s.u2c| <= BUF_SIZE
    requires s == r.s.(clk := s.clk, c2u := bytes) && |bytes| <= BUF_SIZE
    ensures Streams(r.(s := s, clientIn := r.clientIn + bytes))
  {
    PayloadGrows(r.clientIn, bytes);
    var used := ParseHandshake(r.clientIn).used;
    assert r.clientIn[used..] == r.upOut;
    assert (r.clientIn + bytes)[used..] == r.upOut + bytes;
  }

  lemma ClientDataKeeps(r: Run, bytes: seq<Byte>, now: int, fdSetSize: int)
    requires Inv(r, fdSetSize) && r.s.phase.Relay? && 0 < |bytes| <= Room(r.s, Client)
    ensures Inv(r.(s := Received(r.s, Client, Data(bytes), now), clientIn := r.clientIn + bytes), fdSetSize)
  {
    assert [] + bytes == bytes;
    PayloadKeeps(r, Received(r.s, Client, Data(bytes), now), bytes);
  }

  function TookUp(r: Run, s: Slot, bytes: seq<Byte>): Run {
    r.(s := s, upIn := r.upIn + bytes, kept := if r.s.fin.dropUp then r.kept else r.kept + |bytes|)
  }

  lemma AnswerKeeps(r: Run, s: Slot, bytes: seq<Byte>)
    requires InRelay(r) && r.joined && r.s.phase.Relay? && r.s.u2c == [] && |r.s.c2u| <= BUF_SIZE
    requires s == r.s.(clk := s.clk, u2c := if r.s.fin.dropUp then [] else bytes) && |bytes| <= BUF_SIZE
    ensures Streams(TookUp(r, s, bytes))
  {
    if r.s.fin.dropUp {
      assert (r.upIn + bytes)[..r.kept] == r.upIn[..r.kept];
    } else {
      assert r.upIn[..r.kept] == r.upIn && (r.upIn + bytes)[..r.kept + |bytes|] == r.upIn + bytes;
      assert METHOD_OK + REPLY_OK + (r.upIn + bytes) == METHOD_OK + REPLY_OK + r.upIn + bytes;
      assert Replies(r) + bytes == r.clientOut + bytes;
    }
  }

  lemma UpDataKeeps(r: Run, bytes: seq<Byte>, now: int, fdSetSize: int)
    requires Inv(r, fdSetSize) && 0 < |bytes| <= Room(r.s, Up)
    ensures Inv(TookUp(r, Received(r.s, Up, Data(bytes), now), bytes), fdSetSize)
  {
    assert [] + bytes == bytes;
    AnswerKeeps(r, Received(r.s, Up, Data(bytes), now), bytes);
  }

  lemma NoDataKeeps(r: Run, side: Side, got: RecvResult, now: int, fdSetSize: int)
    requires Inv(r, fdSetSize) && Room(r.s, side) > 0 && !got.Data?
    ensures Inv(r.(s := Received(r.s, side, got, now),
                   ends := if got.Eof? then SawEof(r.ends, side) else r.ends), fdSetSize)
  {
  }

  lemma SentUpKeeps(r: Run, n: nat, now: int, fdSetSize: int)
    requires Inv(r, fdSetSize) && r.s.phase.Relay? && n <= |r.s.c2u|
    ensures Inv(r.(s := Delivered(r.s, Up, Sent(n), now), upOut := r.upOut + r.s.c2u[..n]), fdSetSize)
  {
    assert r.upOut + r.s.c2u[..n] + r.s.c2u[n..] == r.upOut + r.s.c2u;
  }

  /** Bytes that left for the client were pending for it: the replies are the same. */
  lemma SentRepliesSame(r: Run, s: Slot, n: nat)
    requires n <= |r.s.u2c| && s.u2c == r.s.u2c[n..]
    ensures Replies(r.(s := s, clientOut := r.clientOut + r.s.u2c[..n])) == Replies(r)
  {
    assert r.clientOut + r.s.u2c[..n] + r.s.u2c[n..] == Replies(r);
  }

  /** All of them went out in Flush, or some in any phase. */
  predicate AfterSending(s: Slot, s': Slot, n: nat) {
    && n <= |s.u2c| && s' == s.(clk := s'.clk, phase := s'.phase, reason := s'.reason, u2c := s.u2c[n..])
    && ((s'.phase == s.phase && s'.reason == s.reason)
        || (s'.phase.Closed? && s.phase.Flush? && s'.reason == s.flushReason))
  }

  lemma SentInRelay(r: Run, s: Slot, n: nat)
    requires InRelay(r) && IsLive(r.s) && AfterSending(r.s, s, n)
    ensures InRelay(r.(s := s, clientOut := r.clientOut + r.s.u2c[..n]))
  {
    SentRepliesSame(r, s, n);
  }

  lemma SentBeforeRelay(r: Run, s: Slot, n: nat)
    requires BeforeRelay(r) && IsLive(r.s) && AfterSending(r.s, s, n)
    ensures BeforeRelay(r.(s := s, clientOut := r.clientOut + r.s.u2c[..n]))
  {
    SentRepliesSame(r, s, n);
  }

  lemma SentClientKeeps(r: Run, n: nat, now: int, fdSetSize: int)
    requires Inv(r, fdSetSize) && IsLive(r.s) && n <= |r.s.u2c|
    ensures Inv(r.(s := Delivered(r.s, Client, Sent(n), now), clientOut := r.clientOut + r.s.u2c[..n]), fdSetSize)
  {
    var s := Delivered(r.s, Client, Sent(n), now);
    assert AfterSending(r.s, s, n);
    if r.joined { SentInRelay(r, s, n); } else { SentBeforeRelay(r, s, n); }
  }

  lemma NotSentKeeps(r: Run, to: Side, put: SendResult, now: int, fdSetSize: int)
    requires Inv(r, fdSetSize) && !put.Sent?
    ensures Inv(r.(s := Delivered(r.s, to, put, now)), fdSetSize)
  {
  }

  lemma FailKeeps(r: Run, why: CloseReason, now: int, fdSetSize: int)
    requires Inv(r, fdSetSize) && (r.s.phase.NeedConnect? || r.s.phase.Connecting?)
    requires !why.Done? && !why.HandshakeBad?
    ensures Inv(r.(s := ConnectFailed(r.s, why, now)), fdSetSize)
  {
    assert r.clientOut + (r.s.u2c + REPLY_FAIL) == Replies(r) + REPLY_FAIL;
  }

  lemma ConnectedStreams(r: Run, s: Slot)
    requires BeforeRelay(r) && r.s.phase.Connecting?
    requires s == r.s.(phase := Relay, clk := s.clk, u2c := r.s.u2c + REPLY_OK)
    requires !r.s.fin.dropUp
    ensures InRelay(r.(s := s, joined := true))
  {
    assert r.clientOut + (r.s.u2c + REPLY_OK) == Replies(r) + REPLY_OK;
    assert METHOD_OK + REPLY_OK + r.upIn[..0] == METHOD_OK + REPLY_OK;
    assert r.upOut + r.s.c2u == r.s.c2u;
  }

  lemma ConnectedKeeps(r: Run, now: int, fdSetSize: int)
    requires Inv(r, fdSetSize) && r.s.phase.Connecting?
    ensures Inv(r.(s := OnConnectResult(r.s, true, now), joined := true), fdSetSize)
  {
    assert |r.s.u2c| <= |Replies(r)| == 2;
    ConnectedStreams(r, OnConnectResult(r.s, true, now));
  }

  lemma TimerKeeps(r: Run, t: Timing, now: int, fdSetSize: int)
    requires Inv(r, fdSetSize)
    ensures Inv(r.(s := OnTimer(r.s, t, now)), fdSetSize)
  {
    if r.s.phase.NeedConnect? || r.s.phase.Connecting? {
      FailKeeps(r, ConnectTimeout, now, fdSetSize);
    }
  }

  lemma TakenKeeps(r: Run, side: Side, fdSetSize: int)
    requires Inv(r, fdSetSize)
    ensures
      var (f, a) := TakeFin(r.s.fin, side);
      var s := r.s.(fin := if a.CloseSide? then ReadEnded(f, side) else f,
                    clientFd := if a.CloseSide? && side.Client? then NO_FD else r.s.clientFd,
                    upFd := if a.CloseSide? && side.Up? then NO_FD else r.s.upFd);
      Inv(r.(s := s, ends := HandOut(r.ends, side, a)), fdSetSize)
  {
  }

  lemma FinKeeps(r: Run, side: Side, now: int, fdSetSize: int)
    requires Inv(r, fdSetSize)
    ensures Inv(Step(r, Fin(side, now)), fdSetSize)
  {
    var (f, a) := TakeFin(r.s.fin, side);
    TakenKeeps(r, side, fdSetSize);
    if a.CloseSide? {
      var s := r.s.(fin := ReadEnded(f, side),
                    clientFd := if side.Client? then NO_FD else r.s.clientFd,
                    upFd := if side.Up? then NO_FD else r.s.upFd);
      UpdateKeeps(r.(s := s, ends := HandOut(r.ends, side, a)), now, fdSetSize);
    }
  }

  lemma RecvKeeps(r: Run, side: Side, got: RecvResult, now: int, fdSetSize: int)
    requires Inv(r, fdSetSize) && Legal(r.s, Recv(side, got, now), fdSetSize)
    ensures Inv(Step(r, Recv(side, got, now)), fdSetSize)
  {
    var s := Received(r.s, side, got, now);
    if got.Data? {
      if side.Up? {
        UpDataKeeps(r, got.bytes, now, fdSetSize);
        UpdateKeeps(TookUp(r, s, got.bytes), now, fdSetSize);
      } else {
        if IsHandshake(r.s) {
          HandshakeDataKeeps(r, got.bytes, now, fdSetSize);
        } else {
          ClientDataKeeps(r, got.bytes, now, fdSetSize);
        }
        UpdateKeeps(r.(s := s, clientIn := r.clientIn + got.bytes), now, fdSetSize);
      }
    } else {
      NoDataKeeps(r, side, got, now, fdSetSize);
      UpdateKeeps(r.(s := s, ends := if got.Eof? then SawEof(r.ends, side) else r.ends), now, fdSetSize);
    }
  }

  lemma SendUpKeeps(r: Run, n: nat, now: int, fdSetSize: int)
    requires Inv(r, fdSetSize) && Legal(r.s, Send(Up, Sent(n), now), fdSetSize)
    ensures Inv(Step(r, Send(Up, Sent(n), now)), fdSetSize)
  {
    SentUpKeeps(r, n, now, fdSetSize);
    UpdateKeeps(r.(s := Delivered(r.s, Up, Sent(n), now), upOut := r.upOut + r.s.c2u[..n]), now, fdSetSize);
  }

  lemma SendClientKeeps(r: Run, n: nat, now: int, fdSetSize: int)
    requires Inv(r, fdSetSize) && Legal(r.s, Send(Client, Sent(n), now), fdSetSize)
    ensures Inv(Step(r, Send(Client, Sent(n), now)), fdSetSize)
  {
    SentClientKeeps(r, n, now, fdSetSize);
    UpdateKeeps(r.(s := Delivered(r.s, Client, Sent(n), now), clientOut := r.clientOut + r.s.u2c[..n]),
                now, fdSetSize);
  }

  lemma SendKeeps(r: Run, to: Side, put: SendResult, now: int, fdSetSize: int)
    requires Inv(r, fdSetSize) && Legal(r.s, Send(to, put, now), fdSetSize)
    ensures Inv(Step(r, Send(to, put, now)), fdSetSize)
  {
    if !put.Sent? {
      NotSentKeeps(r, to, put, now, fdSetSize);
      UpdateKeeps(r.(s := Delivered(r.s, to, put, now)), now, fdSetSize);
    } else if to.Up? {
      SendUpKeeps(r, put.n, now, fdSetSize);
    } else {
      SendClientKeeps(r, put.n, now, fdSetSize);
    }
  }

  lemma StepKeeps(r: Run, e: Event, fdSetSize: int)
    requires Inv(r, fdSetSize) && Legal(r.s, e, fdSetSize)
    ensures Inv(Step(r, e), fdSetSize)
  {
    match e
    case Recv(side, got, now) => RecvKeeps(r, side, got, now, fdSetSize);
    case Send(to, put, now) => SendKeeps(r, to, put, now, fdSetSize);
    case ConnectResult(ok, now) =>
      if r.s.phase.NeedConnect? || r.s.phase.Connecting? {
        if ok { ConnectedKeeps(r, now, fdSetSize); } else { FailKeeps(r, ConnectFail, now, fdSetSize); }
      }
    case Timer(t, now) => TimerKeeps(r, t, now, fdSetSize);
    case Fin(side, now) => FinKeeps(r, side, now, fdSetSize);
    case _ =>
  }

  lemma {:induction false} RunKeeps(r: Run, es: seq<Event>, fdSetSize: int)
    requires Inv(r, fdSetSize) && LegalRun(r, es, fdSetSize)
    ensures Inv(RunAll(r, es), fdSetSize)
    decreases |es|
  {
    if es != [] {
      StepKeeps(r, es[0], fdSetSize);
      RunKeeps(Step(r, es[0]), es[1..], fdSetSize);
    }
  }

  /** Some legal run of a freshly accepted slot ends in r. */
  ghost predicate Reachable(r: Run, fdSetSize: int) {
    exists clientFd: int, finGraceMs: U32, now: int, es: seq<Event> ::
      && FdInRange(clientFd, fdSetSize)
      && LegalRun(Start(clientFd, finGraceMs, now), es, fdSetSize)
      && r == RunAll(Start(clientFd, finGraceMs, now), es)
  }

  lemma ReachableKeeps(r: Run, fdSetSize: int)
    requires Reachable(r, fdSetSize)
    ensures Inv(r, fdSetSize)
  {
    var clientFd: int, finGraceMs: U32, now: int, es: seq<Event> :|
      && FdInRange(clientFd, fdSetSize)
      && LegalRun(Start(clientFd, finGraceMs, now), es, fdSetSize)
      && r == RunAll(Start(clientFd, finGraceMs, now), es);
    RunKeeps(Start(clientFd, finGraceMs, now), es, fdSetSize);
  }

  // ---- the theorems --------------------------------------------------------------------------

  /** The client's stream is a greeting, a CONNECT request and a payload split exactly into what
      went upstream and what is still buffered. */
  ghost predicate ForwardsExactly(r: Run) {
    exists g: nat, n: nat ::
      && g <= n <= |r.clientIn|
      && IsGreeting(r.clientIn[..g])
      && IsConnect(r.clientIn[g..n], r.s.req)
      && r.clientIn[n..] == r.upOut + r.s.c2u
  }

  /** Over every run of a slot, whatever the sizes of the individual reads and writes. */
  lemma StreamsConserved(r: Run, fdSetSize: int)
    requires Reachable(r, fdSetSize)
    ensures
      && (!r.joined ==> r.upOut == [] && !r.s.phase.Relay?)
      && (r.joined ==>
            && ForwardsExactly(r)
            && r.kept <= |r.upIn| && (!r.s.fin.dropUp ==> r.kept == |r.upIn|)
            && r.clientOut + r.s.u2c == METHOD_OK + REPLY_OK + r.upIn[..r.kept])
      && (r.s.phase.Closed? && r.s.reason.Done? ==> r.joined && r.s.c2u == [] && r.s.u2c == [])
  {
    ReachableKeeps(r, fdSetSize);
    StreamFacts(r);
  }

  lemma StreamFacts(r: Run)
    requires Streams(r)
    ensures r.joined ==> ForwardsExactly(r)
    ensures !r.joined ==> !r.s.reason.Done? || !r.s.phase.Closed?
  {
    if r.joined {
      AcceptedMeans(r.clientIn);
    }
  }

  /** How far a slot has come before it relays, apart from its clocks. */
  datatype Progress = Progress(phase: Phase, c2u: seq<Byte>, replies: seq<Byte>)

  function ProgressOf(stream: seq<Byte>): Progress {
    match ParseHandshake(stream)
    case AwaitGreeting => Progress(Greeting, stream, [])
    case AwaitRequest(used) => Progress(Request, stream[used..], METHOD_OK)
    case BadGreeting => Progress(Flush, [], METHOD_NONE)
    case BadRequest => Progress(Flush, [], METHOD_OK + REPLY_FAIL)
    case Accepted(used, _) => Progress(NeedConnect, stream[used..], METHOD_OK)
  }

  /** Segmentation independence: up to NeedConnect (or the refusal) a slot's phase, its pipelined
      payload, its parsed request and its replies are a function of the bytes read from the client,
      not of how many reads they came in; and the handshake always leaves room to read on. */
  lemma HandshakeIgnoresSegmentation(r: Run, fdSetSize: int)
    requires Reachable(r, fdSetSize)
    ensures
      var p := r.s.phase;
      && (p.Greeting? || p.Request? || p.NeedConnect? || (p.Flush? && r.s.flushReason.HandshakeBad?) ==>
            ProgressOf(r.clientIn) == Progress(p, r.s.c2u, r.clientOut + r.s.u2c))
      && (p.NeedConnect? ==> ParseHandshake(r.clientIn).req == r.s.req)
      && (p.Greeting? || p.Request? ==> Room(r.s, Client) >= 762)
  {
    ReachableKeeps(r, fdSetSize);
  }

  /** A handshake is at most 519 bytes long, and no reply is ever dropped for want of room. */
  lemma RepliesFit(r: Run, d: seq<Byte>)
    requires Streams(r) && !r.joined && IsLive(r.s) && |d| <= 10
    ensures ParseHandshake(r.clientIn).Accepted? ==> ParseHandshake(r.clientIn).used <= 519
    ensures QueueClient(r.s, d).u2c == r.s.u2c + d
  {
    assert |Replies(r)| == |r.clientOut| + |r.s.u2c|;
  }

  /** Over every run: each side's FIN is handed out at most once, only once the buffer that feeds
      that side is drained and its source has ended, and a half-close only toward a peer whose own
      FIN was read. */
  lemma FinDiscipline(r: Run, fdSetSize: int)
    requires Reachable(r, fdSetSize)
    ensures
      var (s, e) := (r.s, r.ends);
      var (up, client) := (TakeFin(s.fin, Up).1, TakeFin(s.fin, Client).1);
      && e.upHalfCloses + e.upCloses <= 1
      && e.clientHalfCloses + e.clientCloses <= 1
      && (!up.NoFin? ==> e.upHalfCloses + e.upCloses == 0 && s.c2u == [] && (e.clientEof || e.clientCloses == 1))
      && (!client.NoFin? ==> e.clientHalfCloses + e.clientCloses == 0 && s.u2c == [] && (e.upEof || e.upCloses == 1))
      && (up.HalfClose? ==> e.upEof)
      && (client.HalfClose? ==> e.clientEof)
      && (s.fin.graceUp ==> !s.fin.pendShutUp && !s.fin.upWrShut)
  {
    ReachableKeeps(r, fdSetSize);
  }

  /** Over every run: a descriptor that was closed on purpose is never watched again, so it never
      marks its slot bad, and neither does any other. */
  lemma ClosedSideUnwatched(r: Run, fdSetSize: int)
    requires Reachable(r, fdSetSize)
    ensures
      var w := SlotWants(r.s);
      && (r.ends.clientCloses > 0 ==> !w.clientRd && !w.clientWr)
      && (r.ends.upCloses > 0 ==> !w.upRd && !w.upWr)
      && !SlotBad(r.s, fdSetSize)
  {
    ReachableKeeps(r, fdSetSize);
  }

  /** Over every run select() is asked for exactly what the slot can use: readable where there is room
      and the source is open, writable where bytes are pending. So no wakeup is wasted and no pending
      byte or free room goes unwatched. */
  lemma WantsMatchOffers(r: Run, fdSetSize: int)
    requires Reachable(r, fdSetSize)
    ensures
      var (s, w) := (r.s, SlotWants(r.s));
      && (w.clientRd <==> Room(s, Client) > 0)
      && (w.upRd <==> Room(s, Up) > 0)
      && (w.clientWr <==> SendSrc(s, Client) != [])
      && (w.upWr <==> SendSrc(s, Up) != [] || s.phase.Connecting?)
  {
    ReachableKeeps(r, fdSetSize);
    HandshakeIgnoresSegmentation(r, fdSetSize);
  }

  /** A refused client is closed, with the reason of its refusal, once the whole refusal has left: the
      method refusal alone, or the method answer and the failure reply. */
  lemma RefusalIsAnswered(r: Run, now: int, fdSetSize: int)
    requires Reachable(r, fdSetSize) && r.s.phase.Flush? && r.s.u2c != []
    ensures
      var r' := Step(r, Send(Client, Sent(|r.s.u2c|), now));
      && r'.s.phase.Closed? && r'.s.reason == r.s.flushReason
      && r'.clientOut == (if ParseHandshake(r.clientIn).BadGreeting? then METHOD_NONE else METHOD_OK + REPLY_FAIL)
  {
    ReachableKeeps(r, fdSetSize);
    assert r.s.u2c[..|r.s.u2c|] == r.s.u2c;
  }

  // ---- no FIN is forgotten -------------------------------------------------------------------

  /** In Relay a drained direction whose source has ended owes its FIN: it has been handed out, is
      armed, or (toward the upstream) waits out its grace period; and a finished session is closed. */
  predicate NothingForgotten(s: Slot) {
    && (s.phase.Relay? ==>
          && (!s.fin.clientRdOpen && s.c2u == [] ==> s.fin.upWrShut || s.fin.pendShutUp || s.fin.graceUp)
          && (!s.fin.upRdOpen && s.u2c == [] ==> s.fin.clientWrShut || s.fin.pendShutClient)
          && !Finished(s))
    && (IsLive(s) && !s.phase.Relay? && !s.phase.Flush? ==> s.fin == ALL_OPEN)
  }

  lemma UpdateForgetsNothing(s: Slot, now: int)
    requires IsLive(s) && !s.phase.Relay? && !s.phase.Flush? ==> s.fin == ALL_OPEN
    ensures NothingForgotten(RelayUpdate(s, now))
  {
  }

  lemma StepForgetsNothing(s: Slot, e: Event)
    requires NothingForgotten(s)
    ensures NothingForgotten(StepSlot(s, e))
  {
    match e
    case Recv(side, got, now) => UpdateForgetsNothing(Received(s, side, got, now), now);
    case Send(to, put, now) => UpdateForgetsNothing(Delivered(s, to, put, now), now);
    case Fin(side, now) =>
      var (f, a) := TakeFin(s.fin, side);
      if a.CloseSide? {
        UpdateForgetsNothing(s.(fin := ReadEnded(f, side), clientFd := if side.Client? then NO_FD else s.clientFd,
                                upFd := if side.Up? then NO_FD else s.upFd), now);
      }
    case _ =>
  }

  lemma {:induction false} RunForgetsNothing(r: Run, es: seq<Event>)
    requires NothingForgotten(r.s)
    ensures NothingForgotten(RunAll(r, es).s)
    decreases |es|
  {
    if es != [] {
      StepForgetsNothing(r.s, es[0]);
      RunForgetsNothing(Step(r, es[0]), es[1..]);
    }
  }

  /** Over every run: the FIN a peer is owed is never lost. */
  lemma NoFinForgotten(r: Run, fdSetSize: int)
    requires Reachable(r, fdSetSize)
    ensures NothingForgotten(r.s)
  {
    var clientFd: int, finGraceMs: U32, now: int, es: seq<Event> :|
      && FdInRange(clientFd, fdSetSize)
      && LegalRun(Start(clientFd, finGraceMs, now), es, fdSetSize)
      && r == RunAll(Start(clientFd, finGraceMs, now), es);
    RunForgetsNothing(Start(clientFd, finGraceMs, now), es);
  }
}
