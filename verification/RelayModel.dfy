/**
 The per-client slot of the SOCKS5 relay (lib/fry_core/socks_relay_core.cpp) over sequences: each
 direction's pending bytes are a `seq`, every entry point is a function on slots.

 `RelaySlotImpl` proves that the two 1 KB ring-less buffers with their offsets implement this model;
 `RelayRuns` and `RelayTimers` prove what every run of it keeps.
 */
module RelayModel {
  import opened Prelude
  import opened Socks5

  const BUF_SIZE := 1024
  const NO_FD := -1
  const NO_DEADLINE: U32 := 0xFFFF_FFFF

  const METHOD_OK: seq<Byte> := [5, 0]
  const METHOD_NONE: seq<Byte> := [5, 255]
  const REPLY_OK: seq<Byte> := [5, 0, 0, 1, 0, 0, 0, 0, 0, 0]
  const REPLY_FAIL: seq<Byte> := [5, 1, 0, 1, 0, 0, 0, 0, 0, 0]

  datatype Phase = Free | Greeting | Request | NeedConnect | Connecting | Relay | Flush | Closed

  datatype Side = Client | Up

  datatype CloseReason =
    | NoReason | Done | HandshakeTimeout | HandshakeEof | HandshakeBad | ConnectFail
    | ConnectTimeout | Idle | HalfCloseTimeout | IoError | Evicted | FdGuard

  datatype Timing = Timing(greetingMs: U32, requestMs: U32, connectMs: U32, flushMs: U32,
                           idleMs: U32, halfCloseMs: U32)

  datatype FinAction = NoFin | HalfClose | CloseSide

  /** Read and write ends of the two sockets, and the FINs owed to each peer. */
  datatype FinState = FinState(
    clientRdOpen: bool,
    upRdOpen: bool,
    pendShutUp: bool,
    pendShutClient: bool,
    upWrShut: bool,
    clientWrShut: bool,
    graceUp: bool,
    dropUp: bool)

  datatype Clocks = Clocks(
    phaseStartMs: int,
    lastActivityMs: int,
    halfClosing: bool,
    halfCloseStartMs: int,
    finGraceMs: U32,
    graceStartMs: int)

  datatype Slot = Slot(
    phase: Phase,
    reason: CloseReason,
    flushReason: CloseReason,
    clientFd: int,
    upFd: int,
    fin: FinState,
    clk: Clocks,
    c2u: seq<Byte>,
    u2c: seq<Byte>,
    req: ConnectRequest)

  // ---- results of system calls ---------------------------------------------------------------

  datatype Errno =
    | EAGAIN | EWOULDBLOCK | EINTR | EINPROGRESS | EALREADY | ENOMEM | ENOBUFS
    | ECONNRESET | EPIPE | ENOTCONN | ECONNABORTED | ECONNREFUSED | ETIMEDOUT | EHOSTUNREACH
    | ENETUNREACH | OtherErrno(code: int)

  predicate NotYet(e: Errno) {
    e.EAGAIN? || e.EWOULDBLOCK? || e.EINTR? || e.EINPROGRESS? || e.EALREADY? || e.ENOMEM? || e.ENOBUFS?
  }

  /** What recv() produced: bytes, end of stream, or an errno. A stale errno next to a
      non-negative return value cannot even be expressed. */
  datatype RecvResult = Data(bytes: seq<Byte>) | Eof | RecvErr(e: Errno)

  /** What send() produced: a positive count, no progress, or an errno. */
  datatype SendResult = Sent(n: nat) | NoProgress | SendErr(e: Errno)

  // ---- building blocks -----------------------------------------------------------------------

  predicate IsHandshake(s: Slot) {
    s.phase.Greeting? || s.phase.Request?
  }

  predicate IsLive(s: Slot) {
    !s.phase.Free? && !s.phase.Closed?
  }

  const ALL_OPEN := FinState(true, true, false, false, false, false, false, false)

  function SlotInit(clientFd: int, finGraceMs: U32, now: int): Slot {
    Slot(Greeting, NoReason, NoReason, clientFd, NO_FD, ALL_OPEN,
         Clocks(now, now, false, 0, finGraceMs, 0), [], [], NO_REQUEST)
  }

  function CloseSlot(s: Slot, why: CloseReason): Slot {
    if s.phase.Closed? then s else s.(phase := Closed, reason := why)
  }

  /** A reply that does not fit is dropped; `RepliesFit` (RelayRuns) shows that never happens. */
  function QueueClient(s: Slot, d: seq<Byte>): Slot {
    if |s.u2c| + |d| > BUF_SIZE then s else s.(u2c := s.u2c + d)
  }

  function EnterFlush(s: Slot, why: CloseReason, now: int): Slot {
    s.(c2u := [], flushReason := why, phase := Flush, clk := s.clk.(phaseStartMs := now))
  }

  function AdvanceRequest(s: Slot, now: int): Slot {
    match ParseConnect(s.c2u)
    case ConnectNeedMore => s
    case ConnectOk(used, req) =>
      s.(req := req, c2u := s.c2u[used..], phase := NeedConnect, clk := s.clk.(phaseStartMs := now))
    case _ => EnterFlush(QueueClient(s, REPLY_FAIL), HandshakeBad, now)
  }

  /** The greeting's answer is queued and its bytes are done with. */
  function GreetingAnswered(s: Slot, used: nat, now: int): Slot
    requires used <= |s.c2u|
  {
    QueueClient(s, METHOD_OK).(c2u := s.c2u[used..], phase := Request, clk := s.clk.(phaseStartMs := now))
  }

  /** Parse as far as the buffered bytes allow, possibly through both handshake messages. */
  function Advance(s: Slot, now: int): Slot {
    if s.phase.Greeting? then
      match ParseGreeting(s.c2u)
      case GreetingNeedMore => s
      case GreetingOk(used) => AdvanceRequest(GreetingAnswered(s, used, now), now)
      case _ => EnterFlush(QueueClient(s, METHOD_NONE), HandshakeBad, now)
    else if s.phase.Request? then AdvanceRequest(s, now)
    else s
  }

  function Touched(c: Clocks, now: int): Clocks {
    c.(lastActivityMs := now, halfCloseStartMs := if c.halfClosing then now else c.halfCloseStartMs)
  }

  function Touch(s: Slot, now: int): Slot {
    s.(clk := Touched(s.clk, now))
  }

  /** The FIN half of relayUpdate: arm each FIN once the buffer that feeds it is drained; a client
      that finished first opens the upstream's grace period instead, and from then on what the
      upstream says is dropped. */
  function ArmFins(f: FinState, c2uEmpty: bool, u2cEmpty: bool, hasGrace: bool): FinState {
    var f1 :=
      if !f.clientRdOpen && c2uEmpty && !f.upWrShut then
        if f.upRdOpen && hasGrace && !f.pendShutUp then f.(graceUp := true, dropUp := f.dropUp || !f.graceUp)
        else f.(graceUp := false, pendShutUp := true)
      else f;
    if !f1.upRdOpen && u2cEmpty && !f1.clientWrShut then f1.(pendShutClient := true) else f1
  }

  predicate Finished(s: Slot) {
    !s.fin.clientRdOpen && !s.fin.upRdOpen && s.c2u == [] && s.u2c == []
  }

  /** relayUpdate: runs after every socket result. */
  function RelayUpdate(s: Slot, now: int): Slot {
    if !s.phase.Relay? then s else
    var f := ArmFins(s.fin, s.c2u == [], s.u2c == [], s.clk.finGraceMs != 0);
    var c := s.clk.(graceStartMs := if f.graceUp && !s.fin.graceUp then now else s.clk.graceStartMs);
    if Finished(s) then s.(fin := f, clk := c, phase := Closed, reason := Done)
    else if (!f.clientRdOpen || !f.upRdOpen) && !c.halfClosing then
      s.(fin := f, clk := c.(halfClosing := true, halfCloseStartMs := now))
    else s.(fin := f, clk := c)
  }

  // ---- entry points --------------------------------------------------------------------------

  /** How many bytes recvDest offers for `side`. */
  function Room(s: Slot, side: Side): nat {
    match side
    case Client =>
      if IsHandshake(s) && |s.c2u| <= BUF_SIZE then BUF_SIZE - |s.c2u|
      else if s.phase.Relay? && s.fin.clientRdOpen && s.c2u == [] then BUF_SIZE
      else 0
    case Up =>
      if s.phase.Relay? && s.fin.upRdOpen && s.u2c == [] then BUF_SIZE else 0
  }

  /** The bytes sendSrc offers toward `to`. */
  function SendSrc(s: Slot, to: Side): seq<Byte> {
    match to
    case Up => if s.phase.Relay? then s.c2u else []
    case Client => if IsLive(s) then s.u2c else []
  }

  function ReadEnded(f: FinState, side: Side): FinState {
    match side
    case Client => f.(clientRdOpen := false)
    case Up => f.(upRdOpen := false)
  }

  /** onRecv before its final relayUpdate. */
  function Received(s: Slot, from: Side, r: RecvResult, now: int): Slot {
    match r
    case Data(bytes) =>
      (match from
       case Client =>
         if IsHandshake(s) then Advance(s.(c2u := s.c2u + bytes, clk := s.clk.(lastActivityMs := now)), now)
         else if s.phase.Relay? then Touch(s.(c2u := s.c2u + bytes), now)
         else s
       case Up =>
         if !s.phase.Relay? then s
         else if s.fin.dropUp then Touch(s, now)
         else Touch(s.(u2c := s.u2c + bytes), now))
    case Eof =>
      if IsHandshake(s) then CloseSlot(s, HandshakeEof)
      else if s.phase.Relay? then Touch(s.(fin := ReadEnded(s.fin, from)), now)
      else s
    case RecvErr(e) =>
      if NotYet(e) then s else CloseSlot(s, if IsHandshake(s) then HandshakeEof else IoError)
  }

  function OnRecv(s: Slot, from: Side, r: RecvResult, now: int): Slot {
    if !IsLive(s) then s else RelayUpdate(Received(s, from, r, now), now)
  }

  /** onSend before its final relayUpdate. */
  function Delivered(s: Slot, to: Side, r: SendResult, now: int): Slot {
    match r
    case Sent(n) =>
      var s1 :=
        if to.Up? then s.(c2u := s.c2u[Min(n, |s.c2u|)..]) else s.(u2c := s.u2c[Min(n, |s.u2c|)..]);
      if s1.phase.Relay? then Touch(s1, now)
      else if to.Client? && s1.phase.Flush? && s1.u2c == [] then CloseSlot(s1, s1.flushReason)
      else s1
    case NoProgress => s
    case SendErr(e) =>
      if NotYet(e) then s else CloseSlot(s, if s.phase.Flush? then s.flushReason else IoError)
  }

  function OnSend(s: Slot, to: Side, r: SendResult, now: int): Slot {
    if !IsLive(s) then s else RelayUpdate(Delivered(s, to, r, now), now)
  }

  function OnConnectStarted(s: Slot, upFd: int, now: int): Slot {
    if !s.phase.NeedConnect? then s else s.(upFd := upFd, phase := Connecting, clk := s.clk.(phaseStartMs := now))
  }

  function ConnectFailed(s: Slot, why: CloseReason, now: int): Slot {
    EnterFlush(QueueClient(s, REPLY_FAIL), why, now)
  }

  function OnConnectResult(s: Slot, ok: bool, now: int): Slot {
    if !s.phase.NeedConnect? && !s.phase.Connecting? then s
    else if !ok then ConnectFailed(s, ConnectFail, now)
    else QueueClient(s, REPLY_OK).(phase := Relay, clk := s.clk.(phaseStartMs := now, lastActivityMs := now))
  }

  function OnTimer(s: Slot, t: Timing, now: int): Slot {
    match s.phase
    case Greeting =>
      if Elapsed(now, s.clk.phaseStartMs) >= t.greetingMs then CloseSlot(s, HandshakeTimeout) else s
    case Request =>
      if Elapsed(now, s.clk.phaseStartMs) >= t.requestMs then CloseSlot(s, HandshakeTimeout) else s
    case NeedConnect =>
      if Elapsed(now, s.clk.phaseStartMs) >= t.connectMs then ConnectFailed(s, ConnectTimeout, now) else s
    case Connecting =>
      if Elapsed(now, s.clk.phaseStartMs) >= t.connectMs then ConnectFailed(s, ConnectTimeout, now) else s
    case Relay =>
      if Elapsed(now, s.clk.lastActivityMs) >= t.idleMs then CloseSlot(s, Idle)
      else if s.clk.halfClosing && Elapsed(now, s.clk.halfCloseStartMs) >= t.halfCloseMs then
        CloseSlot(s, HalfCloseTimeout)
      else if s.fin.graceUp && Elapsed(now, s.clk.graceStartMs) >= s.clk.finGraceMs then
        s.(fin := s.fin.(graceUp := false, pendShutUp := true))
      else s
    case Flush =>
      if Elapsed(now, s.clk.phaseStartMs) >= t.flushMs then CloseSlot(s, s.flushReason) else s
    case _ => s
  }

  /** takeFinAction on the FIN state: hands the armed FIN of `side` out, once. */
  function TakeFin(f: FinState, side: Side): (FinState, FinAction) {
    match side
    case Up =>
      if !f.pendShutUp then (f, NoFin)
      else (f.(pendShutUp := false, upWrShut := true), if f.upRdOpen then CloseSide else HalfClose)
    case Client =>
      if !f.pendShutClient then (f, NoFin)
      else (f.(pendShutClient := false, clientWrShut := true),
            if f.clientRdOpen then CloseSide else HalfClose)
  }

  function OnSideClosed(s: Slot, side: Side, now: int): Slot {
    RelayUpdate(s.(fin := ReadEnded(s.fin, side)), now)
  }

  /** The shim's forwardFin: carry out an armed FIN; a close also forgets the descriptor. */
  function ForwardFin(s: Slot, side: Side, now: int): Slot {
    var (f, a) := TakeFin(s.fin, side);
    var s1 := s.(fin := f);
    if !a.CloseSide? then s1
    else OnSideClosed(if side.Client? then s1.(clientFd := NO_FD) else s1.(upFd := NO_FD), side, now)
  }

  // ---- what select() is asked to watch -------------------------------------------------------

  datatype Wants = Wants(clientRd: bool, clientWr: bool, upRd: bool, upWr: bool)

  function SlotWants(s: Slot): Wants {
    match s.phase
    case Greeting => Wants(true, s.u2c != [], false, false)
    case Request => Wants(true, s.u2c != [], false, false)
    case NeedConnect => Wants(false, s.u2c != [], false, false)
    case Connecting => Wants(false, s.u2c != [], false, true)
    case Relay => Wants(s.fin.clientRdOpen && s.c2u == [], s.u2c != [],
                        s.fin.upRdOpen && s.u2c == [], s.c2u != [])
    case Flush => Wants(false, s.u2c != [], false, false)
    case _ => Wants(false, false, false, false)
  }

  predicate FdInRange(fd: int, fdSetSize: int) {
    0 <= fd < fdSetSize
  }

  /** buildWatchList's slotBad: a wanted descriptor lies outside the select() range. */
  predicate SlotBad(s: Slot, fdSetSize: int) {
    var w := SlotWants(s);
    && IsLive(s)
    && (|| ((w.clientRd || w.clientWr) && !FdInRange(s.clientFd, fdSetSize))
        || ((w.upRd || w.upWr) && !FdInRange(s.upFd, fdSetSize)))
  }

  // ---- deadlines -----------------------------------------------------------------------------

  function Remaining(limit: U32, el: U32): U32 {
    if el >= limit then 0 else limit - el
  }

  function SlotRemainingMs(s: Slot, t: Timing, now: int): U32 {
    match s.phase
    case Greeting => Remaining(t.greetingMs, Elapsed(now, s.clk.phaseStartMs))
    case Request => Remaining(t.requestMs, Elapsed(now, s.clk.phaseStartMs))
    case NeedConnect => Remaining(t.connectMs, Elapsed(now, s.clk.phaseStartMs))
    case Connecting => Remaining(t.connectMs, Elapsed(now, s.clk.phaseStartMs))
    case Relay =>
      var r := Remaining(t.idleMs, Elapsed(now, s.clk.lastActivityMs));
      var h := if s.clk.halfClosing then Min(r, Remaining(t.halfCloseMs, Elapsed(now, s.clk.halfCloseStartMs))) else r;
      if s.fin.graceUp then Min(h, Remaining(s.clk.finGraceMs, Elapsed(now, s.clk.graceStartMs))) else h
    case Flush => Remaining(t.flushMs, Elapsed(now, s.clk.phaseStartMs))
    case _ => NO_DEADLINE
  }
}
