/**
 What becomes of a relay session, over every run of a slot: the bytes the client has been told, how a
 connect ends, which errno is retried, how long a half-closed session and a grace period may last, and
 what the reason of a closed slot says.
 */
module RelayOutcomes {
  import opened Prelude
  import opened Socks5
  import opened RelayModel
  import opened RelayRuns
  import opened RelayTimers

  // ---- what the client is told -----------------------------------------------------------------

  const GRANTED: seq<Byte> := [5, 0, 5, 0, 0, 1, 0, 0, 0, 0, 0, 0]
  const REFUSED: seq<Byte> := [5, 0, 5, 1, 0, 1, 0, 0, 0, 0, 0, 0]

  lemma ReplyBytes()
    ensures METHOD_OK == [5, 0] && METHOD_NONE == [5, 255]
    ensures METHOD_OK + REPLY_OK == GRANTED && METHOD_OK + REPLY_FAIL == REFUSED
  {
  }

  /** Everything a client is sent, byte by byte (RFC 1928, sections 3 and 6): nothing, the method
      answer, the method refusal, the answer and a failure, or the answer, a success and the
      upstream's own bytes. */
  lemma ClientIsTold(r: Run, fdSetSize: int)
    requires Reachable(r, fdSetSize)
    ensures var told := r.clientOut + r.s.u2c;
      match r.s.phase
      case Greeting => told == []
      case Request => told == [5, 0]
      case NeedConnect => told == [5, 0]
      case Connecting => told == [5, 0]
      case Flush => told == if ParseHandshake(r.clientIn).BadGreeting? then [5, 255] else REFUSED
      case Relay => r.kept <= |r.upIn| && told == GRANTED + r.upIn[..r.kept]
      case _ => true
  {
    ReachableKeeps(r, fdSetSize);
    ReplyBytes();
  }

  /** A connect that fails or times out, started or not: the client is owed the failure reply, nothing
      it sent is forwarded, and the slot waits in Flush with the failure's reason. */
  ghost predicate Refuses(r: Run, r': Run, why: CloseReason, now: int) {
    && r'.s.phase.Flush? && r'.s.flushReason == why && r'.s.c2u == [] && r'.s.clk.phaseStartMs == now
    && r'.clientOut == r.clientOut && r'.clientOut + r'.s.u2c == REFUSED
    && r'.upOut == [] && !r'.joined
  }

  lemma FailureIsRefused(r: Run, s: Slot, why: CloseReason, now: int, fdSetSize: int)
    requires Reachable(r, fdSetSize) && (r.s.phase.NeedConnect? || r.s.phase.Connecting?)
    requires s == ConnectFailed(r.s, why, now)
    ensures Refuses(r, r.(s := s), why, now)
  {
    ReachableKeeps(r, fdSetSize);
    ReplyBytes();
    assert |r.s.u2c| <= |Replies(r)| == 2;
    assert r.clientOut + (r.s.u2c + REPLY_FAIL) == Replies(r) + REPLY_FAIL;
  }

  lemma FailedConnectRefuses(r: Run, now: int, fdSetSize: int)
    requires Reachable(r, fdSetSize) && (r.s.phase.NeedConnect? || r.s.phase.Connecting?)
    ensures Refuses(r, Step(r, ConnectResult(false, now)), ConnectFail, now)
  {
    ReachableKeeps(r, fdSetSize);
    FailureIsRefused(r, ConnectFailed(r.s, ConnectFail, now), ConnectFail, now, fdSetSize);
  }

  lemma LateConnectRefuses(r: Run, t: Timing, now: int, fdSetSize: int)
    requires Reachable(r, fdSetSize) && (r.s.phase.NeedConnect? || r.s.phase.Connecting?)
    ensures if Elapsed(now, r.s.clk.phaseStartMs) >= t.connectMs
            then Refuses(r, Step(r, Timer(t, now)), ConnectTimeout, now)
            else Step(r, Timer(t, now)) == r
  {
    ReachableKeeps(r, fdSetSize);
    FailureIsRefused(r, ConnectFailed(r.s, ConnectTimeout, now), ConnectTimeout, now, fdSetSize);
  }

  /** A connect that succeeds: the client is owed the success reply, and what it sent behind its request
      is the first payload to go upstream. */
  lemma ConnectGrants(r: Run, now: int, fdSetSize: int)
    requires Reachable(r, fdSetSize) && r.s.phase.Connecting?
    ensures var r' := Step(r, ConnectResult(true, now));
      && r'.s.phase.Relay? && r'.joined && r'.s.fin == ALL_OPEN && r'.clientOut + r'.s.u2c == GRANTED
      && ParseHandshake(r.clientIn).Accepted? && r'.s.c2u == r.clientIn[ParseHandshake(r.clientIn).used..]
      && r'.s.clk.phaseStartMs == r'.s.clk.lastActivityMs == now && !r'.s.clk.halfClosing
  {
    ReachableKeeps(r, fdSetSize);
    ReachableIsSettled(r, fdSetSize);
    ReplyBytes();
    assert |r.s.u2c| <= |Replies(r)| == 2;
    assert r.clientOut + (r.s.u2c + REPLY_OK) == Replies(r) + REPLY_OK;
  }

  /** Sending part of a refusal leaves the rest pending. */
  lemma PartOfRefusal(r: Run, n: nat, now: int, fdSetSize: int)
    requires Reachable(r, fdSetSize) && r.s.phase.Flush? && 0 < n < |r.s.u2c|
    ensures var r' := Step(r, Send(Client, Sent(n), now));
      && r'.s == r.s.(u2c := r.s.u2c[n..]) && r'.clientOut == r.clientOut + r.s.u2c[..n]
      && r'.clientIn == r.clientIn
      && Reachable(r', fdSetSize)
  {
    StepIsReachable(r, Send(Client, Sent(n), now), fdSetSize);
  }

  lemma StepIsReachable(r: Run, e: Event, fdSetSize: int)
    requires Reachable(r, fdSetSize) && Legal(r.s, e, fdSetSize)
    ensures Reachable(Step(r, e), fdSetSize)
  {
    var clientFd: int, finGraceMs: U32, now: int, es: seq<Event> :|
      && FdInRange(clientFd, fdSetSize)
      && LegalRun(Start(clientFd, finGraceMs, now), es, fdSetSize)
      && r == RunAll(Start(clientFd, finGraceMs, now), es);
    RunExtends(Start(clientFd, finGraceMs, now), es, e, fdSetSize);
  }

  lemma {:induction false} RunExtends(r: Run, es: seq<Event>, e: Event, fdSetSize: int)
    requires LegalRun(r, es, fdSetSize) && Legal(RunAll(r, es).s, e, fdSetSize)
    ensures LegalRun(r, es + [e], fdSetSize) && RunAll(r, es + [e]) == Step(RunAll(r, es), e)
    decreases |es|
  {
    if es == [] {
      assert [e][1..] == [];
      assert RunAll(Step(r, e), []) == Step(r, e);
      assert es + [e] == [e];
    } else {
      assert (es + [e])[1..] == es[1..] + [e];
      RunExtends(Step(r, es[0]), es[1..], e, fdSetSize);
    }
  }

  /** The pieces in which select() lets a refusal out. */
  ghost predicate Pieces(ns: seq<nat>, total: nat)
    decreases |ns|
  {
    if ns == [] then total == 0 else 0 < ns[0] <= total && Pieces(ns[1..], total - ns[0])
  }

  ghost function SendAll(r: Run, ns: seq<nat>, now: int): Run
    decreases |ns|
  {
    if ns == [] then r else SendAll(Step(r, Send(Client, Sent(ns[0]), now)), ns[1..], now)
  }

  lemma {:induction false} RefusalGoesOut(r: Run, ns: seq<nat>, now: int, fdSetSize: int)
    requires Reachable(r, fdSetSize) && r.s.phase.Flush? && r.s.u2c != [] && Pieces(ns, |r.s.u2c|)
    ensures var r' := SendAll(r, ns, now);
      && r'.s.phase.Closed? && r'.s.reason == r.s.flushReason
      && r'.clientOut == if ParseHandshake(r.clientIn).BadGreeting? then [5, 255] else REFUSED
    decreases |ns|
  {
    var r1 := Step(r, Send(Client, Sent(ns[0]), now));
    if ns[0] == |r.s.u2c| {
      RefusalIsAnswered(r, now, fdSetSize);
      ReplyBytes();
      assert ns[1..] == [];
    } else {
      PartOfRefusal(r, ns[0], now, fdSetSize);
      RefusalGoesOut(r1, ns[1..], now, fdSetSize);
    }
  }

  /** So a client whose connect failed is told so in full, in however many pieces, and its slot is then
      closed as ConnectFail. */
  lemma FailedConnectIsAnswered(r: Run, ns: seq<nat>, now: int, fdSetSize: int)
    requires Reachable(r, fdSetSize) && (r.s.phase.NeedConnect? || r.s.phase.Connecting?)
    requires Pieces(ns, |Step(r, ConnectResult(false, now)).s.u2c|)
    ensures var r' := SendAll(Step(r, ConnectResult(false, now)), ns, now);
      r'.s.phase.Closed? && r'.s.reason == ConnectFail && r'.clientOut == REFUSED
  {
    var r1 := Step(r, ConnectResult(false, now));
    ReachableKeeps(r, fdSetSize);
    FailedConnectRefuses(r, now, fdSetSize);
    StepIsReachable(r, ConnectResult(false, now), fdSetSize);
    assert |r1.s.u2c| >= 10;
    RefusalGoesOut(r1, ns, now, fdSetSize);
  }

  // ---- wakeups that bring nothing --------------------------------------------------------------

  /** Another relayUpdate would change nothing, and half-closing means that a source has ended. */
  predicate Calm(s: Slot) {
    && (s.phase.Relay? ==>
          && ArmFins(s.fin, s.c2u == [], s.u2c == [], s.clk.finGraceMs != 0) == s.fin
          && !Finished(s)
          && (s.clk.halfClosing <==> !s.fin.clientRdOpen || !s.fin.upRdOpen))
    && (IsLive(s) && !s.phase.Relay? && !s.phase.Flush? ==> s.fin == ALL_OPEN && !s.clk.halfClosing)
  }

  /** What has to hold before a relayUpdate. */
  predicate NearlyCalm(s: Slot) {
    && (s.phase.Relay? && s.clk.halfClosing ==> !s.fin.clientRdOpen || !s.fin.upRdOpen)
    && (IsLive(s) && !s.phase.Relay? && !s.phase.Flush? ==> s.fin == ALL_OPEN && !s.clk.halfClosing)
  }

  lemma UpdateCalms(s: Slot, now: int)
    requires NearlyCalm(s)
    ensures Calm(RelayUpdate(s, now))
  {
  }

  lemma RecvNearlyCalm(s: Slot, side: Side, got: RecvResult, now: int)
    requires Calm(s) && IsLive(s)
    ensures NearlyCalm(Received(s, side, got, now))
  {
  }

  lemma SendNearlyCalm(s: Slot, to: Side, put: SendResult, now: int)
    requires Calm(s) && IsLive(s)
    ensures NearlyCalm(Delivered(s, to, put, now))
  {
  }

  lemma FinCalm(s: Slot, side: Side, now: int)
    requires Calm(s)
    ensures Calm(ForwardFin(s, side, now))
  {
    var (f, a) := TakeFin(s.fin, side);
    if a.CloseSide? {
      UpdateCalms(s.(fin := ReadEnded(f, side), clientFd := if side.Client? then NO_FD else s.clientFd,
                     upFd := if side.Up? then NO_FD else s.upFd), now);
    }
  }

  lemma CalmStays(s: Slot, e: Event)
    requires Calm(s)
    ensures Calm(StepSlot(s, e))
  {
    match e
    case Recv(side, got, now) =>
      if IsLive(s) {
        RecvNearlyCalm(s, side, got, now);
        UpdateCalms(Received(s, side, got, now), now);
      }
    case Send(to, put, now) =>
      if IsLive(s) {
        SendNearlyCalm(s, to, put, now);
        UpdateCalms(Delivered(s, to, put, now), now);
      }
    case Fin(side, now) => FinCalm(s, side, now);
    case _ =>
  }

  lemma {:induction false} RunIsCalm(r: Run, es: seq<Event>)
    requires Calm(r.s)
    ensures Calm(RunAll(r, es).s)
    decreases |es|
  {
    if es != [] {
      CalmStays(r.s, es[0]);
      RunIsCalm(Step(r, es[0]), es[1..]);
    }
  }

  lemma ReachableIsSettled(r: Run, fdSetSize: int)
    requires Reachable(r, fdSetSize)
    ensures Calm(r.s)
  {
    var clientFd: int, finGraceMs: U32, now: int, es: seq<Event> :|
      && FdInRange(clientFd, fdSetSize)
      && LegalRun(Start(clientFd, finGraceMs, now), es, fdSetSize)
      && r == RunAll(Start(clientFd, finGraceMs, now), es);
    RunIsCalm(Start(clientFd, finGraceMs, now), es);
  }

  const RETRIED: set<Errno> := {EAGAIN, EWOULDBLOCK, EINTR, EINPROGRESS, EALREADY, ENOMEM, ENOBUFS}

  /** Over every run: a read or a write that would block, was interrupted or found no memory leaves the
      whole session as it is, clocks included. */
  lemma RetriedChangesNothing(r: Run, side: Side, e: Errno, now: int, fdSetSize: int)
    requires Reachable(r, fdSetSize) && e in RETRIED
    ensures Step(r, Recv(side, RecvErr(e), now)) == r
    ensures Step(r, Send(side, SendErr(e), now)) == r
  {
    ReachableIsSettled(r, fdSetSize);
    ReachableKeeps(r, fdSetSize);
    RetriedErrno(r.s, side, e, now);
    RecvLeavesRun(r, RecvErr(e), side, now);
    SendLeavesRun(r, SendErr(e), side, now);
  }

  lemma RecvLeavesRun(r: Run, got: RecvResult, side: Side, now: int)
    requires Streams(r) && got.RecvErr? && OnRecv(r.s, side, got, now) == r.s
    ensures Step(r, Recv(side, got, now)) == r
  {
  }

  lemma SendLeavesRun(r: Run, put: SendResult, side: Side, now: int)
    requires Streams(r) && put.SendErr? && OnSend(r.s, side, put, now) == r.s
    ensures Step(r, Send(side, put, now)) == r
  {
  }

  /** Any other errno closes a live slot, with its phase's reason, and touches nothing else. */
  lemma FatalCloses(s: Slot, side: Side, e: Errno, now: int)
    requires IsLive(s) && e !in RETRIED
    ensures StepSlot(s, Recv(side, RecvErr(e), now))
         == s.(phase := Closed, reason := if s.phase.Greeting? || s.phase.Request? then HandshakeEof else IoError)
    ensures StepSlot(s, Send(side, SendErr(e), now))
         == s.(phase := Closed, reason := if s.phase.Flush? then s.flushReason else IoError)
  {
  }

  lemma RetriedErrno(s: Slot, side: Side, e: Errno, now: int)
    requires Calm(s)
    ensures e in RETRIED ==> OnRecv(s, side, RecvErr(e), now) == s == OnSend(s, side, SendErr(e), now)
  {
    CalmIgnoresUpdate(s, now);
  }

  lemma CalmIgnoresUpdate(s: Slot, now: int)
    requires Calm(s)
    ensures RelayUpdate(s, now) == s
  {
  }

  /** Where a read was offered room, an end of stream closes a handshake, and in a session it ends that
      source for good and leaves every pending byte where it is. */
  lemma EofDecides(s: Slot, side: Side, now: int)
    requires Room(s, side) > 0
    ensures var s' := StepSlot(s, Recv(side, Eof, now));
      if s.phase.Greeting? || s.phase.Request? then s' == s.(phase := Closed, reason := HandshakeEof)
      else
        && (if side.Client? then !s'.fin.clientRdOpen && s'.fin.upRdOpen == s.fin.upRdOpen
            else !s'.fin.upRdOpen && s'.fin.clientRdOpen == s.fin.clientRdOpen)
        && s'.c2u == s.c2u && s'.u2c == s.u2c && Room(s', side) == 0
  {
  }

  // ---- the clocks ------------------------------------------------------------------------------

  /** A slot's phase clock shows when it entered its phase: it starts with the slot, starts over with each
      phase, and stands in between. */
  lemma PhaseClock(s: Slot, e: Event)
    requires !e.ForceClose?
    ensures var s' := StepSlot(s, e);
      && (s'.phase == s.phase ==> s'.clk.phaseStartMs == s.clk.phaseStartMs)
      && (s'.phase != s.phase && IsLive(s') ==> s'.clk.phaseStartMs == e.now)
  {
    match e
    case Recv(side, got, now) => RecvPhaseClock(s, side, got, now);
    case Send(to, put, now) =>
      assert Delivered(s, to, put, now).clk.phaseStartMs == s.clk.phaseStartMs;
    case _ =>
  }

  lemma RecvPhaseClock(s: Slot, side: Side, got: RecvResult, now: int)
    ensures var s' := OnRecv(s, side, got, now);
      && (s'.phase == s.phase ==> s'.clk.phaseStartMs == s.clk.phaseStartMs)
      && (s'.phase != s.phase && IsLive(s') ==> s'.clk.phaseStartMs == now)
  {
    var s1 := Received(s, side, got, now);
    ReceivedPhaseClock(s, side, got, now);
    assert RelayUpdate(s1, now).clk.phaseStartMs == s1.clk.phaseStartMs;
    assert RelayUpdate(s1, now).phase == s1.phase || RelayUpdate(s1, now).phase.Closed?;
  }

  lemma ReceivedPhaseClock(s: Slot, side: Side, got: RecvResult, now: int)
    ensures var s1 := Received(s, side, got, now);
      && (s1.phase == s.phase ==> s1.clk.phaseStartMs == s.clk.phaseStartMs)
      && (s1.phase != s.phase && IsLive(s1) ==> s1.clk.phaseStartMs == now)
      && (s.phase.Relay? || s1.phase != Relay)
  {
  }

  lemma StartClocks(clientFd: int, finGraceMs: U32, now: int)
    ensures var c := Start(clientFd, finGraceMs, now).s.clk;
      c.phaseStartMs == c.lastActivityMs == now && c.finGraceMs == finGraceMs && !c.halfClosing
  {
  }

  /** What counts as activity: bytes of a handshake, the connect that begins a session, and in a session
      anything but a wakeup for nothing. */
  predicate CountsAsActivity(s: Slot, e: Event) {
    || (IsHandshake(s) && e.Recv? && e.side.Client? && e.got.Data?)
    || ((s.phase.NeedConnect? || s.phase.Connecting?) && e.ConnectResult? && e.ok)
    || (s.phase.Relay? && Active(e))
  }

  /** The idle clock, by which a session times out and a handshake is chosen for eviction, shows the last
      activity and nothing else. */
  lemma ActivityClock(s: Slot, e: Event)
    requires IsLive(s)
    ensures StepSlot(s, e).clk.lastActivityMs == if CountsAsActivity(s, e) then e.now else s.clk.lastActivityMs
  {
    match e
    case Recv(side, got, now) => RecvActivity(s, side, got, now);
    case Send(to, put, now) =>
      var s1 := Delivered(s, to, put, now);
      assert RelayUpdate(s1, now).clk.lastActivityMs == s1.clk.lastActivityMs;
    case Fin(side, now) => FinOnlyRelays(s, side, now);
    case _ =>
  }

  lemma RecvActivity(s: Slot, side: Side, got: RecvResult, now: int)
    requires IsLive(s)
    ensures OnRecv(s, side, got, now).clk.lastActivityMs
         == if CountsAsActivity(s, Recv(side, got, now)) then now else s.clk.lastActivityMs
  {
    ReceivedActivity(s, side, got, now);
    var s1 := Received(s, side, got, now);
    assert RelayUpdate(s1, now).clk.lastActivityMs == s1.clk.lastActivityMs;
  }

  lemma ReceivedActivity(s: Slot, side: Side, got: RecvResult, now: int)
    ensures Received(s, side, got, now).clk.lastActivityMs
         == if CountsAsActivity(s, Recv(side, got, now)) then now else s.clk.lastActivityMs
  {
  }

  // ---- half-closed sessions ----------------------------------------------------------------------

  /** A pass of the loop over a relaying slot at `wakeAt`: past the idle limit it is closed as Idle, else
      past the half-close limit as HalfCloseTimeout. */
  lemma HalfClosedWake(s: Slot, t: Timing, wakeAt: int)
    requires s.phase.Relay? && s.clk.halfClosing && Elapsed(wakeAt, s.clk.halfCloseStartMs) >= t.halfCloseMs
    ensures var s' := Wake(s, t, wakeAt);
      && s'.phase.Closed?
      && s'.reason == if Elapsed(wakeAt, s.clk.lastActivityMs) >= t.idleMs then Idle else HalfCloseTimeout
  {
    BothFinsKeepClosed(OnTimer(s, t, wakeAt), wakeAt);
  }

  lemma BothFinsKeepClosed(s: Slot, now: int)
    requires s.phase.Closed?
    ensures var s' := ForwardFin(ForwardFin(s, Up, now), Client, now);
      s'.phase.Closed? && s'.reason == s.reason
  {
  }

  lemma FinKeepsHalfClose(s: Slot, side: Side, now: int)
    requires s.phase.Relay? && s.clk.halfClosing
    ensures var s' := ForwardFin(s, side, now);
      s'.phase.Closed? || (s'.phase.Relay? && s'.clk.halfClosing && s'.clk.halfCloseStartMs == s.clk.halfCloseStartMs)
  {
  }

  lemma WakeKeepsHalfClose(s: Slot, t: Timing, now: int)
    requires s.phase.Relay? && s.clk.halfClosing
    ensures var s' := Wake(s, t, now);
      s'.phase.Closed? || (s'.phase.Relay? && s'.clk.halfClosing && s'.clk.halfCloseStartMs == s.clk.halfCloseStartMs)
  {
    var s1 := OnTimer(s, t, now);
    if s1.phase.Closed? {
      BothFinsKeepClosed(s1, now);
    } else {
      FinKeepsHalfClose(s1, Up, now);
      var s2 := ForwardFin(s1, Up, now);
      if s2.phase.Relay? { FinKeepsHalfClose(s2, Client, now); }
    }
  }

  /** A half-closed session without activity does not outlast halfCloseMs, whatever the loop's wakes. */
  lemma {:induction false} HalfCloseEnds(s: Slot, t: Timing, now: int, times: seq<int>)
    requires s.phase.Relay? && s.clk.halfClosing && times != [] && Ascending(now, times)
    requires s.clk.halfCloseStartMs <= now
    requires s.clk.halfCloseStartMs + t.halfCloseMs <= times[|times| - 1] < s.clk.halfCloseStartMs + TWO32
    ensures Wakes(s, t, times).phase.Closed?
    decreases |times|
  {
    var s1 := Wake(s, t, times[0]);
    WakeKeepsHalfClose(s, t, times[0]);
    if |times| == 1 {
      Later(s.clk.halfCloseStartMs, times[0] - s.clk.halfCloseStartMs, s.clk.halfCloseStartMs);
      HalfClosedWake(s, t, times[0]);
      assert Wakes(s1, t, times[1..]) == s1;
    } else if s1.phase.Relay? {
      HalfCloseEnds(s1, t, times[0], times[1..]);
    }
  }

  /** Over every run a relaying session is on that clock exactly when one of its sources has ended, and
      the clock starts over with the last activity or with that end, whichever came later. */
  lemma HalfCloseClock(r: Run, e: Event, fdSetSize: int)
    requires Reachable(r, fdSetSize) && r.s.phase.Relay? && Step(r, e).s.phase.Relay? && !e.ForceClose?
    ensures var (s, s') := (r.s, Step(r, e).s);
      && (s.clk.halfClosing <==> !s.fin.clientRdOpen || !s.fin.upRdOpen)
      && (s'.clk.halfClosing ==>
            s'.clk.halfCloseStartMs ==
              if Active(e) || !s.clk.halfClosing then e.now else s.clk.halfCloseStartMs)
  {
    ReachableIsSettled(r, fdSetSize);
    match e
    case Recv(side, got, now) => ClockAfterUpdate(r.s, Received(r.s, side, got, now), Active(e), now);
    case Send(to, put, now) => ClockAfterUpdate(r.s, Delivered(r.s, to, put, now), Active(e), now);
    case Fin(side, now) => FinKeepsClock(r.s, side, now);
    case _ =>
  }

  lemma ClockAfterUpdate(s: Slot, s1: Slot, active: bool, now: int)
    requires s.phase.Relay? && s1.phase.Relay?
    requires s1.clk == if active then Touched(s.clk, now) else s.clk
    ensures var c := RelayUpdate(s1, now).clk;
      RelayUpdate(s1, now).phase.Relay? && c.halfClosing ==>
        c.halfCloseStartMs == if active || !s.clk.halfClosing then now else s.clk.halfCloseStartMs
  {
  }

  lemma FinKeepsClock(s: Slot, side: Side, now: int)
    requires Calm(s) && s.phase.Relay?
    ensures var c := ForwardFin(s, side, now).clk;
      c.halfClosing ==> c.halfCloseStartMs == if !s.clk.halfClosing then now else s.clk.halfCloseStartMs
  {
  }

  // ---- the grace period of the upstream ----------------------------------------------------------

  /** Over every run: when the client has finished and its bytes are out, an open upstream is given
      finGraceMs to finish. Before that a pass of the loop leaves it open; at that time the descriptor is
      closed, once, and the upstream is not read any more. */
  lemma GraceRunsOut(r: Run, t: Timing, now: int, fdSetSize: int)
    requires Reachable(r, fdSetSize) && r.s.phase.Relay? && r.s.fin.graceUp && r.s.fin.upRdOpen
    requires OnTimer(r.s, t, now).phase.Relay?
    ensures var up := Step(Step(r, Timer(t, now)), Fin(Up, now));
      if Elapsed(now, r.s.clk.graceStartMs) >= r.s.clk.finGraceMs
      then up.s.upFd == NO_FD && up.s.fin.upWrShut && !up.s.fin.upRdOpen && !up.s.fin.graceUp && up.ends.upCloses == 1
      else up == r
  {
    ReachableKeeps(r, fdSetSize);
    var r1 := Step(r, Timer(t, now));
    assert r1 == r.(s := OnTimer(r.s, t, now));
    if Elapsed(now, r.s.clk.graceStartMs) >= r.s.clk.finGraceMs {
      CloseOnPurpose(r1.s, now);
    } else {
      assert TakeFin(r.s.fin, Up) == (r.s.fin, NoFin);
    }
  }

  /** Carrying out the FIN toward an upstream that is still open closes its descriptor. */
  lemma CloseOnPurpose(s: Slot, now: int)
    requires s.phase.Relay? && s.fin.pendShutUp && s.fin.upRdOpen && !s.fin.graceUp
    ensures var s' := ForwardFin(s, Up, now);
      && s'.upFd == NO_FD && s'.fin.upWrShut && !s'.fin.upRdOpen && !s'.fin.graceUp
      && TakeFin(s.fin, Up).1.CloseSide?
  {
  }

  /** The period opens when the last byte of a finished client has left, and not while the upstream has
      nothing more to say either. */
  lemma GraceOpens(s: Slot, e: Event)
    requires s.phase.Relay? && !s.fin.graceUp && StepSlot(s, e).fin.graceUp && !e.ForceClose?
    ensures Opened(StepSlot(s, e), e.now)
  {
    match e
    case Recv(side, got, now) => RecvOpensGrace(s, side, got, now);
    case Send(to, put, now) => SendOpensGrace(s, to, put, now);
    case Fin(side, now) => FinOpensGrace(s, side, now);
    case _ =>
  }

  lemma RecvOpensGrace(s: Slot, side: Side, got: RecvResult, now: int)
    requires s.phase.Relay? && !s.fin.graceUp && OnRecv(s, side, got, now).fin.graceUp
    ensures Opened(OnRecv(s, side, got, now), now)
  {
    assert !Received(s, side, got, now).fin.graceUp;
    UpdateOpensGrace(Received(s, side, got, now), now);
  }

  lemma SendOpensGrace(s: Slot, to: Side, put: SendResult, now: int)
    requires s.phase.Relay? && !s.fin.graceUp && OnSend(s, to, put, now).fin.graceUp
    ensures Opened(OnSend(s, to, put, now), now)
  {
    assert !Delivered(s, to, put, now).fin.graceUp;
    UpdateOpensGrace(Delivered(s, to, put, now), now);
  }

  predicate Opened(s: Slot, now: int) {
    && s.fin.graceUp && s.clk.graceStartMs == now && s.clk.finGraceMs != 0 && s.fin.dropUp
    && !s.fin.clientRdOpen && s.c2u == [] && s.fin.upRdOpen
  }

  lemma FinOpensGrace(s: Slot, side: Side, now: int)
    requires !s.fin.graceUp && ForwardFin(s, side, now).fin.graceUp
    ensures Opened(ForwardFin(s, side, now), now)
  {
    var (f, a) := TakeFin(s.fin, side);
    if a.CloseSide? {
      UpdateOpensGrace(s.(fin := ReadEnded(f, side), clientFd := if side.Client? then NO_FD else s.clientFd,
                          upFd := if side.Up? then NO_FD else s.upFd), now);
    }
  }

  lemma UpdateOpensGrace(s: Slot, now: int)
    requires !s.fin.graceUp
    ensures RelayUpdate(s, now).fin.graceUp ==> Opened(RelayUpdate(s, now), now)
  {
  }

  /** An upstream that is still open is not closed before that: where a grace period is configured, only
      its end arms the FIN. */
  lemma GraceFirst(s: Slot, e: Event)
    requires s.phase.Relay? && s.clk.finGraceMs != 0 && !s.fin.pendShutUp
    requires StepSlot(s, e).fin.pendShutUp && StepSlot(s, e).fin.upRdOpen
    ensures e.Timer? && s.fin.graceUp && Elapsed(e.now, s.clk.graceStartMs) >= s.clk.finGraceMs
  {
    match e
    case Recv(side, got, now) => RecvArmsNothing(s, side, got, now);
    case Send(to, put, now) => SendArmsNothing(s, to, put, now);
    case Fin(side, now) => FinArmsNothing(s, side, now);
    case _ =>
  }

  /** A relayUpdate arms the FIN toward an open upstream only where no grace period is configured. */
  predicate ArmsNothing(s: Slot, s': Slot) {
    s.clk.finGraceMs != 0 && !s.fin.pendShutUp && s'.fin.upRdOpen ==> !s'.fin.pendShutUp
  }

  lemma UpdateArmsNothing(s: Slot, now: int)
    ensures ArmsNothing(s, RelayUpdate(s, now))
  {
  }

  lemma RecvArmsNothing(s: Slot, side: Side, got: RecvResult, now: int)
    requires s.phase.Relay?
    ensures ArmsNothing(s, OnRecv(s, side, got, now))
  {
    var s1 := Received(s, side, got, now);
    assert s1.fin.pendShutUp == s.fin.pendShutUp && s1.clk.finGraceMs == s.clk.finGraceMs;
    UpdateArmsNothing(s1, now);
  }

  lemma SendArmsNothing(s: Slot, to: Side, put: SendResult, now: int)
    ensures ArmsNothing(s, OnSend(s, to, put, now))
  {
    var s1 := Delivered(s, to, put, now);
    assert s1.fin.pendShutUp == s.fin.pendShutUp && s1.clk.finGraceMs == s.clk.finGraceMs;
    UpdateArmsNothing(s1, now);
  }

  lemma FinArmsNothing(s: Slot, side: Side, now: int)
    ensures ArmsNothing(s, ForwardFin(s, side, now))
  {
  }

  /** Once an upstream is on its grace period, or was, none of its bytes reaches the client. */
  lemma DroppedFromThenOn(r: Run, bytes: seq<Byte>, now: int)
    requires r.s.phase.Relay? && r.s.fin.dropUp
    ensures var r' := Step(r, Recv(Up, Data(bytes), now));
      r'.s.u2c == r.s.u2c && r'.kept == r.kept
  {
  }

  // ---- what a closed slot's reason says ----------------------------------------------------------

  /** The cause of each reason a slot can close with; a refused client's is that of its refusal. */
  predicate Explains(s: Slot, e: Event, why: CloseReason) {
    match why
    case HandshakeTimeout => e.Timer? && IsHandshake(s)
    case HandshakeEof => e.Recv? && !e.got.Data? && IsHandshake(s)
    case Idle => e.Timer? && s.phase.Relay? && Elapsed(e.now, s.clk.lastActivityMs) >= e.t.idleMs
    case HalfCloseTimeout => e.Timer? && s.phase.Relay? && Elapsed(e.now, s.clk.lastActivityMs) < e.t.idleMs
    case IoError => !IsHandshake(s) && ((e.Recv? && e.got.RecvErr?) || (e.Send? && e.put.SendErr?))
    case Done => s.phase.Relay? && (e.Recv? || e.Send? || e.Fin?)
    case _ => false
  }

  predicate Tells(s: Slot, e: Event, why: CloseReason) {
    Explains(s, e, why) || (s.phase.Flush? && why == s.flushReason && (e.Send? || e.Timer?))
    || (IsHandshake(s) && e.Send? && e.put.SendErr? && why == IoError)
  }

  lemma UpdateEnds(s: Slot, now: int)
    requires IsLive(s) && RelayUpdate(s, now).phase.Closed?
    ensures s.phase.Relay? && RelayUpdate(s, now).reason == Done
  {
  }

  /** Whatever closes a live slot, short of the pool itself, leaves the reason that tells what it was. */
  lemma ReasonTells(s: Slot, e: Event)
    requires IsLive(s) && !e.ForceClose? && StepSlot(s, e).phase.Closed?
    ensures Tells(s, e, StepSlot(s, e).reason)
  {
    match e
    case Recv(side, got, now) =>
      var s1 := Received(s, side, got, now);
      if IsLive(s1) { UpdateEnds(s1, now); }
    case Send(to, put, now) =>
      var s1 := Delivered(s, to, put, now);
      if IsLive(s1) { UpdateEnds(s1, now); }
    case Fin(side, now) =>
      var (f, a) := TakeFin(s.fin, side);
      if a.CloseSide? {
        UpdateEnds(s.(fin := ReadEnded(f, side), clientFd := if side.Client? then NO_FD else s.clientFd,
                      upFd := if side.Up? then NO_FD else s.upFd), now);
      }
    case _ =>
  }
}
