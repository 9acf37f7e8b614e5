/**
 Deadlines of the relay: the select() timeout and the timer agree exactly, phases only move forward,
 and a slot whose sockets stay silent is closed within the sum of its deadlines.
 */
module RelayTimers {
  import opened Prelude
  import opened RelayModel
  import opened RelayRuns

  /** slotRemainingMs is 0 exactly when onTimer would act now. */
  lemma ZeroMeansAct(s: Slot, t: Timing, now: int)
    ensures SlotRemainingMs(s, t, now) == 0 <==> OnTimer(s, t, now) != s
  {
    if s.phase.NeedConnect? || s.phase.Connecting? {
      assert ConnectFailed(s, ConnectTimeout, now).phase.Flush?;
    }
  }

  /** Waking any earlier than the reported time would do nothing. */
  lemma QuietUntilThen(s: Slot, t: Timing, now: int, d: nat)
    requires d < SlotRemainingMs(s, t, now)
    ensures OnTimer(s, t, now + d) == s
  {
    Later(now, d, s.clk.phaseStartMs);
    Later(now, d, s.clk.lastActivityMs);
    Later(now, d, s.clk.halfCloseStartMs);
    Later(now, d, s.clk.graceStartMs);
  }

  lemma Later(now: int, d: nat, since: int)
    ensures Elapsed(now, since) + d < TWO32 ==> Elapsed(now + d, since) == Elapsed(now, since) + d
  {
    var a := now - since;
    assert a == a / TWO32 * TWO32 + a % TWO32;
    if a % TWO32 + d < TWO32 {
      assert (a + d) == a / TWO32 * TWO32 + (a % TWO32 + d);
    }
  }

  // ---- phases only move forward --------------------------------------------------------------

  function Rank(p: Phase): nat {
    match p
    case Free => 0
    case Greeting => 1
    case Request => 2
    case NeedConnect => 3
    case Connecting => 4
    case Relay => 5
    case Flush => 5
    case Closed => 6
  }

  /** From s to s' the session only moved on, and a closed one stayed as it was. */
  predicate MovedOn(s: Slot, s': Slot) {
    && (s'.phase == s.phase || Rank(s'.phase) > Rank(s.phase))
    && (s.phase.Closed? ==> s'.reason == s.reason)
  }

  lemma UpdateMovesOn(s: Slot, now: int)
    ensures MovedOn(s, RelayUpdate(s, now))
  {
  }

  lemma RecvMovesOn(s: Slot, side: Side, got: RecvResult, now: int)
    ensures MovedOn(s, OnRecv(s, side, got, now))
  {
    if IsLive(s) {
      UpdateMovesOn(Received(s, side, got, now), now);
      assert MovedOn(s, Received(s, side, got, now));
    }
  }

  lemma SendMovesOn(s: Slot, to: Side, put: SendResult, now: int)
    ensures MovedOn(s, OnSend(s, to, put, now))
  {
    if IsLive(s) {
      UpdateMovesOn(Delivered(s, to, put, now), now);
      assert MovedOn(s, Delivered(s, to, put, now));
    }
  }

  /** No event takes a slot back to an earlier phase or revives a closed one. */
  lemma ForwardOnly(s: Slot, e: Event)
    ensures MovedOn(s, StepSlot(s, e))
  {
    match e
    case Recv(side, got, now) => RecvMovesOn(s, side, got, now);
    case Send(to, put, now) => SendMovesOn(s, to, put, now);
    case _ =>
  }

  // ---- silence ends a session ----------------------------------------------------------------

  /** One pass of the relay loop over a slot whose sockets report nothing: the timer runs and the
      FINs it armed are carried out (src/esp32/vpn_wireguard.cpp:720-727). */
  function Wake(s: Slot, t: Timing, now: int): Slot {
    ForwardFin(ForwardFin(OnTimer(s, t, now), Up, now), Client, now)
  }

  /** The time a slot in this phase may still take when nothing arrives any more. */
  function Budget(p: Phase, t: Timing): nat {
    match p
    case Greeting => t.greetingMs
    case Request => t.requestMs
    case NeedConnect => t.connectMs + t.flushMs
    case Connecting => t.connectMs + t.flushMs
    case Relay => t.idleMs
    case Flush => t.flushMs
    case _ => 0
  }

  /** Sleep for exactly the reported time, wake, and repeat up to k times; the second result is the
      time at the end. */
  function Sleeps(s: Slot, t: Timing, now: int, k: nat): (Slot, int)
    decreases k
  {
    if k == 0 || !IsLive(s) then (s, now)
    else
      var wakeAt := now + SlotRemainingMs(s, t, now);
      Sleeps(Wake(s, t, wakeAt), t, wakeAt, k - 1)
  }

  /** Carrying out a FIN leaves the idle clock alone, and every phase but Relay. */
  lemma FinOnlyRelays(s: Slot, side: Side, now: int)
    ensures !s.phase.Relay? ==> ForwardFin(s, side, now).phase == s.phase && ForwardFin(s, side, now).clk == s.clk
    ensures ForwardFin(s, side, now).clk.lastActivityMs == s.clk.lastActivityMs
    ensures s.phase.Relay? ==> ForwardFin(s, side, now).phase.Relay? || ForwardFin(s, side, now).phase.Closed?
    // once the upstream's FIN has been handed out, no grace period opens any more
    ensures s.fin.upWrShut && !s.fin.graceUp ==>
              ForwardFin(s, side, now).fin.upWrShut && !ForwardFin(s, side, now).fin.graceUp
    ensures side.Up? && s.fin.pendShutUp && !s.fin.graceUp ==>
              ForwardFin(s, side, now).fin.upWrShut && !ForwardFin(s, side, now).fin.graceUp
  {
  }

  /** The same for both sides, as one loop pass does it. */
  lemma BothFins(s: Slot, now: int)
    ensures
      var s' := ForwardFin(ForwardFin(s, Up, now), Client, now);
      && (!s.phase.Relay? ==> s'.phase == s.phase && s'.clk == s.clk)
      && s'.clk.lastActivityMs == s.clk.lastActivityMs
      && (s.phase.Relay? ==> s'.phase.Relay? || s'.phase.Closed?)
      && (s.fin.pendShutUp && !s.fin.graceUp ==> !s'.fin.graceUp)
  {
    FinOnlyRelays(s, Up, now);
    FinOnlyRelays(ForwardFin(s, Up, now), Client, now);
  }

  /** After sleeping for the reported time the timer does act. */
  lemma ZeroAtEnd(s: Slot, t: Timing, now: int)
    requires IsLive(s)
    ensures SlotRemainingMs(s, t, now + SlotRemainingMs(s, t, now)) == 0
  {
    var d := SlotRemainingMs(s, t, now);
    Later(now, d, s.clk.phaseStartMs);
    Later(now, d, s.clk.lastActivityMs);
    Later(now, d, s.clk.halfCloseStartMs);
    Later(now, d, s.clk.graceStartMs);
  }

  lemma TimerInRelay(s: Slot, t: Timing, now: int)
    requires s.phase.Relay? && SlotRemainingMs(s, t, now) == 0
    ensures
      var s' := OnTimer(s, t, now);
      s'.phase.Closed? || (s'.phase.Relay? && s.fin.graceUp && !s'.fin.graceUp && s'.fin.pendShutUp && s'.clk == s.clk)
  {
  }

  /** Waking a relaying slot when its time is up closes it, or ends its grace period for good. */
  lemma RelayWake(s: Slot, t: Timing, now: int)
    requires s.phase.Relay? && SlotRemainingMs(s, t, now) == 0
    ensures
      var s' := Wake(s, t, now);
      || s'.phase.Closed?
      || (s'.phase.Relay? && s.fin.graceUp && !s'.fin.graceUp && s'.clk.lastActivityMs == s.clk.lastActivityMs)
  {
    TimerInRelay(s, t, now);
    BothFins(OnTimer(s, t, now), now);
  }

  lemma RelayEnds(s: Slot, t: Timing, now: int)
    requires s.phase.Relay?
    ensures Sleeps(s, t, now, 2).0.phase.Closed?
    ensures Sleeps(s, t, now, 2).1 - now <= t.idleMs
  {
    var d := SlotRemainingMs(s, t, now);
    var s1 := Wake(s, t, now + d);
    ZeroAtEnd(s, t, now);
    RelayWake(s, t, now + d);
    Later(now, d, s.clk.lastActivityMs);
    assert Sleeps(s, t, now, 2) == Sleeps(s1, t, now + d, 1);
    if s1.phase.Relay? {
      var d1 := SlotRemainingMs(s1, t, now + d);
      ZeroAtEnd(s1, t, now + d);
      RelayWake(s1, t, now + d + d1);
      assert Sleeps(s1, t, now + d, 1) == Sleeps(Wake(s1, t, now + d + d1), t, now + d + d1, 0);
    }
  }

  /** Every other phase has one deadline, and waking at its end leaves the phase for good. */
  lemma OtherWake(s: Slot, t: Timing, now: int)
    requires IsLive(s) && !s.phase.Relay? && SlotRemainingMs(s, t, now) == 0
    ensures
      var s' := Wake(s, t, now);
      if s.phase.NeedConnect? || s.phase.Connecting? then s'.phase.Flush? && s'.clk.phaseStartMs == now
      else s'.phase.Closed?
  {
    BothFins(OnTimer(s, t, now), now);
  }

  lemma OneSleep(s: Slot, t: Timing, now: int)
    requires IsLive(s)
    ensures var wakeAt := now + SlotRemainingMs(s, t, now);
      && Sleeps(s, t, now, 1) == (Wake(s, t, wakeAt), wakeAt)
      && Sleeps(s, t, now, 2) == Sleeps(Wake(s, t, wakeAt), t, wakeAt, 1)
  {
    var wakeAt := now + SlotRemainingMs(s, t, now);
    assert Sleeps(Wake(s, t, wakeAt), t, wakeAt, 0) == (Wake(s, t, wakeAt), wakeAt);
  }

  lemma OneWakeEnds(s: Slot, t: Timing, now: int)
    requires s.phase.Greeting? || s.phase.Request? || s.phase.Flush?
    ensures Sleeps(s, t, now, 1).0.phase.Closed?
    ensures Sleeps(s, t, now, 1).1 - now <= Budget(s.phase, t)
    ensures Sleeps(s, t, now, 2) == Sleeps(s, t, now, 1)
  {
    OneSleep(s, t, now);
    ZeroAtEnd(s, t, now);
    OtherWake(s, t, now + SlotRemainingMs(s, t, now));
  }

  /** The first wake of a connecting slot leaves it flushing its refusal. */
  lemma ConnectWakes(s: Slot, t: Timing, now: int) returns (s1: Slot, wakeAt: int)
    requires s.phase.NeedConnect? || s.phase.Connecting?
    ensures s1.phase.Flush? && wakeAt - now <= t.connectMs
    ensures Sleeps(s, t, now, 2) == Sleeps(s1, t, wakeAt, 1)
  {
    wakeAt := now + SlotRemainingMs(s, t, now);
    s1 := Wake(s, t, wakeAt);
    OneSleep(s, t, now);
    ZeroAtEnd(s, t, now);
    OtherWake(s, t, wakeAt);
  }

  lemma ConnectEnds(s: Slot, t: Timing, now: int)
    requires s.phase.NeedConnect? || s.phase.Connecting?
    ensures Sleeps(s, t, now, 2).0.phase.Closed?
    ensures Sleeps(s, t, now, 2).1 - now <= t.connectMs + t.flushMs
  {
    var s1, wakeAt := ConnectWakes(s, t, now);
    OneWakeEnds(s1, t, wakeAt);
  }

  lemma NotRelayEnds(s: Slot, t: Timing, now: int)
    requires IsLive(s) && !s.phase.Relay?
    ensures Sleeps(s, t, now, 2).0.phase.Closed?
    ensures Sleeps(s, t, now, 2).1 - now <= Budget(s.phase, t)
  {
    if s.phase.NeedConnect? || s.phase.Connecting? {
      ConnectEnds(s, t, now);
    } else {
      OneWakeEnds(s, t, now);
    }
  }

  /** A loop that sleeps for exactly the reported time closes any live slot in at most two wakes. */
  lemma TwoSleepsClose(s: Slot, t: Timing, now: int)
    requires IsLive(s)
    ensures Sleeps(s, t, now, 2).0.phase.Closed?
    ensures Sleeps(s, t, now, 2).1 - now <= Budget(s.phase, t)
  {
    if s.phase.Relay? {
      RelayEnds(s, t, now);
    } else {
      NotRelayEnds(s, t, now);
    }
  }

  // ---- ... whenever the loop happens to wake ---------------------------------------------------

  /** The clock that ends the phase whatever else happens, and its limit. */
  function Clock(s: Slot): int {
    if s.phase.Relay? then s.clk.lastActivityMs else s.clk.phaseStartMs
  }

  function Limit(p: Phase, t: Timing): U32 {
    match p
    case Greeting => t.greetingMs
    case Request => t.requestMs
    case NeedConnect => t.connectMs
    case Connecting => t.connectMs
    case Relay => t.idleMs
    case Flush => t.flushMs
    case _ => 0
  }

  /** What the slot's phase has left at most. */
  function PhaseLeft(s: Slot, t: Timing, now: int): nat {
    Remaining(Limit(s.phase, t), Elapsed(now, Clock(s)))
  }

  /** What a silent slot has left at most, the refusal of a failed connect included. */
  function TimeLeft(s: Slot, t: Timing, now: int): nat {
    PhaseLeft(s, t, now) + if s.phase.NeedConnect? || s.phase.Connecting? then t.flushMs else 0
  }

  lemma TimeLeftInBudget(s: Slot, t: Timing, now: int)
    ensures TimeLeft(s, t, now) <= Budget(s.phase, t)
  {
  }

  /** The reported time never exceeds what the phase has left. */
  lemma ReportedWithin(s: Slot, t: Timing, now: int)
    requires IsLive(s)
    ensures SlotRemainingMs(s, t, now) <= PhaseLeft(s, t, now)
    ensures !s.phase.Relay? ==> SlotRemainingMs(s, t, now) == PhaseLeft(s, t, now)
  {
  }

  /** By how much a wake comes later than the phase's deadline. Relaying slots do not mind: past it they
      are closed. */
  function Lateness(s: Slot, t: Timing, now: int, wakeAt: int): nat {
    var late := wakeAt - now - PhaseLeft(s, t, now);
    if s.phase.Relay? || late < 0 then 0 else late
  }

  /** What a wake at `now` may do to a live slot: close it, leave its phase and clock alone before the
      deadline, or turn a connect past its deadline into a refusal. */
  predicate Outcome(s: Slot, s': Slot, t: Timing, now: int) {
    || s'.phase.Closed?
    || (s'.phase == s.phase && Clock(s') == Clock(s) && Elapsed(now, Clock(s)) < Limit(s.phase, t))
    || ((s.phase.NeedConnect? || s.phase.Connecting?) && s'.phase.Flush? && Clock(s') == now
        && Elapsed(now, Clock(s)) >= Limit(s.phase, t))
  }

  lemma WakeOutcome(s: Slot, t: Timing, now: int)
    requires IsLive(s)
    ensures Outcome(s, Wake(s, t, now), t, now)
  {
    BothFins(OnTimer(s, t, now), now);
  }

  predicate Paid(s: Slot, s': Slot, t: Timing, now: int, wakeAt: int) {
    s'.phase.Closed?
    || (IsLive(s')
        && TimeLeft(s', t, wakeAt) + (wakeAt - now) == TimeLeft(s, t, now) + Lateness(s, t, now, wakeAt))
  }

  lemma OutcomePays(s: Slot, s': Slot, t: Timing, now: int, wakeAt: int)
    requires IsLive(s) && now <= wakeAt && Elapsed(now, Clock(s)) + (wakeAt - now) < TWO32
    requires Outcome(s, s', t, wakeAt)
    ensures Paid(s, s', t, now, wakeAt)
  {
    Later(now, wakeAt - now, Clock(s));
  }

  /** A wake at any moment, early or late, closes the slot or takes the time passed off what it had
      left. */
  lemma WakePays(s: Slot, t: Timing, now: int, wakeAt: int)
    requires IsLive(s) && now <= wakeAt && Elapsed(now, Clock(s)) + (wakeAt - now) < TWO32
    ensures Paid(s, Wake(s, t, wakeAt), t, now, wakeAt)
  {
    WakeOutcome(s, t, wakeAt);
    OutcomePays(s, Wake(s, t, wakeAt), t, now, wakeAt);
  }

  /** The loop wakes at each of these times in turn. */
  function Wakes(s: Slot, t: Timing, times: seq<int>): Slot
    decreases |times|
  {
    if times == [] || !IsLive(s) then s else Wakes(Wake(s, t, times[0]), t, times[1..])
  }

  predicate Ascending(now: int, times: seq<int>)
    decreases |times|
  {
    times != [] ==> now <= times[0] && Ascending(times[0], times[1..])
  }

  /** No wake lets the slot's clock go once around. */
  predicate Unwrapped(s: Slot, t: Timing, now: int, times: seq<int>)
    decreases |times|
  {
    times != [] && IsLive(s) ==>
      && Elapsed(now, Clock(s)) + (times[0] - now) < TWO32
      && Unwrapped(Wake(s, t, times[0]), t, times[0], times[1..])
  }

  function TotalLateness(s: Slot, t: Timing, now: int, times: seq<int>): nat
    decreases |times|
  {
    if times == [] || !IsLive(s) then 0
    else Lateness(s, t, now, times[0]) + TotalLateness(Wake(s, t, times[0]), t, times[0], times[1..])
  }

  /**
   A slot whose sockets stay silent is closed, however often and however irregularly the loop wakes,
   by the first wake for which more time has passed than the slot had left and the wakes were late by.
   */
  lemma {:induction false} SilenceCloses(s: Slot, t: Timing, now: int, times: seq<int>)
    requires IsLive(s) && times != [] && Ascending(now, times) && Unwrapped(s, t, now, times)
    requires times[|times| - 1] - now > TimeLeft(s, t, now) + TotalLateness(s, t, now, times)
    ensures Wakes(s, t, times).phase.Closed?
    decreases |times|
  {
    var s1 := Wake(s, t, times[0]);
    WakePays(s, t, now, times[0]);
    if IsLive(s1) {
      SilenceCloses(s1, t, times[0], times[1..]);
    }
  }

  /** Each wake comes within the slot's reported time, as the capped select() timeout makes it. */
  predicate Timely(s: Slot, t: Timing, now: int, times: seq<int>)
    decreases |times|
  {
    times != [] && IsLive(s) ==>
      && times[0] - now <= SlotRemainingMs(s, t, now)
      && Timely(Wake(s, t, times[0]), t, times[0], times[1..])
  }

  lemma {:induction false} TimelyIsNotLate(s: Slot, t: Timing, now: int, times: seq<int>)
    requires Timely(s, t, now, times)
    ensures Unwrapped(s, t, now, times) && TotalLateness(s, t, now, times) == 0
    decreases |times|
  {
    if times != [] && IsLive(s) {
      ReportedWithin(s, t, now);
      TimelyIsNotLate(Wake(s, t, times[0]), t, times[0], times[1..]);
    }
  }

  /** With timeouts of at most the reported time, the sum of the phase deadlines is enough. */
  lemma TimelyWakesClose(s: Slot, t: Timing, now: int, times: seq<int>)
    requires IsLive(s) && times != [] && Ascending(now, times) && Timely(s, t, now, times)
    requires times[|times| - 1] - now > Budget(s.phase, t)
    ensures Wakes(s, t, times).phase.Closed?
  {
    TimelyIsNotLate(s, t, now, times);
    TimeLeftInBudget(s, t, now);
    SilenceCloses(s, t, now, times);
  }

  /** What came back from a socket and counts as activity. */
  predicate Active(e: Event) {
    (e.Recv? && !e.got.RecvErr?) || (e.Send? && e.put.Sent?)
  }

  lemma ActivityIsStamped(s: Slot, e: Event)
    requires s.phase.Relay? && Active(e) && StepSlot(s, e).phase.Relay?
    ensures var c := StepSlot(s, e).clk;
      c.lastActivityMs == e.now && (c.halfClosing ==> c.halfCloseStartMs == e.now)
  {
    match e
    case Recv(side, got, now) => assert Received(s, side, got, now).clk == Touched(s.clk, now);
    case Send(to, put, now) => assert Delivered(s, to, put, now).clk == Touched(s.clk, now);
  }

  /** Activity at `now` puts every idle deadline of a relaying slot off: for any shorter time after it
      the timer does not close the slot. */
  lemma ActivityRestartsIdle(s: Slot, e: Event, t: Timing, d: nat)
    requires s.phase.Relay? && Active(e) && StepSlot(s, e).phase.Relay?
    requires d < t.idleMs && (StepSlot(s, e).clk.halfClosing ==> d < t.halfCloseMs)
    ensures OnTimer(StepSlot(s, e), t, e.now + d).phase.Relay?
  {
    ActivityIsStamped(s, e);
    TimerWaits(StepSlot(s, e), t, e.now, d);
  }

  lemma TimerWaits(s: Slot, t: Timing, now: int, d: nat)
    requires s.phase.Relay? && s.clk.lastActivityMs == now && d < t.idleMs
    requires s.clk.halfClosing ==> s.clk.halfCloseStartMs == now && d < t.halfCloseMs
    ensures OnTimer(s, t, now + d).phase.Relay?
  {
    assert Elapsed(now + d, now) == d;
  }
}
