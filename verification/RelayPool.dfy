/**
 The pool of slots one select loop serves: the select() timeout, the eviction choice and the watch
 list (lib/fry_core/socks_relay_core.cpp:454-515). A free slot is None.
 */
module RelayPool {
  import opened Prelude
  import opened RelayModel
  import opened RelayRuns

  const MAX_SLOTS := 4

  datatype Watch = Watch(fd: int, rd: bool, wr: bool)

  predicate LiveAt(slots: seq<Option<Slot>>, i: int) {
    0 <= i < |slots| && slots[i].Some? && IsLive(slots[i].value)
  }

  /** poolSelectTimeoutMs: the nearest deadline of the live slots, capped at maxMs. */
  method PoolSelectTimeoutMs(slots: seq<Option<Slot>>, t: Timing, now: int, maxMs: U32) returns (ms: U32)
    ensures ms <= maxMs
    ensures forall i :: LiveAt(slots, i) ==> ms <= SlotRemainingMs(slots[i].value, t, now)
    ensures ms == maxMs || exists i :: LiveAt(slots, i) && ms == SlotRemainingMs(slots[i].value, t, now)
  {
    ms := maxMs;
    for i := 0 to |slots|
      invariant ms <= maxMs
      invariant forall j :: LiveAt(slots, j) && j < i ==> ms <= SlotRemainingMs(slots[j].value, t, now)
      invariant ms == maxMs || exists j :: LiveAt(slots, j) && ms == SlotRemainingMs(slots[j].value, t, now)
    {
      if slots[i].Some? && IsLive(slots[i].value) {
        var r := SlotRemainingMs(slots[i].value, t, now);
        assert LiveAt(slots, i);
        if r < ms { ms := r; }
      }
    }
  }

  predicate Evictable(slots: seq<Option<Slot>>, i: int, now: int, minAgeMs: U32) {
    && 0 <= i < |slots| && slots[i].Some? && IsHandshake(slots[i].value)
    && Elapsed(now, slots[i].value.clk.lastActivityMs) >= minAgeMs
  }

  function IdleMs(slots: seq<Option<Slot>>, i: int, now: int): U32
    requires 0 <= i < |slots| && slots[i].Some?
  {
    Elapsed(now, slots[i].value.clk.lastActivityMs)
  }

  /** poolEvictIndex: the handshake slot that has been idle longest, at least minAgeMs; relaying
      slots are never chosen. */
  method PoolEvictIndex(slots: seq<Option<Slot>>, now: int, minAgeMs: U32) returns (best: int)
    ensures best == -1 ==> forall i :: !Evictable(slots, i, now, minAgeMs)
    ensures best != -1 ==> Evictable(slots, best, now, minAgeMs)
    ensures best != -1 ==>
              forall i :: Evictable(slots, i, now, minAgeMs) ==>
                IdleMs(slots, i, now) < IdleMs(slots, best, now) ||
                (IdleMs(slots, i, now) == IdleMs(slots, best, now) && best <= i)
  {
    best := -1;
    for i := 0 to |slots|
      invariant best < i
      invariant best == -1 ==> forall j :: Evictable(slots, j, now, minAgeMs) ==> j >= i
      invariant best != -1 ==> Evictable(slots, best, now, minAgeMs)
      invariant best != -1 ==>
                  forall j :: Evictable(slots, j, now, minAgeMs) && j < i ==>
                    IdleMs(slots, j, now) < IdleMs(slots, best, now) ||
                    (IdleMs(slots, j, now) == IdleMs(slots, best, now) && best <= j)
    {
      if slots[i].Some? && IsHandshake(slots[i].value) {
        var age := IdleMs(slots, i, now);
        if age >= minAgeMs && (best < 0 || age > IdleMs(slots, best, now)) { best := i; }
      }
    }
  }

  // ---- the watch list ------------------------------------------------------------------------

  predicate Wanted(fd: int, rd: bool, wr: bool, fdSetSize: int) {
    (rd || wr) && FdInRange(fd, fdSetSize)
  }

  /** Both descriptors of a live slot are in the list, with the wanted directions, if select() can
      take them. */
  predicate Covered(w: seq<Watch>, s: Option<Slot>, fdSetSize: int) {
    s.Some? && IsLive(s.value) ==>
      var want := SlotWants(s.value);
      && (Wanted(s.value.clientFd, want.clientRd, want.clientWr, fdSetSize) ==>
            Watch(s.value.clientFd, want.clientRd, want.clientWr) in w)
      && (Wanted(s.value.upFd, want.upRd, want.upWr, fdSetSize) ==>
            Watch(s.value.upFd, want.upRd, want.upWr) in w)
  }

  /** x is one of the two descriptors of a live slot, with the directions that slot wants. */
  predicate AskedBy(x: Watch, s: Option<Slot>) {
    && s.Some? && IsLive(s.value)
    && var want := SlotWants(s.value);
       x == Watch(s.value.clientFd, want.clientRd, want.clientWr) || x == Watch(s.value.upFd, want.upRd, want.upWr)
  }

  /** maxFd is the largest listed descriptor, -1 when there is none. */
  predicate IsMaxFd(w: seq<Watch>, maxFd: int) {
    && (forall x :: x in w ==> x.fd <= maxFd)
    && (if w == [] then maxFd == -1 else exists x :: x in w && x.fd == maxFd)
  }

  predicate BadAt(s: Option<Slot>, fdSetSize: int) {
    s.Some? && SlotBad(s.value, fdSetSize)
  }

  method Add(w: seq<Watch>, maxFd: int, fd: int, rd: bool, wr: bool, fdSetSize: int)
    returns (w': seq<Watch>, maxFd': int, bad: bool)
    requires IsMaxFd(w, maxFd)
    ensures IsMaxFd(w', maxFd')
    ensures w' == if Wanted(fd, rd, wr, fdSetSize) then w + [Watch(fd, rd, wr)] else w
    ensures bad <==> (rd || wr) && !FdInRange(fd, fdSetSize)
  {
    w', maxFd', bad := w, maxFd, false;
    if !rd && !wr { return; }
    if !FdInRange(fd, fdSetSize) { bad := true; return; }
    w' := w + [Watch(fd, rd, wr)];
    assert Watch(fd, rd, wr) in w';
    if fd > maxFd { maxFd' := fd; }
    assert w != [] ==> exists x :: x in w && x.fd == maxFd;
  }

  method AddSlot(w: seq<Watch>, maxFd: int, s: Option<Slot>, fdSetSize: int)
    returns (w': seq<Watch>, maxFd': int, bad: bool)
    requires IsMaxFd(w, maxFd)
    ensures IsMaxFd(w', maxFd')
    ensures w <= w' && |w'| <= |w| + 2 && Covered(w', s, fdSetSize)
    ensures forall x :: x in w' ==> x in w || (AskedBy(x, s) && Wanted(x.fd, x.rd, x.wr, fdSetSize))
    ensures bad == BadAt(s, fdSetSize)
  {
    w', maxFd', bad := w, maxFd, false;
    if s.None? || !IsLive(s.value) { return; }
    var want := SlotWants(s.value);
    var a, b := false, false;
    w', maxFd', a := Add(w, maxFd, s.value.clientFd, want.clientRd, want.clientWr, fdSetSize);
    w', maxFd', b := Add(w', maxFd', s.value.upFd, want.upRd, want.upWr, fdSetSize);
    bad := a || b;
  }

  /** x belongs to the listener or to one of the first n slots. */
  predicate Belongs(x: Watch, slots: seq<Option<Slot>>, n: nat, listenFd: int, watchListen: bool) {
    || (watchListen && x == Watch(listenFd, true, false))
    || exists i :: 0 <= i < n && i < |slots| && AskedBy(x, slots[i])
  }

  /** buildWatchList: everything wanted that select() can take and nothing else, never more than fits
      the fixed list; a slot that wants a descriptor select() cannot take is flagged, and no other. */
  method BuildWatchList(slots: seq<Option<Slot>>, listenFd: int, watchListen: bool, fdSetSize: int)
    returns (w: seq<Watch>, maxFd: int, listenBad: bool, slotBad: seq<bool>)
    requires |slots| <= MAX_SLOTS
    ensures |w| <= 1 + 2 * MAX_SLOTS && IsMaxFd(w, maxFd)
    ensures forall x :: x in w ==>
      Wanted(x.fd, x.rd, x.wr, fdSetSize) && Belongs(x, slots, |slots|, listenFd, watchListen)
    ensures forall i :: 0 <= i < |slots| ==> Covered(w, slots[i], fdSetSize)
    ensures Wanted(listenFd, watchListen, false, fdSetSize) ==> Watch(listenFd, watchListen, false) in w
    ensures listenBad <==> watchListen && !FdInRange(listenFd, fdSetSize)
    ensures |slotBad| == |slots|
    ensures forall i :: 0 <= i < |slots| ==> slotBad[i] == BadAt(slots[i], fdSetSize)
  {
    w, maxFd, slotBad := [], -1, [];
    w, maxFd, listenBad := Add(w, maxFd, listenFd, watchListen, false, fdSetSize);
    for i := 0 to |slots|
      invariant |w| <= 1 + 2 * i && IsMaxFd(w, maxFd)
      invariant forall x :: x in w ==>
        Wanted(x.fd, x.rd, x.wr, fdSetSize) && Belongs(x, slots, i, listenFd, watchListen)
      invariant forall j :: 0 <= j < i ==> Covered(w, slots[j], fdSetSize)
      invariant Wanted(listenFd, watchListen, false, fdSetSize) ==> Watch(listenFd, watchListen, false) in w
      invariant |slotBad| == i
      invariant forall j :: 0 <= j < i ==> slotBad[j] == BadAt(slots[j], fdSetSize)
    {
      ghost var had := w;
      var bad;
      w, maxFd, bad := AddSlot(w, maxFd, slots[i], fdSetSize);
      slotBad := slotBad + [bad];
      forall x | x in w
        ensures Belongs(x, slots, i + 1, listenFd, watchListen)
      {
        if x in had { assert Belongs(x, slots, i, listenFd, watchListen); }
      }
    }
  }

  /** So over every run of the relay no descriptor that was closed on purpose is handed to select(). */
  lemma ClosedIsNotListed(r: Run, x: Watch, fdSetSize: int)
    requires Reachable(r, fdSetSize) && AskedBy(x, Some(r.s)) && Wanted(x.fd, x.rd, x.wr, fdSetSize)
    ensures (x.fd == r.s.clientFd && r.ends.clientCloses == 0) || (x.fd == r.s.upFd && r.ends.upCloses == 0)
  {
    ClosedSideUnwatched(r, fdSetSize);
  }
}
