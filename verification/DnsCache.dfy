/**
 The four-entry DNS cache in front of the relay (lib/fry_core/relay_dns.h:25-141): host names are
 compared folded to lower case, expiry is a signed 32-bit comparison, eviction is least recently
 used. The cache is proved to refine a plain map that remembers every name's last result.
 */
module DnsCache {
  import opened Prelude

  const ENTRIES := 4
  const HOST_CAP := 256

  function FoldChar(c: char): char {
    if 'A' <= c <= 'Z' then c - 'A' + 'a' else c
  }

  /** DNS names are case-insensitive. */
  function Fold(h: string): string {
    seq(|h|, i requires 0 <= i < |h| => FoldChar(h[i]))
  }

  lemma FoldTwice(h: string)
    ensures Fold(Fold(h)) == Fold(h)
  {
  }

  /** dnsHostEq. */
  method HostEq(a: string, b: string) returns (same: bool)
    ensures same <==> Fold(a) == Fold(b)
  {
    var i := 0;
    while i < |a| && i < |b|
      invariant 0 <= i <= |a| && i <= |b|
      invariant forall k :: 0 <= k < i ==> FoldChar(a[k]) == FoldChar(b[k])
    {
      if FoldChar(a[i]) != FoldChar(b[i]) {
        assert Fold(a)[i] != Fold(b)[i];
        return false;
      }
      i := i + 1;
    }
    same := |a| == |b|;
    if !same { assert |Fold(a)| != |Fold(b)|; }
  }

  /** dnsReached: the signed difference now - at is not negative. */
  predicate Reached(now: int, at: int) {
    Elapsed(now, at) < TWO31
  }

  /** ip == 0 is a negative entry. Times are readings of the true clock, compared modulo 2^32. */
  datatype Entry = Entry(host: string, ip: U32, storedMs: int, ttlMs: U32, usedMs: int, valid: bool)

  const NO_ENTRY := Entry("", 0, 0, 0, 0, false)

  predicate Expired(e: Entry, now: int) {
    Reached(now, e.storedMs + e.ttlMs)
  }

  type Entries = es: seq<Entry> | |es| == ENTRIES witness [NO_ENTRY, NO_ENTRY, NO_ENTRY, NO_ENTRY]

  predicate Holds(e: Entry, h: string) {
    e.valid && Fold(e.host) == h
  }

  predicate Answers(e: Entry, h: string, now: int) {
    Holds(e, h) && !Expired(e, now)
  }

  /** The first entry, from i on, that answers for the folded name h; ENTRIES if there is none. */
  function FindFrom(es: Entries, h: string, now: int, i: nat): (k: nat)
    requires i <= ENTRIES
    ensures i <= k <= ENTRIES
    ensures k < ENTRIES ==> Answers(es[k], h, now)
    ensures forall j :: i <= j < k ==> !Answers(es[j], h, now)
    decreases ENTRIES - i
  {
    if i == ENTRIES || Answers(es[i], h, now) then i else FindFrom(es, h, now, i + 1)
  }

  /** The entry that answers for `host`; ENTRIES for the empty name. */
  function Find(es: Entries, host: string, now: int): (k: nat)
    ensures k <= ENTRIES
  {
    if host == "" then ENTRIES else FindFrom(es, Fold(host), now, 0)
  }

  predicate Hit(es: Entries, host: string, now: int) {
    var k := Find(es, host, now);
    k < ENTRIES && es[k].ip != 0
  }

  predicate Blocked(es: Entries, host: string, now: int) {
    var k := Find(es, host, now);
    k < ENTRIES && es[k].ip == 0
  }

  function LookupIp(es: Entries, host: string, now: int): U32 {
    if Hit(es, host, now) then es[Find(es, host, now)].ip else 0
  }

  /** A hit refreshes the entry's LRU stamp. */
  function Touched(es: Entries, host: string, now: int): Entries {
    if Hit(es, host, now) then
      var k := Find(es, host, now);
      es[k := es[k].(usedMs := now)]
    else es
  }

  function SameFrom(es: Entries, h: string, i: nat): (k: nat)
    requires i <= ENTRIES
    ensures i <= k <= ENTRIES
    ensures k < ENTRIES ==> Holds(es[k], h)
    ensures forall j :: i <= j < k ==> !Holds(es[j], h)
    decreases ENTRIES - i
  {
    if i == ENTRIES || Holds(es[i], h) then i else SameFrom(es, h, i + 1)
  }

  function FreeFrom(es: Entries, now: int, i: nat): (k: nat)
    requires i <= ENTRIES
    ensures i <= k <= ENTRIES
    ensures k < ENTRIES ==> !es[k].valid || Expired(es[k], now)
    ensures forall j :: i <= j < k ==> es[j].valid && !Expired(es[j], now)
    decreases ENTRIES - i
  {
    if i == ENTRIES || !es[i].valid || Expired(es[i], now) then i else FreeFrom(es, now, i + 1)
  }

  /** Signed 32-bit "a was used before b". */
  predicate Older(a: Entry, b: Entry) {
    Elapsed(a.usedMs, b.usedMs) >= TWO31
  }

  function LruFrom(es: Entries, best: nat, i: nat): (k: nat)
    requires best < ENTRIES && i <= ENTRIES
    ensures k < ENTRIES
    decreases ENTRIES - i
  {
    if i == ENTRIES then best
    else LruFrom(es, if Older(es[i], es[best]) then i else best, i + 1)
  }

  /** Where a result for h goes: its own entry, else a free or expired one, else the LRU one. */
  function Place(es: Entries, h: string, now: int): (k: nat)
    ensures k < ENTRIES
  {
    var same := SameFrom(es, h, 0);
    if same < ENTRIES then same
    else
      var free := FreeFrom(es, now, 0);
      if free < ENTRIES then free else LruFrom(es, 0, 1)
  }

  predicate Representable(host: string) {
    0 < |host| < HOST_CAP
  }

  function Put(es: Entries, host: string, ip: U32, now: int, ttlMs: U32): Entries {
    if !Representable(host) then es
    else es[Place(es, Fold(host), now) := Entry(Fold(host), ip, now, ttlMs, now, true)]
  }

  function Store(es: Entries, host: string, ip: U32, now: int, ttlMs: U32): Entries {
    if ip == 0 then es else Put(es, host, ip, now, ttlMs)
  }

  function StoreFailure(es: Entries, host: string, now: int, ttlMs: U32): Entries {
    Put(es, host, 0, now, ttlMs)
  }

  // ---- refinement of a plain map ---------------------------------------------------------------

  /** The most recent result recorded for a name. */
  datatype Last = Last(ip: U32, at: int, ttlMs: U32)

  type History = map<string, Last>

  /** Every valid entry is the last result for its name, and no name has two. */
  ghost predicate Refines(es: Entries, last: History) {
    && (forall i :: 0 <= i < ENTRIES && es[i].valid ==>
          && Fold(es[i].host) in last
          && last[Fold(es[i].host)] == Last(es[i].ip, es[i].storedMs, es[i].ttlMs))
    && (forall i, j :: 0 <= i < j < ENTRIES && es[i].valid && es[j].valid ==>
          Fold(es[i].host) != Fold(es[j].host))
  }

  function Record(last: History, host: string, ip: U32, now: int, ttlMs: U32): History {
    if Representable(host) then last[Fold(host) := Last(ip, now, ttlMs)] else last
  }

  lemma PutRefines(es: Entries, last: History, host: string, ip: U32, now: int, ttlMs: U32)
    requires Refines(es, last)
    ensures Refines(Put(es, host, ip, now, ttlMs), Record(last, host, ip, now, ttlMs))
  {
    if Representable(host) {
      var h := Fold(host);
      FoldTwice(host);
      var k := Place(es, h, now);
      forall i | 0 <= i < ENTRIES && i != k && es[i].valid
        ensures Fold(es[i].host) != h
      {
        if SameFrom(es, h, 0) == ENTRIES {
          assert !Holds(es[i], h);
        } else {
          assert Holds(es[k], h);
        }
      }
    }
  }

  datatype Op =
    | DoLookup(host: string, now: int)
    | DoStore(host: string, ip: U32, now: int, ttlMs: U32)
    | DoFail(host: string, now: int, ttlMs: U32)

  function Apply(es: Entries, op: Op): Entries {
    match op
    case DoLookup(host, now) => Touched(es, host, now)
    case DoStore(host, ip, now, ttlMs) => Store(es, host, ip, now, ttlMs)
    case DoFail(host, now, ttlMs) => StoreFailure(es, host, now, ttlMs)
  }

  function Remember(last: History, op: Op): History {
    match op
    case DoLookup(_, _) => last
    case DoStore(host, ip, now, ttlMs) => if ip == 0 then last else Record(last, host, ip, now, ttlMs)
    case DoFail(host, now, ttlMs) => Record(last, host, 0, now, ttlMs)
  }

  ghost function ApplyAll(es: Entries, ops: seq<Op>): Entries {
    if ops == [] then es else Apply(ApplyAll(es, ops[..|ops| - 1]), ops[|ops| - 1])
  }

  ghost function RememberAll(last: History, ops: seq<Op>): History {
    if ops == [] then last else Remember(RememberAll(last, ops[..|ops| - 1]), ops[|ops| - 1])
  }

  const EMPTY: Entries := [NO_ENTRY, NO_ENTRY, NO_ENTRY, NO_ENTRY]

  lemma {:induction false} RunRefines(ops: seq<Op>)
    ensures Refines(ApplyAll(EMPTY, ops), RememberAll(map[], ops))
  {
    if ops != [] {
      var before := ops[..|ops| - 1];
      RunRefines(before);
      match ops[|ops| - 1]
      case DoLookup(host, now) =>
      case DoStore(host, ip, now, ttlMs) =>
        PutRefines(ApplyAll(EMPTY, before), RememberAll(map[], before), host, ip, now, ttlMs);
      case DoFail(host, now, ttlMs) =>
        PutRefines(ApplyAll(EMPTY, before), RememberAll(map[], before), host, 0, now, ttlMs);
    }
  }

  /** After any sequence of operations, for ages under 2^31 ms: a hit is the address the name's most
      recent result gave, a block means that result was a failure, and in both cases the result is
      still within its lifetime. Evictions in between can only turn an answer into a miss. */
  lemma AnswersAreLatest(ops: seq<Op>, host: string, now: int)
    ensures
      var (es, last) := (ApplyAll(EMPTY, ops), RememberAll(map[], ops));
      var h := Fold(host);
      (Hit(es, host, now) || Blocked(es, host, now)) ==>
        && h in last
        && (Hit(es, host, now) ==> last[h].ip == LookupIp(es, host, now) != 0)
        && (Blocked(es, host, now) ==> last[h].ip == 0)
        && (0 <= now - last[h].at < TWO31 && last[h].ttlMs <= TWO31 ==> now < last[h].at + last[h].ttlMs)
  {
    RunRefines(ops);
    var (es, last) := (ApplyAll(EMPTY, ops), RememberAll(map[], ops));
    var k := Find(es, host, now);
    if k < ENTRIES {
      assert Answers(es[k], Fold(host), now);
      if 0 <= now - es[k].storedMs < TWO31 && es[k].ttlMs <= TWO31 {
        ExpiryIsTrue(es[k], now);
      }
    }
  }

  /** Conversely the last result for a name is found unless it expired or was evicted. */
  lemma KeptIsFound(es: Entries, last: History, host: string, now: int, i: nat)
    requires Refines(es, last) && i < ENTRIES && host != "" && Holds(es[i], Fold(host))
    ensures Find(es, host, now) == (if Expired(es[i], now) then ENTRIES else i)
  {
    assert Find(es, host, now) < ENTRIES ==> Holds(es[Find(es, host, now)], Fold(host));
  }

  /** Below 2^31 ms the wrapping comparison is the true one; beyond it an expired entry comes back
      to life (`ExpiryWraps`). */
  lemma ExpiryIsTrue(e: Entry, now: int)
    requires 0 <= now - e.storedMs < TWO31 && e.ttlMs <= TWO31
    ensures Expired(e, now) <==> now >= e.storedMs + e.ttlMs
  {
  }

  /** `now` lies in the upper half of the k-th turn of the 32-bit clock after `expiry`. */
  ghost predicate UpperHalf(expiry: int, now: int, k: nat) {
    expiry + TWO31 + k * TWO32 <= now < expiry + (k + 1) * TWO32
  }

  /** An entry past its expiry is served again in the upper half of every later turn of the clock, and
      at no other time. */
  lemma ExpiryWraps(e: Entry, now: int)
    ensures var expiry := e.storedMs + e.ttlMs;
      now >= expiry ==> (!Expired(e, now) <==> exists k: nat :: UpperHalf(expiry, now, k))
  {
    var past := now - e.storedMs - e.ttlMs;
    if past >= 0 {
      var turn: nat := past / TWO32;
      assert past == turn * TWO32 + past % TWO32;
      if past % TWO32 >= TWO31 {
        assert UpperHalf(e.storedMs + e.ttlMs, now, turn);
      }
    }
  }

  /** A live name is pushed out only by a third party's result when every entry is live, and then it
      is the least recently used one (for use times within 2^31 ms of each other). */
  lemma EvictsLeastRecent(es: Entries, host: string, now: int, i: nat)
    requires Representable(host) && i < ENTRIES
    requires forall a, b :: 0 <= a < ENTRIES && 0 <= b < ENTRIES ==> -TWO31 <= es[a].usedMs - es[b].usedMs < TWO31
    requires es[i].valid && !Expired(es[i], now) && Fold(es[i].host) != Fold(host)
    requires i == Place(es, Fold(host), now)
    ensures forall j :: 0 <= j < ENTRIES ==>
              es[j].valid && !Expired(es[j], now) && Fold(es[j].host) != Fold(host) && es[i].usedMs <= es[j].usedMs
  {
    assert SameFrom(es, Fold(host), 0) == ENTRIES;
    assert FreeFrom(es, now, 0) == ENTRIES;
    LruIsOldest(es, 0, 1);
  }

  lemma {:induction false} LruIsOldest(es: Entries, best: nat, i: nat)
    requires best < i <= ENTRIES
    requires forall a, b :: 0 <= a < ENTRIES && 0 <= b < ENTRIES ==> -TWO31 <= es[a].usedMs - es[b].usedMs < TWO31
    requires forall j :: 0 <= j < i ==> es[best].usedMs <= es[j].usedMs
    ensures forall j :: 0 <= j < ENTRIES ==> es[LruFrom(es, best, i)].usedMs <= es[j].usedMs
    decreases ENTRIES - i
  {
    if i < ENTRIES {
      assert Older(es[i], es[best]) <==> es[i].usedMs < es[best].usedMs;
      LruIsOldest(es, if Older(es[i], es[best]) then i else best, i + 1);
    }
  }

  // ---- the cache as the firmware keeps it ------------------------------------------------------

  class Cache {
    const entries: array<Entry>
    ghost var last: History

    ghost predicate Valid()
      reads this, entries
    {
      entries.Length == ENTRIES && Refines(entries[..], last)
    }

    constructor ()
      ensures Valid() && fresh(entries) && entries[..] == EMPTY && last == map[]
    {
      entries := new Entry[ENTRIES](_ => NO_ENTRY);
      last := map[];
    }

    method FindEntry(host: string, now: int) returns (k: nat)
      requires Valid()
      ensures k == Find(entries[..], host, now)
    {
      if host == "" { return ENTRIES; }
      k := 0;
      while k < ENTRIES
        invariant k <= ENTRIES
        invariant FindFrom(entries[..], Fold(host), now, 0) == FindFrom(entries[..], Fold(host), now, k)
      {
        if entries[k].valid && !Expired(entries[k], now) {
          var same := HostEq(entries[k].host, host);
          if same { return; }
        }
        k := k + 1;
      }
    }

    /** lookup: a positive, unexpired entry. */
    method Lookup(host: string, now: int) returns (hit: bool, ip: U32)
      requires Valid()
      modifies entries
      ensures Valid() && entries[..] == Touched(old(entries[..]), host, now)
      ensures hit == Hit(old(entries[..]), host, now) && ip == LookupIp(old(entries[..]), host, now)
    {
      var k := FindEntry(host, now);
      if k == ENTRIES || entries[k].ip == 0 { return false, 0; }
      entries[k] := entries[k].(usedMs := now);
      return true, entries[k].ip;
    }

    /** blocked: an unexpired negative entry. */
    method IsBlocked(host: string, now: int) returns (b: bool)
      requires Valid()
      ensures b == Blocked(entries[..], host, now)
    {
      var k := FindEntry(host, now);
      b := k < ENTRIES && entries[k].ip == 0;
    }

    /** The three scans of put. */
    method Choose(host: string, now: int) returns (k: nat)
      requires Valid()
      ensures k == Place(entries[..], Fold(host), now)
    {
      ghost var es, h := entries[..], Fold(host);
      k := 0;
      while k < ENTRIES
        invariant k <= ENTRIES && SameFrom(es, h, 0) == SameFrom(es, h, k)
      {
        if entries[k].valid {
          var same := HostEq(entries[k].host, host);
          if same { return; }
        }
        k := k + 1;
      }
      k := 0;
      while k < ENTRIES
        invariant k <= ENTRIES && FreeFrom(es, now, 0) == FreeFrom(es, now, k)
      {
        if !entries[k].valid || Expired(entries[k], now) { return; }
        k := k + 1;
      }
      k := 0;
      for i := 1 to ENTRIES
        invariant k < ENTRIES && LruFrom(es, 0, 1) == LruFrom(es, k, i)
      {
        if Older(entries[i], entries[k]) { k := i; }
      }
    }

    /** store and storeFailure. */
    method Keep(host: string, ip: U32, now: int, ttlMs: U32)
      requires Valid()
      modifies this`last, entries
      ensures Valid() && entries[..] == Put(old(entries[..]), host, ip, now, ttlMs)
      ensures last == Record(old(last), host, ip, now, ttlMs)
    {
      PutRefines(entries[..], last, host, ip, now, ttlMs);
      if host == "" || |host| >= HOST_CAP { return; }
      var k := Choose(host, now);
      entries[k] := Entry(Fold(host), ip, now, ttlMs, now, true);
      last := Record(last, host, ip, now, ttlMs);
    }
  }
}
