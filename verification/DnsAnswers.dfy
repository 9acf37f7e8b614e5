/**
 What resolving a name achieves (lib/fry_core/relay_dns.h:208-242, src/esp32/vpn_wireguard.cpp:421-458):
 a finished job's result answers every client that asks for the name, a success for 300 s and a failure
 for 15 s, and no resolver is started for it meanwhile.
 */
module DnsAnswers {
  import opened Prelude
  import opened DnsCache
  import opened DnsJobs
  import opened DnsPool
  import opened Socks5

  // ---- names -----------------------------------------------------------------------------------

  /** The same letter, or the same letter in the other case. */
  predicate SameLetter(a: char, b: char) {
    || a == b
    || ('A' <= a <= 'Z' && b as int == a as int + 32)
    || ('A' <= b <= 'Z' && a as int == b as int + 32)
  }

  lemma LetterFolds(a: char, b: char)
    ensures FoldChar(a) == FoldChar(b) <==> SameLetter(a, b)
  {
  }

  /** Two spellings are one name exactly when they differ in the case of ASCII letters only. */
  lemma SameNameIff(a: string, b: string)
    ensures Fold(a) == Fold(b) <==> |a| == |b| && forall i :: 0 <= i < |a| ==> SameLetter(a[i], b[i])
  {
    assert |Fold(a)| == |a| && |Fold(b)| == |b|;
    if |a| == |b| {
      forall i | 0 <= i < |a|
        ensures Fold(a)[i] == Fold(b)[i] <==> SameLetter(a[i], b[i])
      {
        LetterFolds(a[i], b[i]);
      }
    }
  }

  /** Every domain a SOCKS request can name fits the cache and the jobs, but for the empty one, which is
      never answered. */
  lemma RequestsFit(d: seq<Byte>, es: Entries, now: int)
    requires ParseConnect(d).ConnectOk? && ParseConnect(d).req.addrType.Domain?
    ensures var host := ParseConnect(d).req.host;
      if host == "" then !Hit(es, host, now) && !Blocked(es, host, now) else Representable(host)
  {
  }

  // ---- the cache -------------------------------------------------------------------------------

  /** What was just put answers, from then on and until its lifetime is over. */
  lemma PutAnswers(es: Entries, host: string, ip: U32, now: int, ttlMs: U32, t: int)
    requires Representable(host) && now <= t < now + ttlMs && ttlMs <= TWO31
    ensures Find(Put(es, host, ip, now, ttlMs), host, t) == Place(es, Fold(host), now)
  {
    var h, k := Fold(host), Place(es, Fold(host), now);
    var es' := Put(es, host, ip, now, ttlMs);
    FoldTwice(host);
    ExpiryIsTrue(es'[k], t);
    assert Answers(es'[k], h, t);
    forall j | 0 <= j < k
      ensures !Answers(es'[j], h, t)
    {
      assert !Holds(es[j], h);
    }
  }

  /** At the end of its lifetime the name is asked for again. */
  lemma PutExpires(es: Entries, last: History, host: string, ip: U32, now: int, ttlMs: U32)
    requires Refines(es, last) && Representable(host) && 0 < ttlMs < TWO31
    ensures Find(Put(es, host, ip, now, ttlMs), host, now + ttlMs) == ENTRIES
  {
    var es' := Put(es, host, ip, now, ttlMs);
    PutRefines(es, last, host, ip, now, ttlMs);
    var k := Find(es', host, now + ttlMs);
    if k < ENTRIES {
      ExpiryIsTrue(es'[k], now + ttlMs);
    }
  }

  /** Two spellings of one name are answered alike. */
  lemma FoldedAlike(es: Entries, a: string, b: string, t: int)
    requires Fold(a) == Fold(b)
    ensures Find(es, a, t) == Find(es, b, t)
  {
    assert |a| == |Fold(a)| == |b|;
  }

  // ---- one finished job ------------------------------------------------------------------------

  /** A finished job whose result the cache does not have yet. */
  predicate Fresh(j: Job) {
    j.live && j.done && !j.cached && Representable(j.host) && (j.ok ==> j.ip != 0)
  }

  /** The cache has the job's result at t, for any spelling of the name. */
  ghost predicate Has(es: Entries, j: Job, t: int) {
    forall host :: Fold(host) == Fold(j.host) ==>
      if j.ok then LookupIp(es, host, t) == j.ip != 0 && !Blocked(es, host, t)
      else Blocked(es, host, t) && LookupIp(es, host, t) == 0
  }

  /** How long a result is kept: five minutes, or fifteen seconds for a failure. */
  function Lifetime(j: Job): U32 { if j.ok then 300000 else 15000 }

  lemma SettleAnswers(es: Entries, j: Job, now: int, t: int)
    requires Fresh(j) && now <= t < now + Lifetime(j)
    ensures Has(Settle(es, j, now), j, t)
  {
    PutAnswers(es, j.host, if j.ok then j.ip else 0, now, Lifetime(j), t);
    forall host | Fold(host) == Fold(j.host)
      ensures Find(Settle(es, j, now), host, t) == Place(es, Fold(j.host), now)
    {
      FoldedAlike(Settle(es, j, now), host, j.host, t);
    }
  }

  lemma SettleExpires(es: Entries, last: History, j: Job, now: int)
    requires Refines(es, last) && Fresh(j)
    ensures var es' := Settle(es, j, now);
      !Blocked(es', j.host, now + Lifetime(j)) && !Hit(es', j.host, now + Lifetime(j))
  {
    PutExpires(es, last, j.host, if j.ok then j.ip else 0, now, Lifetime(j));
  }

  /** finishSlot: the waiting slot lets go of the job, and for 300 s (a success) or 15 s (a failure), and
      no longer, the cache answers for the name with the result. */
  lemma FinishSlotRecords(js: Jobs, es: Entries, last: History, k: nat, now: int)
    requires k < JOBS && Fresh(js[k]) && Refines(es, last)
    ensures var f := FinishSlot(js, es, k, now);
      f.done && f.job == JOBS && Recorded(f.es, js[k], now)
  {
    SettleRecords(es, last, js[k], now);
  }

  /** For 300 s, or 15 s for a failure, the cache answers for the name with the result; then no more. */
  ghost predicate Recorded(es: Entries, j: Job, now: int) {
    if j.ok
    then (forall t :: now <= t < now + 300000 ==> LookupIp(es, j.host, t) == j.ip)
         && LookupIp(es, j.host, now + 300000) == 0
    else (forall t :: now <= t < now + 15000 ==> Blocked(es, j.host, t))
         && !Blocked(es, j.host, now + 15000)
  }

  lemma SettleRecords(es: Entries, last: History, j: Job, now: int)
    requires Fresh(j) && Refines(es, last)
    ensures Recorded(Settle(es, j, now), j, now)
  {
    var es' := Settle(es, j, now);
    if j.ok {
      forall t | now <= t < now + 300000
        ensures LookupIp(es', j.host, t) == j.ip
      {
        SettleAnswers(es, j, now, t);
      }
    } else {
      forall t | now <= t < now + 15000
        ensures Blocked(es', j.host, t)
      {
        SettleAnswers(es, j, now, t);
      }
    }
    SettleExpires(es, last, j, now);
  }

  // ---- the sweep -------------------------------------------------------------------------------

  /** Every entry but the first is live, for another name, and was used in this very millisecond. */
  predicate Crowded(es: Entries, a: string, b: string, now: int) {
    forall i :: 1 <= i < ENTRIES ==>
      && es[i].valid && !Expired(es[i], now) && es[i].usedMs == now
      && Fold(es[i].host) != Fold(a) && Fold(es[i].host) != Fold(b)
  }

  predicate UsedLately(es: Entries, now: int) {
    forall i :: 0 <= i < ENTRIES ==> 0 <= now - es[i].usedMs < TWO31
  }

  lemma OlderMeans(a: Entry, b: Entry, now: int)
    requires 0 <= now - a.usedMs < TWO31 && 0 <= now - b.usedMs < TWO31
    ensures Older(a, b) <==> a.usedMs < b.usedMs
  {
  }

  /** The least recently used entry, the first one if there are several. */
  lemma {:induction false} LruIsFirstOldest(es: Entries, now: int, best: nat, i: nat)
    requires UsedLately(es, now) && best < i <= ENTRIES
    requires forall j :: 0 <= j < i ==> es[best].usedMs <= es[j].usedMs
    requires forall j :: 0 <= j < best ==> es[best].usedMs < es[j].usedMs
    ensures var k := LruFrom(es, best, i);
      && (forall j :: 0 <= j < ENTRIES ==> es[k].usedMs <= es[j].usedMs)
      && (forall j :: 0 <= j < k ==> es[k].usedMs < es[j].usedMs)
    decreases ENTRIES - i
  {
    if i < ENTRIES {
      OlderMeans(es[i], es[best], now);
      LruIsFirstOldest(es, now, if Older(es[i], es[best]) then i else best, i + 1);
    }
  }

  /** The second of two results takes the first one's place exactly in a crowded cache. */
  lemma SecondPlace(es: Entries, last: History, a: string, ip: U32, ttlMs: U32, b: string, now: int)
    requires Refines(es, last) && UsedLately(es, now)
    requires Representable(a) && Fold(a) != Fold(b) && 0 < ttlMs < TWO31
    ensures Place(Put(es, a, ip, now, ttlMs), Fold(b), now) == Place(es, Fold(a), now) <==> Crowded(es, a, b, now)
  {
    var k := Place(es, Fold(a), now);
    var es' := Put(es, a, ip, now, ttlMs);
    JustPut(es, a, ip, ttlMs, b, now);
    LruIsFirstOldest(es, now, 0, 1);
    LruIsFirstOldest(es', now, 0, 1);
    if Place(es', Fold(b), now) == k {
      assert SameFrom(es', Fold(b), 0) == ENTRIES && FreeFrom(es', now, 0) == ENTRIES;
      assert forall i :: 0 <= i < ENTRIES ==> es'[i].usedMs >= now;
      assert k == 0;
      NotHeldLater(es, last, Fold(a), now);
    }
  }

  lemma JustPut(es: Entries, a: string, ip: U32, ttlMs: U32, b: string, now: int)
    requires Representable(a) && Fold(a) != Fold(b) && 0 < ttlMs < TWO31
    ensures var e := Put(es, a, ip, now, ttlMs)[Place(es, Fold(a), now)];
      !Holds(e, Fold(b)) && e.valid && !Expired(e, now) && e.usedMs == now
  {
    FoldTwice(a);
    ExpiryIsTrue(Put(es, a, ip, now, ttlMs)[Place(es, Fold(a), now)], now);
  }

  /** A name put in the first place is not held elsewhere. */
  lemma NotHeldLater(es: Entries, last: History, h: string, now: int)
    requires Refines(es, last) && Place(es, h, now) == 0
    ensures forall i :: 1 <= i < ENTRIES ==> !Holds(es[i], h)
  {
    if SameFrom(es, h, 0) < ENTRIES {
      assert Holds(es[0], h);
    }
  }

  /** What two results in a row leave of the first: everything, or nothing in a crowded cache. */
  lemma FirstStays(es: Entries, last: History, a: Job, b: Job, now: int, t: int)
    requires Refines(es, last) && UsedLately(es, now) && Fresh(a) && Fresh(b) && Fold(a.host) != Fold(b.host)
    requires now <= t < now + Lifetime(a)
    ensures var k := Find(Settle(Settle(es, a, now), b, now), a.host, t);
      if Crowded(es, a.host, b.host, now) then k == ENTRIES else k == Place(es, Fold(a.host), now)
  {
    var ipA, ipB := if a.ok then a.ip else 0, if b.ok then b.ip else 0;
    var es1 := Put(es, a.host, ipA, now, Lifetime(a));
    var es2 := Put(es1, b.host, ipB, now, Lifetime(b));
    var k := Place(es, Fold(a.host), now);
    SecondPlace(es, last, a.host, ipA, Lifetime(a), b.host, now);
    PutRefines(es, last, a.host, ipA, now, Lifetime(a));
    var last1 := Record(last, a.host, ipA, now, Lifetime(a));
    PutRefines(es1, last1, b.host, ipB, now, Lifetime(b));
    FoldTwice(a.host);
    FoldTwice(b.host);
    ExpiryIsTrue(es1[k], t);
    if Crowded(es, a.host, b.host, now) {
      OnlyThere(es1, last1, Fold(a.host), k);
    } else {
      KeptIsFound(es2, Record(last1, b.host, ipB, now, Lifetime(b)), a.host, t, k);
    }
  }

  lemma OnlyThere(es: Entries, last: History, h: string, k: nat)
    requires Refines(es, last) && k < ENTRIES && Holds(es[k], h)
    ensures forall i :: 0 <= i < ENTRIES && i != k ==> !Holds(es[i], h)
  {
  }

  /** The cache's answer for the job's name, at every time of its lifetime. */
  ghost predicate Answerable(es: Entries, j: Job, now: int) {
    forall t :: now <= t < now + Lifetime(j) ==> Has(es, j, t)
  }

  lemma FoundIsHad(es: Entries, j: Job, t: int, k: nat)
    requires k < ENTRIES && Find(es, j.host, t) == k && es[k].ip == (if j.ok then j.ip else 0) && Fresh(j)
    ensures Has(es, j, t)
  {
    forall host | Fold(host) == Fold(j.host)
      ensures Find(es, host, t) == k
    {
      FoldedAlike(es, host, j.host, t);
    }
  }

  /** sweep with two results at once: the second is always recorded. The first is too, exactly when the
      cache is not crowded; a crowded one loses it, and its name is asked for again. */
  lemma SweepRecordsBoth(js: Jobs, es: Entries, last: History, now: int)
    requires Refines(es, last) && UsedLately(es, now)
    requires Fresh(js[0]) && Fresh(js[1]) && Fold(js[0].host) != Fold(js[1].host)
    ensures Answerable(Sweep(js, es, now).1, js[1], now)
    ensures Answerable(Sweep(js, es, now).1, js[0], now) <==> !Crowded(es, js[0].host, js[1].host, now)
  {
    var (a, b) := (js[0], js[1]);
    var es1 := Settle(es, a, now);
    var es2 := Settle(es1, b, now);
    forall t | now <= t < now + Lifetime(b)
      ensures Has(es2, b, t)
    {
      SettleAnswers(es1, b, now, t);
    }
    FirstStays(es, last, a, b, now, now);
    if Crowded(es, a.host, b.host, now) {
      assert !Has(es2, a, now);
    } else {
      forall t | now <= t < now + Lifetime(a)
        ensures Has(es2, a, t)
      {
        FirstStays(es, last, a, b, now, t);
        FoundIsHad(es2, a, t, Place(es, Fold(a.host), now));
      }
    }
  }

  /** sweep with one result: recorded, with the lifetime its kind has. */
  lemma SweepRecordsOne(js: Jobs, es: Entries, last: History, now: int, k: nat)
    requires k < JOBS && Refines(es, last) && Fresh(js[k])
    requires var o := js[1 - k]; !o.live || !o.done || o.cached
    ensures Recorded(Sweep(js, es, now).1, js[k], now)
  {
    SettleRecords(es, last, js[k], now);
  }

  // ---- in the pool -----------------------------------------------------------------------------

  /** Some legal run leads here. */
  ghost predicate Reachable(p: Pool) {
    exists n: nat, now: int, sts: seq<Step> :: LegalRun(Start(n, now), sts) && RunAll(Start(n, now), sts) == p
  }

  ghost predicate IsCache(es: Entries) {
    exists last: History :: Refines(es, last)
  }

  lemma SettleIsCache(es: Entries, j: Job, now: int)
    requires IsCache(es)
    ensures IsCache(Settle(es, j, now))
  {
    var last: History :| Refines(es, last);
    if j.live && j.done && !j.cached {
      PutRefines(es, last, j.host, if j.ok then j.ip else 0, now, Lifetime(j));
    }
  }

  lemma TouchedIsCache(es: Entries, host: string, now: int)
    requires IsCache(es)
    ensures IsCache(Touched(es, host, now))
  {
    var last: History :| Refines(es, last);
    assert Refines(Touched(es, host, now), last);
  }

  lemma StepIsCache(p: Pool, st: Step)
    requires Inv(p) && IsCache(p.es) && Enabled(p, st)
    ensures IsCache(Do(p, st).es)
  {
    match st
    case SweepOne(k) => SettleIsCache(p.es, p.js[k], p.now);
    case NeedConnect(i, starts) =>
      var k := p.clients[i].job;
      if k < JOBS { SettleIsCache(p.es, p.js[k], p.now); }
      var p1 := FinishOwn(p, i);
      TouchedIsCache(p1.es, p1.clients[i].host, p1.now);
    case JoinJob(starts, taskRuns) =>
      var i := p.mid.value;
      var p1 := BeginOwn(p, i, taskRuns).(mid := None);
      var k := p1.clients[i].job;
      if k < JOBS { SettleIsCache(p1.es, p1.js[k], p1.now); }
    case _ =>
  }

  lemma {:induction false} RunIsCache(p: Pool, sts: seq<Step>)
    requires Inv(p) && IsCache(p.es) && LegalRun(p, sts)
    ensures Inv(RunAll(p, sts)) && IsCache(RunAll(p, sts).es)
    decreases |sts|
  {
    if sts != [] {
      StepKeeps(p, sts[0]);
      StepIsCache(p, sts[0]);
      RunIsCache(Do(p, sts[0]), sts[1..]);
    }
  }

  lemma ReachableIsSound(p: Pool)
    requires Reachable(p)
    ensures Inv(p) && IsCache(p.es)
  {
    var n: nat, now: int, sts: seq<Step> :| LegalRun(Start(n, now), sts) && RunAll(Start(n, now), sts) == p;
    StartIsFine(n, now);
    assert Refines(EMPTY, map[]);
    RunIsCache(Start(n, now), sts);
  }

  lemma TouchedFinds(es: Entries, host: string, now: int, name: string, t: int)
    ensures Find(Touched(es, host, now), name, t) == Find(es, name, t)
  {
    var es' := Touched(es, host, now);
    assert forall i, h :: 0 <= i < ENTRIES ==> (Answers(es'[i], h, t) <==> Answers(es[i], h, t));
    if name != "" {
      var a, b := Find(es, name, t), Find(es', name, t);
      assert a < ENTRIES ==> Answers(es'[a], Fold(name), t);
      assert b < ENTRIES ==> Answers(es[b], Fold(name), t);
    }
  }

  /** A client whose own job has finished moves on at its next turn: to the address that was resolved,
      or to the refusal. The job is let go, no resolver starts, and the result is in the cache for its
      lifetime. */
  lemma WaiterHearsResult(p: Pool, i: nat, starts: bool, t: int)
    requires Reachable(p) && Enabled(p, NeedConnect(i, starts))
    requires p.clients[i].job < JOBS && p.js[p.clients[i].job].done && !p.js[p.clients[i].job].cached
    requires p.now <= t < p.now + Lifetime(p.js[p.clients[i].job])
    ensures var (c, q) := (p.clients[i], Do(p, NeedConnect(i, starts)));
      && q.clients[i] == c.(job := JOBS, stage := if p.js[c.job].ok && starts then Joined else Flushing)
      && q.tasks == p.tasks && q.mid.None? && Has(q.es, p.js[c.job], t)
  {
    ReachableIsSound(p);
    var c := p.clients[i];
    var j := p.js[c.job];
    var p1 := FinishOwn(p, i);
    assert Fresh(j) && Fold(c.host) == Fold(j.host);
    SettleAnswers(p.es, j, p.now, p.now);
    SettleAnswers(p.es, j, p.now, t);
    forall host | Fold(host) == Fold(j.host)
      ensures Find(Touched(p1.es, c.host, p.now), host, t) == Find(p1.es, host, t)
    {
      TouchedFinds(p1.es, c.host, p.now, host, t);
    }
  }

  /** A swept result answers every later client that asks for the name, however spelled, without a
      resolver: a failure refuses it for 15 s, a success connects it for 300 s. */
  lemma SweptResultAnswers(p: Pool, k: nat, ms: nat, i: nat, starts: bool)
    requires Reachable(p) && Enabled(p, SweepOne(k)) && p.js[k].live && p.js[k].done && !p.js[k].cached
    requires i < |p.clients| && p.clients[i].stage.Waiting? && p.clients[i].job == JOBS
    requires Fold(p.clients[i].host) == Fold(p.js[k].host)
    requires ms < if p.js[k].ok then 300000 else 15000
    ensures var p2 := Do(Do(p, SweepOne(k)), Tick(ms));
      var q := Do(p2, NeedConnect(i, starts));
      && q.clients[i].stage == (if p.js[k].ok && starts then Joined else Flushing)
      && LookupIp(p2.es, p.clients[i].host, p2.now) == (if p.js[k].ok then p.js[k].ip else 0)
      && q.js == p2.js && q.tasks == p.tasks && q.mid.None?
  {
    ReachableIsSound(p);
    SettleAnswers(p.es, p.js[k], p.now, p.now + ms);
    var p2 := Do(Do(p, SweepOne(k)), Tick(ms));
    assert Has(p2.es, p.js[k], p2.now);
    NoResolverNeeded(p2, i, starts);
  }

  /** A client whose name the cache answers for moves on without a resolver. */
  lemma NoResolverNeeded(p: Pool, i: nat, starts: bool)
    requires p.mid.None? && i < |p.clients| && p.clients[i].stage.Waiting? && p.clients[i].job == JOBS
    requires Hit(p.es, p.clients[i].host, p.now) || Blocked(p.es, p.clients[i].host, p.now)
    ensures var q := Do(p, NeedConnect(i, starts));
      && q.clients[i].stage == (if Hit(p.es, p.clients[i].host, p.now) && starts then Joined else Flushing)
      && q.js == p.js && q.tasks == p.tasks && q.mid.None?
  {
    assert FinishOwn(p, i) == p.(clients := p.clients[i := p.clients[i]]);
  }

  /** Where no answer is at hand, the client joins the live job of its name, or a resolver is started for
      it in a free place, or it waits for one; a resolver that cannot be started is a failure. */
  lemma AskingStartsResolver(p: Pool, starts: bool, taskRuns: bool)
    requires Reachable(p) && Enabled(p, JoinJob(starts, taskRuns))
    requires p.clients[p.mid.value].job == JOBS && Representable(p.clients[p.mid.value].host)
    ensures var (i, q) := (p.mid.value, Do(p, JoinJob(starts, taskRuns)));
      var host := p.clients[i].host;
      if exists k :: 0 <= k < JOBS && Serves(p.js[k], host)
      then
        var k := if Serves(p.js[0], host) then 0 else 1;
        && q.tasks == p.tasks
        && q.clients[i] == if p.js[k].done
                           then p.clients[i].(stage := if p.js[k].ok && starts then Joined else Flushing)
                           else p.clients[i].(job := k)
      else if p.js[0].live && p.js[1].live then q == p.(mid := None)
      else if !taskRuns then q.tasks == p.tasks && q.clients[i].stage.Flushing? && q.clients[i].job == JOBS
      else
        var k := q.clients[i].job;
        && k < JOBS && !p.js[k].live && q.tasks == p.tasks[k := Looking]
        && q.js == p.js[k := Job(host, 0, false, false, false, 1, true)]
  {
    ReachableIsSound(p);
  }

  /** What a resolver wrote is what its clients will be told: no step changes a job's address or outcome
      once its resolver has answered, as long as the job lives. */
  lemma AnswerStays(p: Pool, st: Step, k: nat)
    requires Reachable(p) && Enabled(p, st) && k < |p.tasks| == JOBS && p.tasks[k].Answered?
    ensures SameAnswer(Do(p, st).js[k], p.js[k])
  {
    ReachableIsSound(p);
    match st
    case NeedConnect(i, starts) =>
      OwnStepsSpareRunning(p, i, true, k);
      assert Do(p, st).js == FinishOwn(p, i).js;
    case JoinJob(starts, taskRuns) =>
      JoiningSpares(p, taskRuns, k);
      JoinedJobs(p, starts, taskRuns);
    case _ => OthersSpare(p, st, k);
  }

  predicate SameAnswer(j: Job, was: Job) {
    j.live && j.ip == was.ip && j.ok == was.ok && j.host == was.host
  }

  lemma OthersSpare(p: Pool, st: Step, k: nat)
    requires Inv(p) && Enabled(p, st) && k < JOBS && p.tasks[k].Answered?
    requires !st.NeedConnect? && !st.JoinJob?
    ensures SameAnswer(Do(p, st).js[k], p.js[k])
  {
  }

  lemma JoinedJobs(p: Pool, starts: bool, taskRuns: bool)
    requires Inv(p) && p.mid.Some?
    ensures var p1 := BeginOwn(p, p.mid.value, taskRuns).(mid := None);
      Do(p, JoinJob(starts, taskRuns)).js in {p1.js, FinishOwn(p1, p.mid.value).js}
  {
  }

  /** Another client's joining changes no more of a running job than its reference count. */
  lemma JoiningSpares(p: Pool, taskRuns: bool, k: nat)
    requires Inv(p) && p.mid.Some? && k < JOBS && p.tasks[k] != NoTask
    ensures var p1 := BeginOwn(p, p.mid.value, taskRuns).(mid := None);
      var q := FinishOwn(p1, p.mid.value);
      && p1.js[k] == p.js[k].(refs := p1.js[k].refs) && q.js[k] == p1.js[k]
  {
    var i := p.mid.value;
    OwnStepsSpareRunning(p, i, taskRuns, k);
    BeginKeeps(p, i, taskRuns);
    OwnStepsSpareRunning(BeginOwn(p, i, taskRuns).(mid := None), i, taskRuns, k);
  }

  /** ... and a resolver writes the address it found, or a failure. */
  lemma ResolverWrites(p: Pool, k: nat, ip: U32)
    requires Reachable(p) && Enabled(p, Resolve(k, ip))
    ensures var q := Do(Do(p, Resolve(k, ip)), Publish(k));
      q.js[k].done && (q.js[k].ok <==> ip != 0) && (ip != 0 ==> q.js[k].ip == ip) && q.tasks[k].NoTask?
  {
    ReachableIsSound(p);
  }

  /** No result is lost: a job lives on, whoever leaves, until its resolver is done and the cache has what
      it found. */
  lemma NoResultLost(p: Pool, st: Step, k: nat)
    requires Reachable(p) && Enabled(p, st) && k < JOBS && p.js[k].live && !p.js[k].cached
    ensures var q := Do(p, st);
      || (q.js[k].live && !q.js[k].cached && q.js[k].host == p.js[k].host)
      || (p.js[k].done && Has(q.es, p.js[k], q.now))
  {
    ReachableIsSound(p);
    if p.js[k].done { SettleAnswers(p.es, p.js[k], p.now, p.now); }
    match st
    case NeedConnect(i, starts) => TurnLosesNothing(p, i, starts, k);
    case JoinJob(starts, taskRuns) => JoinLosesNothing(p, starts, taskRuns, k);
    case _ => OthersLoseNothing(p, st, k);
  }

  lemma OthersLoseNothing(p: Pool, st: Step, k: nat)
    requires Inv(p) && Enabled(p, st) && !st.NeedConnect? && !st.JoinJob?
    requires k < JOBS && p.js[k].live && !p.js[k].cached
    requires p.js[k].done ==> Has(Settle(p.es, p.js[k], p.now), p.js[k], p.now)
    ensures var q := Do(p, st);
      || (q.js[k].live && !q.js[k].cached && q.js[k].host == p.js[k].host)
      || (p.js[k].done && Has(q.es, p.js[k], q.now))
  {
  }

  lemma TurnLosesNothing(p: Pool, i: nat, starts: bool, k: nat)
    requires Inv(p) && Enabled(p, NeedConnect(i, starts)) && k < JOBS && p.js[k].live && !p.js[k].cached
    requires p.js[k].done ==> Has(Settle(p.es, p.js[k], p.now), p.js[k], p.now)
    ensures var q := Do(p, NeedConnect(i, starts));
      q.js[k] == p.js[k] || (p.js[k].done && Has(q.es, p.js[k], q.now))
  {
    var p1 := FinishOwn(p, i);
    OwnTurnLosesNothing(p, i, k);
    if p1.js[k] != p.js[k] {
      forall host | Fold(host) == Fold(p.js[k].host)
        ensures Find(Touched(p1.es, p.clients[i].host, p.now), host, p.now) == Find(p1.es, host, p.now)
      {
        TouchedFinds(p1.es, p.clients[i].host, p.now, host, p.now);
      }
    }
  }

  lemma JoinLosesNothing(p: Pool, starts: bool, taskRuns: bool, k: nat)
    requires Inv(p) && Enabled(p, JoinJob(starts, taskRuns)) && k < JOBS && p.js[k].live && !p.js[k].cached
    requires p.js[k].done ==> Has(Settle(p.es, p.js[k], p.now), p.js[k], p.now)
    ensures var q := Do(p, JoinJob(starts, taskRuns));
      || (q.js[k].live && !q.js[k].cached && q.js[k].host == p.js[k].host)
      || (p.js[k].done && Has(q.es, p.js[k], q.now))
  {
    var p1 := BeginOwn(p, p.mid.value, taskRuns).(mid := None);
    assert p1.es == p.es && p1.js[k] == p.js[k].(refs := p1.js[k].refs);
    OwnTurnLosesNothing(p1, p.mid.value, k);
    JoinedResult(p, starts, taskRuns);
  }

  lemma JoinedResult(p: Pool, starts: bool, taskRuns: bool)
    requires Inv(p) && p.mid.Some?
    ensures var p1 := BeginOwn(p, p.mid.value, taskRuns).(mid := None);
      var (p2, q) := (FinishOwn(p1, p.mid.value), Do(p, JoinJob(starts, taskRuns)));
      q.now == p.now && ((q.js == p1.js && q.es == p1.es) || (q.js == p2.js && q.es == p2.es))
  {
  }

  lemma OwnTurnLosesNothing(p: Pool, i: nat, k: nat)
    requires i < |p.clients| && k < JOBS && p.js[k].live && !p.js[k].cached
    requires p.js[k].done ==> Has(Settle(p.es, p.js[k], p.now), p.js[k], p.now)
    ensures var q := FinishOwn(p, i);
      q.js[k] == p.js[k] || (p.js[k].done && Has(q.es, p.js[k], q.now))
  {
  }
}
