/**
 The relay loop and its resolver tasks over the shared job pool (src/esp32/vpn_wireguard.cpp:245-276,
 421-458, 715-838): every interleaving of relay steps with resolver steps.

 A resolver task takes two steps, because its answer is written before the `done` flag that publishes
 it. The relay's needConnect also takes two, since a resolver may publish between its cache test and
 its job test; while it is between them (`mid`) the relay does nothing else. Time is the true clock
 and never runs backwards.
 */
module DnsPool {
  import opened Prelude
  import opened DnsCache
  import opened DnsJobs

  /** Where a client slot stands, as far as name resolution is concerned. */
  datatype Stage = Empty | Handshake | Waiting | Joined | Flushing | Gone

  /** job == JOBS: none. */
  datatype Client = Client(stage: Stage, host: string, job: nat)

  datatype Task = NoTask | Looking | Answered

  datatype Pool = Pool(now: int, es: Entries, js: Jobs, tasks: seq<Task>, clients: seq<Client>,
                       mid: Option<nat>)

  datatype Step =
    | SweepOne(k: nat)
    | Tick(ms: nat)
    | Accept(i: nat)                    // a new client takes an empty slot
    | Ask(i: nat, host: string)         // its handshake names a host
    | NeedConnect(i: nat, starts: bool) // needConnect up to the cache tests; connect() starts or not
    | JoinJob(starts: bool, taskRuns: bool)  // ... and the rest; xTaskCreate succeeds or not
    | ConnectFails(i: nat)              // a failed or timed-out connect
    | Close(i: nat)                     // for any reason
    | Reap(i: nat)                      // dnsDropSlot, and the slot is free again
    | Resolve(j: nat, ip: U32)          // a resolver task writes its answer (0: none)
    | Publish(j: nat)                   // ... and then its done flag

  predicate Enabled(p: Pool, st: Step) {
    match st
    case SweepOne(k) => p.mid.None? && k < JOBS
    case Tick(_) => true
    case Accept(i) => p.mid.None? && i < |p.clients| && p.clients[i].stage.Empty?
    case Ask(i, _) => p.mid.None? && i < |p.clients| && p.clients[i].stage.Handshake?
    case NeedConnect(i, _) => p.mid.None? && i < |p.clients| && p.clients[i].stage.Waiting?
    case JoinJob(_, _) => p.mid.Some? && p.mid.value < |p.clients| && |p.tasks| == JOBS
    case ConnectFails(i) =>
      p.mid.None? && i < |p.clients| && (p.clients[i].stage.Waiting? || p.clients[i].stage.Joined?)
    case Close(i) => p.mid.None? && i < |p.clients| && !p.clients[i].stage.Empty?
    case Reap(i) => p.mid.None? && i < |p.clients| && p.clients[i].stage.Gone?
    case Resolve(j, _) => j < JOBS && j < |p.tasks| && p.tasks[j].Looking?
    case Publish(j) => j < JOBS && j < |p.tasks| && p.tasks[j].Answered?
  }

  /** The slot moves on: to the upstream connect, or to the refusal. */
  function Moved(started: bool): Stage {
    if started then Joined else Flushing
  }

  function SetClient(p: Pool, i: nat, c: Client): Pool
    requires i < |p.clients|
  {
    p.(clients := p.clients[i := c])
  }

  /** finishSlot on slot i's own job. */
  function FinishOwn(p: Pool, i: nat): Pool
    requires i < |p.clients|
  {
    var f := FinishSlot(p.js, p.es, p.clients[i].job, p.now);
    SetClient(p.(js := f.js, es := f.es), i, p.clients[i].(job := f.job))
  }

  /** The two cache tests of needConnect. */
  function CacheTests(p: Pool, i: nat, starts: bool): Pool
    requires i < |p.clients|
  {
    var c := p.clients[i];
    if Hit(p.es, c.host, p.now) then
      SetClient(p.(es := Touched(p.es, c.host, p.now)), i, c.(stage := Moved(starts)))
    else if Blocked(p.es, c.host, p.now) then SetClient(p, i, c.(stage := Flushing))
    else p.(mid := Some(i))
  }

  /** begin and dnsStart for slot i. */
  function BeginOwn(p: Pool, i: nat, taskRuns: bool): Pool
    requires i < |p.clients| && |p.tasks| == JOBS
  {
    var c := p.clients[i];
    if c.job < JOBS then p
    else
      var b := Begin(p.js, c.host);
      if b.job == JOBS then p
      else
        SetClient(p.(js := if b.created && !taskRuns then b.js[b.job := b.js[b.job].(done := true)] else b.js,
                     tasks := if b.created && taskRuns then p.tasks[b.job := Looking] else p.tasks),
                  i, c.(job := b.job))
  }

  function DoJoinJob(p: Pool, i: nat, starts: bool, taskRuns: bool): Pool
    requires i < |p.clients| && |p.tasks| == JOBS
  {
    var p1 := BeginOwn(p, i, taskRuns).(mid := None);
    var c := p1.clients[i];
    if c.job >= JOBS || !p1.js[c.job].done then p1
    else
      var p2 := FinishOwn(p1, i);
      SetClient(p2, i, p2.clients[i].(stage := Moved(p1.js[c.job].ok && starts)))
  }

  function Do(p: Pool, st: Step): Pool
    requires Enabled(p, st)
  {
    match st
    case SweepOne(k) => p.(js := p.js[k := SweptJob(p.js[k])], es := Settle(p.es, p.js[k], p.now))
    case Tick(ms) => p.(now := p.now + ms)
    case Accept(i) => SetClient(p, i, Client(Handshake, "", JOBS))
    case Ask(i, host) => SetClient(p, i, p.clients[i].(stage := Waiting, host := host))
    case NeedConnect(i, starts) => CacheTests(FinishOwn(p, i), i, starts)
    case JoinJob(starts, taskRuns) => DoJoinJob(p, p.mid.value, starts, taskRuns)
    case ConnectFails(i) => SetClient(p, i, p.clients[i].(stage := Flushing))
    case Close(i) => SetClient(p, i, p.clients[i].(stage := Gone))
    case Reap(i) => SetClient(p.(js := Release(p.js, p.clients[i].job)), i, Client(Empty, "", JOBS))
    case Resolve(j, ip) =>
      p.(tasks := p.tasks[j := Answered],
         js := if ip == 0 then p.js else p.js[j := p.js[j].(ip := ip, ok := true)])
    case Publish(j) => p.(tasks := p.tasks[j := NoTask], js := p.js[j := p.js[j].(done := true)])
  }

  // ---- the invariant -------------------------------------------------------------------------

  /** How many slots point at job k. */
  function Refs(cs: seq<Client>, k: nat): nat {
    if cs == [] then 0 else (if cs[0].job == k then 1 else 0) + Refs(cs[1..], k)
  }

  lemma {:induction false} RefsUpdate(cs: seq<Client>, i: nat, c: Client, k: nat)
    requires i < |cs|
    ensures Refs(cs[i := c], k)
         == Refs(cs, k) - (if cs[i].job == k then 1 else 0) + (if c.job == k then 1 else 0)
  {
    if i == 0 {
      assert cs[i := c][1..] == cs[1..];
    } else {
      assert cs[i := c][1..] == cs[1..][i - 1 := c];
      RefsUpdate(cs[1..], i - 1, c, k);
    }
  }

  lemma {:induction false} RefsPositive(cs: seq<Client>, i: nat)
    requires i < |cs|
    ensures Refs(cs, cs[i].job) >= 1
  {
    if i > 0 { RefsPositive(cs[1..], i - 1); }
  }

  lemma {:induction false} RefsZero(cs: seq<Client>, k: nat)
    requires forall i :: 0 <= i < |cs| ==> cs[i].job != k
    ensures Refs(cs, k) == 0
  {
    if cs != [] { RefsZero(cs[1..], k); }
  }

  /** A job place is empty, being resolved by its own task, or done. */
  predicate JobOk(j: Job, t: Task, refs: nat) {
    && j.refs == refs
    && (!j.live ==> j == NO_JOB)
    && (!t.NoTask? <==> j.live && !j.done)
    && (j.cached ==> j.done)
    && (j.live ==> Representable(j.host))
    && (j.ok ==> j.ip != 0) && (t.Looking? ==> !j.ok)
  }

  predicate JobsOk(js: Jobs, tasks: seq<Task>, cs: seq<Client>) {
    && |tasks| == JOBS
    && JobOk(js[0], tasks[0], Refs(cs, 0))
    && JobOk(js[1], tasks[1], Refs(cs, 1))
    && !(js[0].live && js[1].live && Fold(js[0].host) == Fold(js[1].host))
  }

  predicate ClientOk(js: Jobs, c: Client) {
    && c.job <= JOBS
    && (c.stage.Empty? || c.stage.Handshake? ==> c.job == JOBS)
    && (c.job < JOBS ==> Serves(js[c.job], c.host))
  }

  predicate ClientsOk(js: Jobs, cs: seq<Client>) {
    forall i :: 0 <= i < |cs| ==> ClientOk(js, cs[i])
  }

  /** What every run keeps, whatever the age of the cache entries. */
  ghost predicate Inv(p: Pool) {
    && JobsOk(p.js, p.tasks, p.clients) && ClientsOk(p.js, p.clients)
    && (p.mid.Some? ==> p.mid.value < |p.clients| && p.clients[p.mid.value].stage.Waiting?)
  }

  // ---- single operations keep it ---------------------------------------------------------------

  /** A slot whose job pointer does not change. */
  lemma SameJobKeeps(p: Pool, i: nat, c: Client)
    requires Inv(p) && p.mid.None? && i < |p.clients| && c.job == p.clients[i].job && ClientOk(p.js, c)
    ensures Inv(SetClient(p, i, c))
  {
    RefsUpdate(p.clients, i, c, 0);
    RefsUpdate(p.clients, i, c, 1);
  }

  lemma SweepKeeps(p: Pool, k: nat)
    requires Inv(p) && Enabled(p, SweepOne(k))
    ensures Inv(Do(p, SweepOne(k)))
  {
    var js := p.js[k := SweptJob(p.js[k])];
    forall i | 0 <= i < |p.clients|
      ensures ClientOk(js, p.clients[i])
    {
      RefsPositive(p.clients, i);
    }
  }

  /** Dropping slot i's reference to its job, settled or not. */
  lemma ReleaseKeeps(p: Pool, i: nat, js: Jobs, c: Client)
    requires Inv(p) && p.mid.None? && i < |p.clients|
    requires var k := p.clients[i].job;
             if k == JOBS then js == p.js
             else js == p.js[k := ReleasedJob(SettledJob(p.js[k]))] || js == p.js[k := ReleasedJob(p.js[k])]
    requires c.job == JOBS
    ensures JobsOk(js, p.tasks, p.clients[i := c])
    ensures ClientsOk(js, p.clients[i := c])
  {
    var k := p.clients[i].job;
    RefsUpdate(p.clients, i, c, 0);
    RefsUpdate(p.clients, i, c, 1);
    if k < JOBS {
      RefsPositive(p.clients, i);
      if !js[k].live {
        assert Refs(p.clients[i := c], k) == 0;
        forall x | 0 <= x < |p.clients| && x != i
          ensures p.clients[x].job != k
        {
          RefsPositive(p.clients[i := c], x);
        }
      }
    }
  }

  lemma FinishKeeps(p: Pool, i: nat)
    requires Inv(p) && p.mid.None? && i < |p.clients|
    requires !p.clients[i].stage.Empty?
    ensures Inv(FinishOwn(p, i))
    ensures var c := FinishOwn(p, i).clients[i];
            c.job == JOBS || (c.job == p.clients[i].job && !p.js[c.job].done)
  {
    var k := p.clients[i].job;
    if k < JOBS && p.js[k].done {
      var js := p.js[k := ReleasedJob(SettledJob(p.js[k]))];
      ReleaseKeeps(p, i, js, p.clients[i].(job := JOBS));
    } else {
      assert p.clients[i := p.clients[i]] == p.clients;
    }
  }

  lemma ReapKeeps(p: Pool, i: nat)
    requires Inv(p) && Enabled(p, Reap(i))
    ensures Inv(Do(p, Reap(i)))
  {
    var k := p.clients[i].job;
    ReleaseKeeps(p, i, Release(p.js, k), Client(Empty, "", JOBS));
  }

  // ---- needConnect ---------------------------------------------------------------------------

  lemma CacheTestsKeep(p: Pool, i: nat, starts: bool)
    requires Inv(p) && p.mid.None? && i < |p.clients| && p.clients[i].stage.Waiting?
    ensures Inv(CacheTests(p, i, starts))
  {
    var c := p.clients[i];
    SameJobKeeps(p, i, c.(stage := Moved(starts)));
    SameJobKeeps(p, i, c.(stage := Flushing));
  }

  lemma NeedConnectKeeps(p: Pool, i: nat, starts: bool)
    requires Inv(p) && Enabled(p, NeedConnect(i, starts))
    ensures Inv(Do(p, NeedConnect(i, starts)))
  {
    FinishKeeps(p, i);
    CacheTestsKeep(FinishOwn(p, i), i, starts);
  }

  lemma BeginJobs(p: Pool, i: nat, taskRuns: bool)
    requires Inv(p) && p.mid == Some(i)
    ensures var q := BeginOwn(p, i, taskRuns); JobsOk(q.js, q.tasks, q.clients)
  {
    var c := p.clients[i];
    if c.job == JOBS {
      var b := Begin(p.js, c.host);
      RefsUpdate(p.clients, i, c.(job := b.job), 0);
      RefsUpdate(p.clients, i, c.(job := b.job), 1);
    }
  }

  lemma BeginClients(p: Pool, i: nat, taskRuns: bool)
    requires Inv(p) && p.mid == Some(i)
    ensures var q := BeginOwn(p, i, taskRuns); ClientsOk(q.js, q.clients)
  {
    var c := p.clients[i];
    if c.job == JOBS {
      var b := Begin(p.js, c.host);
      if b.created {
        forall x | 0 <= x < |p.clients|
          ensures p.clients[x].job != b.job
        {
          RefsPositive(p.clients, x);
        }
      }
    }
  }

  lemma BeginKeeps(p: Pool, i: nat, taskRuns: bool)
    requires Inv(p) && p.mid == Some(i)
    ensures Inv(BeginOwn(p, i, taskRuns).(mid := None))
  {
    BeginJobs(p, i, taskRuns);
    BeginClients(p, i, taskRuns);
  }

  lemma JoinKeeps(p: Pool, starts: bool, taskRuns: bool)
    requires Inv(p) && Enabled(p, JoinJob(starts, taskRuns))
    ensures Inv(Do(p, JoinJob(starts, taskRuns)))
  {
    var i := p.mid.value;
    BeginKeeps(p, i, taskRuns);
    var p1 := BeginOwn(p, i, taskRuns).(mid := None);
    var c := p1.clients[i];
    if c.job < JOBS && p1.js[c.job].done {
      FinishKeeps(p1, i);
      var p2 := FinishOwn(p1, i);
      SameJobKeeps(p2, i, p2.clients[i].(stage := Moved(p1.js[c.job].ok && starts)));
    }
  }

  lemma ResolverKeeps(p: Pool, st: Step)
    requires Inv(p) && Enabled(p, st) && (st.Resolve? || st.Publish?)
    ensures Inv(Do(p, st))
  {
  }

  /** Every relay or resolver step keeps the pool consistent. */
  lemma StepKeeps(p: Pool, st: Step)
    requires Inv(p) && Enabled(p, st)
    ensures Inv(Do(p, st))
  {
    match st
    case SweepOne(k) => SweepKeeps(p, k);
    case Tick(_) =>
    case Accept(i) => SameJobKeeps(p, i, Client(Handshake, "", JOBS));
    case Ask(i, host) => SameJobKeeps(p, i, p.clients[i].(stage := Waiting, host := host));
    case NeedConnect(i, starts) => NeedConnectKeeps(p, i, starts);
    case JoinJob(starts, taskRuns) => JoinKeeps(p, starts, taskRuns);
    case ConnectFails(i) => SameJobKeeps(p, i, p.clients[i].(stage := Flushing));
    case Close(i) => SameJobKeeps(p, i, p.clients[i].(stage := Gone));
    case Reap(i) => ReapKeeps(p, i);
    case _ => ResolverKeeps(p, st);
  }

  // ---- every run -----------------------------------------------------------------------------

  function Start(n: nat, now: int): Pool {
    Pool(now, EMPTY, [NO_JOB, NO_JOB], [NoTask, NoTask], seq(n, _ => Client(Empty, "", JOBS)), None)
  }

  ghost predicate LegalRun(p: Pool, sts: seq<Step>)
    decreases |sts|
  {
    sts == [] || (Enabled(p, sts[0]) && LegalRun(Do(p, sts[0]), sts[1..]))
  }

  ghost function RunAll(p: Pool, sts: seq<Step>): Pool
    requires LegalRun(p, sts)
    decreases |sts|
  {
    if sts == [] then p else RunAll(Do(p, sts[0]), sts[1..])
  }

  lemma {:induction false} RunKeeps(p: Pool, sts: seq<Step>)
    requires Inv(p) && LegalRun(p, sts)
    ensures Inv(RunAll(p, sts))
    decreases |sts|
  {
    if sts != [] {
      StepKeeps(p, sts[0]);
      RunKeeps(Do(p, sts[0]), sts[1..]);
    }
  }

  lemma StartIsFine(n: nat, now: int)
    ensures Inv(Start(n, now)) && NoneAnswered(Start(n, now)) && Detached(Start(n, now).clients)
  {
    RefsZero(Start(n, now).clients, 0);
    RefsZero(Start(n, now).clients, 1);
  }

  /** In every interleaving of any number of slots with the resolver tasks, for however long: a job's
      count is the number of slots that point at it, no two live jobs name the same host, a resolver
      runs exactly on the live unfinished jobs, and a slot points at the job of its own host. */
  lemma PoolIsSafe(n: nat, now: int, sts: seq<Step>)
    requires LegalRun(Start(n, now), sts)
    ensures
      var p := RunAll(Start(n, now), sts);
      && |p.tasks| == JOBS
      && (forall k :: 0 <= k < JOBS ==>
            && p.js[k].refs == Refs(p.clients, k)
            && (p.tasks[k] != NoTask ==> p.js[k].live && !p.js[k].done)
            && (p.js[k].live && !p.js[k].done ==> p.tasks[k] != NoTask))
      && !(p.js[0].live && p.js[1].live && Fold(p.js[0].host) == Fold(p.js[1].host))
      && (forall i :: 0 <= i < |p.clients| && p.clients[i].job < JOBS ==>
            Serves(p.js[p.clients[i].job], p.clients[i].host))
  {
    StartIsFine(n, now);
    RunKeeps(Start(n, now), sts);
  }

  lemma OwnStepsSpareRunning(p: Pool, i: nat, taskRuns: bool, k: nat)
    requires Inv(p) && i < |p.clients| && k < JOBS && p.tasks[k] != NoTask
    ensures FinishOwn(p, i).js[k] == p.js[k]
    ensures BeginOwn(p, i, taskRuns).js[k] == p.js[k].(refs := BeginOwn(p, i, taskRuns).js[k].refs)
  {
  }

  /** No step frees or reuses a job while its resolver runs. */
  lemma RunningJobStays(p: Pool, st: Step, k: nat)
    requires Inv(p) && Enabled(p, st) && k < JOBS && p.tasks[k] != NoTask
    ensures Do(p, st).js[k].live && Do(p, st).js[k].host == p.js[k].host
  {
    match st
    case NeedConnect(i, _) => OwnStepsSpareRunning(p, i, true, k);
    case JoinJob(starts, taskRuns) =>
      var i := p.mid.value;
      OwnStepsSpareRunning(p, i, taskRuns, k);
      BeginKeeps(p, i, taskRuns);
      var p1 := BeginOwn(p, i, taskRuns).(mid := None);
      OwnStepsSpareRunning(p1, i, taskRuns, k);
    case _ =>
  }

  /** Over every run: while its resolver runs, a job's place is neither freed nor reused. */
  lemma NeverReusedWhileRunning(n: nat, now: int, sts: seq<Step>, st: Step, k: nat)
    requires LegalRun(Start(n, now), sts) && k < JOBS
    requires var p := RunAll(Start(n, now), sts);
      Enabled(p, st) && |p.tasks| == JOBS && p.tasks[k] != NoTask
    ensures var p := RunAll(Start(n, now), sts);
      Do(p, st).js[k].live && Do(p, st).js[k].host == p.js[k].host
  {
    StartIsFine(n, now);
    RunKeeps(Start(n, now), sts);
    RunningJobStays(RunAll(Start(n, now), sts), st, k);
  }

  /** A slot that is connecting or relaying holds no job. */
  predicate Detached(cs: seq<Client>) {
    forall i :: 0 <= i < |cs| && cs[i].stage.Joined? ==> cs[i].job == JOBS
  }

  /** Once the resolvers have finished and no slot waits, flushes or is being closed, one sweep
      empties the pool: nothing is pinned. */
  lemma SweepEmpties(p: Pool)
    requires Inv(p) && Detached(p.clients) && p.mid.None? && p.tasks == [NoTask, NoTask]
    requires forall i :: 0 <= i < |p.clients| ==>
               p.clients[i].stage.Empty? || p.clients[i].stage.Handshake? || p.clients[i].stage.Joined?
    ensures Do(Do(p, SweepOne(0)), SweepOne(1)).js == [NO_JOB, NO_JOB]
  {
    RefsZero(p.clients, 0);
    RefsZero(p.clients, 1);
  }

  /** needConnect leaves a slot connecting with a job attached exactly when the cache answers for a name
      whose resolver is still running. */
  lemma PinnedExactlyWhen(p: Pool, i: nat)
    requires Inv(p) && Enabled(p, NeedConnect(i, true))
    ensures
      var c := Do(p, NeedConnect(i, true)).clients[i];
      var k := p.clients[i].job;
      (c.stage.Joined? && c.job < JOBS) <==>
        (k < JOBS && !p.js[k].done && Hit(p.es, p.clients[i].host, p.now))
  {
    FinishKeeps(p, i);
  }

  // ---- runs whose cache entries stay young -------------------------------------------------------

  /** No cached result for h is still within its lifetime. */
  predicate Outlived(es: Entries, h: string, now: int) {
    forall k :: 0 <= k < ENTRIES && Holds(es[k], h) ==> es[k].storedMs + es[k].ttlMs <= now
  }

  /** Names under resolution have no usable entry, so nobody resolving one can be answered early. */
  predicate NoneAnswered(p: Pool) {
    && (forall k :: 0 <= k < JOBS && p.js[k].live && !p.js[k].cached ==>
          Outlived(p.es, Fold(p.js[k].host), p.now))
    && (p.mid.Some? && p.mid.value < |p.clients| && p.clients[p.mid.value].host != "" ==>
          Outlived(p.es, Fold(p.clients[p.mid.value].host), p.now))
  }

  /** No cache entry is as old as 2^31 ms, where the expiry comparison would turn over. */
  predicate Young(p: Pool) {
    forall k :: 0 <= k < ENTRIES && p.es[k].valid ==>
      0 <= p.now - p.es[k].storedMs < TWO31 && p.es[k].ttlMs < TWO31
  }

  ghost predicate Unpinned(p: Pool) {
    Inv(p) && NoneAnswered(p) && Detached(p.clients)
  }

  /** Recording one name's result leaves the entries of every other name alone. */
  lemma PutOthers(es: Entries, host: string, ip: U32, now: int, ttlMs: U32, h: string)
    requires Outlived(es, h, now) && Fold(host) != h
    ensures Outlived(Put(es, host, ip, now, ttlMs), h, now)
  {
    FoldTwice(host);
  }

  lemma SettleOthers(es: Entries, j: Job, now: int, h: string)
    requires Outlived(es, h, now) && Fold(j.host) != h
    ensures Outlived(Settle(es, j, now), h, now)
  {
    PutOthers(es, j.host, j.ip, now, OK_TTL_MS, h);
    PutOthers(es, j.host, 0, now, FAIL_TTL_MS, h);
  }

  /** Settling job k keeps the other job's name unanswered. */
  lemma SettleKeeps(p: Pool, k: nat, js: Jobs)
    requires Unpinned(p) && p.mid.None? && k < JOBS && js[1 - k] == p.js[1 - k]
    requires p.js[k].done && js[k].live ==> js[k].cached
    requires !p.js[k].done ==> js[k] == p.js[k]
    ensures NoneAnswered(p.(js := js, es := Settle(p.es, p.js[k], p.now)))
  {
    var o := 1 - k;
    if js[o].live && !js[o].cached && p.js[k].live {
      SettleOthers(p.es, p.js[k], p.now, Fold(js[o].host));
    }
  }

  /** With young entries, an answer from the cache is a result still within its lifetime. */
  lemma AnswerIsCurrent(p: Pool, host: string)
    requires Young(p) && Find(p.es, host, p.now) < ENTRIES
    ensures !Outlived(p.es, Fold(host), p.now)
  {
    var k := Find(p.es, host, p.now);
    ExpiryIsTrue(p.es[k], p.now);
    assert Holds(p.es[k], Fold(host));
  }

  lemma MissIsOutlived(p: Pool, host: string)
    requires Young(p) && host != "" && Find(p.es, host, p.now) == ENTRIES
    ensures Outlived(p.es, Fold(host), p.now)
  {
    forall k | 0 <= k < ENTRIES && Holds(p.es[k], Fold(host))
      ensures p.es[k].storedMs + p.es[k].ttlMs <= p.now
    {
      ExpiryIsTrue(p.es[k], p.now);
    }
  }

  lemma FinishYoung(p: Pool, i: nat)
    requires Young(p) && i < |p.clients|
    ensures Young(FinishOwn(p, i))
  {
  }

  lemma FinishUnpins(p: Pool, i: nat)
    requires Unpinned(p) && p.mid.None? && i < |p.clients| && !p.clients[i].stage.Empty?
    ensures Unpinned(FinishOwn(p, i))
  {
    FinishKeeps(p, i);
    var k := p.clients[i].job;
    if k < JOBS && p.js[k].done {
      SettleKeeps(p, k, p.js[k := ReleasedJob(SettledJob(p.js[k]))]);
    }
  }

  lemma CacheTestsUnpin(p: Pool, i: nat, starts: bool)
    requires Unpinned(p) && Young(p) && p.mid.None? && i < |p.clients| && p.clients[i].stage.Waiting?
    requires p.clients[i].job < JOBS ==> !p.js[p.clients[i].job].done
    ensures NoneAnswered(CacheTests(p, i, starts)) && Detached(CacheTests(p, i, starts).clients)
  {
    var c := p.clients[i];
    if Find(p.es, c.host, p.now) < ENTRIES {
      AnswerIsCurrent(p, c.host);
      assert c.job == JOBS;
    } else if c.host != "" {
      MissIsOutlived(p, c.host);
    }
  }

  lemma BeginAnswered(p: Pool, i: nat, taskRuns: bool)
    requires Unpinned(p) && p.mid == Some(i)
    ensures NoneAnswered(BeginOwn(p, i, taskRuns).(mid := None))
  {
  }

  lemma JoinUnpins(p: Pool, starts: bool, taskRuns: bool)
    requires Unpinned(p) && Enabled(p, JoinJob(starts, taskRuns))
    ensures NoneAnswered(Do(p, JoinJob(starts, taskRuns))) && Detached(Do(p, JoinJob(starts, taskRuns)).clients)
  {
    var i := p.mid.value;
    BeginKeeps(p, i, taskRuns);
    BeginAnswered(p, i, taskRuns);
    var p1 := BeginOwn(p, i, taskRuns).(mid := None);
    assert Unpinned(p1);
    FinishUnpins(p1, i);
    FinishKeeps(p1, i);
  }

  lemma NeedConnectUnpins(p: Pool, i: nat, starts: bool)
    requires Unpinned(p) && Young(p) && Enabled(p, NeedConnect(i, starts))
    ensures var q := Do(p, NeedConnect(i, starts)); NoneAnswered(q) && Detached(q.clients)
  {
    FinishUnpins(p, i);
    FinishKeeps(p, i);
    FinishYoung(p, i);
    CacheTestsUnpin(FinishOwn(p, i), i, starts);
  }

  lemma YoungStepKeeps(p: Pool, st: Step)
    requires Unpinned(p) && Young(p) && Enabled(p, st)
    ensures Unpinned(Do(p, st))
  {
    StepKeeps(p, st);
    match st
    case SweepOne(k) => SettleKeeps(p, k, p.js[k := SweptJob(p.js[k])]);
    case NeedConnect(i, starts) => NeedConnectUnpins(p, i, starts);
    case JoinJob(starts, taskRuns) => JoinUnpins(p, starts, taskRuns);
    case _ =>
  }

  ghost predicate YoungRun(p: Pool, sts: seq<Step>)
    decreases |sts|
  {
    sts == [] || (Young(p) && Enabled(p, sts[0]) && YoungRun(Do(p, sts[0]), sts[1..]))
  }

  lemma {:induction false} YoungRunKeeps(p: Pool, sts: seq<Step>)
    requires Unpinned(p) && YoungRun(p, sts)
    ensures LegalRun(p, sts) && Unpinned(RunAll(p, sts))
    decreases |sts|
  {
    if sts != [] {
      YoungStepKeeps(p, sts[0]);
      YoungRunKeeps(Do(p, sts[0]), sts[1..]);
    }
  }

  /** As long as no cache entry reaches 2^31 ms, a slot that is connecting or relaying holds no job, so
      `SweepEmpties` applies. */
  lemma ConnectingHoldsNone(n: nat, now: int, sts: seq<Step>)
    requires YoungRun(Start(n, now), sts)
    ensures LegalRun(Start(n, now), sts)
    ensures var p := RunAll(Start(n, now), sts); Inv(p) && Detached(p.clients)
  {
    StartIsFine(n, now);
    YoungRunKeeps(Start(n, now), sts);
  }

  // ---- ... and one whose entry does not ----------------------------------------------------------

  /** Pools that follow from each other step by step are a run. */
  ghost predicate Chained(ps: seq<Pool>, sts: seq<Step>) {
    && |ps| == |sts| + 1
    && forall i :: 0 <= i < |sts| ==> Follows(ps[i], sts[i], ps[i + 1])
  }

  ghost predicate Follows(p: Pool, st: Step, q: Pool) {
    Enabled(p, st) && Do(p, st) == q
  }

  lemma {:induction false} ChainIsRun(ps: seq<Pool>, sts: seq<Step>)
    requires Chained(ps, sts)
    ensures LegalRun(ps[0], sts) && RunAll(ps[0], sts) == ps[|sts|]
    decreases |sts|
  {
    if sts != [] {
      assert Follows(ps[0], sts[0], ps[1]);
      forall i | 0 <= i < |sts| - 1
        ensures Follows(ps[1..][i], sts[1..][i], ps[1..][i + 1])
      {
        assert Follows(ps[i + 1], sts[i + 1], ps[i + 2]);
      }
      ChainIsRun(ps[1..], sts[1..]);
    }
  }

  lemma {:induction false} RunSplit(p: Pool, xs: seq<Step>, ys: seq<Step>)
    requires LegalRun(p, xs) && LegalRun(RunAll(p, xs), ys)
    ensures LegalRun(p, xs + ys) && RunAll(p, xs + ys) == RunAll(RunAll(p, xs), ys)
    decreases |xs|
  {
    if xs == [] {
      assert xs + ys == ys;
    } else {
      assert (xs + ys)[1..] == xs[1..] + ys;
      RunSplit(Do(p, xs[0]), xs[1..], ys);
    }
  }

  const OLD: int := 300000 + TWO31 - 1

  function AskingJob(ip: U32, ok: bool, done: bool): Job { Job("a", ip, ok, done, false, 1, true) }

  function Pool1(now: int, es: Entries, j: Job, t: Task, c: Client, mid: Option<nat>): Pool {
    Pool(now, es, [j, NO_JOB], [t, NoTask], [c], mid)
  }

  /** A client asks for "a", which no entry answers, and its resolver starts. */
  function AskSteps(): seq<Step> { [Accept(0), Ask(0, "a"), NeedConnect(0, true), JoinJob(true, true)] }

  lemma Asks(now: int, es: Entries)
    requires Find(es, "a", now) == ENTRIES
    ensures var p := Pool1(now, es, NO_JOB, NoTask, Client(Empty, "", JOBS), None);
      LegalRun(p, AskSteps())
      && RunAll(p, AskSteps())
         == Pool1(now, es, AskingJob(0, false, false), Looking, Client(Waiting, "a", 0), None)
  {
    var p0 := Pool1(now, es, NO_JOB, NoTask, Client(Empty, "", JOBS), None);
    var p1 := Pool1(now, es, NO_JOB, NoTask, Client(Handshake, "", JOBS), None);
    var p2 := Pool1(now, es, NO_JOB, NoTask, Client(Waiting, "a", JOBS), None);
    var p3 := p2.(mid := Some(0));
    var p4 := Pool1(now, es, AskingJob(0, false, false), Looking, Client(Waiting, "a", 0), None);
    assert Follows(p0, Accept(0), p1) && Follows(p1, Ask(0, "a"), p2);
    assert Follows(p2, NeedConnect(0, true), p3);
    assert Follows(p3, JoinJob(true, true), p4);
    ChainIsRun([p0, p1, p2, p3, p4], AskSteps());
  }

  const CACHED: Entries := [Entry("a", 1, 0, 300000, 0, true), NO_ENTRY, NO_ENTRY, NO_ENTRY]

  /** The resolver answers 1, the client uses it and leaves. */
  function UseSteps(): seq<Step> { [Resolve(0, 1), Publish(0), NeedConnect(0, true), Close(0), Reap(0)] }

  lemma Uses()
    ensures var p := Pool1(0, EMPTY, AskingJob(0, false, false), Looking, Client(Waiting, "a", 0), None);
      LegalRun(p, UseSteps())
      && RunAll(p, UseSteps()) == Pool1(0, CACHED, NO_JOB, NoTask, Client(Empty, "", JOBS), None)
  {
    var p0 := Pool1(0, EMPTY, AskingJob(0, false, false), Looking, Client(Waiting, "a", 0), None);
    var p1 := Pool1(0, EMPTY, AskingJob(1, true, false), Answered, Client(Waiting, "a", 0), None);
    var p2 := Pool1(0, EMPTY, AskingJob(1, true, true), NoTask, Client(Waiting, "a", 0), None);
    var p3 := Pool1(0, CACHED, NO_JOB, NoTask, Client(Joined, "a", JOBS), None);
    var p4 := Pool1(0, CACHED, NO_JOB, NoTask, Client(Gone, "a", JOBS), None);
    var p5 := Pool1(0, CACHED, NO_JOB, NoTask, Client(Empty, "", JOBS), None);
    assert Follows(p0, Resolve(0, 1), p1) && Follows(p1, Publish(0), p2);
    AnswerIsCached(p2, p3);
    assert Follows(p3, Close(0), p4) && Follows(p4, Reap(0), p5);
    ChainIsRun([p0, p1, p2, p3, p4, p5], UseSteps());
  }

  lemma AnswerIsCached(p: Pool, q: Pool)
    requires p == Pool1(0, EMPTY, AskingJob(1, true, true), NoTask, Client(Waiting, "a", 0), None)
    requires q == Pool1(0, CACHED, NO_JOB, NoTask, Client(Joined, "a", JOBS), None)
    ensures Follows(p, NeedConnect(0, true), q)
  {
    assert Fold("a") == "a" && Place(EMPTY, "a", 0) == 0;
    var j := AskingJob(1, true, true);
    assert Settle(EMPTY, j, 0) == CACHED;
    assert ReleasedJob(SettledJob(j)) == NO_JOB;
    var p1 := FinishOwn(p, 0);
    assert p1 == Pool1(0, CACHED, NO_JOB, NoTask, Client(Waiting, "a", JOBS), None);
    assert Find(CACHED, "a", 0) == 0;
  }

  /** The name's entry is 2^31 - 1 ms past its expiry, and a new client is still told so; a millisecond
      later the comparison has turned over. */
  lemma EntryTurnsOver()
    ensures Find(CACHED, "a", OLD) == ENTRIES && Find(CACHED, "a", OLD + 1) == 0
  {
  }

  function OldRun(): seq<Step> {
    AskSteps() + (UseSteps() + ([Tick(OLD)] + (AskSteps() + [Tick(1), NeedConnect(0, true)])))
  }

  /** So the age limit is needed: a run from the start in which a slot connects to the stale address
      while the name is being resolved for it. */
  lemma OldEntryRevives()
    ensures LegalRun(Start(1, 0), OldRun())
    ensures var p := RunAll(Start(1, 0), OldRun());
      |p.clients| == 1 && p.clients[0] == Client(Joined, "a", 0) && |p.tasks| == JOBS && p.tasks[0] == Looking
  {
    var gone := Pool1(0, CACHED, NO_JOB, NoTask, Client(Empty, "", JOBS), None);
    var later := Pool1(OLD, CACHED, NO_JOB, NoTask, Client(Empty, "", JOBS), None);
    assert Start(1, 0) == Pool1(0, EMPTY, NO_JOB, NoTask, Client(Empty, "", JOBS), None);
    assert Find(EMPTY, "a", 0) == ENTRIES;
    EntryTurnsOver();
    LastStepsPin();
    Asks(OLD, CACHED);
    RunSplit(later, AskSteps(), [Tick(1), NeedConnect(0, true)]);
    ChainIsRun([gone, later], [Tick(OLD)]);
    RunSplit(gone, [Tick(OLD)], AskSteps() + [Tick(1), NeedConnect(0, true)]);
    Uses();
    var asked := Pool1(0, EMPTY, AskingJob(0, false, false), Looking, Client(Waiting, "a", 0), None);
    RunSplit(asked, UseSteps(), [Tick(OLD)] + (AskSteps() + [Tick(1), NeedConnect(0, true)]));
    Asks(0, EMPTY);
    RunSplit(Start(1, 0), AskSteps(),
             UseSteps() + ([Tick(OLD)] + (AskSteps() + [Tick(1), NeedConnect(0, true)])));
  }

  lemma LastStepsPin()
    ensures var p := Pool1(OLD, CACHED, AskingJob(0, false, false), Looking, Client(Waiting, "a", 0), None);
      var es := CACHED[0 := CACHED[0].(usedMs := OLD + 1)];
      var q := p.(now := OLD + 1, es := es, clients := [Client(Joined, "a", 0)]);
      LegalRun(p, [Tick(1), NeedConnect(0, true)]) && RunAll(p, [Tick(1), NeedConnect(0, true)]) == q
  {
    EntryTurnsOver();
    var p := Pool1(OLD, CACHED, AskingJob(0, false, false), Looking, Client(Waiting, "a", 0), None);
    var p1 := p.(now := OLD + 1);
    var q := p1.(es := CACHED[0 := CACHED[0].(usedMs := OLD + 1)], clients := [Client(Joined, "a", 0)]);
    assert Follows(p, Tick(1), p1) && Follows(p1, NeedConnect(0, true), q);
    ChainIsRun([p, p1, q], [Tick(1), NeedConnect(0, true)]);
  }
}
