/**
 The pool of asynchronous resolve jobs (lib/fry_core/relay_dns.h:143-272): two jobs, reference
 counted by the client slots that wait on them, each served by one resolver task.
 */
module DnsJobs {
  import opened Prelude
  import opened DnsCache

  const JOBS := 2
  const OK_TTL_MS: U32 := 300000
  const FAIL_TTL_MS: U32 := 15000

  datatype Job = Job(host: string, ip: U32, ok: bool, done: bool, cached: bool, refs: int, live: bool)

  const NO_JOB := Job("", 0, false, false, false, 0, false)

  type Jobs = js: seq<Job> | |js| == JOBS witness [NO_JOB, NO_JOB]

  predicate Serves(j: Job, host: string) {
    j.live && Fold(j.host) == Fold(host)
  }

  /** The live job that already resolves `host`; JOBS if none. */
  function FindJob(js: Jobs, host: string): (k: nat)
    ensures k <= JOBS
    ensures k < JOBS ==> Serves(js[k], host)
    ensures k == JOBS && host != "" ==> forall j :: 0 <= j < JOBS ==> !Serves(js[j], host)
  {
    if host == "" then JOBS
    else if Serves(js[0], host) then 0
    else if Serves(js[1], host) then 1
    else JOBS
  }

  function FreeJob(js: Jobs): (k: nat)
    ensures k <= JOBS
    ensures k < JOBS ==> !js[k].live
  {
    if !js[0].live then 0 else if !js[1].live then 1 else JOBS
  }

  datatype Begun = Begun(js: Jobs, job: nat, created: bool)

  /** begin: join the host's job or create one, taking a reference; JOBS when neither is possible. */
  function Begin(js: Jobs, host: string): Begun {
    var k := FindJob(js, host);
    if k < JOBS then Begun(js[k := js[k].(refs := js[k].refs + 1)], k, false)
    else
      var f := FreeJob(js);
      if !Representable(host) || f == JOBS then Begun(js, JOBS, false)
      else Begun(js[f := Job(host, 0, false, false, false, 1, true)], f, true)
  }

  function ReleasedJob(j: Job): Job {
    if !j.live || j.refs <= 0 then j
    else if j.refs == 1 && j.cached then NO_JOB
    else j.(refs := j.refs - 1)
  }

  /** release: drop one reference; a settled job nobody waits on gives its place back. */
  function Release(js: Jobs, k: nat): Jobs {
    if k >= JOBS then js else js[k := ReleasedJob(js[k])]
  }

  /** What finish does to the cache: a done job's result is recorded once. */
  function Settle(es: Entries, j: Job, now: int): Entries {
    if !j.live || !j.done || j.cached then es
    else if j.ok then Store(es, j.host, j.ip, now, OK_TTL_MS)
    else StoreFailure(es, j.host, now, FAIL_TTL_MS)
  }

  function SettledJob(j: Job): Job {
    if j.live && j.done then j.(cached := true) else j
  }

  datatype Finished = Finished(js: Jobs, es: Entries, job: nat, done: bool)

  /** finishSlot: a slot's finished job is settled, released and forgotten. */
  function FinishSlot(js: Jobs, es: Entries, k: nat, now: int): Finished {
    if k >= JOBS || !js[k].live || !js[k].done then Finished(js, es, k, false)
    else Finished(js[k := ReleasedJob(SettledJob(js[k]))], Settle(es, js[k], now), JOBS, true)
  }

  function SweptJob(j: Job): Job {
    var s := SettledJob(j);
    if s.live && s.cached && s.refs == 0 then NO_JOB else s
  }

  /** sweep: settle every finished job and free those nothing waits on. */
  function Sweep(js: Jobs, es: Entries, now: int): (Jobs, Entries) {
    ([SweptJob(js[0]), SweptJob(js[1])], Settle(Settle(es, js[0], now), js[1], now))
  }

  // ---- the pool as the firmware keeps it -------------------------------------------------------

  class JobPool {
    const jobs: array<Job>

    ghost predicate Valid()
      reads this
    {
      jobs.Length == JOBS
    }

    constructor ()
      ensures Valid() && fresh(jobs) && jobs[..] == [NO_JOB, NO_JOB]
    {
      jobs := new Job[JOBS](_ => NO_JOB);
    }

    method FindIndex(host: string) returns (k: nat)
      requires Valid()
      ensures k == FindJob(jobs[..], host)
    {
      if host == "" { return JOBS; }
      for i := 0 to JOBS
        invariant forall j :: 0 <= j < i ==> !Serves(jobs[j], host)
      {
        if jobs[i].live {
          var same := HostEq(jobs[i].host, host);
          if same { return i; }
        }
      }
      k := JOBS;
    }

    method BeginJob(host: string) returns (k: nat, created: bool)
      requires Valid()
      modifies jobs
      ensures Begun(jobs[..], k, created) == Begin(old(jobs[..]), host)
    {
      created := false;
      k := FindIndex(host);
      if k < JOBS {
        jobs[k] := jobs[k].(refs := jobs[k].refs + 1);
        return;
      }
      if host == "" || |host| >= HOST_CAP { return; }
      for i := 0 to JOBS
        invariant jobs[..] == old(jobs[..])
        invariant forall j :: 0 <= j < i ==> jobs[j].live
      {
        if !jobs[i].live {
          jobs[i] := Job(host, 0, false, false, false, 1, true);
          return i, true;
        }
      }
    }

    method ReleaseJob(k: nat)
      requires Valid()
      modifies jobs
      ensures jobs[..] == Release(old(jobs[..]), k)
    {
      if k >= JOBS || !jobs[k].live || jobs[k].refs <= 0 { return; }
      jobs[k] := jobs[k].(refs := jobs[k].refs - 1);
      if jobs[k].refs == 0 && jobs[k].cached { jobs[k] := NO_JOB; }
    }

    method FinishJob(k: nat, cache: Cache, now: int) returns (done: bool)
      requires Valid() && k < JOBS && cache.Valid() && jobs as object != cache.entries
      modifies jobs, cache`last, cache.entries
      ensures cache.Valid()
      ensures jobs[..] == old(jobs[..])[k := SettledJob(old(jobs[k]))]
      ensures cache.entries[..] == Settle(old(cache.entries[..]), old(jobs[k]), now)
      ensures done == (old(jobs[k]).live && old(jobs[k]).done)
    {
      if !jobs[k].live || !jobs[k].done { return false; }
      if !jobs[k].cached {
        if jobs[k].ok {
          if jobs[k].ip != 0 { cache.Keep(jobs[k].host, jobs[k].ip, now, OK_TTL_MS); }
        } else {
          cache.Keep(jobs[k].host, 0, now, FAIL_TTL_MS);
        }
        jobs[k] := jobs[k].(cached := true);
      }
      done := true;
    }

    method FinishSlotJob(k: nat, cache: Cache, now: int) returns (k': nat, done: bool)
      requires Valid() && cache.Valid() && jobs as object != cache.entries
      modifies jobs, cache`last, cache.entries
      ensures cache.Valid()
      ensures Finished(jobs[..], cache.entries[..], k', done)
           == FinishSlot(old(jobs[..]), old(cache.entries[..]), k, now)
    {
      if k >= JOBS { return k, false; }
      done := FinishJob(k, cache, now);
      if !done { return k, false; }
      ReleaseJob(k);
      k' := JOBS;
    }

    method SweepAll(cache: Cache, now: int)
      requires Valid() && cache.Valid() && jobs as object != cache.entries
      modifies jobs, cache`last, cache.entries
      ensures cache.Valid()
      ensures (jobs[..], cache.entries[..]) == Sweep(old(jobs[..]), old(cache.entries[..]), now)
    {
      SweepOne(0, cache, now);
      SweepOne(1, cache, now);
      assert jobs[..] == [jobs[0], jobs[1]];
    }

    method SweepOne(k: nat, cache: Cache, now: int)
      requires Valid() && k < JOBS && cache.Valid() && jobs as object != cache.entries
      modifies jobs, cache`last, cache.entries
      ensures cache.Valid()
      ensures jobs[..] == old(jobs[..])[k := SweptJob(old(jobs[k]))]
      ensures cache.entries[..] == Settle(old(cache.entries[..]), old(jobs[k]), now)
    {
      if !jobs[k].live { return; }
      var _ := FinishJob(k, cache, now);
      if jobs[k].cached && jobs[k].refs == 0 { jobs[k] := NO_JOB; }
    }
  }
}
