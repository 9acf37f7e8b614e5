# Verified models of the firmware core

The firmware keeps its hard logic in plain C++ that takes the clock, `errno` and the outcomes of
system calls as arguments. This project models that logic in Dafny and proves what it promises: over
every run, every interleaving, every crash point and every input, not for chosen cases.

`dafny verify dfyconfig.toml` checks everything.

## How the models are built

Each component has a specification on values (functions on sequences, maps and datatypes) about which
the theorems are proved, and, where the source changes things in place, a class or a loop with the
source's own fields, buffers and branches, proved equal to the specification step by step.

- **SOCKS5 relay.** `Socks5` holds the grammars of RFC 1928 (sections 3, 4 and 5) and the two parsers;
  `RelayModel` the slot; `RelayRuns` every run of a slot with the history of its two sockets;
  `RelayTimers` the deadlines; `RelayOutcomes` what the client is told, the clocks and the reasons;
  `RelaySlotImpl` the slot with its two 1 KB buffers and offsets; `RelayPool` the pool functions and the
  select() watch list. The contract of the select loop is the predicate `RelayRuns.Legal`: it receives
  only into offered room, sends only offered bytes, and starts a connect on a descriptor that select()
  can watch before reporting its success.
- **DNS cache and resolver pool.** `DnsCache`, `DnsJobs`, `DnsPool`, where relay steps and resolver
  steps interleave freely, and `DnsAnswers`, what that achieves for the clients. A resolver's answer and
  its `done` flag are separate steps, and so are the two halves of `needConnect`.
- **Stale-token heal.** `TokenHeal` models the store with a plan for the writes to come: a write may
  fail, may be misreported, and when the plan ends the power is gone. `TokenBoard` is the firmware's
  sequence of reads and writes.
- **OTA.** `OtaStage` states the ESP8266 Updater's documented contract as a class and proves the
  held-tail writer against it; `Sha256Spec` is sections 4.1.2, 4.2.2, 5.1.1 and 6.2.2 of FIPS 180-4 and
  `Sha256Impl` the streaming hasher, `Sha256Example` the published digest of "abc"; `OtaDigest` the
  digest comparison; `OtaDownload` the download and its verdict. `Semver` holds section 11 of Semantic
  Versioning 2.0.0, `SemverImpl` the comparison loops, `SemverText` the agreement of the two;
  `OtaHealth` the decision, `OtaLifecycle`, `OtaProbation` and `OtaClient` the strike bookkeeping and
  the trial of a new image across boots; `ManifestRead` the manifest reader on a racing connection.
- **Improv Serial.** `Improv` (framing), `ImprovSerial` (the reader object), `ImprovCodec` (encoders and
  decoders), `ScanList` (the bounded scan list).
- **WireGuard.** `Cidr`, `CidrText`, `Routes`, `RoutePlanner`, `RelayGuard`, `WgKey`.
- **Provisioning.** `Provisioning` (the machine, its traces, the commit order), `ProvisioningFsm` (the
  object).

Times are true clock readings; every comparison the firmware makes on its 32-bit counter is modulo 2^32
(`Prelude.Elapsed`), so wrap-around is part of the models. C strings are Dafny strings, and a pointer
into one is the string from there on. Sockets, tasks, timers, flash and HTTP are step parameters.

## What turned out not to hold

Each of these is proved, with the exact condition under which the code does keep the property.

- A crash between the two removals of `clearInstallation`, followed by a boot on which `renewLease` or
  telemetry mints an id before `registerInstallation` has run its recovery, leaves the new id with the
  old token. Minting breaks the pairing exactly when the id is gone and the token is not
  (`TokenHeal.LeaseMixes`), that state is reachable (`TokenHeal.MixReached`), and every run that never
  mints in it keeps pairs apart (`TokenHeal.NeverMixed`).
- One heal in six hours: a plausible reading more than six hours before the last heal's stamp lets
  another heal start. `TokenHeal.RebootHealsIff` has the exact set of readings,
  `TokenHeal.OneHealPerWindow` the bound on all the others.
- A cache entry 2^31 ms past its expiry is served again (`DnsCache.ExpiryWraps`), and `needConnect` can
  then leave a slot connecting with a resolver job attached: exactly when the cache answers for a name
  still under resolution (`DnsPool.PinnedExactlyWhen`). `DnsPool.OldEntryRevives` is a run from the
  start that ends there, `DnsPool.ConnectingHoldsNone` the property for younger entries. What else the
  pool keeps, it keeps at every age (`DnsPool.PoolIsSafe`).
- Route entries are compared before narrowing with routes after it. The planned routes are distinct
  exactly when no entry, met while there is room, narrows onto a route already kept
  (`Routes.DistinctIff`). It fails for an entry sent twice (`Routes.RepeatedEntry`) and for two
  different ones (`Routes.NarrowedOntoFirst`, `Routes.TwoEntriesCollide`).
- Two resolver results swept in one pass: the first is lost, and its name resolved again, exactly when
  every cache entry but the first is live, for another name, and was used in that very millisecond
  (`DnsAnswers.SweepRecordsBoth`).
- Installing a new image does not clear the count of unconfirmed boots, so an image that replaces one
  still on trial has as many boots fewer to prove itself: `OtaProbation.TrialLength` (it has all three
  exactly when nothing was being counted) and `OtaProbation.TrialCutShort`.
- A version whose core number does not fit 32 bits is misranked against some version that does:
  `SemverText.RankedIffFits`.

## Model

| member | source | states |
|---|---|---|
| Prelude.ElapsedWraps | lib/fry_core/socks_relay_core.cpp:15 | the time difference depends only on the two 32-bit counter readings |
| Socks5.GreetingExact | lib/fry_core/socks5_parse.cpp:7-27 | a greeting is accepted exactly when the bytes begin with an RFC 1928 section 3 message offering no authentication, and `consumed` is that message's length |
| Socks5.ConnectExact | lib/fry_core/socks5_parse.cpp:29-70 | a request is accepted with given contents exactly when the bytes begin with the section 4 message for those contents (IPv4 or domain, section 5) |
| Socks5.GreetingStable | lib/fry_core/socks5_parse.cpp:7-27 | a verdict other than "need more" is the same whatever bytes follow |
| Socks5.ConnectStable | lib/fry_core/socks5_parse.cpp:29-70 | the same for the request |
| Socks5.GreetingDecides | lib/fry_core/socks5_parse.cpp:7-27 | waiting ends exactly when the announced bytes are there; what is refused then is another version or an offer without "no authentication" |
| Socks5.RequestDecides | lib/fry_core/socks5_parse.cpp:29-70 | the same for the request, with the three reasons for which it is refused by its fourth byte |
| Socks5.ParseGreetingBuffer | lib/fry_core/socks5_parse.cpp:7-27 | the loop over the methods in the receive buffer computes the greeting verdict |
| Socks5.ParseConnectBuffer | lib/fry_core/socks5_parse.cpp:29-70 | the request parser on the receive buffer computes the request verdict, host text included |
| RelayRuns.StreamsConserved | lib/fry_core/socks_relay_core.cpp:30-55 | over every legal run: what the client sent is greeting, request, then exactly what went upstream plus what is pending; what the client got plus what is pending is the two replies and a gap-free prefix of the upstream's stream, all of it unless the relay began to drop; a slot closed as Done has both buffers empty |
| RelayRuns.HandshakeIgnoresSegmentation | lib/fry_core/socks_relay_core.cpp:59-93 | phase, request, pipelined payload and replies up to NeedConnect depend on the bytes read, not on how they were segmented, and a handshake always leaves receive room |
| RelayRuns.RepliesFit | lib/fry_core/socks_relay_core.cpp:30-41 | the drop branch of `queueClient` is never taken; a handshake is at most 519 bytes |
| RelayRuns.FinDiscipline | lib/fry_core/socks_relay_core.cpp:104-132 | each side's FIN is handed out at most once, only after its source ended and its feeding buffer drained; a half-close only toward a peer whose own FIN was read; grace excludes an armed or sent FIN |
| RelayRuns.NoFinForgotten | lib/fry_core/socks_relay_core.cpp:104-132 | over every run a drained direction whose source ended has its FIN handed out, armed or in its grace period, and a finished session is closed |
| RelayRuns.ClosedSideUnwatched | lib/fry_core/socks_relay_core.cpp:210-240 | a descriptor closed on purpose is never watched again, and no reachable slot is ever marked bad |
| RelayRuns.WantsMatchOffers | lib/fry_core/socks_relay_core.cpp:210-274 | over every run select() is asked to read exactly where there is room and to write exactly where bytes are pending, plus the connect |
| RelayRuns.RefusalIsAnswered | lib/fry_core/socks_relay_core.cpp:325-348 | a refused client is closed with its refusal's reason once the whole refusal has left, and that refusal is the method refusal or the failure reply |
| RelayRuns.StepKeeps | lib/fry_core/socks_relay_core.cpp:276-402 | every single entry point keeps the stream, FIN and descriptor invariants together |
| RelayRuns.UpdateKeeps | lib/fry_core/socks_relay_core.cpp:104-132 | `relayUpdate` keeps every byte and the FIN discipline |
| RelayTimers.ZeroMeansAct | lib/fry_core/socks_relay_core.cpp:374-430 | the remaining time is 0 exactly when the timer would act |
| RelayTimers.QuietUntilThen | lib/fry_core/socks_relay_core.cpp:374-430 | for every d below it, the timer at now + d (modulo 2^32) does nothing |
| RelayTimers.ForwardOnly | lib/fry_core/socks_relay_core.cpp:276-402 | no event takes a slot back to an earlier phase or changes a closed one's reason |
| RelayTimers.ActivityRestartsIdle | lib/fry_core/socks_relay_core.cpp:97-102 | data, an end of stream or sent bytes put off every idle deadline of a relaying slot by its full length |
| RelayTimers.SilenceCloses | src/esp32/vpn_wireguard.cpp:715-727 | a silent live slot is closed however often and irregularly the loop wakes, early or late, by the first wake after more time than the slot had left plus the total by which wakes missed its deadlines |
| RelayTimers.TimelyWakesClose | src/esp32/vpn_wireguard.cpp:766-776 | when every timeout is at most the reported time, as the capped select() makes it, the sum of the phase deadlines bounds that for any wake times |
| RelayTimers.TwoSleepsClose | lib/fry_core/socks_relay_core.cpp:404-430 | sleeping for the reported time itself closes it in two wakes |
| RelayOutcomes.ClientIsTold | lib/fry_core/socks_relay_core.cpp:57-93 | over every run, everything sent or pending for the client, byte by byte, for each phase |
| RelayOutcomes.FailedConnectRefuses | lib/fry_core/socks_relay_core.cpp:357-367 | over every run a failed connect, started or not, leaves the slot in Flush as ConnectFail, nothing to forward, and the failure reply owed behind the method answer, in literal bytes |
| RelayOutcomes.FailedConnectIsAnswered | lib/fry_core/socks_relay_core.cpp:321-367 | and once those bytes have left, in however many pieces, the client has been told exactly that and the slot is closed as ConnectFail |
| RelayOutcomes.RefusalGoesOut | lib/fry_core/socks_relay_core.cpp:321-348 | the same from any refusal, sent in any pieces |
| RelayOutcomes.LateConnectRefuses | lib/fry_core/socks_relay_core.cpp:374-385 | past its deadline a connect is refused the same way as ConnectTimeout; before it nothing changes |
| RelayOutcomes.ConnectGrants | lib/fry_core/socks_relay_core.cpp:362-372 | a connect that succeeds owes the client the success reply and starts with exactly the payload pipelined behind the request |
| RelayOutcomes.RetriedChangesNothing | lib/fry_core/socks_relay_core.cpp:134-162 | over every run each of the seven retried errno values leaves the whole session as it is, clocks included |
| RelayOutcomes.FatalCloses | lib/fry_core/socks_relay_core.cpp:134-162 | every other errno closes a live slot with the reason of its phase and touches nothing else |
| RelayOutcomes.EofDecides | lib/fry_core/socks_relay_core.cpp:303-310 | an end of stream closes a handshake; in a session it ends that source for good and keeps every pending byte |
| RelayOutcomes.PhaseClock | lib/fry_core/socks_relay_core.cpp:276-402 | every event leaves the phase clock at the time the phase was entered |
| RelayOutcomes.ActivityClock | lib/fry_core/socks_relay_core.cpp:95-102 | the idle clock shows the last activity: handshake bytes, the connect, and in a session everything but empty wakeups |
| RelayOutcomes.HalfCloseClock | lib/fry_core/socks_relay_core.cpp:95-132 | over every run the half-close clock runs exactly while a source has ended, from that end or the last activity |
| RelayOutcomes.HalfCloseEnds | lib/fry_core/socks_relay_core.cpp:374-395 | a half-closed session without activity is closed by the first wake halfCloseMs later, whatever the wakes before it |
| RelayOutcomes.HalfClosedWake | lib/fry_core/socks_relay_core.cpp:386-391 | with HalfCloseTimeout, or Idle if that deadline has passed too |
| RelayOutcomes.GraceOpens | lib/fry_core/socks_relay_core.cpp:104-121 | the grace period opens with the last byte of a finished client leaving, only while the upstream is open, and drops its bytes from then on |
| RelayOutcomes.GraceFirst | lib/fry_core/socks_relay_core.cpp:104-121 | where one is configured, an open upstream is closed only by the end of its grace period |
| RelayOutcomes.GraceRunsOut | lib/fry_core/socks_relay_core.cpp:391-394 | over every run a pass before that end changes nothing, and one after it closes the descriptor, once |
| RelayOutcomes.ReasonTells | lib/fry_core/socks_relay_core.cpp:276-402 | the reason of a closed slot names the event and the phase that closed it |
| RelaySlotImpl.RelaySlot.Queue | lib/fry_core/socks_relay_core.cpp:30-41 | appending with a move to the front is appending to the pending bytes, or dropping a reply that cannot fit |
| RelaySlotImpl.RelaySlot.ConsumeFront | lib/fry_core/socks_relay_core.cpp:43-48 | exactly the parsed bytes leave, all of them when the count exceeds what is pending, and the rest keeps its order |
| RelaySlotImpl.RelaySlot.Parse | lib/fry_core/socks_relay_core.cpp:59-95 | the parsing loop over both messages is the one-step model |
| RelaySlotImpl.RelaySlot.Update | lib/fry_core/socks_relay_core.cpp:104-132 | `relayUpdate` on the fields is the model's |
| RelaySlotImpl.RelaySlot.RecvDest | lib/fry_core/socks_relay_core.cpp:242-262 | the destination lies behind the pending bytes and the room is the model's |
| RelaySlotImpl.RelaySlot.HandleRecv | lib/fry_core/socks_relay_core.cpp:276-319 | `onRecv` on buffers and offsets is the model's step on streams |
| RelaySlotImpl.RelaySlot.HandleSend | lib/fry_core/socks_relay_core.cpp:321-348 | `onSend` likewise, the sent bytes leaving the front |
| RelaySlotImpl.RelaySlot.HandleConnectResult | lib/fry_core/socks_relay_core.cpp:362-372 | both outcomes queue the right reply and move on as the model does |
| RelaySlotImpl.RelaySlot.HandleTimer | lib/fry_core/socks_relay_core.cpp:374-402 | each deadline does exactly what the model's timer does |
| RelaySlotImpl.RelaySlot.DoRecv | src/esp32/vpn_wireguard.cpp:322-334 | bytes put into the offered room are the bytes the model receives; without room nothing changes |
| RelaySlotImpl.RelaySlot.DoForwardFin | src/esp32/vpn_wireguard.cpp:515-549 | draining into the feeding buffer overwrites no pending byte, and the FIN is taken once |
| RelayPool.PoolSelectTimeoutMs | lib/fry_core/socks_relay_core.cpp:476-486 | the minimum over the live slots, capped |
| RelayPool.PoolEvictIndex | lib/fry_core/socks_relay_core.cpp:461-474 | the handshake slot idle longest and at least the minimum age; none exactly when there is no such slot |
| RelayPool.BuildWatchList | lib/fry_core/socks_relay_core.cpp:488-515 | everything wanted that select() can take is listed; every entry is the listener's or a live slot's descriptor with the directions that slot wants; the largest descriptor is attained; the list never overflows, and a slot is marked bad exactly when it wants a descriptor out of range |
| RelayPool.ClosedIsNotListed | lib/fry_core/socks_relay_core.cpp:488-515 | over every run of a slot, a descriptor it closed on purpose is never an entry it asks for |
| DnsCache.RunRefines | lib/fry_core/relay_dns.h:57-138 | after any operations every valid entry is the last result recorded for its folded name, and no name has two |
| DnsCache.AnswersAreLatest | lib/fry_core/relay_dns.h:64-90 | a hit or a block is the most recent result of that name, still within its lifetime for ages below 2^31 ms, whatever was evicted in between |
| DnsCache.KeptIsFound | lib/fry_core/relay_dns.h:101-108 | a kept entry is found exactly until it expires |
| DnsCache.ExpiryIsTrue | lib/fry_core/relay_dns.h:42-54 | the wrapping comparison is the true one below 2^31 ms |
| DnsCache.ExpiryWraps | lib/fry_core/relay_dns.h:42-54 | in true time an entry past its expiry is served again in the upper half of each later turn of the 32-bit clock and at no other time |
| DnsCache.EvictsLeastRecent | lib/fry_core/relay_dns.h:110-138 | a live entry is evicted only for a new name when all are live, and then it is the least recently used |
| DnsCache.Cache.Lookup | lib/fry_core/relay_dns.h:64-71 | the lookup on the entry array answers as the model and touches only the entry it hit |
| DnsCache.Cache.Choose | lib/fry_core/relay_dns.h:116-131 | the three searches of `put` choose the model's place |
| DnsCache.Cache.Keep | lib/fry_core/relay_dns.h:110-138 | `put` on the array keeps the map of last results refined |
| DnsJobs.JobPool.BeginJob | lib/fry_core/relay_dns.h:171-198 | joining or creating a job on the array is the model's, the reference included |
| DnsJobs.JobPool.ReleaseJob | lib/fry_core/relay_dns.h:201-205 | one reference less, and the place is given back exactly when the job is settled and unreferenced |
| DnsJobs.JobPool.FinishSlotJob | lib/fry_core/relay_dns.h:208-232 | a finished job's result is recorded once, released and forgotten |
| DnsJobs.JobPool.SweepAll | lib/fry_core/relay_dns.h:234-242 | every finished job is settled and the unreferenced ones freed |
| DnsAnswers.SameNameIff | lib/fry_core/relay_dns.h:29-39 | two spellings are one name exactly when they differ in the case of ASCII letters only |
| DnsAnswers.RequestsFit | lib/fry_core/relay_dns.h:101-138 | every domain a SOCKS request can carry fits the cache and the jobs, except the empty one, which is never answered |
| DnsAnswers.FinishSlotRecords | lib/fry_core/relay_dns.h:208-232 | a finished job answers for its name for exactly 300 s with its address, or blocks it for exactly 15 s |
| DnsAnswers.SweepRecordsOne | lib/fry_core/relay_dns.h:234-242 | the same for a job that is swept |
| DnsAnswers.SweepRecordsBoth | lib/fry_core/relay_dns.h:234-242 | two jobs swept at once: the second is always answered for, the first exactly when the cache is not crowded (all entries but the first live, for other names and used in this very millisecond) |
| DnsPool.PoolIsSafe | src/esp32/vpn_wireguard.cpp:245-276 | in every interleaving, for however long: a job's count is the number of slots pointing at it, no two live jobs share a folded host, a job is live and unfinished exactly while its resolver runs, and a slot points only at a live job of its own host |
| DnsPool.NeverReusedWhileRunning | src/esp32/vpn_wireguard.cpp:245-276 | after any such run, no step frees or reuses a job whose resolver is running |
| DnsPool.ConnectingHoldsNone | src/esp32/vpn_wireguard.cpp:421-458 | while cache entries stay younger than 2^31 ms, no connecting or relaying slot ever holds a job |
| DnsPool.StepKeeps | src/esp32/vpn_wireguard.cpp:421-458 | each relay or resolver step keeps that |
| DnsPool.RunningJobStays | src/esp32/vpn_wireguard.cpp:245-276 | the step behind that, from any consistent pool |
| DnsPool.SweepEmpties | lib/fry_core/relay_dns.h:234-242 | once the resolvers are done and no slot waits, flushes or is closing, one sweep frees the whole pool |
| DnsPool.PinnedExactlyWhen | src/esp32/vpn_wireguard.cpp:421-458 | a connecting slot keeps a job exactly when the cache answers for a name still under resolution |
| DnsPool.OldEntryRevives | src/esp32/vpn_wireguard.cpp:421-458 | a run of the firmware from its start, with its own lifetimes, at whose end a connecting slot holds a job because an entry 2^31 ms past its expiry answered |
| DnsAnswers.WaiterHearsResult | src/esp32/vpn_wireguard.cpp:421-458 | in every reachable pool a client whose job has finished moves on at its next turn, to the resolved address or the refusal, and lets the job go |
| DnsAnswers.SweptResultAnswers | src/esp32/vpn_wireguard.cpp:421-458 | a swept result answers later clients, however they spell the name, for 300 s or 15 s, without another resolver |
| DnsAnswers.AskingStartsResolver | src/esp32/vpn_wireguard.cpp:438-457 | with no answer at hand a client joins the live job of its name, or gets a resolver in a free place, or waits; a resolver that cannot start is a failure |
| DnsAnswers.ResolverWrites | src/esp32/vpn_wireguard.cpp:245-261 | what a resolver publishes is the address it found, or a failure |
| DnsAnswers.AnswerStays | src/esp32/vpn_wireguard.cpp:245-261 | no step changes a result between its writing and its publication |
| DnsAnswers.NoResultLost | src/esp32/vpn_wireguard.cpp:273-276 | whoever leaves, a job lives until its resolver is done and the cache has the result |
| TokenHeal.NeverWithoutPair | src/core/hardwareapi_client.cpp:249-316 | over every run of registrations, heals, heartbeats, leases and reboots, with failing writes and power lost between any two, a board that had a complete pair has one, live or shadowed |
| TokenHeal.NeverMixed | src/core/hardwareapi_client.cpp:345-412 | with reliable single writes and no id minted for an orphaned token, over every run with crashes a complete live pair is one the server issued as a pair |
| TokenHeal.RecoveryEndsOrphans | src/core/hardwareapi_client.cpp:307-316 | once a boot's recovery has run no token is orphaned while there is power, so minting behind it is always harmless |
| TokenHeal.LeaseMixes | src/core/miner_key.cpp:213-234 | minting an id outside registration breaks the pairing exactly when the id is gone and the token is not |
| TokenHeal.MixReached | src/core/fry_config.cpp:217-223 | a crash between the two removals and a lease on the next boot reach that state |
| TokenHeal.HealKeepsOrReplaces | src/core/hardwareapi_client.cpp:345-412 | with power, a heal whose registration fails is undone to the last key; one that succeeds installs the new pair and keeps the old one shadowed |
| TokenHeal.HeartbeatProvesPair | src/core/hardwareapi_client.cpp:634-639 | the first accepted heartbeat drops the old pair, a refused one changes nothing |
| TokenHeal.OneHealPerWindow | lib/fry_core/stale_token_heal.h:25-41 | once a heal has stamped its time no other starts while the clock reads less than six hours later, up to six hours earlier, or implausibly, as an unsynced one does; reboots and failing writes included |
| TokenHeal.RebootHealsIff | lib/fry_core/stale_token_heal.h:25-41 | after a reboot a registered board answered 404 heals exactly on every other reading, a stamp more than six hours ahead included |
| TokenHeal.HealsIff | src/core/hardwareapi_client.cpp:345-376 | a 404 makes a registration write anything beyond what a refusal does exactly when the API base is not the default one, the latch and the window allow it, the clock is plausible, a complete pair was sent and there is power |
| TokenHeal.OneHealPerLatch | src/core/hardwareapi_client.cpp:347-352 | without a reboot no other heal starts within six hours of uptime, whatever the clock reads |
| TokenHeal.ClearedIsStamped | src/core/hardwareapi_client.cpp:366-377 | for every fate of its writes, a heal touches the live pair only with its time on record |
| TokenHeal.RegisterInstalls | src/core/hardwareapi_client.cpp:451-530 | with power, an accepted registration leaves the id it was sent with and the token it got; a refused one leaves the pair alone |
| TokenHeal.TokenlessIsRefused | src/core/hardwareapi_client.cpp:352 | a 404 without a token sent is no more than a refusal |
| TokenHeal.RecoverSafe | src/core/hardwareapi_client.cpp:307-316 | boot recovery, cut anywhere, leaves a complete pair |
| TokenHeal.RecoveryLeavesOne | src/core/hardwareapi_client.cpp:287-316 | with power, boot recovery leaves exactly one pair: the live one if complete, else the shadowed one |
| TokenHeal.StashSound | src/core/hardwareapi_client.cpp:249-265 | the stash is proven only when both shadows hold the live pair |
| TokenBoard.PairsMatch | lib/fry_core/stale_token_heal.h:44-50 | the byte loop says whether two strings are equal |
| TokenBoard.Board.StashTokenPair | src/core/hardwareapi_client.cpp:249-265 | the write and read-back sequence is the model's stash |
| TokenBoard.Board.RestoreTokenPair | src/core/hardwareapi_client.cpp:287-305 | likewise the restore |
| TokenBoard.Board.RecoverOrphanedTokenPair | src/core/hardwareapi_client.cpp:307-316 | likewise boot recovery |
| TokenBoard.Board.HealStaleTokenIfDue | src/core/hardwareapi_client.cpp:345-412 | the heal, with its latch and window, step by step |
| TokenBoard.Board.PutPoc | src/core/hardwareapi_client.cpp:634-639 | an accepted heartbeat drops the shadows, and only then |
| OtaStage.Updater.End | lib/fry_core/ota_stage_guard.h:4-16 | the Updater's contract: end(false) drops an unfinished or failed update and stages a complete one |
| OtaStage.Updater.Write | lib/fry_core/ota_stage_guard.h:4-16 | the contract of write for every internal buffer size and every pattern of flash faults |
| OtaStage.HeldTailWriter.Write | lib/fry_core/ota_stage_guard.h:30-42 | the stream grows by exactly these bytes or not at all, and the Updater never has the last one |
| OtaStage.HeldTailWriter.Commit | lib/fry_core/ota_stage_guard.h:44-57 | success stages exactly the whole stream; failure stages nothing; it succeeds when the stream is whole and the flash sound |
| OtaStage.HeldTailWriter.Discard | lib/fry_core/ota_stage_guard.h:59-60 | whatever came before, nothing is staged and the Updater is idle |
| Sha256Impl.Hasher.Update | lib/fry_core/sha256.cpp:79-88 | any split into calls extends the hashed message by exactly the bytes given |
| Sha256Impl.Hasher.Transform | lib/fry_core/sha256.cpp:43-77 | one block is the FIPS 180-4 compression |
| Sha256Impl.Hasher.Finish | lib/fry_core/sha256.cpp:90-114 | for every message below 2^61 bytes the digest is the compression folded over the padded message |
| Sha256Impl.PadOneBlock | lib/fry_core/sha256.cpp:93-95 | up to 55 pending bytes: padding and length share a block |
| Sha256Impl.PadTwoBlocks | lib/fry_core/sha256.cpp:96-101 | 56 to 63 pending bytes: the length needs its own block |
| Sha256Spec.RotationsAreShifts | lib/fry_core/sha256.cpp:10-16 | the rotations are the source's shifts |
| Sha256Example.DigestOfAbc | lib/fry_core/sha256.cpp:10-114 | the published example: the specification gives "abc" its known digest, which fixes constants, rotations, rounds and padding |
| OtaDigest.MatchesOneDigest | lib/fry_core/ota_sha_match.h:27-34 | a manifest digest accepts at most one 32-byte digest |
| OtaDigest.MatchesIffSpelled | lib/fry_core/ota_sha_match.h:20-34 | a manifest text matches exactly the digest its 64 characters spell in hexadecimal, in either case |
| OtaDigest.BytesToHexUpper | lib/fry_core/sha256.cpp:122-134 | two upper-case hex digits a byte and a NUL, or the empty string when there is no room |
| OtaDigest.AsciiLowerInPlace | lib/fry_core/ota_sha_match.h:20-24 | lower-cases the C string and nothing behind it |
| OtaDigest.Sha256HexMatches | lib/fry_core/ota_sha_match.h:26-34 | true exactly for a 64-character digest equal to the 64-character expectation ignoring case, never reading past the NUL |
| OtaDownload.StreamIn | src/core/ota_client.cpp:575-620 | the loop ends with exactly the announced bytes, hashed and written, or has dropped the update |
| OtaDownload.SteadyDelivers | src/core/ota_client.cpp:575-612 | a download whose every pause lasts at most 20 s since the latest data delivers the image whole, however long it takes in all and however it is cut |
| OtaDownload.ShortHasReason | src/core/ota_client.cpp:575-620 | one that stops short has run out of polls, lost the peer, failed a read, or been silent for more than 20 s since the latest data, and took exactly what came before |
| OtaDownload.Verdict | src/core/ota_client.cpp:622-663 | the digest alone decides between staging the stream and staging nothing |
| OtaDownload.DownloadAndApply | src/core/ota_client.cpp:542-666 | for every chunking an image is staged only if it is exactly the streamed bytes, of the announced length and with the manifest's SHA-256; a sound flash and an accepted image are staged |
| OtaDownload.AcceptedSameDigest | lib/fry_core/ota_sha_match.h:27-34 | all images a manifest accepts share one SHA-256 |
| Semver.PrecedenceLaws | lib/fry_core/semver.cpp:88-110 | precedence is antisymmetric in sign, transitive, total, and 0 only for equal versions |
| Semver.Section11 | lib/fry_core/semver.cpp:69-110 | the chain of examples of section 11 |
| Semver.SameLength | lib/fry_core/semver.cpp:69-84 | digit strings of one length compare as text the way they compare as numbers |
| Semver.LongerIsLarger | lib/fry_core/semver.cpp:69-75 | a longer digit string without a leading zero is the larger number |
| SemverImpl.CompareIdent | lib/fry_core/semver.cpp:69-84 | the length-then-text comparison is section 11's order on identifiers |
| SemverImpl.CompareSemver | lib/fry_core/semver.cpp:28-38 | the component loop orders the three core numbers as read |
| SemverImpl.CompareSemverPrecedence | lib/fry_core/semver.cpp:88-110 | for every two strings the loops compute the precedence of the versions they stand for |
| SemverText.ParseText | lib/fry_core/semver.cpp:11-67 | the text of a version is read back as that version, up to the 32-bit wrap; build metadata is ignored |
| SemverText.AgreesWithStandard | lib/fry_core/semver.cpp:88-110 | below 2^32 the comparison of two texts is section 11's precedence |
| SemverText.RankedIffFits | lib/fry_core/semver.cpp:11-24 | a version is ranked correctly against all 32-bit versions exactly when it is one |
| OtaHealth.ForwardOnly | lib/fry_core/ota_health.cpp:101-110 | over any manifests the installed versions strictly rise in precedence and none recurs |
| OtaHealth.UpdateIff | lib/fry_core/ota_health.cpp:90-110 | an update is offered exactly for this board's channel ("prod" when none is named), a version that outranks the running one and is not held back, in its rollout turn, with a build and its digest |
| OtaHealth.DecisionTells | lib/fry_core/ota_health.cpp:101-110 | every other decision names the first of these demands that is not met |
| OtaLifecycle.ThreeStrikes | src/core/ota_client.cpp:690-752 | while manifests name one version, at most three of its installs fail, whatever boots, checks, confirmations and planned restarts happen in whatever order |
| OtaLifecycle.ThreeIsReached | src/core/ota_client.cpp:1060-1069 | the bound is reached for every acceptable version |
| OtaLifecycle.OneStrikePerBoot | lib/fry_core/ota_version_guard.h:15-21 | the rollback and mislabel branches exclude each other: a boot adds one strike to the failed version or leaves the record alone |
| OtaLifecycle.CrashLoop | src/core/ota_client.cpp:140-159 | an image that never proves itself is given up on its third boot: one strike when there is another slot, the pending flag dropped and no strike when there is none |
| OtaLifecycle.RefusedIff | lib/fry_core/ota_health.cpp:63-71 | an otherwise acceptable version is refused exactly on the first check after its rollback and for good from three strikes |
| OtaProbation.ConfirmedStays | src/core/ota_client.cpp:826-831 | a confirmed image is never rolled back or struck again, over any boots, restarts and checks that install nothing |
| OtaProbation.TrialLength | src/core/ota_client.cpp:698-706 | an image that never confirms is given up at its third boot, less the unconfirmed boots of the image it replaced: it has all three exactly when nothing was being counted at its installation |
| OtaProbation.TrialCutShort | src/core/ota_client.cpp:666 | a history in which a new image inherits two such boots and is given up at its first |
| OtaProbation.AwaitsIff | src/core/ota_client.cpp:676-708 | a boot awaits confirmation exactly when it runs the image on trial or an unverified one, and only then are planned restarts recorded |
| OtaProbation.PlannedRestartForgives | src/core/ota_client.cpp:774-776 | a planned restart keeps the next boot from striking, whatever it runs, and no boot after that |
| OtaProbation.NewerManifestClears | src/core/ota_client.cpp:1060-1066 | a manifest that names another version clears the strikes, and only such a one |
| OtaClient.Client.Init | src/core/ota_client.cpp:676-753 | the boot check on the persisted values is the model's |
| OtaClient.Client.EvaluateManifest | src/core/ota_client.cpp:1060-1091 | the decision, with the strike reset and the one-check reprieve |
| ManifestRead.ReadManifestBody | lib/fry_core/ota_manifest_read.h:68-94 | with data, FIN and time moving between any two calls: Ok appended exactly the expected bytes in order; Closed only if the peer sent fewer, all of which were read; TimedOut only after that much silence, and not of a connection seen closed; a connection over from the start gives Ok or Closed by its length; NoRoom only without room |
| Improv.FindsFirstHeader | lib/fry_core/improv_serial.cpp:42-64 | the search leaves the header stage exactly at the end of the first IMPROV, for any bytes before it |
| Improv.FrameGoesThrough | lib/fry_core/improv_serial.cpp:52-110 | from any header-stage state a frame raises no complaint before its last byte, which carries its verdict |
| Improv.FrameBytes | lib/fry_core/improv_serial.cpp:13-29 | the packet on the wire, byte by byte |
| Improv.ChecksumCaught | lib/fry_core/improv_serial.cpp:90-99 | a wrong checksum is reported, exactly then |
| Improv.BreaksOff | lib/fry_core/improv_serial.cpp:64-82 | a version other than 1 or a length above 128 is reported as malformed at once |
| Improv.DamageCaught | lib/fry_core/improv_serial.cpp:90-99 | one damaged byte of a payload never goes unnoticed |
| Improv.CommandDelivered | lib/fry_core/improv_serial.cpp:88-107 | a well-formed RPC frame yields its exact command and data |
| Improv.CommandIsReal | lib/fry_core/improv_serial.cpp:52-110 | conversely a delivered command was just received as a well-formed frame, over any byte stream |
| Improv.BackWithin | lib/fry_core/improv_serial.cpp:45-110 | from any state and for any bytes the parser hunts for a header again within 132 bytes |
| ImprovSerial.Parser.Feed | lib/fry_core/improv_serial.cpp:52-110 | the object with its fixed buffer and running sum is the parser of the model, and exposes the delivered command |
| ImprovCodec.EncodeByte | lib/fry_core/improv_serial.cpp:142-154 | state and error packets are frames, or nothing is written |
| ImprovCodec.EncodeRpcResult | lib/fry_core/improv_serial.cpp:156-181 | the result is the frame of the packed strings exactly when all are present and fit |
| ImprovCodec.ResultRoundTrip | lib/fry_core/improv_serial.cpp:174-180 | unpacking the packed strings gives them back |
| ImprovCodec.EncoderOutputPasses | lib/fry_core/improv_serial.cpp:142-181 | no encoder output ever makes a parser report a bad checksum or a malformed packet |
| ImprovCodec.WifiSettingsExact | lib/fry_core/improv_serial.cpp:112-130 | decoding succeeds with given credentials exactly when the data begins with their encoding and they fit |
| ImprovCodec.DecodeWifiSettings | lib/fry_core/improv_serial.cpp:112-130 | the buffers hold the decoded strings with their NUL, or are untouched |
| ImprovCodec.DecodeKeyWrite | lib/fry_core/improv_serial.cpp:132-140 | accepted exactly when the length byte agrees and the key fits with its NUL |
| ScanList.AfterAnySightings | lib/fry_core/improv_scan.cpp:9-33 | strongest first, one row per SSID, each row its network's strongest sighting ever, and an absent network means 24 rows at least as strong as it ever was |
| ScanList.PutKeepsBest | lib/fry_core/improv_scan.cpp:9-33 | one sighting keeps all of that |
| ScanList.NoStrongerChangesNothing | lib/fry_core/improv_scan.cpp:9-19 | a sighting without a name or no stronger than its network's row changes nothing |
| ScanList.List.Add | lib/fry_core/improv_scan.cpp:9-33 | the shifts in the row array keep the list best of everything seen |
| Cidr.CidrRoundTrip | lib/fry_core/wg_provision.cpp:112-160 | a formatted block parses back to itself |
| CidrText.ParseExact | lib/fry_core/wg_provision.cpp:24-35 | together with lines 112-138: a text is taken exactly when it is four numbers of one to three digits up to 255, dots, a slash and a prefix up to 32, and nothing else |
| Cidr.InBlockIsRange | lib/fry_core/wg_provision.cpp:250-255 | the masked comparison is membership in the block's address range |
| Routes.NarrowExact | lib/fry_core/wg_provision.cpp:257-293 | the result is a sub-block without the station's addresses in at most two halvings, the candidate itself exactly when it was clean, and nothing exactly when every address is one of the two |
| Routes.NarrowAwayFromSta | lib/fry_core/wg_provision.cpp:261-293 | the halving loop computes that |
| Routes.KeptAreSafe | lib/fry_core/wg_provision.cpp:312-339 | at most three routes, each a /8 or narrower sub-block of an entry, capturing neither address |
| Routes.KeptAreEnough | lib/fry_core/wg_provision.cpp:312-339 | until three are kept no usable entry is lost |
| Routes.PlanShape | lib/fry_core/wg_provision.cpp:297-357 | a plan has one to three routes and falls back exactly when no entry is usable |
| Routes.PlanMeans | lib/fry_core/wg_provision.cpp:297-357 | the plan itself: refused exactly for a malformed address; with a usable entry only clean sub-blocks of entries and every usable entry up to three routes; without one the tunnel's own subnet |
| Routes.KeptInOrder | lib/fry_core/wg_provision.cpp:312-339 | routes come in the order of the entries |
| Routes.CandidateMeans | lib/fry_core/wg_provision.cpp:312-322 | an entry names a block exactly when it is the text of an address in it with a prefix of 8 to 32 |
| Routes.AvoidedMeans | lib/fry_core/wg_provision.cpp:261-293 | off limits are the station's address and gateway as far as they are known |
| Routes.DistinctIff | lib/fry_core/wg_provision.cpp:312-339 | for every list the kept routes are distinct exactly when no entry, met while there is room, must be narrowed and narrows onto a route already kept |
| Routes.DistinctWithoutNarrowing | lib/fry_core/wg_provision.cpp:323-330 | so they are when no entry needed narrowing |
| Routes.NarrowedOntoFirst | lib/fry_core/wg_provision.cpp:323-330 | two entries give one route twice whenever the first names what the second is narrowed to |
| Routes.TwoEntriesCollide | lib/fry_core/wg_provision.cpp:323-330 | an input for every even network address: its /32 and its /31, sent as text to a station whose own address is the other one |
| Routes.RepeatedEntry | lib/fry_core/wg_provision.cpp:323-330 | an entry sent twice is kept twice exactly when it needed narrowing |
| RoutePlanner.ParseIpv4Cidr | lib/fry_core/wg_provision.cpp:112-138 | the digit and octet loops parse what the model parses |
| RoutePlanner.PlanWgRoutes | lib/fry_core/wg_provision.cpp:297-357 | the planner's loops compute the plan |
| RoutePlanner.JoinRoutes | src/esp32/wg_provision_client.cpp:220-224 | the stored list is the routes with a semicolon between each two |
| RelayGuard.PickRecovers | lib/fry_core/relay_guard.h:71-90 | from the stored list the relay recovers exactly the first /32 other than the device |
| RelayGuard.PickServerTunnelAddress | lib/fry_core/relay_guard.h:71-90 | the scanning loop with its 20-character buffer computes it |
| RelayGuard.EnabledIffAdmits | lib/fry_core/relay_guard.h:52-63 | the relay listens exactly when some address other than the device's would be admitted |
| RelayGuard.AdmittedMeans | lib/fry_core/relay_guard.h:34-63 | admitted means the server itself or the device's own /8 to /31 |
| RelayGuard.PlannedServerAdmitted | lib/fry_core/relay_guard.h:61-90 | from the server's answer to the guard: when the allowed list begins with the server's /32, not the device's or the station's, the plan is stored, read back, and the server is admitted |
| RelayGuard.FirstPeerAdmitted | lib/fry_core/relay_guard.h:61-90 | and for every plan its first foreign /32 is admitted |
| WgKey.AcceptedIffKeyText | lib/fry_core/wg_provision.cpp:41-54 | a text is accepted exactly when it is the encoding of a 32-byte key |
| WgKey.KeyTextsDiffer | lib/fry_core/wg_provision.cpp:62-83 | two keys never share an encoding |
| WgKey.EncodeWgKeyB64 | lib/fry_core/wg_provision.cpp:62-83 | the shifting loop writes the encoding and its NUL, or nothing |
| WgKey.CheckWgKeyB64 | lib/fry_core/wg_provision.cpp:41-54 | the character loop decides acceptance |
| Provisioning.ErrorMeansError | lib/fry_core/provisioning_fsm.cpp:45-164 | over every trace the machine is in Error exactly when it has an error, and the Wi-Fi latch is down before a commit |
| Provisioning.ConnectedMeans | lib/fry_core/provisioning_fsm.cpp:100-146 | Connected means a commit, then the join, then the API's answer, with no re-provisioning since |
| Provisioning.StrangersCannotRestart | lib/fry_core/provisioning_fsm.cpp:20-57 | no untrusted SSID, password, wallet or key event leaves a running error; only a reset or the API's success does |
| Provisioning.SsidStartsOver | lib/fry_core/provisioning_fsm.cpp:48-57 | in Error an SSID write is exactly a write from Idle, unless a stranger sent it to a running board |
| Provisioning.ErrorAfter | lib/fry_core/provisioning_fsm.cpp:45-164 | over every trace an event that is to blame is what is reported next, one that forgives clears the report, and any other leaves it |
| Provisioning.ErrorTells | lib/fry_core/provisioning_fsm.cpp:45-164 | the error on display is that of the last event to blame, with nothing forgiving since |
| Provisioning.PhaseAfter | lib/fry_core/provisioning_fsm.cpp:45-164 | over every trace, for each phase, the events after which the machine is in it, exactly |
| Provisioning.LatchAfter | lib/fry_core/provisioning_fsm.cpp:48-118 | the Wi-Fi latch goes up with the join of a connecting board and down with every restart and commit |
| Provisioning.PersistedBeforeReady | lib/fry_core/provisioning_commit.h:14-32 | at every observable moment of every run, ready to connect means the committed credentials are stored |
| Provisioning.StoredIffAccepted | lib/fry_core/provisioning_commit.h:14-32 | only a commit the machine accepts changes the store, to what was written |
| ProvisioningFsm.Machine.Feed | lib/fry_core/provisioning_fsm.cpp:45-164 | the object's switch is the machine of the traces, and the result says whether the phase changed |
| ProvisioningFsm.CommitOnWallet | lib/fry_core/provisioning_commit.h:14-20 | credentials are stored exactly when the machine accepts, and before it is told |
| ProvisioningFsm.CommitWifiOnly | lib/fry_core/provisioning_commit.h:26-32 | the same without a wallet |
| ProvisioningFsm.ResetForWifiOnlyCommit | lib/fry_core/provisioning_commit.h:39-44 | afterwards an SSID write always starts an attempt, and one in progress is kept |

## Left out

- Sockets, select(), lwIP, FreeRTOS, BearSSL, HTTP, Wi-Fi, NVS and LittleFS: their outcomes are parameters of the steps.
- DnsPool.ConnectingHoldsNone: cache ages stay below 2^31 ms at every step, because beyond that the statement is false (DnsPool.PinnedExactlyWhen, DnsPool.OldEntryRevives).
- A domain with an embedded NUL byte: host names are whole Dafny strings, while `dnsHostEq` and `strlen` in lib/fry_core/relay_dns.h, and every other reader of the host text, stop at the NUL.
- TokenHeal.NeverMixed: assumes writes that are reliable while there is power and no id minted for an orphaned token; without the latter it is false (TokenHeal.LeaseMixes).
- Clearing both pairs when the owner replaces the miner key: a deliberate forgetting, not part of the crash-recovery protocol.
- RelayRuns.StreamsConserved: bytes that `drainAndClose` reads and throws away on closing a side are not part of the recorded history.
- The bench build that half-closes instead of closing (FRY_RELAY_HALFCLOSE) and `takeShutdown` on its own.
- RelayTimers.SilenceCloses: between two wakes the slot's 32-bit clock does not go once around (49 days), since beyond that no reading of it tells how long the silence was.
- The ESP32 Updater path and its abort(): its library has one, so nothing needs holding back there.
- Heap gates, settle waits, redirects and TLS before a download: measured constants and one-line decisions.
- OtaLifecycle.ThreeStrikes: one boot check's writes land together (power lost between recording a strike and clearing the pending flag would count the same install again), and a factory reset is outside the history.
- DnsAnswers.SweepRecordsBoth: uses within 2^31 ms of the sweep, so that the wrapping LRU comparison is the true one.
- The manifest check that an ESP32 skips while its bootloader still verifies the running image: in OtaProbation.TrialCutShort no image is so marked.
- The staged-rollout bucket: its verdict is the boolean field `inRollout`.
- Cidr.Masked: a mask clears the low bits one at a time; the shift that builds the mask word and its AND are not modelled on the word.
- ManifestRead.ReadManifestBody: a timeout below 2^31 ms and calls shorter than 2^28 ms, so that the 32-bit clock difference is the true one.
- WireGuard request body, response validation and retry schedule; status, telemetry and log text: formatting and table look-ups.
- `encodeProvStatus`, `legacyProvErr`, `bumpSaturating`, `clampX25519Private`, `isKnownCommand`: settled by reading one function.
