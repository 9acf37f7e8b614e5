/**
 The stale-token self-heal (src/core/hardwareapi_client.cpp:225-412, lib/fry_core/stale_token_heal.h,
 lib/fry_core/heal_fix_rules.h): a crash-recovery protocol over a key-value store.

 The store carries a plan: what becomes of each write to come. A write that does not land leaves its
 key as it was, and may even be reported as done. When the plan is used up the power is gone: no
 write lands until the next `PowerOn`. So a crash between any two writes is a plan that ends there.
 */
module TokenHeal {
  import opened Prelude

  datatype Key = InstallId | DeviceToken | ShadowId | ShadowToken

  datatype Write = Write(lands: bool, reported: bool)

  datatype Store = Store(kv: map<Key, string>, healAt: U32, plan: seq<Write>)

  datatype Device = Device(
    st: Store,
    healed: bool,          // per-boot latch, and the uptime when it was set
    healedAtMs: int,
    shadowPending: bool,
    recovered: bool)       // recoverOrphanedTokenPair ran since power-on

  // ---- the store -----------------------------------------------------------------------------

  function Get(s: Store, k: Key): string {
    if k in s.kv then s.kv[k] else ""
  }

  predicate Lands(s: Store) {
    s.plan != [] && s.plan[0].lands
  }

  predicate Reported(s: Store) {
    s.plan != [] && s.plan[0].reported
  }

  function Spend(s: Store): Store {
    s.(plan := if s.plan == [] then [] else s.plan[1..])
  }

  function Put(s: Store, k: Key, v: string): Store {
    if Lands(s) then Spend(s).(kv := s.kv[k := v]) else Spend(s)
  }

  function Remove(s: Store, k: Key): Store {
    if Lands(s) then Spend(s).(kv := s.kv - {k}) else Spend(s)
  }

  function PutStamp(s: Store, v: U32): Store {
    if Lands(s) then Spend(s).(healAt := v) else Spend(s)
  }

  predicate LiveComplete(s: Store) {
    Get(s, InstallId) != "" && Get(s, DeviceToken) != ""
  }

  predicate ShadowComplete(s: Store) {
    Get(s, ShadowId) != "" && Get(s, ShadowToken) != ""
  }

  // ---- the rules -----------------------------------------------------------------------------

  const HEAL_MIN_EPOCH: int := 1600000000
  const HEAL_MAX_EPOCH: int := 2147483647
  const HEAL_WINDOW_S: int := 21600
  const HEAL_LATCH_MS: int := 21600000

  predicate HealWindowOpen(healedThisBoot: bool, last: U32, now: U32) {
    if healedThisBoot || now < HEAL_MIN_EPOCH || now > HEAL_MAX_EPOCH then false
    else if last == 0 then true
    else if last > now + HEAL_WINDOW_S then true
    else now >= last && now - last >= HEAL_WINDOW_S
  }

  // ---- the operations ------------------------------------------------------------------------

  function Stash(s: Store): (Store, bool) {
    var (id, tok) := (Get(s, InstallId), Get(s, DeviceToken));
    if id == "" || tok == "" then (s, false)
    else
      var s1 := Put(s, ShadowId, id);
      if !Reported(s) then (s1, false)
      else
        var s2 := Put(s1, ShadowToken, tok);
        (s2, Reported(s1) && Get(s2, ShadowId) == id && Get(s2, ShadowToken) == tok)
  }

  function DropShadow(s: Store): Store {
    if !LiveComplete(s) then s
    else if Get(s, ShadowId) == "" && Get(s, ShadowToken) == "" then s
    else Remove(Remove(s, ShadowId), ShadowToken)
  }

  function Restore(s: Store): Store {
    if !ShadowComplete(s) then s
    else
      var (id, tok) := (Get(s, ShadowId), Get(s, ShadowToken));
      var s1 := Put(Put(s, InstallId, id), DeviceToken, tok);
      if Get(s1, InstallId) == id && Get(s1, DeviceToken) == tok then DropShadow(s1) else s1
  }

  function Recover(s: Store): Store {
    if LiveComplete(s) then DropShadow(s) else Restore(s)
  }

  /** ensureInstallId: anything but a 32-character id is replaced by a fresh one. */
  function EnsureId(s: Store, minted: string): Store {
    if |Get(s, InstallId)| == 32 then s else Put(s, InstallId, minted)
  }

  function Clear(s: Store): Store {
    Remove(Remove(s, InstallId), DeviceToken)
  }

  /** clearInstallation, then a freshly minted installation id. */
  function StartOver(s: Store, minted: string): Store {
    EnsureId(Clear(s), minted)
  }

  /** The state of the world one heal attempt meets: clock, uptime, API base, the fresh id it would
      mint, and the device token its one token-less registration is answered with (None: any
      failure, including a 2xx without a usable token). */
  datatype Attempt = Attempt(epoch: U32, uptimeMs: int, defaultBase: bool, minted: string, reply: Option<string>)

  /** From the proven stash on: stamp, clear, mint, register, and keep or restore. */
  function HealStashed(s: Store, a: Attempt): Store {
    var s1 := PutStamp(s, a.epoch);
    if s1.healAt != a.epoch then s1
    else
      var s2 := StartOver(s1, a.minted);
      if a.reply.None? then Restore(s2) else Put(s2, DeviceToken, a.reply.value)
  }

  function ReleaseLatch(d: Device, a: Attempt): Device {
    d.(healed := d.healed && Elapsed(a.uptimeMs, d.healedAtMs) < HEAL_LATCH_MS)
  }

  /** healStaleTokenIfDue after a 404 to a request that carried the device token. */
  function Heal(d: Device, a: Attempt): Device {
    var d1 := ReleaseLatch(d, a);
    if d1.healed || a.defaultBase || !HealWindowOpen(false, d1.st.healAt, a.epoch) then d1
    else
      var (s, proven) := Stash(d1.st);
      if !proven then d1.(st := s)
      else d1.(st := HealStashed(s, a), healed := true, healedAtMs := a.uptimeMs, shadowPending := true)
  }

  datatype Answer =
    | Registered(token: string)   // 2xx; "" when the reply carries no token
    | Stale(attempt: Attempt)     // 404
    | Refused                     // anything else

  /** registerInstallation: boot recovery, an installation id, one answer from the server. */
  function Register(d: Device, minted: string, ans: Answer): Device {
    var s := EnsureId(Recover(d.st), minted);
    var d1 := d.(st := s, recovered := true);
    match ans
    case Registered(tok) => if tok == "" then d1 else d1.(st := Put(s, DeviceToken, tok))
    case Stale(a) => if Get(s, DeviceToken) == "" then d1 else Heal(d1, a)
    case Refused => d1
  }

  /** putPoc: an accepted heartbeat proves the pair a heal installed. */
  function Poc(d: Device, accepted: bool): Device {
    if !accepted then d
    else
      var s := if d.healed then DropShadow(d.st) else d.st;
      if d.shadowPending then d.(st := DropShadow(s), shadowPending := false) else d.(st := s)
  }

  datatype Op =
    | DoRegister(minted: string, ans: Answer)
    | DoPoc(accepted: bool)
    | DoLease(minted: string)      // renewLease and telemetry: ensureInstallId on its own
    | PowerOn(plan: seq<Write>)   // reboot: volatile state is gone, a new plan begins

  predicate WellFormed(op: Op) {
    match op
    case DoRegister(minted, Stale(a)) =>
      |minted| == 32 && |a.minted| == 32 && (a.reply.Some? ==> a.reply.value != "")
    case DoRegister(minted, _) => |minted| == 32
    case DoLease(minted) => |minted| == 32
    case _ => true
  }

  function Apply(d: Device, op: Op): Device {
    match op
    case DoRegister(minted, ans) => Register(d, minted, ans)
    case DoPoc(accepted) => Poc(d, accepted)
    case DoLease(minted) => d.(st := EnsureId(d.st, minted))
    case PowerOn(plan) => Device(d.st.(plan := plan), false, 0, false, false)
  }

  ghost function ApplyAll(d: Device, ops: seq<Op>): Device
    decreases |ops|
  {
    if ops == [] then d else ApplyAll(Apply(d, ops[0]), ops[1..])
  }

  // ---- never a board with neither pair ---------------------------------------------------------

  predicate Safe(s: Store) {
    LiveComplete(s) || ShadowComplete(s)
  }

  lemma DropSafe(s: Store)
    ensures Safe(s) ==> Safe(DropShadow(s))
    ensures LiveComplete(s) ==> LiveComplete(DropShadow(s))
  {
  }

  lemma RestoreSafe(s: Store)
    requires ShadowComplete(s)
    ensures Safe(Restore(s))
  {
    var (id, tok) := (Get(s, ShadowId), Get(s, ShadowToken));
    var s1 := Put(Put(s, InstallId, id), DeviceToken, tok);
    assert ShadowComplete(s1);
    DropSafe(s1);
  }

  lemma RecoverSafe(s: Store)
    requires Safe(s)
    ensures Safe(Recover(s))
  {
    DropSafe(s);
    if !LiveComplete(s) { RestoreSafe(s); }
  }

  /** Nothing between the proven stash and the restore touches the shadow pair. */
  lemma ShadowKept(s: Store, minted: string, v: U32)
    requires ShadowComplete(s)
    ensures ShadowComplete(PutStamp(s, v)) && ShadowComplete(StartOver(s, minted))
  {
    assert ShadowComplete(Clear(s));
  }

  lemma HealStashedSafe(s: Store, a: Attempt)
    requires ShadowComplete(s)
    ensures Safe(HealStashed(s, a))
  {
    var s1 := PutStamp(s, a.epoch);
    ShadowKept(s, a.minted, a.epoch);
    ShadowKept(s1, a.minted, a.epoch);
    if a.reply.None? {
      RestoreSafe(StartOver(s1, a.minted));
    }
  }

  lemma StashSafe(s: Store)
    requires Safe(s)
    ensures Safe(Stash(s).0)
    ensures Stash(s).1 ==> ShadowComplete(Stash(s).0)
  {
  }

  lemma HealSafe(d: Device, a: Attempt)
    requires Safe(d.st)
    ensures Safe(Heal(d, a).st)
  {
    StashSafe(d.st);
    if Stash(d.st).1 { HealStashedSafe(Stash(d.st).0, a); }
  }

  lemma RegisterSafe(d: Device, minted: string, ans: Answer)
    requires Safe(d.st) && |minted| == 32
    ensures Safe(Register(d, minted, ans).st)
  {
    RecoverSafe(d.st);
    var s := Recover(d.st);
    MintSafe(s, minted);
    if ans.Stale? { HealSafe(d.(st := EnsureId(s, minted), recovered := true), ans.attempt); }
  }

  lemma MintSafe(s: Store, minted: string)
    requires Safe(s) && |minted| == 32
    ensures Safe(EnsureId(s, minted))
  {
  }

  lemma ApplySafe(d: Device, op: Op)
    requires Safe(d.st) && WellFormed(op)
    ensures Safe(Apply(d, op).st)
  {
    match op
    case DoRegister(minted, ans) => RegisterSafe(d, minted, ans);
    case DoPoc(accepted) =>
      DropSafe(d.st);
      DropSafe(DropShadow(d.st));
    case DoLease(minted) => MintSafe(d.st, minted);
    case PowerOn(_) =>
  }

  /** Over every run of registrations, heals, heartbeats, leases and reboots, with writes that fail
      at will and power lost between any two of them, a board that started with a complete pair
      still holds one, live or shadowed. */
  lemma {:induction false} NeverWithoutPair(d: Device, ops: seq<Op>)
    requires Safe(d.st) && forall i :: 0 <= i < |ops| ==> WellFormed(ops[i])
    ensures Safe(ApplyAll(d, ops).st)
    decreases |ops|
  {
    if ops != [] {
      ApplySafe(d, ops[0]);
      NeverWithoutPair(Apply(d, ops[0]), ops[1..]);
    }
  }

  // ---- no installation is mixed with another ---------------------------------------------------

  /** Single-key writes that are reliable while there is power. */
  predicate Reliable(plan: seq<Write>) {
    forall w :: w in plan ==> w.lands && w.reported
  }

  type Pairs = set<(string, string)>

  function Live(s: Store): (string, string) {
    (Get(s, InstallId), Get(s, DeviceToken))
  }

  function Shadow(s: Store): (string, string) {
    (Get(s, ShadowId), Get(s, ShadowToken))
  }

  /** The shadows hold an issued pair, and the live token, if any, is that pair's own. */
  predicate ShadowGood(s: Store, issued: Pairs) {
    && ShadowComplete(s) && |Shadow(s).0| == 32 && Shadow(s) in issued
    && (Live(s).1 == "" || Live(s).1 == Shadow(s).1)
  }

  predicate Sound(s: Store, issued: Pairs) {
    && Reliable(s.plan)
    && (Live(s).0 == "" || |Live(s).0| == 32)
    && if LiveComplete(s) then Live(s) in issued else ShadowGood(s, issued)
  }

  /** Unless the power has gone, the live pair is complete. */
  predicate Settled(s: Store) {
    s.plan != [] ==> LiveComplete(s)
  }

  /** A half pair with the power on exists only before this boot's recovery. */
  predicate Unmixed(d: Device, issued: Pairs) {
    Sound(d.st, issued) && (d.recovered ==> Settled(d.st))
  }

  /** The pairs the server grants during an operation: its reply for the id it was asked about. A
      request is only answered while there is power. */
  function Granted(d: Device, op: Op): Pairs {
    match op
    case DoRegister(minted, Registered(tok)) =>
      var s := EnsureId(Recover(d.st), minted);
      if tok != "" && s.plan != [] then {(Get(s, InstallId), tok)} else {}
    case DoRegister(minted, Stale(a)) =>
      if a.reply.Some? then {(a.minted, a.reply.value)} else {}
    case _ => {}
  }

  /** A token without its id: what a crash between the two removals of clearInstallation leaves. */
  predicate Orphaned(s: Store) {
    Live(s).0 == "" && Live(s).1 != ""
  }

  /** Writes are reliable while there is power, and no id is minted outside registerInstallation for an
      orphaned token (`LeaseMixes`), which that boot's recovery rules out (`RecoveryEndsOrphans`). */
  predicate InOrder(d: Device, op: Op) {
    match op
    case DoLease(_) => d.st.plan != [] ==> !Orphaned(d.st)
    case PowerOn(plan) => Reliable(plan)
    case _ => true
  }

  lemma DropSound(s: Store, issued: Pairs)
    requires Sound(s, issued) && LiveComplete(s)
    ensures Sound(DropShadow(s), issued) && LiveComplete(DropShadow(s))
  {
  }

  lemma RestoreSound(s: Store, issued: Pairs)
    requires Sound(s, issued) && ShadowGood(s, issued)
    ensures Sound(Restore(s), issued) && Settled(Restore(s))
  {
    var (id, tok) := Shadow(s);
    var s1 := Put(Put(s, InstallId, id), DeviceToken, tok);
    assert Shadow(s1) == Shadow(s);
    assert Sound(s1, issued) && Settled(s1);
    if LiveComplete(s1) { DropSound(s1, issued); }
  }

  lemma RecoverSound(s: Store, issued: Pairs)
    requires Sound(s, issued)
    ensures Sound(Recover(s), issued) && Settled(Recover(s))
  {
    if LiveComplete(s) { DropSound(s, issued); } else { RestoreSound(s, issued); }
  }

  lemma StashSound(s: Store, issued: Pairs)
    requires Sound(s, issued) && LiveComplete(s)
    ensures Sound(Stash(s).0, issued) && Live(Stash(s).0) == Live(s)
    ensures Stash(s).1 ==> Shadow(Stash(s).0) == Live(s)
  {
  }

  lemma StartOverSound(s: Store, minted: string, issued: Pairs)
    requires Sound(s, issued) && LiveComplete(s) && Shadow(s) == Live(s) && |minted| == 32
    ensures Sound(StartOver(s, minted), issued)
    ensures var s' := StartOver(s, minted);
            ShadowGood(s', issued) && (s'.plan != [] ==> Live(s') == (minted, ""))
  {
    var s1 := Remove(s, InstallId);
    var s2 := Remove(s1, DeviceToken);
    assert Sound(s1, issued) && Shadow(s1) == Shadow(s);
    assert Sound(s2, issued) && Shadow(s2) == Shadow(s);
    assert Shadow(EnsureId(s2, minted)) == Shadow(s);
  }

  lemma HealStashedSound(s: Store, a: Attempt, issued: Pairs)
    requires Sound(s, issued) && LiveComplete(s) && Shadow(s) == Live(s) && |a.minted| == 32
    requires a.reply.Some? ==> a.reply.value != "" && (a.minted, a.reply.value) in issued
    ensures Sound(HealStashed(s, a), issued) && Settled(HealStashed(s, a))
  {
    var s1 := PutStamp(s, a.epoch);
    assert Sound(s1, issued) && LiveComplete(s1) && Shadow(s1) == Live(s1);
    StartOverSound(s1, a.minted, issued);
    if a.reply.None? {
      RestoreSound(StartOver(s1, a.minted), issued);
    }
  }

  lemma RegisterUnmixed(d: Device, minted: string, ans: Answer, issued: Pairs)
    requires Unmixed(d, issued) && WellFormed(DoRegister(minted, ans)) && Granted(d, DoRegister(minted, ans)) <= issued
    ensures Unmixed(Register(d, minted, ans), issued)
  {
    RecoverSound(d.st, issued);
    var s := Recover(d.st);
    assert EnsureId(s, minted) == s || s.plan == [];
    var s1 := EnsureId(s, minted);
    assert Sound(s1, issued) && Settled(s1);
    if ans.Stale? && LiveComplete(s1) {
      StashSound(s1, issued);
      if Stash(s1).1 { HealStashedSound(Stash(s1).0, ans.attempt, issued); }
    }
  }

  lemma ApplyUnmixed(d: Device, op: Op, issued: Pairs)
    requires Unmixed(d, issued) && WellFormed(op) && InOrder(d, op) && Granted(d, op) <= issued
    ensures Unmixed(Apply(d, op), issued)
  {
    match op
    case DoRegister(minted, ans) => RegisterUnmixed(d, minted, ans, issued);
    case DoPoc(_) =>
      if LiveComplete(d.st) {
        DropSound(d.st, issued);
        DropSound(DropShadow(d.st), issued);
      }
    case _ =>
  }

  ghost predicate OrderedRun(d: Device, ops: seq<Op>, issued: Pairs)
    decreases |ops|
  {
    ops == [] ||
    (&& WellFormed(ops[0]) && InOrder(d, ops[0]) && Granted(d, ops[0]) <= issued
     && OrderedRun(Apply(d, ops[0]), ops[1..], issued))
  }

  /** Over every run with crashes at any write, a complete live pair is one the server issued as a
      pair: the id of one installation never ends up with the token of another. */
  lemma {:induction false} NeverMixed(d: Device, ops: seq<Op>, issued: Pairs)
    requires Unmixed(d, issued) && OrderedRun(d, ops, issued)
    ensures
      var s := ApplyAll(d, ops).st;
      Safe(s) && (LiveComplete(s) ==> Live(s) in issued)
    decreases |ops|
  {
    if ops != [] {
      ApplyUnmixed(d, ops[0], issued);
      NeverMixed(Apply(d, ops[0]), ops[1..], issued);
    }
  }

  /** The order matters. Minting an id outside registerInstallation breaks the pairing exactly when
      the id is gone but the token is not, which is what a crash between the two removals of
      clearInstallation leaves until the next recovery. */
  lemma LeaseMixes(d: Device, minted: string, issued: Pairs)
    requires Sound(d.st, issued) && d.st.plan != [] && |minted| == 32
    requires forall tok :: (minted, tok) !in issued
    ensures Sound(Apply(d, DoLease(minted)).st, issued) <==> InOrder(d, DoLease(minted))
  {
    assert Lands(d.st);
    if Orphaned(d.st) {
      assert LiveComplete(EnsureId(d.st, minted));
    }
  }

  /** After a boot's recovery no token is orphaned while there is power, so a lease behind
      registerInstallation is always in order. */
  lemma RecoveryEndsOrphans(d: Device, issued: Pairs, minted: string)
    requires Unmixed(d, issued) && d.recovered
    ensures InOrder(d, DoLease(minted))
  {
  }

  function Id(c: char): string {
    seq(32, _ => c)
  }

  const DONE := Write(true, true)

  /** That state is reached: the heal of pair (a..., "t") loses power after its fourth write, the
      removal of the live id, and on the next boot a lease runs before any registration. */
  lemma MixReached(epoch: U32)
    requires HEAL_MIN_EPOCH <= epoch <= HEAL_MAX_EPOCH
    ensures
      var d := Device(Store(map[InstallId := Id('a'), DeviceToken := "t"], 0, []), false, 0, false, false);
      var heal := DoRegister(Id('a'), Stale(Attempt(epoch, 0, false, Id('b'), None)));
      var d' := Apply(Apply(d, PowerOn([DONE, DONE, DONE, DONE])), heal);
      var d'' := Apply(Apply(d', PowerOn([DONE])), DoLease(Id('c')));
      && Unmixed(d, {(Id('a'), "t")})
      && Live(d''.st) == (Id('c'), "t")
  {
    var s := Store(map[InstallId := Id('a'), DeviceToken := "t"], 0, [DONE, DONE, DONE, DONE]);
    var s1 := Put(s, ShadowId, Id('a'));
    var s2 := Put(s1, ShadowToken, "t");
    assert s1.plan == [DONE, DONE, DONE] && s2.plan == [DONE, DONE];
    assert Recover(s) == s && EnsureId(s, Id('a')) == s && Stash(s) == (s2, true);
    var s3 := PutStamp(s2, epoch);
    assert s3.plan == [DONE];
    var s4 := Remove(s3, InstallId);
    assert s4.plan == [] && Live(s4) == ("", "t");
    assert StartOver(s3, Id('b')) == s4;
    assert Restore(s4) == s4;
  }

  // ---- what a heal does, undoes and leaves -------------------------------------------------------

  /** This attempt is allowed to heal. */
  predicate Due(d: Device, a: Attempt) {
    !ReleaseLatch(d, a).healed && !a.defaultBase && HealWindowOpen(false, d.st.healAt, a.epoch)
  }

  /** With power for its writes, a heal whose registration fails is undone to the last key, and one
      that succeeds installs the new pair and keeps the old one in the shadows. */
  lemma HealKeepsOrReplaces(d: Device, a: Attempt)
    requires Due(d, a) && LiveComplete(d.st) && Reliable(d.st.plan) && |d.st.plan| >= 10
    requires a.reply.Some? ==> a.reply.value != ""
    ensures var s := Heal(d, a).st;
      && s.healAt == a.epoch
      && (a.reply.None? ==> Live(s) == Live(d.st) && Shadow(s) == ("", ""))
      && (a.reply.Some? ==> Live(s) == (a.minted, a.reply.value) && Shadow(s) == Live(d.st))
    ensures var d' := Heal(d, a);
      d'.healed && d'.healedAtMs == a.uptimeMs && d'.shadowPending && d'.recovered == d.recovered
  {
    StashesAll(d.st);
    HealsAll(Stash(d.st).0, a);
  }

  lemma StashesAll(s: Store)
    requires LiveComplete(s) && Reliable(s.plan) && |s.plan| >= 10
    ensures var (s', proven) := Stash(s);
      && proven && Live(s') == Live(s) == Shadow(s') && Reliable(s'.plan) && |s'.plan| >= 8
  {
    var s1 := Put(s, ShadowId, Get(s, InstallId));
    assert Reliable(s1.plan) && |s1.plan| >= 9 && Reported(s) && Reported(s1);
  }

  lemma HealsAll(s: Store, a: Attempt)
    requires LiveComplete(s) && Shadow(s) == Live(s) && Reliable(s.plan) && |s.plan| >= 8
    ensures var s' := HealStashed(s, a);
      && s'.healAt == a.epoch
      && (a.reply.None? ==> Live(s') == Live(s) && Shadow(s') == ("", ""))
      && (a.reply.Some? ==> Live(s') == (a.minted, a.reply.value) && Shadow(s') == Live(s))
  {
    var s1 := PutStamp(s, a.epoch);
    assert s1.healAt == a.epoch && Live(s1) == Live(s) && Shadow(s1) == Shadow(s) && Reliable(s1.plan);
    StartsOver(s1, a.minted);
    var s2 := StartOver(s1, a.minted);
    if a.reply.None? { RestoresAll(s2); }
  }

  lemma StartsOver(s: Store, minted: string)
    requires LiveComplete(s) && Reliable(s.plan) && |s.plan| >= 7
    ensures var s' := StartOver(s, minted);
      && Live(s') == (minted, "") && Shadow(s') == Shadow(s) && s'.healAt == s.healAt
      && Reliable(s'.plan) && |s'.plan| >= 4
  {
    var s1 := Remove(s, InstallId);
    var s2 := Remove(s1, DeviceToken);
    assert Reliable(s1.plan) && Reliable(s2.plan) && |s2.plan| >= 5;
    assert Get(s2, InstallId) == "" && Get(s2, DeviceToken) == "";
  }

  lemma RestoresAll(s: Store)
    requires ShadowComplete(s) && Reliable(s.plan) && |s.plan| >= 4
    ensures Live(Restore(s)) == Shadow(s) && Shadow(Restore(s)) == ("", "") && Restore(s).healAt == s.healAt
  {
    var (id, tok) := Shadow(s);
    var s1 := Put(s, InstallId, id);
    var s2 := Put(s1, DeviceToken, tok);
    assert Reliable(s1.plan) && Reliable(s2.plan) && |s2.plan| >= 2 && Live(s2) == (id, tok);
    DropsAll(s2);
  }

  lemma DropsAll(s: Store)
    requires LiveComplete(s) && Reliable(s.plan) && |s.plan| >= 2
    ensures Live(DropShadow(s)) == Live(s) && Shadow(DropShadow(s)) == ("", "")
    ensures DropShadow(s).healAt == s.healAt && Reliable(DropShadow(s).plan)
  {
    var s1 := Remove(s, ShadowId);
    assert Reliable(s1.plan) && s1.plan != [];
  }

  /** The first accepted heartbeat after a heal drops the old pair and leaves the new one; a refused
      heartbeat changes nothing. */
  lemma HeartbeatProvesPair(d: Device)
    requires LiveComplete(d.st) && Reliable(d.st.plan) && |d.st.plan| >= 2
    requires d.healed || d.shadowPending
    ensures var s := Poc(d, true).st; Live(s) == Live(d.st) && Shadow(s) == ("", "")
    ensures !Poc(d, true).shadowPending
    ensures Poc(d, false) == d
  {
    DropsAll(d.st);
    assert DropShadow(DropShadow(d.st)) == DropShadow(d.st);
  }

  /** What the guards of a heal come to: not on the default API base, where a transient 404 must not
      reset a healthy installation; not within six hours of uptime after this boot's heal; and only at a
      plausible time whose window is open. */
  predicate Allowed(d: Device, a: Attempt) {
    && !a.defaultBase
    && !(d.healed && Elapsed(a.uptimeMs, d.healedAtMs) < 21600000)
    && 1600000000 <= a.epoch <= 2147483647
    && (d.st.healAt == 0 || !KeepsShut(a.epoch, d.st.healAt))
  }

  /** A 404 made this registration write to the store: it went beyond what a plain refusal does. */
  predicate Heals(d: Device, op: Op) {
    op.DoRegister? && op.ans.Stale? && Apply(d, op).st != Register(d, op.minted, Refused).st
  }

  /** A 404 touches the store exactly when a heal is allowed, a complete pair was sent and there is power;
      in every other case, all of the default base's among them, it is no more than a refusal. */
  lemma HealsIff(d: Device, minted: string, a: Attempt)
    ensures var s := EnsureId(Recover(d.st), minted);
      Heals(d, DoRegister(minted, Stale(a))) <==> Allowed(d, a) && LiveComplete(s) && s.plan != []
  {
    var s := EnsureId(Recover(d.st), minted);
    RegisterKeepsStamp(d.st, minted);
    var d1 := d.(st := s, recovered := true);
    DueIsAllowed(d1, a);
    StashSpends(s);
    if Due(d1, a) && Stash(s).1 { HealOnlySpends(Stash(s).0, a); }
  }

  lemma DueIsAllowed(d: Device, a: Attempt)
    ensures Due(d, a) <==> Allowed(d, a)
  {
    if d.st.healAt != 0 { WindowOpensIff(d.st.healAt, a.epoch); }
  }

  lemma RegisterKeepsStamp(s: Store, minted: string)
    ensures EnsureId(Recover(s), minted).healAt == s.healAt
  {
    assert Recover(s).healAt == s.healAt;
  }

  lemma StashSpends(s: Store)
    ensures |Stash(s).0.plan| <= |s.plan|
    ensures s.plan == [] ==> Stash(s) == (s, false)
    ensures LiveComplete(s) && s.plan != [] ==> |Stash(s).0.plan| < |s.plan|
  {
  }

  lemma DropSpends(s: Store)
    ensures |s.plan| - 2 <= |DropShadow(s).plan| <= |s.plan|
  {
  }

  lemma HealOnlySpends(s: Store, a: Attempt)
    ensures |HealStashed(s, a).plan| <= |s.plan|
  {
    var s1 := PutStamp(s, a.epoch);
    var s2 := StartOver(s1, a.minted);
    assert |s2.plan| <= |s1.plan| <= |s.plan|;
    RestoreSpends(s2);
  }

  lemma RestoreSpends(s: Store)
    ensures |Restore(s).plan| <= |s.plan|
  {
    if ShadowComplete(s) {
      var s1 := Put(Put(s, InstallId, Get(s, ShadowId)), DeviceToken, Get(s, ShadowToken));
      assert |s1.plan| <= |s.plan|;
      DropSpends(s1);
    }
  }

  /** How many registrations of a run heal. */
  ghost function HealsIn(d: Device, ops: seq<Op>): nat
    decreases |ops|
  {
    if ops == [] then 0 else (if Heals(d, ops[0]) then 1 else 0) + HealsIn(Apply(d, ops[0]), ops[1..])
  }

  /** Clock readings that keep the window of a heal at t shut: implausible ones, such as that of a clock
      not yet set after a reboot, and those less than six hours after t or no more than six before. */
  predicate KeepsShut(epoch: U32, t: U32) {
    epoch < HEAL_MIN_EPOCH || epoch > HEAL_MAX_EPOCH || t - HEAL_WINDOW_S <= epoch < t + HEAL_WINDOW_S
  }

  /** They are exactly the ones. */
  lemma WindowOpensIff(t: U32, epoch: U32)
    requires t != 0
    ensures HealWindowOpen(false, t, epoch) <==> !KeepsShut(epoch, t)
  {
  }

  predicate WithinWindow(ops: seq<Op>, t: U32) {
    forall i :: 0 <= i < |ops| && ops[i].DoRegister? && ops[i].ans.Stale? ==>
      KeepsShut(ops[i].ans.attempt.epoch, t)
  }

  /** Once a heal has stamped its time, no other one starts while the clock keeps its window shut,
      reboots, power cuts and failing writes included: a board cannot mint installations in a loop. */
  lemma {:induction false} OneHealPerWindow(d: Device, ops: seq<Op>, t: U32)
    requires t != 0 && d.st.healAt == t && WithinWindow(ops, t)
    ensures HealsIn(d, ops) == 0 && ApplyAll(d, ops).st.healAt == t
    decreases |ops|
  {
    if ops != [] {
      StampStays(d, ops[0]);
      OneHealPerWindow(Apply(d, ops[0]), ops[1..], t);
    }
  }

  lemma StampStays(d: Device, op: Op)
    requires d.st.healAt != 0
    requires op.DoRegister? && op.ans.Stale? ==> KeepsShut(op.ans.attempt.epoch, d.st.healAt)
    ensures Apply(d, op).st.healAt == d.st.healAt && !Heals(d, op)
  {
    if op.DoRegister? {
      RegisterKeepsStamp(d.st, op.minted);
      if op.ans.Stale? { HealsIff(d, op.minted, op.ans.attempt); }
    }
  }

  /** Those readings are the exact condition: after a reboot a board with a complete pair and power for
      a few writes that is answered 404 away from the default API base heals exactly on any other
      reading, however those writes fare. A stamp more than six hours ahead of the clock is one of them. */
  lemma RebootHealsIff(d: Device, plan: seq<Write>, minted: string, a: Attempt)
    requires LiveComplete(d.st) && d.st.healAt != 0 && |plan| >= 4 && minted != ""
    ensures var ops := [PowerOn(plan), DoRegister(minted, Stale(a))];
      HealsIn(d, ops) == if !a.defaultBase && !KeepsShut(a.epoch, d.st.healAt) then 1 else 0
  {
    var reg := DoRegister(minted, Stale(a));
    var d1 := Apply(d, PowerOn(plan));
    assert LiveComplete(d1.st);
    DropSpends(d1.st);
    HealsIff(d1, minted, a);
    var s := EnsureId(DropShadow(d1.st), minted);
    assert LiveComplete(s) && s.plan != [];
    assert [PowerOn(plan), reg][1..] == [reg] && [reg][1..] == [];
    assert HealsIn(d, [PowerOn(plan), reg]) == HealsIn(d1, [reg]);
    assert HealsIn(Apply(d1, reg), []) == 0;
  }

  /** No reboot, and every 404 within six hours of uptime after the heal that set the latch. */
  predicate WithinLatch(ops: seq<Op>, healedAtMs: int) {
    forall i :: 0 <= i < |ops| ==>
      && !ops[i].PowerOn?
      && (ops[i].DoRegister? && ops[i].ans.Stale? ==>
            Elapsed(ops[i].ans.attempt.uptimeMs, healedAtMs) < 21600000)
  }

  /** The latch needs no clock: whatever the time of day reads, a boot that has healed does not heal
      again within six hours of uptime. */
  lemma {:induction false} OneHealPerLatch(d: Device, ops: seq<Op>)
    requires d.healed && WithinLatch(ops, d.healedAtMs)
    ensures HealsIn(d, ops) == 0
    decreases |ops|
  {
    if ops != [] {
      LatchStays(d, ops[0]);
      OneHealPerLatch(Apply(d, ops[0]), ops[1..]);
    }
  }

  lemma LatchStays(d: Device, op: Op)
    requires d.healed && !op.PowerOn?
    requires op.DoRegister? && op.ans.Stale? ==> Elapsed(op.ans.attempt.uptimeMs, d.healedAtMs) < 21600000
    ensures !Heals(d, op) && Apply(d, op).healed && Apply(d, op).healedAtMs == d.healedAtMs
  {
    if op.DoRegister? && op.ans.Stale? {
      HealsIff(d, op.minted, op.ans.attempt);
    }
  }

  /** Away from a 404: with power, an answered registration leaves the id it was sent with and the token
      of the answer, and a refusal or an answer without a token leaves a complete pair alone. */
  lemma RegisterInstalls(d: Device, minted: string, tok: string)
    requires Reliable(d.st.plan) && |d.st.plan| >= 8 && |minted| == 32
    ensures var id := EnsureId(Recover(d.st), minted);
      && |Live(id).0| == 32
      && (tok != "" ==> Live(Register(d, minted, Registered(tok)).st) == (Live(id).0, tok))
      && Register(d, minted, Registered("")) == Register(d, minted, Refused)
      && (LiveComplete(d.st) && |Live(d.st).0| == 32 ==> Live(Register(d, minted, Refused).st) == Live(d.st))
  {
    RecoverSpends(d.st);
  }

  lemma RecoverSpends(s: Store)
    requires Reliable(s.plan) && |s.plan| >= 8
    ensures Reliable(Recover(s).plan) && |Recover(s).plan| >= 4
    ensures LiveComplete(s) ==> Live(Recover(s)) == Live(s)
  {
    if LiveComplete(s) {
      TwoRemovals(s);
    } else if ShadowComplete(s) {
      var s1 := Put(s, InstallId, Get(s, ShadowId));
      var s2 := Put(s1, DeviceToken, Get(s, ShadowToken));
      assert Reliable(s1.plan) && Reliable(s2.plan) && |s2.plan| >= 6;
      TwoRemovals(s2);
    }
  }

  lemma TwoRemovals(s: Store)
    requires Reliable(s.plan) && |s.plan| >= 2
    ensures Reliable(DropShadow(s).plan) && |DropShadow(s).plan| >= |s.plan| - 2
    ensures Live(DropShadow(s)) == Live(s)
  {
    var s1 := Remove(s, ShadowId);
    assert Reliable(s1.plan) && |s1.plan| >= |s.plan| - 1;
  }

  /** A heal that cannot put its time on record goes no further: the live pair is only ever cleared or
      replaced once the stamp that closes the window has been read back. */
  lemma ClearedIsStamped(d: Device, a: Attempt)
    ensures Live(Heal(d, a).st) != Live(d.st) ==> Heal(d, a).st.healAt == a.epoch
  {
    var s := Stash(d.st).0;
    StashKeepsLive(d.st);
    StashedIsStamped(s, a);
  }

  lemma StashKeepsLive(s: Store)
    ensures Live(Stash(s).0) == Live(s)
  {
  }

  lemma StashedIsStamped(s: Store, a: Attempt)
    ensures HealStashed(s, a).healAt == a.epoch || Live(HealStashed(s, a)) == Live(s)
  {
    var s1 := PutStamp(s, a.epoch);
    if s1.healAt == a.epoch {
      var s2 := StartOver(s1, a.minted);
      assert s2.healAt == a.epoch;
      RestoreKeepsStamp(s2);
    }
  }

  lemma RestoreKeepsStamp(s: Store)
    ensures Restore(s).healAt == s.healAt
  {
  }

  /** With power for its writes, a boot's recovery leaves one pair: the live one if it is complete, else
      the shadowed one put back in its place. */
  lemma RecoveryLeavesOne(s: Store)
    requires Safe(s) && Reliable(s.plan) && |s.plan| >= 4
    ensures Live(Recover(s)) == (if LiveComplete(s) then Live(s) else Shadow(s))
    ensures Shadow(Recover(s)) == ("", "")
  {
    if LiveComplete(s) { DropsAll(s); } else { RestoresAll(s); }
  }

  /** A 404 to a request that carried no token is no more than a refusal. */
  lemma TokenlessIsRefused(d: Device, minted: string, a: Attempt)
    requires Get(EnsureId(Recover(d.st), minted), DeviceToken) == ""
    ensures Register(d, minted, Stale(a)) == Register(d, minted, Refused)
  {
  }
}
