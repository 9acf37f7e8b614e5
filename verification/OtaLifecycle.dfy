/**
 The strike bookkeeping of an OTA version across boots (src/core/ota_client.cpp:140-159, 690-752,
 774-776, 826-830 and 1060-1091): what the boot check persists, what a manifest check installs, and
 why one version cannot be rolled back more than three times.
 */
module OtaLifecycle {
  import opened Prelude
  import opened Semver
  import opened OtaHealth

  const BOOT_FAIL_LIMIT: Byte := 3

  /** The persisted "fry_ota" values. `badver` and `badn` are only ever written together. */
  datatype Flash = Flash(
    pending: string, badver: string, badn: Byte, planned: bool, rolledBack: bool, bootFails: Byte)

  /** A powered board: its kind, the image it runs and its RAM flags. */
  datatype Board = Board(
    esp8266: bool, flash: Flash, running: string, firstCheck: bool, confirmPending: bool)

  /** What a boot runs and finds: the ESP32 bootloader's evidence, and whether another slot exists. */
  datatype BootInfo = BootInfo(running: string, lastInvalid: bool, pendingVerify: bool, otherSlot: bool)

  datatype Event =
    | Boot(info: BootInfo)
    | Check(m: Manifest, own: string, applied: bool)  // applied: the download and the flash succeeded
    | PlannedRestart
    | Confirm

  // ---- the boot check --------------------------------------------------------------------------

  function Rolled(b: Board, i: BootInfo): bool {
    (!b.esp8266 && i.lastInvalid) || b.flash.rolledBack
  }

  function SetStrikes(f: Flash, version: string, n: Byte): Flash {
    f.(badver := version, badn := if version == "" then 0 else n)
  }

  /** manualRollback: the other slot if there is one, which ESP8266 never has. */
  function ManualRollback(f: Flash, esp8266: bool, otherSlot: bool): Flash {
    if !esp8266 && otherSlot then f.(rolledBack := true, bootFails := 0)
    else f.(pending := "", bootFails := 0)
  }

  /** init: the pending image itself booted. */
  function BootPending(f: Flash, esp8266: bool, otherSlot: bool): Flash {
    var fails: Byte := if f.bootFails < 255 then f.bootFails + 1 else 255;
    if fails >= BOOT_FAIL_LIMIT then ManualRollback(f, esp8266, otherSlot) else f.(bootFails := fails)
  }

  /** init's rollback branch. */
  function RecordRollback(f: Flash, running: string, rolled: bool, planned: bool): (Flash, bool) {
    if ShouldRecordBadVersion(f.pending, running, rolled) then
      var (n, changed) := NextStrikeCount(f.badver, f.badn, f.pending, planned);
      (if changed then SetStrikes(f, f.pending, n) else f, changed)
    else (f, false)
  }

  /** init's mislabel branch, compiled for the ESP8266 only. */
  function RecordMislabel(f: Flash, esp8266: bool, running: string, rolled: bool, planned: bool): (Flash, bool) {
    if esp8266 && ShouldRejectManifestVersion(f.pending, running, rolled, planned) then
      var (n, changed) := NextStrikeCount(f.badver, f.badn, f.pending, false);
      (if changed then SetStrikes(f, f.pending, n) else f, changed)
    else (f, false)
  }

  /** init: the new board state. */
  function Init(b: Board, i: BootInfo): Board {
    var f := b.flash.(planned := false, rolledBack := false);
    var verify := !b.esp8266 && i.pendingVerify;
    var up := Board(b.esp8266, f, i.running, false, verify);
    if f.pending == "" then up
    else if f.pending == i.running then
      up.(flash := BootPending(f, b.esp8266, i.otherSlot), confirmPending := true)
    else
      var (f1, struck) := RecordRollback(f, i.running, Rolled(b, i), b.flash.planned);
      var (f2, rejected) := RecordMislabel(f1, b.esp8266, i.running, Rolled(b, i), b.flash.planned);
      up.(flash := f2.(pending := "", bootFails := 0), firstCheck := struck || rejected)
  }

  // ---- the manifest check ----------------------------------------------------------------------

  function AfterReset(f: Flash, latest: string): Flash {
    if StrikesReset(latest, f.badver) then SetStrikes(f, "", 0) else f
  }

  function Decision(b: Board, m: Manifest, own: string): OtaDecision {
    var f := AfterReset(b.flash, m.latest);
    var badn: Byte := if f.badver == "" then 0 else f.badn;
    var skip := SkipBadVersion(m.latest, f.badver, badn, b.firstCheck);
    DecideOtaUpdate(m, own, b.running, if skip then f.badver else "")
  }

  function Evaluate(b: Board, m: Manifest): Board {
    b.(flash := AfterReset(b.flash, m.latest), firstCheck := false)
  }

  function Step(b: Board, e: Event): Board {
    match e
    case Boot(i) => Init(b, i)
    case Check(m, own, applied) =>
      var after := Evaluate(b, m);
      if applied && Decision(b, m, own).Update? then after.(flash := after.flash.(pending := m.latest))
      else after
    case PlannedRestart =>
      if b.confirmPending then b.(flash := b.flash.(planned := true)) else b
    case Confirm =>
      b.(flash := b.flash.(pending := "", bootFails := if b.flash.pending == "" then b.flash.bootFails else 0),
         confirmPending := false)
  }

  // ---- strikes ---------------------------------------------------------------------------------

  function Strikes(f: Flash, version: string): Byte {
    if version != "" && f.badver == version then f.badn else 0
  }

  /** This boot finds that the last install did not survive: rolled back, or not the version its
      manifest declared (ESP8266), and no planned restart explains it. */
  predicate InstallFailed(b: Board, i: BootInfo) {
    && b.flash.pending != "" && b.flash.pending != i.running && !b.flash.planned
    && (Rolled(b, i) || (b.esp8266 && i.running != ""))
  }

  /** The two branches that strike exclude each other: a boot adds one strike to the version that
      failed, and none at all otherwise. */
  lemma OneStrikePerBoot(b: Board, i: BootInfo)
    ensures InstallFailed(b, i) ==>
      Strikes(Init(b, i).flash, b.flash.pending) == Min(255, Strikes(b.flash, b.flash.pending) + 1)
      && Init(b, i).flash.badver == b.flash.pending && Init(b, i).firstCheck
    ensures !InstallFailed(b, i) ==>
      Init(b, i).flash.badver == b.flash.badver && Init(b, i).flash.badn == b.flash.badn
  {
    var f := b.flash;
    assert !(ShouldRecordBadVersion(f.pending, i.running, Rolled(b, i))
             && ShouldRejectManifestVersion(f.pending, i.running, Rolled(b, i), f.planned));
  }

  /** The boots of a history that found a failed install. */
  function Failures(b: Board, es: seq<Event>): nat
    decreases |es|
  {
    if es == [] then 0
    else (if es[0].Boot? && InstallFailed(b, es[0].info) then 1 else 0) + Failures(Step(b, es[0]), es[1..])
  }

  predicate Names(es: seq<Event>, version: string) {
    forall e :: e in es && e.Check? ==> e.m.latest == version
  }

  /** r failures of `version` are on record, and it is pending only while fewer than three are. */
  predicate OnRecord(b: Board, version: string, r: nat) {
    && (b.flash.pending == "" || b.flash.pending == version)
    && r <= PERMANENT_STRIKES
    && (if b.flash.badver == version
        then r <= b.flash.badn && (b.flash.pending == version ==> b.flash.badn < PERMANENT_STRIKES)
        else r == 0)
  }

  lemma BootKeepsRecord(b: Board, i: BootInfo, version: string, r: nat)
    requires version != "" && OnRecord(b, version, r)
    ensures OnRecord(Init(b, i), version, r + if InstallFailed(b, i) then 1 else 0)
  {
    OneStrikePerBoot(b, i);
  }

  lemma CheckKeepsRecord(b: Board, m: Manifest, own: string, applied: bool, r: nat)
    requires m.latest != "" && OnRecord(b, m.latest, r)
    ensures OnRecord(Step(b, Check(m, own, applied)), m.latest, r)
  {
  }

  /**
   While the manifests name one version, at most three installs of it fail, whatever boots, checks,
   confirmations and planned restarts come in whatever order.
   */
  lemma {:induction false} AtMostThree(b: Board, es: seq<Event>, version: string, r: nat)
    requires version != "" && Names(es, version) && OnRecord(b, version, r)
    ensures r + Failures(b, es) <= PERMANENT_STRIKES
    decreases |es|
  {
    if es != [] {
      assert es[0] in es;
      var r' := r + if es[0].Boot? && InstallFailed(b, es[0].info) then 1 else 0;
      match es[0] {
        case Boot(i) => BootKeepsRecord(b, i, version, r);
        case Check(m, own, applied) => CheckKeepsRecord(b, m, own, applied, r);
        case PlannedRestart =>
        case Confirm =>
      }
      forall e | e in es[1..] && e.Check? ensures e.m.latest == version { assert e in es; }
      AtMostThree(Step(b, es[0]), es[1..], version, r');
    }
  }

  /** From a board with nothing pending, whatever strikes it already holds. */
  lemma ThreeStrikes(b: Board, es: seq<Event>, version: string)
    requires version != "" && b.flash.pending == "" && Names(es, version)
    ensures Failures(b, es) <= PERMANENT_STRIKES
  {
    AtMostThree(b, es, version, 0);
  }

  /** Otherwise acceptable, a version is refused exactly on the first check after its rollback and
      for good from the third strike on; another version's strikes never matter. */
  lemma RefusedIff(b: Board, m: Manifest, own: string)
    requires DecideOtaUpdate(m, own, b.running, "").Update?
    ensures Decision(b, m, own).Update? <==>
      !(b.flash.badver == m.latest && (b.flash.badn >= PERMANENT_STRIKES || b.firstCheck))
  {
  }

  // ---- the bound is reached --------------------------------------------------------------------

  function Run(b: Board, es: seq<Event>): Board
    decreases |es|
  {
    if es == [] then b else Run(Step(b, es[0]), es[1..])
  }

  lemma {:induction false} FailuresSplit(b: Board, xs: seq<Event>, ys: seq<Event>)
    ensures Failures(b, xs + ys) == Failures(b, xs) + Failures(Run(b, xs), ys)
    ensures Run(b, xs + ys) == Run(Run(b, xs), ys)
    decreases |xs|
  {
    if xs == [] {
      assert xs + ys == ys;
    } else {
      assert (xs + ys)[1..] == xs[1..] + ys;
      FailuresSplit(Step(b, xs[0]), xs[1..], ys);
    }
  }

  /** Installed, booted once, rolled back by the bootloader, and the check after that. */
  function Round(m: Manifest, own: string, back: string): seq<Event> {
    [Check(m, own, true), Boot(BootInfo(m.latest, false, true, true)),
     Boot(BootInfo(back, true, false, true)), Check(m, own, true)]
  }

  predicate Settled(b: Board) {
    !b.esp8266 && !b.firstCheck && b.flash.pending == "" && b.flash.bootFails == 0
    && !b.flash.planned && !b.flash.rolledBack
  }

  lemma UpdateMoves(m: Manifest, own: string, running: string)
    requires DecideOtaUpdate(m, own, running, "").Update?
    ensures m.latest != running
  {
    PrecedenceLaws(Parse(running), Parse(running), Parse(running));
  }

  /** The two boots of a round: nothing to report on the first, a failed install on the second. */
  lemma BootsRound(b: Board, version: string, back: string)
    requires Settled(b.(flash := b.flash.(pending := ""))) && b.flash.pending == version
    requires version !in {"", back} && Strikes(b.flash, version) < PERMANENT_STRIKES
    ensures var i, j := BootInfo(version, false, true, true), BootInfo(back, true, false, true);
      var b2 := Init(b, i);
      var b3 := Init(b2, j);
      && !InstallFailed(b, i) && InstallFailed(b2, j)
      && b3.firstCheck && b3.flash.badver == version && Settled(b3.(firstCheck := false))
      && b3.running == back && Strikes(b3.flash, version) == Strikes(b.flash, version) + 1
  {
    var i, j := BootInfo(version, false, true, true), BootInfo(back, true, false, true);
    BootedOnce(b, i);
    BackAgain(Init(b, i), j);
    OneStrikePerBoot(Init(b, i), j);
  }

  /** What is left of a round once the version is installed. */
  lemma RestOfRound(b: Board, m: Manifest, own: string, back: string, rest: seq<Event>)
    requires Settled(b.(flash := b.flash.(pending := ""))) && b.flash.pending == m.latest
    requires m.latest !in {"", back} && Strikes(b.flash, m.latest) < PERMANENT_STRIKES
    requires rest == Round(m, own, back)[1..]
    ensures var after := Run(b, rest);
      && Failures(b, rest) == 1 && Settled(after) && after.running == back
      && Strikes(after.flash, m.latest) == Strikes(b.flash, m.latest) + 1
  {
    BootsRound(b, m.latest, back);
    var b3 := Init(Init(b, rest[0].info), rest[1].info);
    CheckRests(b3, m, own);
    ThreeSteps(b, rest);
  }

  lemma RoundFails(b: Board, m: Manifest, own: string)
    requires Settled(b) && DecideOtaUpdate(m, own, b.running, "").Update?
    requires Strikes(b.flash, m.latest) < PERMANENT_STRIKES
    ensures var es, after := Round(m, own, b.running), Run(b, Round(m, own, b.running));
      && Failures(b, es) == 1 && Settled(after) && after.running == b.running
      && Strikes(after.flash, m.latest) == Strikes(b.flash, m.latest) + 1
  {
    var es := Round(m, own, b.running);
    var b1 := Step(b, es[0]);
    CheckInstalls(b, m, own);
    UpdateMoves(m, own, b.running);
    RestOfRound(b1, m, own, b.running, es[1..]);
    assert Run(b, es) == Run(b1, es[1..]) && Failures(b, es) == Failures(b1, es[1..]);
  }

  lemma CheckInstalls(b: Board, m: Manifest, own: string)
    requires Settled(b) && DecideOtaUpdate(m, own, b.running, "").Update?
    requires Strikes(b.flash, m.latest) < PERMANENT_STRIKES
    ensures var after := Step(b, Check(m, own, true));
      after == b.(flash := AfterReset(b.flash, m.latest).(pending := m.latest))
  {
    RefusedIff(b, m, own);
  }

  lemma BootedOnce(b: Board, i: BootInfo)
    requires !b.esp8266 && b.flash.pending == i.running != "" && b.flash.bootFails == 0
    ensures !InstallFailed(b, i)
    ensures Init(b, i).flash == b.flash.(planned := false, rolledBack := false, bootFails := 1)
  {
  }

  lemma BackAgain(b: Board, i: BootInfo)
    requires !b.esp8266 && b.flash.pending !in {"", i.running} && i.lastInvalid && !b.flash.planned
    ensures InstallFailed(b, i)
    ensures var f := Init(b, i).flash;
      f.pending == "" && f.bootFails == 0 && !f.planned && !f.rolledBack
  {
  }

  /** On the first check after a rollback the version only loses its reprieve. */
  lemma CheckRests(b: Board, m: Manifest, own: string)
    requires b.firstCheck && m.latest != "" && b.flash.badver == m.latest
    ensures Step(b, Check(m, own, true)) == b.(firstCheck := false)
  {
    assert SkipBadVersion(m.latest, b.flash.badver, b.flash.badn, true);
  }

  lemma ThreeSteps(b: Board, es: seq<Event>)
    requires |es| == 3 && es[0].Boot? && es[1].Boot? && es[2].Check?
    ensures var b1 := Init(b, es[0].info);
      && Run(b, es) == Step(Init(b1, es[1].info), es[2])
      && Failures(b, es) == (if InstallFailed(b, es[0].info) then 1 else 0)
                          + (if InstallFailed(b1, es[1].info) then 1 else 0)
  {
    var b1 := Init(b, es[0].info);
    var b2 := Init(b1, es[1].info);
    assert es[1..][1..] == es[2..] && es[2..][1..] == [];
    assert Run(b2, es[2..]) == Run(Step(b2, es[2]), []) == Step(b2, es[2]);
    assert Run(b, es) == Run(b1, es[1..]) == Run(b2, es[2..]);
    assert Failures(b2, es[2..]) == 0;
    assert Failures(b1, es[1..]) == if InstallFailed(b1, es[1].info) then 1 else 0;
  }

  /** Three rounds, three failures: the bound is exact for every acceptable version. */
  lemma ThreeIsReached(b: Board, m: Manifest, own: string)
    requires Settled(b) && DecideOtaUpdate(m, own, b.running, "").Update?
    requires Strikes(b.flash, m.latest) == 0
    ensures var round := Round(m, own, b.running);
      Failures(b, round + (round + round)) == PERMANENT_STRIKES
  {
    var round := Round(m, own, b.running);
    RoundFails(b, m, own);
    var b1 := Run(b, round);
    RoundFails(b1, m, own);
    var b2 := Run(b1, round);
    RoundFails(b2, m, own);
    FailuresSplit(b, round, round + round);
    FailuresSplit(b1, round, round);
  }

  /** An image that never proves itself is given up on its third boot: with a second slot the other
      image then finds the strike, and without one (always so on the ESP8266) the pending flag is
      dropped and nothing is held against the version. */
  lemma CrashLoop(b: Board, i: BootInfo, j: BootInfo)
    requires b.flash.pending == i.running != "" && b.flash.bootFails == 0 && !b.flash.planned
    requires j.running != i.running
    ensures var b3 := Init(Init(Init(b, i), i), i);
      if !b.esp8266 && i.otherSlot
      then InstallFailed(b3, j) && Strikes(Init(b3, j).flash, i.running) == Min(255, Strikes(b.flash, i.running) + 1)
      else b3.flash.pending == "" && !InstallFailed(b3, j)
           && Strikes(Init(b3, j).flash, i.running) == Strikes(b.flash, i.running)
  {
    var b1 := Init(b, i);
    var b2 := Init(b1, i);
    var b3 := Init(b2, i);
    assert b1.flash.bootFails == 1 && b1.flash.pending == i.running;
    assert b2.flash.bootFails == 2 && b2.flash.pending == i.running;
    assert b3.flash.badver == b.flash.badver && b3.flash.badn == b.flash.badn;
    OneStrikePerBoot(b3, j);
  }
}
