/**
 What an installed image has to go through (src/core/ota_client.cpp:140-182, 690-831): how many boots it
 has to prove itself, what confirming it achieves, and what a planned restart and a newer manifest do to
 the strikes.
 */
module OtaProbation {
  import opened Prelude
  import opened Semver
  import opened OtaHealth
  import opened OtaLifecycle

  // ---- confirmed -------------------------------------------------------------------------------

  /** No check of the history installs anything. */
  predicate NoInstall(es: seq<Event>) {
    forall e :: e in es && e.Check? ==> !e.applied
  }

  /** Nothing is on trial; no boot will count against an image or give one up. */
  predicate AtRest(f: Flash) {
    f.pending == "" && f.bootFails == 0
  }

  lemma RestStays(b: Board, e: Event)
    requires b.flash.pending == "" && !(e.Check? && e.applied)
    ensures var b' := Step(b, e);
      && b'.flash.pending == "" && b'.flash.bootFails == b.flash.bootFails
      && !(e.Boot? && InstallFailed(b, e.info)) && (b'.flash.rolledBack ==> b.flash.rolledBack)
      && ((b'.flash.badver == b.flash.badver && b'.flash.badn == b.flash.badn) || b'.flash.badver == "")
  {
  }

  lemma {:induction false} AtRestKeeps(b: Board, es: seq<Event>)
    requires b.flash.pending == "" && NoInstall(es)
    ensures var b' := Run(b, es);
      && Failures(b, es) == 0 && b'.flash.pending == "" && b'.flash.bootFails == b.flash.bootFails
      && (b'.flash.rolledBack ==> b.flash.rolledBack)
      && forall v :: Strikes(b'.flash, v) <= Strikes(b.flash, v)
    decreases |es|
  {
    if es != [] {
      assert es[0] in es;
      RestStays(b, es[0]);
      forall e | e in es[1..] && e.Check? ensures !e.applied { assert e in es; }
      AtRestKeeps(Step(b, es[0]), es[1..]);
    }
  }

  /** A confirmed image is safe: however often the board boots afterwards, whatever image, evidence or
      planned restart the boots find, and whatever checks find without installing, nothing is counted
      against it, no strike is added to any version, and no boot rolls it back. Whatever was counted
      while it was on trial is forgotten. */
  lemma ConfirmedStays(b: Board, es: seq<Event>)
    requires b.flash.pending != "" && NoInstall(es)
    ensures var b1 := Step(b, Confirm);
      var b' := Run(b1, es);
      && b1.running == b.running && !b1.confirmPending
      && Failures(b1, es) == 0 && AtRest(b'.flash) && (b'.flash.rolledBack ==> b.flash.rolledBack)
      && forall v :: Strikes(b'.flash, v) <= Strikes(b.flash, v)
  {
    AtRestKeeps(Step(b, Confirm), es);
  }

  // ---- on trial --------------------------------------------------------------------------------

  /** The first boot of a board that has never been updated. */
  function Factory(esp8266: bool, running: string): Board {
    Board(esp8266, Flash("", "", 0, false, false, 0), running, false, false)
  }

  /** The boots of an image on trial are counted, below the limit, and only while it is. */
  predicate Counted(f: Flash) {
    f.bootFails < 3 && (f.pending == "" ==> f.bootFails == 0)
  }

  lemma StepCounts(b: Board, e: Event)
    requires Counted(b.flash)
    ensures Counted(Step(b, e).flash)
  {
  }

  lemma {:induction false} RunCounts(b: Board, es: seq<Event>)
    requires Counted(b.flash)
    ensures Counted(Run(b, es).flash)
    decreases |es|
  {
    if es != [] {
      StepCounts(b, es[0]);
      RunCounts(Step(b, es[0]), es[1..]);
    }
  }

  /** The check that installs the manifest's version. */
  predicate Installs(b: Board, m: Manifest, own: string) {
    Decision(b, m, own).Update?
  }

  /** The installed image is still on trial after booting n times without a confirmation. */
  function Boots(b: Board, i: BootInfo, n: nat): Board {
    if n == 0 then b else Init(Boots(b, i, n - 1), i)
  }

  predicate OnTrial(b: Board, version: string) {
    b.flash.pending == version && !b.flash.rolledBack
  }

  lemma {:induction false} TrialLasts(b: Board, i: BootInfo, n: nat)
    requires b.flash.pending == i.running != "" && Counted(b.flash) && !b.flash.rolledBack
    requires b.flash.bootFails + n < 3
    ensures var b' := Boots(b, i, n);
      OnTrial(b', i.running) && b'.flash.bootFails == b.flash.bootFails + n
  {
    if n > 0 { TrialLasts(b, i, n - 1); }
  }

  /** How long an image that never confirms is on trial: it is given up at the third boot, less the boots
      that the image it replaced had used up unconfirmed, because installing does not clear the count. So
      it has its full three boots exactly when nothing was being counted at its installation. */
  lemma TrialLength(b: Board, m: Manifest, own: string, i: BootInfo)
    requires Counted(b.flash) && !b.flash.rolledBack && Installs(b, m, own) && i.running == m.latest
    ensures var b1 := Step(b, Check(m, own, true));
      && OnTrial(b1, m.latest)
      && (forall n: nat :: n < 3 - b.flash.bootFails ==> OnTrial(Boots(b1, i, n), m.latest))
      && !OnTrial(Boots(b1, i, 3 - b.flash.bootFails), m.latest)
      && Boots(b1, i, 3 - b.flash.bootFails).flash.bootFails == 0
      && ((forall n: nat :: n < 3 ==> OnTrial(Boots(b1, i, n), m.latest)) <==> b.flash.bootFails == 0)
  {
    var b1 := Step(b, Check(m, own, true));
    var left: nat := 3 - b.flash.bootFails;
    forall n: nat | n < left
      ensures OnTrial(Boots(b1, i, n), m.latest)
    {
      TrialLasts(b1, i, n);
    }
    TrialLasts(b1, i, left - 1);
    assert Boots(b1, i, left) == Init(Boots(b1, i, left - 1), i);
  }

  /** Every history keeps what that needs; and one in which a board's image, never confirmed, has booted
      twice when a newer one replaces it: that one is given up at its first boot. */
  lemma TrialCutShort(m: Manifest, m2: Manifest, own: string, running: string, esp8266: bool)
    requires DecideOtaUpdate(m, own, running, "").Update? && DecideOtaUpdate(m2, own, m.latest, "").Update?
    ensures var i, j := BootInfo(m.latest, false, false, false), BootInfo(m2.latest, false, false, false);
      var b := Run(Factory(esp8266, running), [Check(m, own, true), Boot(i), Boot(i), Check(m2, own, true)]);
      && Counted(b.flash) && OnTrial(b, m2.latest) && !OnTrial(Init(b, j), m2.latest)
  {
    var i, j := BootInfo(m.latest, false, false, false), BootInfo(m2.latest, false, false, false);
    var es := [Check(m, own, true), Boot(i), Boot(i), Check(m2, own, true)];
    var b3 := BootedTwice(m, own, running, esp8266);
    var b4 := Step(b3, es[3]);
    FourSteps(Factory(esp8266, running), es);
    RunCounts(Factory(esp8266, running), es);
    TrialLength(b3, m2, own, j);
    assert Boots(b4, j, 0) == b4 && Boots(b4, j, 1) == Init(b4, j);
  }

  /** A first update, booted twice without a confirmation. */
  lemma BootedTwice(m: Manifest, own: string, running: string, esp8266: bool) returns (b: Board)
    requires DecideOtaUpdate(m, own, running, "").Update?
    ensures var i := BootInfo(m.latest, false, false, false);
      b == Init(Init(Step(Factory(esp8266, running), Check(m, own, true)), i), i)
    ensures b.flash == Flash(m.latest, "", 0, false, false, 2) && b.running == m.latest && !b.firstCheck
  {
    var i := BootInfo(m.latest, false, false, false);
    var b1 := Step(Factory(esp8266, running), Check(m, own, true));
    assert b1.flash == Flash(m.latest, "", 0, false, false, 0);
    assert Init(b1, i).flash == Flash(m.latest, "", 0, false, false, 1);
    b := Init(Init(b1, i), i);
  }

  lemma FourSteps(b: Board, es: seq<Event>)
    requires |es| == 4
    ensures Run(b, es) == Step(Step(Step(Step(b, es[0]), es[1]), es[2]), es[3])
  {
    assert es[1..][1..] == es[2..] && es[2..][1..] == es[3..] && es[3..][1..] == [];
    var b1 := Step(b, es[0]);
    var b2 := Step(b1, es[1]);
    var b3 := Step(b2, es[2]);
    assert Run(Step(b3, es[3]), []) == Step(b3, es[3]);
    assert Run(b, es) == Run(b1, es[1..]) == Run(b2, es[2..]) == Run(b3, es[3..]);
  }

  // ---- planned restarts and newer manifests ----------------------------------------------------

  /** A boot awaits a confirmation exactly when the image it runs is the one on trial, or the bootloader says
      that it has not been verified. Until then, and only then, a planned restart is put on record. */
  lemma AwaitsIff(b: Board, i: BootInfo)
    ensures var b' := Init(b, i);
      && (b'.confirmPending <==> (b.flash.pending == i.running != "") || (!b.esp8266 && i.pendingVerify))
      && (Step(b', PlannedRestart).flash.planned <==> b'.confirmPending)
      && !Step(b', Confirm).confirmPending && !Step(Step(b', Confirm), PlannedRestart).flash.planned
  {
  }

  /** A planned restart of an image on trial forgives the next boot, once: whatever that boot runs and
      finds, no strike is added. The same boot without it is a strike. */
  lemma PlannedRestartForgives(b: Board, i: BootInfo)
    requires b.confirmPending
    ensures var f := Init(Step(b, PlannedRestart), i).flash;
      f.badver == b.flash.badver && f.badn == b.flash.badn && !f.planned
    ensures InstallFailed(b.(flash := b.flash.(planned := false)), i) ==>
      var b' := Init(b.(flash := b.flash.(planned := false)), i);
      Strikes(b'.flash, b.flash.pending) == Min(255, Strikes(b.flash, b.flash.pending) + 1)
  {
    OneStrikePerBoot(Step(b, PlannedRestart), i);
    OneStrikePerBoot(b.(flash := b.flash.(planned := false)), i);
  }

  /** An image that is not on trial has nothing to forgive: a planned restart leaves no mark. */
  lemma NothingToForgive(b: Board)
    requires !b.confirmPending
    ensures Step(b, PlannedRestart) == b
  {
  }

  /** When the manifest moves on to another version, the strikes are gone: that version, and the struck one
      should it ever be named again, is installed like any other. A manifest that still names the struck
      version, or none, keeps them. */
  lemma NewerManifestClears(b: Board, m: Manifest, own: string, applied: bool, later: Manifest)
    requires later.latest != ""
    ensures var f := Step(b, Check(m, own, applied)).flash;
      if m.latest != "" && b.flash.badver != "" && m.latest != b.flash.badver
      then f.badver == "" && (forall v :: Strikes(f, v) == 0)
           && (Decision(Step(b, Check(m, own, applied)), later, own)
               == DecideOtaUpdate(later, own, b.running, ""))
      else f.badver == b.flash.badver && f.badn == b.flash.badn
  {
  }
}
