/**
 The boot check and the manifest decision as they run: the persisted values and RAM flags of
 src/core/ota_client.cpp, updated in place, against the steps of OtaLifecycle.
 */
module OtaClient {
  import opened Prelude
  import opened OtaHealth
  import opened OtaLifecycle

  class Client {
    const esp8266: bool
    var running: string
    var pending: string
    var badver: string
    var badn: Byte
    var planned: bool
    var rolledBack: bool
    var bootFails: Byte
    var firstCheck: bool
    var confirmPending: bool

    function Abs(): Board
      reads this
    {
      Board(esp8266, Flash(pending, badver, badn, planned, rolledBack, bootFails),
            running, firstCheck, confirmPending)
    }

    constructor (esp8266: bool, running: string)
      ensures Abs() == Board(esp8266, Flash("", "", 0, false, false, 0), running, false, false)
    {
      this.esp8266, this.running := esp8266, running;
      pending, badver, badn, planned, rolledBack, bootFails := "", "", 0, false, false, 0;
      firstCheck, confirmPending := false, false;
    }

    /** setOtaStrikes: "" removes both. */
    method StoreStrikes(version: string, n: Byte)
      modifies this`badver, this`badn
      ensures badver == version && badn == if version == "" then 0 else n
    {
      if version != "" {
        badver, badn := version, n;
      } else {
        badver, badn := "", 0;
      }
    }

    /** One strike for the pending version, unless a planned restart explains the boot. */
    method Strike(plannedRestart: bool)
      modifies this`badver, this`badn, this`firstCheck
      ensures var (n, changed) := NextStrikeCount(old(badver), old(badn), pending, plannedRestart);
        && badver == (if changed then pending else old(badver))
        && badn == (if changed then (if pending == "" then 0 else n) else old(badn))
        && firstCheck == (old(firstCheck) || changed)
    {
      var (n, changed) := NextStrikeCount(badver, badn, pending, plannedRestart);
      if changed {
        StoreStrikes(pending, n);
        firstCheck := true;
      }
    }

    method RollBackManually(otherSlot: bool)
      modifies this`pending, this`rolledBack, this`bootFails
      ensures Abs().flash == ManualRollback(old(Abs().flash), esp8266, otherSlot)
    {
      if esp8266 {
        pending := "";
      } else if otherSlot {
        rolledBack := true;
      } else {
        pending := "";
      }
      bootFails := 0;
    }

    /** The pending image itself booted, one more time without having proved itself. */
    method CountBoot(otherSlot: bool)
      modifies this`pending, this`rolledBack, this`bootFails
      ensures Abs().flash == BootPending(old(Abs().flash), esp8266, otherSlot)
    {
      bootFails := if bootFails < 255 then bootFails + 1 else bootFails;
      if bootFails >= BOOT_FAIL_LIMIT { RollBackManually(otherSlot); }
    }

    /** Another image than the pending one booted. */
    method Judge(rolled: bool, plannedRestart: bool)
      requires pending != "" && !firstCheck
      modifies this`badver, this`badn, this`firstCheck
      ensures var (f1, struck) := RecordRollback(old(Abs().flash), running, rolled, plannedRestart);
        var (f2, rejected) := RecordMislabel(f1, esp8266, running, rolled, plannedRestart);
        Abs().flash == f2 && firstCheck == (struck || rejected)
    {
      if ShouldRecordBadVersion(pending, running, rolled) { Strike(plannedRestart); }
      if esp8266 {
        if ShouldRejectManifestVersion(pending, running, rolled, plannedRestart) { Strike(false); }
      }
    }

    /** init, on an image that has just started: RAM flags are clear. */
    method Init(i: BootInfo)
      modifies this
      ensures Abs() == OtaLifecycle.Init(old(Abs()), i)
    {
      running, firstCheck, confirmPending := i.running, false, false;
      var lastInvalid := false;
      if !esp8266 {
        lastInvalid := i.lastInvalid;
        confirmPending := i.pendingVerify;
      }
      var plannedRestart, counterRolledBack := planned, rolledBack;
      planned, rolledBack := false, false;
      if pending == "" { return; }
      if pending == running {
        confirmPending := true;
        CountBoot(i.otherSlot);
        return;
      }
      Judge(lastInvalid || counterRolledBack, plannedRestart);
      pending, bootFails := "", 0;
    }

    /** evaluateManifest, up to the download. */
    method EvaluateManifest(m: Manifest, own: string) returns (update: bool)
      modifies this`badver, this`badn, this`firstCheck
      ensures Abs() == Evaluate(old(Abs()), m)
      ensures update <==> Decision(old(Abs()), m, own).Update?
    {
      var bad := badver;
      var n: Byte := if bad != "" then badn else 0;
      if StrikesReset(m.latest, bad) {
        StoreStrikes("", 0);
        bad, n := "", 0;
      }
      var skip := SkipBadVersion(m.latest, bad, n, firstCheck);
      firstCheck := false;
      update := DecideOtaUpdate(m, own, running, if skip then bad else "") == Update;
    }

    /** A whole check: what an accepted, downloaded and staged update persists before the restart. */
    method CheckNow(m: Manifest, own: string, applied: bool)
      modifies this
      ensures Abs() == Step(old(Abs()), Check(m, own, applied))
    {
      var update := EvaluateManifest(m, own);
      if update && applied { pending := m.latest; }
    }

    method NotePlannedRestart()
      modifies this`planned
      ensures Abs() == Step(old(Abs()), PlannedRestart)
    {
      if confirmPending { planned := true; }
    }

    /** tryMarkValid once the image has proved itself. */
    method ConfirmGood()
      modifies this`pending, this`bootFails, this`confirmPending
      ensures Abs() == Step(old(Abs()), Confirm)
    {
      if pending != "" {
        pending, bootFails := "", 0;
      }
      confirmPending := false;
    }
  }
}
