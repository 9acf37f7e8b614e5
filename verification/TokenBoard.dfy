/**
 The heal as the firmware runs it: sequences of store writes, removals and read-backs with two
 RAM latches (src/core/hardwareapi_client.cpp:225-412, 451-454, 634-639). Each method is proved to
 have the effect `TokenHeal` gives the operation, for every plan of what becomes of its writes.
 */
module TokenBoard {
  import opened Prelude
  import opened TokenHeal

  /** pairsMatchByteForByte on two C strings. */
  method PairsMatch(a: string, b: string) returns (same: bool)
    ensures same <==> a == b
  {
    var i := 0;
    while i < |a| && i < |b|
      invariant 0 <= i <= |a| && i <= |b|
      invariant a[..i] == b[..i]
    {
      if a[i] != b[i] { return false; }
      i := i + 1;
    }
    assert a[..i] == b[..i];
    same := |a| == |b|;
    if same { assert a == a[..i] && b == b[..i]; }
  }

  class Board {
    var st: Store
    var healed: bool
    var healedAtMs: int
    var shadowPending: bool
    var recovered: bool

    function Dev(): Device
      reads this
    {
      Device(st, healed, healedAtMs, shadowPending, recovered)
    }

    constructor (d: Device)
      ensures Dev() == d
    {
      st, healed, healedAtMs := d.st, d.healed, d.healedAtMs;
      shadowPending, recovered := d.shadowPending, d.recovered;
    }

    method PutString(k: Key, v: string) returns (ok: bool)
      modifies this`st
      ensures st == Put(old(st), k, v) && ok == Reported(old(st))
    {
      ok := Reported(st);
      if Lands(st) { st := st.(kv := st.kv[k := v]); }
      st := Spend(st);
    }

    method RemoveKey(k: Key)
      modifies this`st
      ensures st == Remove(old(st), k)
    {
      if Lands(st) { st := st.(kv := st.kv - {k}); }
      st := Spend(st);
    }

    method StashTokenPair() returns (proven: bool)
      modifies this`st
      ensures (st, proven) == Stash(old(st))
    {
      var id, tok := Get(st, InstallId), Get(st, DeviceToken);
      if id == "" || tok == "" { return false; }
      var wrote := PutString(ShadowId, id);
      if wrote { wrote := PutString(ShadowToken, tok); }
      var sameId := PairsMatch(Get(st, ShadowId), id);
      var sameTok := PairsMatch(Get(st, ShadowToken), tok);
      proven := wrote && sameId && sameTok;
    }

    method DropTokenPairShadow()
      modifies this`st
      ensures st == DropShadow(old(st))
    {
      if !LiveComplete(st) { return; }
      if Get(st, ShadowId) == "" && Get(st, ShadowToken) == "" { return; }
      RemoveKey(ShadowId);
      RemoveKey(ShadowToken);
    }

    method RestoreTokenPair() returns (ok: bool)
      modifies this`st
      ensures st == Restore(old(st))
      // a reported restore is a real one
      ensures ok ==> Live(st) == Shadow(old(st)) && LiveComplete(st)
    {
      var id, tok := Get(st, ShadowId), Get(st, ShadowToken);
      if id == "" || tok == "" { return false; }
      var _ := PutString(InstallId, id);
      var _ := PutString(DeviceToken, tok);
      var sameId := PairsMatch(id, Get(st, InstallId));
      var sameTok := PairsMatch(tok, Get(st, DeviceToken));
      if !sameId || !sameTok { return false; }
      DropTokenPairShadow();
      ok := true;
    }

    method RecoverOrphanedTokenPair()
      modifies this`st
      ensures st == Recover(old(st))
    {
      if LiveComplete(st) {
        DropTokenPairShadow();
      } else {
        var _ := RestoreTokenPair();
      }
    }

    method EnsureInstallId(minted: string)
      modifies this`st
      ensures st == EnsureId(old(st), minted)
    {
      if |Get(st, InstallId)| == 32 { return; }
      var _ := PutString(InstallId, minted);
    }

    /** clearInstallation and a fresh id; the shadows stay. */
    method NewInstallation(minted: string)
      modifies this`st
      ensures st == StartOver(old(st), minted) && Shadow(st) == Shadow(old(st))
    {
      RemoveKey(InstallId);
      RemoveKey(DeviceToken);
      EnsureInstallId(minted);
    }

    /** From the proven stash on. */
    method ReplaceInstallation(a: Attempt) returns (ok: bool)
      modifies this`st
      ensures st == HealStashed(old(st), a)
      // a healed board keeps the old pair in its shadows
      ensures ok ==> Shadow(st) == Shadow(old(st))
    {
      ok := false;
      if Lands(st) { st := st.(healAt := a.epoch); }
      st := Spend(st);
      if st.healAt != a.epoch { return; }
      NewInstallation(a.minted);
      match a.reply
      case None => var _ := RestoreTokenPair();
      case Some(tok) =>
        var _ := PutString(DeviceToken, tok);
        ok := true;
    }

    method HealStaleTokenIfDue(a: Attempt) returns (ok: bool)
      modifies this
      ensures Dev() == Heal(old(Dev()), a)
      ensures ok ==> Shadow(st) == Live(old(st))
    {
      ok := false;
      if healed && Elapsed(a.uptimeMs, healedAtMs) >= HEAL_LATCH_MS { healed := false; }
      if healed || a.defaultBase { return; }
      if !HealWindowOpen(healed, st.healAt, a.epoch) { return; }
      var proven := StashTokenPair();
      if !proven { return; }
      healed, healedAtMs, shadowPending := true, a.uptimeMs, true;
      ok := ReplaceInstallation(a);
    }

    method RegisterInstallation(minted: string, ans: Answer)
      modifies this
      ensures Dev() == Register(old(Dev()), minted, ans)
    {
      RecoverOrphanedTokenPair();
      recovered := true;
      EnsureInstallId(minted);
      var tokenSent := Get(st, DeviceToken) != "";
      match ans
      case Registered(tok) => if tok != "" { var _ := PutString(DeviceToken, tok); }
      case Stale(a) => if tokenSent { var _ := HealStaleTokenIfDue(a); }
      case Refused =>
    }

    method PutPoc(accepted: bool)
      modifies this
      ensures Dev() == Poc(old(Dev()), accepted)
    {
      if accepted && healed { DropTokenPairShadow(); }
      if accepted && shadowPending {
        DropTokenPairShadow();
        shadowPending := false;
      }
    }
  }
}
