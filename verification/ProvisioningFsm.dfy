/**
 The machine as an object, and the commit wrappers that persist first
 (lib/fry_core/provisioning_fsm.cpp:45-164, lib/fry_core/provisioning_commit.h:18-44).
 */
module ProvisioningFsm {
  import opened Prelude
  import opened Provisioning

  class Machine {
    var phase: Phase
    var err: ProvErr
    var wifiUp: bool

    function Abs(): Fsm
      reads this
    {
      Fsm(phase, err, wifiUp)
    }

    constructor ()
      ensures Abs() == START
    {
      phase, err, wifiUp := Idle, NoErr, false;
    }

    method FailWith(e: ProvErr)
      modifies this`phase, this`err
      ensures Abs() == Fail(old(Abs()), e)
    {
      phase, err := Error, e;
    }

    /** feed: true when the phase changed. */
    method Feed(ev: ProvEvent, i: Inputs) returns (changed: bool)
      modifies this
      ensures Abs() == Provisioning.Feed(old(Abs()), ev, i)
      ensures changed <==> phase != old(phase)
    {
      var prev := phase;
      if phase == Error && ev == SsidWritten && (i.linkTrusted || !RunningError(Abs())) {
        phase, err, wifiUp := Idle, NoErr, false;
      }
      match phase {
        case Idle => FeedIdle(ev, i);
        case Provisioning => FeedProvisioning(ev, i);
        case Connecting => FeedConnecting(ev, i);
        case Connected =>
        case Error => FeedError(ev, i);
      }
      if ev == Reset && phase != Idle {
        phase, err, wifiUp := Idle, NoErr, false;
      }
      changed := phase != prev;
    }

    method FeedIdle(ev: ProvEvent, i: Inputs)
      requires phase == Idle
      modifies this
      ensures Abs() == Dispatch(old(Abs()), ev, i)
    {
      if ev == SsidWritten {
        if i.ssidValid {
          phase, err := Phase.Provisioning, NoErr;
        } else {
          FailWith(BadSsid);
        }
      } else if ev == KeyRejected {
        FailWith(KeyDetail(i.detail));
      }
    }

    method FeedProvisioning(ev: ProvEvent, i: Inputs)
      requires phase == Phase.Provisioning
      modifies this
      ensures Abs() == Dispatch(old(Abs()), ev, i)
    {
      if ev == SsidWritten {
        if !i.ssidValid { FailWith(BadSsid); }
      } else if ev == WifiOnlyCommit {
        phase, err, wifiUp := Connecting, NoErr, false;
      } else if ev == WalletWritten {
        if i.walletValid {
          phase, err, wifiUp := Connecting, NoErr, false;
        } else {
          FailWith(BadWallet);
        }
      } else if ev == KeyMissing {
        FailWith(KeyRequired);
      } else if ev == KeyRejected {
        FailWith(KeyDetail(i.detail));
      }
    }

    method FeedConnecting(ev: ProvEvent, i: Inputs)
      requires phase == Connecting
      modifies this
      ensures Abs() == Dispatch(old(Abs()), ev, i)
    {
      if ev == WifiUp {
        wifiUp := true;
      } else if ev == WifiAuthFail {
        FailWith(WifiAuth);
      } else if ev == WifiNoAp {
        FailWith(BadSsid);
      } else if ev == WifiNoIp {
        FailWith(NoIp);
      } else if ev == ApiOk {
        if wifiUp { phase, err := Connected, NoErr; }
      } else if ev == ApiFail {
        FailWith(ApiDetail(i.detail));
      } else if ev == KeyMissing {
        FailWith(KeyRequired);
      }
    }

    method FeedError(ev: ProvEvent, i: Inputs)
      requires phase == Error
      modifies this
      ensures Abs() == Dispatch(old(Abs()), ev, i)
    {
      if RunningError(Abs()) {
        if ev == ApiOk {
          phase, err := Connected, NoErr;
        } else if ev == ApiFail {
          err := ApiDetail(i.detail);
        }
      }
      if ev == KeyRejected { err := KeyDetail(i.detail); }
    }
  }

  /** The stored credentials. */
  class Store<Cred(==)> {
    var stored: Option<Cred>
    ghost var readyWhenPersisted: bool  // the machine was already connecting when they were written

    constructor ()
      ensures stored == None && !readyWhenPersisted
    {
      stored, readyWhenPersisted := None, false;
    }

    method Persist(cred: Cred, m: Machine)
      modifies this
      ensures stored == Some(cred) && readyWhenPersisted == (old(readyWhenPersisted) || m.phase == Connecting)
    {
      stored := Some(cred);
      readyWhenPersisted := readyWhenPersisted || m.phase == Connecting;
    }
  }

  /** commitOnWallet: written exactly when the machine will accept, and before it is told. */
  method CommitOnWallet<Cred>(m: Machine, i: Inputs, cred: Cred, store: Store<Cred>) returns (changed: bool)
    modifies m, store
    ensures m.Abs() == Provisioning.Feed(old(m.Abs()), WalletWritten, i)
    ensures changed <==> m.phase != old(m.phase)
    ensures m.phase == Connecting && old(m.phase) != Connecting ==> store.stored == Some(cred)
    ensures m.phase != Connecting || old(m.phase) == Connecting ==> store.stored == old(store.stored)
    ensures store.readyWhenPersisted == old(store.readyWhenPersisted)
  {
    if m.phase == Phase.Provisioning && i.walletValid {
      store.Persist(cred, m);
    }
    changed := m.Feed(WalletWritten, i);
  }

  /** commitWifiOnly: the same without a wallet. */
  method CommitWifiOnly<Cred>(m: Machine, cred: Cred, store: Store<Cred>) returns (changed: bool)
    modifies m, store
    ensures m.Abs() == Provisioning.Feed(old(m.Abs()), WifiOnlyCommit, DEFAULT_INPUTS)
    ensures changed <==> m.phase != old(m.phase)
    ensures m.phase == Connecting && old(m.phase) != Connecting ==> store.stored == Some(cred)
    ensures m.phase != Connecting || old(m.phase) == Connecting ==> store.stored == old(store.stored)
    ensures store.readyWhenPersisted == old(store.readyWhenPersisted)
  {
    if m.phase == Phase.Provisioning {
      store.Persist(cred, m);
    }
    changed := m.Feed(WifiOnlyCommit, DEFAULT_INPUTS);
  }

  /** resetForWifiOnlyCommit: afterwards an SSID write is always the start of an attempt. */
  method ResetForWifiOnlyCommit(m: Machine)
    modifies m
    ensures m.phase in {Idle, Phase.Provisioning}
    ensures m.Abs() == if old(m.phase) in {Idle, Phase.Provisioning} then old(m.Abs()) else START
  {
    if m.phase != Idle && m.phase != Phase.Provisioning {
      var changed := m.Feed(Reset, DEFAULT_INPUTS);
    }
  }
}
