/**
 The provisioning machine (lib/fry_core/provisioning_fsm.cpp), and the order in which a commit
 persists the credentials and moves it (lib/fry_core/provisioning_commit.h).
 */
module Provisioning {
  import opened Prelude

  datatype Phase = Idle | Provisioning | Connecting | Connected | Error

  datatype ProvErr =
    | NoErr | BadSsid | WifiAuth | NoIp | ApiFailed | BadWallet
    | KeyRequired | BadKey | KeyLocked
    | Reg401 | Reg403 | Reg409 | RegOther4xx | Unreachable

  datatype ProvEvent =
    | SsidWritten | PassWritten | WalletWritten
    | WifiUp | WifiAuthFail | WifiNoIp | WifiNoAp
    | ApiOk | ApiFail | Reset
    | WifiOnlyCommit | KeyMissing | KeyRejected

  datatype Inputs = Inputs(ssidValid: bool, walletValid: bool, detail: ProvErr, linkTrusted: bool)

  const DEFAULT_INPUTS := Inputs(false, false, NoErr, true)

  datatype Fsm = Fsm(phase: Phase, err: ProvErr, wifiUp: bool)

  const START := Fsm(Idle, NoErr, false)

  predicate IsRegDetail(e: ProvErr) {
    e in {Reg401, Reg403, Reg409, RegOther4xx, Unreachable}
  }

  predicate IsApiClassErr(e: ProvErr) {
    e == ApiFailed || e == KeyRequired || IsRegDetail(e)
  }

  predicate IsKeyErr(e: ProvErr) { e == BadKey || e == KeyLocked }

  function KeyDetail(e: ProvErr): ProvErr { if e == KeyLocked then KeyLocked else BadKey }

  function ApiDetail(e: ProvErr): ProvErr { if IsRegDetail(e) then e else ApiFailed }

  /** Joined this boot, only the API side failed. */
  predicate RunningError(m: Fsm) {
    m.phase == Error && m.wifiUp && (IsApiClassErr(m.err) || IsKeyErr(m.err))
  }

  function Fail(m: Fsm, e: ProvErr): Fsm { m.(phase := Error, err := e) }

  function OnSsid(m: Fsm, i: Inputs): Fsm {
    if i.ssidValid then m.(phase := Provisioning, err := NoErr) else Fail(m, BadSsid)
  }

  function Commit(m: Fsm): Fsm { Fsm(Connecting, NoErr, false) }

  /** The switch over the phase. */
  function Dispatch(m: Fsm, ev: ProvEvent, i: Inputs): Fsm {
    match m.phase
    case Idle =>
      (match ev
       case SsidWritten => OnSsid(m, i)
       case KeyRejected => Fail(m, KeyDetail(i.detail))
       case _ => m)
    case Provisioning =>
      (match ev
       case SsidWritten => if i.ssidValid then m else Fail(m, BadSsid)
       case WifiOnlyCommit => Commit(m)
       case WalletWritten => if i.walletValid then Commit(m) else Fail(m, BadWallet)
       case KeyMissing => Fail(m, KeyRequired)
       case KeyRejected => Fail(m, KeyDetail(i.detail))
       case _ => m)
    case Connecting =>
      (match ev
       case WifiUp => m.(wifiUp := true)
       case WifiAuthFail => Fail(m, WifiAuth)
       case WifiNoAp => Fail(m, BadSsid)
       case WifiNoIp => Fail(m, NoIp)
       case ApiOk => if m.wifiUp then m.(phase := Connected, err := NoErr) else m
       case ApiFail => Fail(m, ApiDetail(i.detail))
       case KeyMissing => Fail(m, KeyRequired)
       case _ => m)
    case Connected => m
    case Error =>
      if ev == KeyRejected then m.(err := KeyDetail(i.detail))
      else if RunningError(m) && ev == ApiOk then m.(phase := Connected, err := NoErr)
      else if RunningError(m) && ev == ApiFail then m.(err := ApiDetail(i.detail))
      else m
  }

  /** An SSID write starts a failed board over, unless it is running and the link is not trusted. */
  function Restarted(m: Fsm, ev: ProvEvent, i: Inputs): Fsm {
    if m.phase == Error && ev == SsidWritten && (i.linkTrusted || !RunningError(m)) then START else m
  }

  function Feed(m: Fsm, ev: ProvEvent, i: Inputs): Fsm {
    var n := Dispatch(Restarted(m, ev, i), ev, i);
    if ev == Reset && n.phase != Idle then START else n
  }

  // ---- over every trace ------------------------------------------------------------------------

  datatype Fed = Fed(ev: ProvEvent, inp: Inputs)

  function After(h: seq<Fed>): Fsm {
    if h == [] then START
    else Feed(After(h[..|h| - 1]), h[|h| - 1].ev, h[|h| - 1].inp)
  }

  /** In Error exactly while there is an error to report; the Wi-Fi latch is down before a commit. */
  lemma {:induction false} ErrorMeansError(h: seq<Fed>)
    ensures After(h).phase == Error <==> After(h).err != NoErr
    ensures After(h).phase in {Idle, Provisioning} ==> !After(h).wifiUp
  {
    if h != [] {
      ErrorMeansError(h[..|h| - 1]);
    }
  }

  /** The phase after the first n events. */
  function At(h: seq<Fed>, n: nat): Phase
    requires n <= |h|
  {
    After(h[..n]).phase
  }

  /** Event i committed: a valid wallet, or an Improv commit, in Provisioning. */
  predicate CommitsAt(h: seq<Fed>, i: nat)
    requires i < |h|
  {
    && At(h, i) == Provisioning && At(h, i + 1) == Connecting
    && (h[i].ev == WifiOnlyCommit || (h[i].ev == WalletWritten && h[i].inp.walletValid))
  }

  /** The board was not re-provisioned between event i and the end. */
  predicate NoRestartSince(h: seq<Fed>, i: nat) {
    forall n :: i < n <= |h| ==> At(h, n) !in {Idle, Provisioning}
  }

  lemma AtPrefix(h: seq<Fed>, n: nat, m: nat)
    requires n <= m <= |h|
    ensures At(h[..m], n) == At(h, n)
  {
    assert h[..m][..n] == h[..n];
  }

  lemma ExtendNoRestart(h: seq<Fed>, m: nat, i: nat)
    requires i < m <= |h| <= m + 1
    requires NoRestartSince(h[..m], i) && CommitsAt(h[..m], i)
    requires At(h, |h|) !in {Idle, Provisioning}
    ensures NoRestartSince(h, i) && CommitsAt(h, i)
  {
    forall n | i < n <= m
      ensures At(h, n) !in {Idle, Provisioning}
    {
      AtPrefix(h, n, m);
    }
    AtPrefix(h, i, m);
    AtPrefix(h, i + 1, m);
    assert h[..m][i] == h[i];
  }

  /** A connecting board has committed. */
  lemma {:induction false} ConnectingMeans(h: seq<Fed>) returns (i: nat)
    requires After(h).phase == Connecting
    ensures i < |h| && CommitsAt(h, i) && NoRestartSince(h, i)
  {
    var n := |h| - 1;
    var before := After(h[..n]);
    assert h[..|h|] == h;
    if before.phase == Connecting {
      i := ConnectingMeans(h[..n]);
      ExtendNoRestart(h, n, i);
    } else {
      i := n;
    }
  }

  /** The Wi-Fi latch means a commit and a join behind it. */
  lemma {:induction false} LatchMeans(h: seq<Fed>) returns (i: nat, j: nat)
    requires After(h).wifiUp
    ensures i < j < |h| && CommitsAt(h, i) && NoRestartSince(h, i) && h[j].ev == WifiUp
  {
    var n := |h| - 1;
    assert h[..|h|] == h;
    ErrorMeansError(h);
    if After(h[..n]).wifiUp {
      i, j := LatchMeans(h[..n]);
    } else {
      i := ConnectingMeans(h[..n]);
      j := n;
    }
    ExtendNoRestart(h, n, i);
  }

  /** i, j and k are a commit, the join behind it and the answer that connected, with no restart since. */
  predicate Connects(h: seq<Fed>, i: nat, j: nat, k: nat) {
    && i < j < k < |h| && CommitsAt(h, i) && NoRestartSince(h, i)
    && h[j].ev == WifiUp && h[k].ev == ApiOk && At(h, k) != Connected && At(h, k + 1) == Connected
  }

  /** Connected means: a commit, then the join, then the API's answer, and no restart since. */
  lemma {:induction false} ConnectedMeans(h: seq<Fed>) returns (i: nat, j: nat, k: nat)
    requires After(h).phase == Connected
    ensures Connects(h, i, j, k)
  {
    var n := |h| - 1;
    if After(h[..n]).phase == Connected {
      i, j, k := ConnectedMeans(h[..n]);
      StillConnects(h, i, j, k);
    } else {
      BecomesConnected(After(h[..n]), h[n].ev, h[n].inp);
      i, j := LatchMeans(h[..n]);
      k := n;
      JustConnects(h, i, j);
    }
  }

  lemma StillConnects(h: seq<Fed>, i: nat, j: nat, k: nat)
    requires h != [] && Connects(h[..|h| - 1], i, j, k) && After(h).phase == Connected
    ensures Connects(h, i, j, k)
  {
    var n := |h| - 1;
    assert h[..|h|] == h;
    AtPrefix(h, k, n);
    AtPrefix(h, k + 1, n);
    ExtendNoRestart(h, n, i);
  }

  lemma JustConnects(h: seq<Fed>, i: nat, j: nat)
    requires h != [] && After(h).phase == Connected && After(h[..|h| - 1]).phase != Connected
    requires i < j < |h| - 1 && CommitsAt(h[..|h| - 1], i) && NoRestartSince(h[..|h| - 1], i)
    requires h[j].ev == WifiUp && h[|h| - 1].ev == ApiOk
    ensures Connects(h, i, j, |h| - 1)
  {
    assert h[..|h|] == h;
    ExtendNoRestart(h, |h| - 1, i);
  }

  /** Only the API's answer to a joined board connects it. */
  lemma BecomesConnected(m: Fsm, ev: ProvEvent, i: Inputs)
    requires m.phase != Connected && Feed(m, ev, i).phase == Connected
    ensures ev == ApiOk && m.wifiUp
  {
  }

  /** A stranger cannot re-provision a running board: nothing an untrusted link can write leaves a
      running error, only the board's own registration or a reset does. */
  lemma StrangersCannotRestart(m: Fsm, ev: ProvEvent, i: Inputs)
    requires RunningError(m)
    requires ev == SsidWritten ==> !i.linkTrusted
    ensures RunningError(Feed(m, ev, i)) <==> ev != Reset && ev != ApiOk
    ensures ev in {SsidWritten, PassWritten, WalletWritten, WifiOnlyCommit} ==> Feed(m, ev, i) == m
    ensures ev == ApiOk ==> Feed(m, ev, i) == Fsm(Connected, NoErr, true)
  {
  }

  /** In Error an SSID write starts a fresh attempt, exactly as it would from Idle, unless a stranger
      sent it to a running board. */
  lemma SsidStartsOver(m: Fsm, i: Inputs)
    requires m.phase == Error
    ensures Feed(m, SsidWritten, i) ==
      if i.linkTrusted || !RunningError(m) then Feed(START, SsidWritten, i) else m
    ensures Feed(m, SsidWritten, i).phase == Provisioning <==>
      i.ssidValid && (i.linkTrusted || !RunningError(m))
  {
  }

  // ---- what the reported error says ------------------------------------------------------------

  /** What an event is to blame for, by what it is and when it comes. */
  function Blame(m: Fsm, x: Fed): Option<ProvErr> {
    match x.ev
    case SsidWritten =>
      if !x.inp.ssidValid && (m.phase in {Idle, Provisioning} || (m.phase == Error && MayStartOver(m, x)))
      then Some(BadSsid) else None
    case WalletWritten => if m.phase == Provisioning && !x.inp.walletValid then Some(BadWallet) else None
    case KeyMissing => if m.phase in {Provisioning, Connecting} then Some(KeyRequired) else None
    case KeyRejected =>
      if m.phase in {Idle, Provisioning, Error} then Some(if x.inp.detail == KeyLocked then KeyLocked else BadKey)
      else None
    case WifiAuthFail => if m.phase == Connecting then Some(WifiAuth) else None
    case WifiNoAp => if m.phase == Connecting then Some(BadSsid) else None
    case WifiNoIp => if m.phase == Connecting then Some(NoIp) else None
    case ApiFail =>
      if m.phase == Connecting || RunningError(m)
      then Some(if x.inp.detail in {Reg401, Reg403, Reg409, RegOther4xx, Unreachable} then x.inp.detail else ApiFailed)
      else None
    case _ => None
  }

  predicate IsRunningErr(e: ProvErr) {
    e in {ApiFailed, KeyRequired, Reg401, Reg403, Reg409, RegOther4xx, Unreachable, BadKey, KeyLocked}
  }

  predicate MayStartOver(m: Fsm, x: Fed) {
    x.inp.linkTrusted || !(m.wifiUp && IsRunningErr(m.err))
  }

  /** What takes an error back: a reset, a fresh SSID, or the registration of a running board. */
  predicate Forgives(m: Fsm, x: Fed) {
    || x.ev == Reset
    || (x.ev == SsidWritten && x.inp.ssidValid && MayStartOver(m, x))
    || (x.ev == ApiOk && m.wifiUp && IsRunningErr(m.err))
  }

  /** Over every trace: an event that is to blame is what is reported next, one that forgives clears the
      report, and any other leaves it. */
  lemma {:induction false} ErrorAfter(h: seq<Fed>, x: Fed)
    ensures var (m, m') := (After(h), After(h + [x]));
      m'.err == (if Blame(m, x).Some? then Blame(m, x).value else if Forgives(m, x) then NoErr else m.err)
      && (Blame(m, x).Some? ==> m'.phase == Error)
  {
    assert (h + [x])[..|h|] == h;
    ErrorMeansError(h);
    FeedBlames(After(h), x);
  }

  lemma FeedBlames(m: Fsm, x: Fed)
    requires m.phase == Error <==> m.err != NoErr
    ensures var m' := Feed(m, x.ev, x.inp);
      && m'.err == (if Blame(m, x).Some? then Blame(m, x).value else if Forgives(m, x) then NoErr else m.err)
      && (Blame(m, x).Some? ==> m'.phase == Error)
  {
  }

  /** The error on display is that of the last event to blame, and nothing has forgiven it since. */
  lemma {:induction false} ErrorTells(h: seq<Fed>) returns (k: nat)
    requires After(h).phase == Error
    ensures k < |h| && Blame(After(h[..k]), h[k]) == Some(After(h).err)
    ensures forall n :: k < n < |h| ==> Blame(After(h[..n]), h[n]).None? && !Forgives(After(h[..n]), h[n])
  {
    var n := |h| - 1;
    ErrorMeansError(h);
    ErrorMeansError(h[..n]);
    ErrorAfter(h[..n], h[n]);
    assert h[..n] + [h[n]] == h;
    if Blame(After(h[..n]), h[n]).Some? {
      k := n;
    } else {
      k := ErrorTells(h[..n]);
      forall j | 0 <= j < n ensures h[..n][..j] == h[..j] && h[..n][j] == h[j] {}
    }
  }

  // ---- when the machine moves ------------------------------------------------------------------

  /** What enters each phase, or keeps the machine there. */
  predicate Enters(m: Fsm, x: Fed, p: Phase) {
    match p
    case Idle => x.ev == Reset || (m.phase == Idle && x.ev !in {SsidWritten, KeyRejected})
    case Provisioning =>
      if x.ev == SsidWritten
      then x.inp.ssidValid && (m.phase in {Idle, Provisioning} || (m.phase == Error && MayStartOver(m, x)))
      else m.phase == Provisioning && Blame(m, x).None? && x.ev !in {WalletWritten, WifiOnlyCommit, Reset}
    case Connecting =>
      || (m.phase == Provisioning && (x.ev == WifiOnlyCommit || (x.ev == WalletWritten && x.inp.walletValid)))
      || (m.phase == Connecting && Blame(m, x).None? && x.ev != Reset && !(x.ev == ApiOk && m.wifiUp))
    case Connected =>
      || (m.phase == Connected && x.ev != Reset)
      || (x.ev == ApiOk && m.wifiUp && (m.phase == Connecting || (m.phase == Error && IsRunningErr(m.err))))
    case Error =>
      Blame(m, x).Some? || (m.phase == Error && !Forgives(m, x))
  }

  /** Over every trace the machine is in a phase after an event exactly when that event enters it. */
  lemma PhaseAfter(h: seq<Fed>, x: Fed, p: Phase)
    ensures After(h + [x]).phase == p <==> Enters(After(h), x, p)
  {
    assert (h + [x])[..|h|] == h;
    ErrorMeansError(h);
    ErrorMeansError(h + [x]);
    ErrorAfter(h, x);
  }

  /** The Wi-Fi latch goes up with the join of a connecting board, and down with every restart and every
      commit. */
  lemma LatchAfter(h: seq<Fed>, x: Fed)
    ensures After(h + [x]).wifiUp <==>
      if x.ev == WifiUp && After(h).phase == Connecting then true
      else After(h).wifiUp && After(h + [x]).phase !in {Idle, Provisioning}
           && !(After(h).phase == Provisioning && After(h + [x]).phase == Connecting)
           && !(x.ev == SsidWritten && After(h).phase == Error && MayStartOver(After(h), x))
  {
    assert (h + [x])[..|h|] == h;
    ErrorMeansError(h);
    ErrorMeansError(h + [x]);
  }

  // ---- commit ordering -------------------------------------------------------------------------

  /** The board: the machine, the credentials written so far, the stored ones, and what the last
      commit was given. */
  datatype Board<Cred> = Board(fsm: Fsm, written: Cred, stored: Option<Cred>, committed: Option<Cred>)

  datatype Action<Cred> =
    | Write(cred: Cred, ev: ProvEvent, inp: Inputs)  // any event but a commit; it may change `written`
    | Wallet(inp: Inputs)                            // commitOnWallet
    | WifiOnly                                       // resetForWifiOnlyCommit is a Write of Reset before it

  predicate Plausible<Cred>(a: Action<Cred>) {
    a.Write? ==> a.ev !in {WalletWritten, WifiOnlyCommit}
  }

  function Persist<Cred>(b: Board<Cred>): Board<Cred> { b.(stored := Some(b.written)) }

  function FeedBoard<Cred>(b: Board<Cred>, ev: ProvEvent, i: Inputs): Board<Cred> {
    var m := Feed(b.fsm, ev, i);
    b.(fsm := m,
       committed := if m.phase == Connecting && b.fsm.phase != Connecting then Some(b.written) else b.committed)
  }

  /** Every state another task can observe while the action runs, the last being its result. */
  function Observed<Cred>(b: Board<Cred>, a: Action<Cred>): (r: seq<Board<Cred>>)
    ensures r != []
  {
    match a
    case Write(c, ev, i) => [FeedBoard(b.(written := c), ev, i)]
    case Wallet(i) =>
      var p := if b.fsm.phase == Provisioning && i.walletValid then Persist(b) else b;
      [p, FeedBoard(p, WalletWritten, i)]
    case WifiOnly =>
      var p := if b.fsm.phase == Provisioning then Persist(b) else b;
      [p, FeedBoard(p, WifiOnlyCommit, DEFAULT_INPUTS)]
  }

  function Run<Cred>(b: Board<Cred>, acts: seq<Action<Cred>>): Board<Cred> {
    if acts == [] then b
    else
      var o := Observed(Run(b, acts[..|acts| - 1]), acts[|acts| - 1]);
      o[|o| - 1]
  }

  /** Whoever sees the board ready to connect finds the committed credentials in the store. */
  predicate Ordered<Cred(==)>(b: Board<Cred>) {
    b.fsm.phase == Connecting ==> b.committed.Some? && b.stored == b.committed
  }

  lemma ObservedOrdered<Cred>(b: Board<Cred>, a: Action<Cred>)
    requires Ordered(b) && Plausible(a)
    ensures forall o :: o in Observed(b, a) ==> Ordered(o)
  {
  }

  /** What was written is stored by the commit the machine accepts, and by nothing else: a refused wallet
      or a commit in any other phase leaves the store as it was. */
  lemma StoredIffAccepted<Cred>(b: Board<Cred>, a: Action<Cred>)
    requires Plausible(a)
    ensures var o := Observed(b, a);
      var b' := o[|o| - 1];
      if b'.fsm.phase == Connecting && b.fsm.phase != Connecting
      then b'.stored == Some(b'.written) == b'.committed
      else b'.stored == b.stored && b'.committed == b.committed
  {
  }

  /** At every moment of every run, the moments inside a commit included. */
  lemma {:induction false} PersistedBeforeReady<Cred>(b: Board<Cred>, acts: seq<Action<Cred>>, next: Action<Cred>)
    requires b.fsm == START && Plausible(next) && forall a :: a in acts ==> Plausible(a)
    ensures forall o :: o in Observed(Run(b, acts), next) ==> Ordered(o)
  {
    if acts == [] {
      ObservedOrdered(b, next);
    } else {
      var n := |acts| - 1;
      PersistedBeforeReady(b, acts[..n], acts[n]);
      ObservedOrdered(Run(b, acts), next);
    }
  }

  /** Feeding first would be observed: the board is ready and the store still has nothing. */
  lemma FeedFirstIsUnsafe<Cred>(b: Board<Cred>, i: Inputs)
    requires b.fsm.phase == Provisioning && i.walletValid && b.stored == None
    ensures !Ordered(FeedBoard(b, WalletWritten, i))
  {
  }
}
