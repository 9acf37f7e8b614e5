/**
 The download of an OTA image and its verdict on the ESP8266 (src/core/ota_client.cpp:542-671). The
 connection is the finite list of what the loop finds at each turn, with the clock it reads there.
 */
module OtaDownload {
  import opened Prelude
  import Sha256Spec
  import opened Sha256Impl
  import opened OtaStage
  import opened OtaDigest

  const READ_MAX := 1024
  const STALL_MS := 20000

  datatype Poll =
    | Data(bytes: seq<Byte>, at: int)  // readBytes returned these
    | ReadFailed                       // readBytes returned nothing although data was announced
    | Quiet(at: int)                   // connected, nothing to read
    | Gone                             // no longer connected

  predicate Plausible(p: Poll) {
    p.Data? ==> 0 < |p.bytes| <= READ_MAX
  }

  /** What the peer delivers before the image is complete, the peer is gone or it stalls. */
  function Streamed(polls: seq<Poll>, len: nat, got: seq<Byte>, last: int): seq<Byte> {
    if |got| >= len || polls == [] then got
    else match polls[0]
      case Data(b, at) => Streamed(polls[1..], len, got + b, at)
      case Quiet(at) => if Elapsed(at, last) > STALL_MS then got else Streamed(polls[1..], len, got, last)
      case ReadFailed => got
      case Gone => got
  }

  // ---- what a connection delivers, whatever the loop does ----------------------------------------

  /** The bytes of the Data among the first n polls. */
  function Payload(polls: seq<Poll>, n: nat): seq<Byte>
    requires n <= |polls|
  {
    if n == 0 then []
    else Payload(polls, n - 1) + if polls[n - 1].Data? then polls[n - 1].bytes else []
  }

  /** The clock at the latest Data before poll n, or at the start. */
  function LastData(polls: seq<Poll>, n: nat, start: int): int
    requires n <= |polls|
  {
    if n == 0 then start
    else if polls[n - 1].Data? then polls[n - 1].at
    else LastData(polls, n - 1, start)
  }

  /** Poll n is no reason to give up: more data, or a silence that has lasted at most 20 s since the
      latest data. */
  predicate Alive(polls: seq<Poll>, n: nat, start: int)
    requires n < |polls|
  {
    polls[n].Data? || (polls[n].Quiet? && Elapsed(polls[n].at, LastData(polls, n, start)) <= 20000)
  }

  /** The first n polls neither complete an image of `len` bytes before the last of them nor end the
      download. */
  predicate Steady(polls: seq<Poll>, n: nat, len: nat, start: int)
    requires n <= |polls|
  {
    forall k :: 0 <= k < n ==> Alive(polls, k, start) && |Payload(polls, k)| < len
  }

  lemma {:induction false} StreamedSplit(polls: seq<Poll>, n: nat, len: nat, start: int)
    requires n <= |polls| && Steady(polls, n, len, start)
    ensures Streamed(polls, len, [], start)
         == Streamed(polls[n..], len, Payload(polls, n), LastData(polls, n, start))
  {
    if n > 0 {
      StreamedSplit(polls, n - 1, len, start);
      assert Alive(polls, n - 1, start);
      assert polls[n - 1..][0] == polls[n - 1] && polls[n - 1..][1..] == polls[n..];
      assert Payload(polls, n - 1) + [] == Payload(polls, n - 1);
    }
  }

  /** A download whose pauses last at most 20 s each delivers the image whole, however long it takes in
      all and however it is cut into pieces. */
  lemma SteadyDelivers(polls: seq<Poll>, n: nat, len: nat, start: int)
    requires n <= |polls| && Steady(polls, n, len, start) && |Payload(polls, n)| >= len
    ensures Streamed(polls, len, [], start) == Payload(polls, n)
  {
    StreamedSplit(polls, n, len, start);
  }

  /** Conversely a download that stops short had a reason: the polls ended, the peer was gone, a read
      failed, or a silence had lasted more than 20 s since the latest data. What arrived before that is
      what was taken. */
  lemma ShortHasReason(polls: seq<Poll>, len: nat, start: int) returns (n: nat)
    requires |Streamed(polls, len, [], start)| < len
    ensures n <= |polls| && Steady(polls, n, len, start) && Streamed(polls, len, [], start) == Payload(polls, n)
    ensures n == |polls| || polls[n].Gone? || polls[n].ReadFailed?
      || (polls[n].Quiet? && Elapsed(polls[n].at, LastData(polls, n, start)) > 20000)
  {
    n := 0;
    while n < |polls| && |Payload(polls, n)| < len && Alive(polls, n, start)
      invariant n <= |polls| && Steady(polls, n, len, start)
    {
      n := n + 1;
    }
    StreamedSplit(polls, n, len, start);
  }

  /** The only images that may reach the bootloader. */
  ghost predicate Accepted(image: seq<Byte>, len: int, want: string) {
    |image| == len && Matches(HexUpper(Sha256Spec.Sha256(image)), want)
  }

  /** One manifest digest accepts images of one SHA-256 only. */
  lemma AcceptedSameDigest(a: seq<Byte>, b: seq<Byte>, len: int, want: string)
    requires Accepted(a, len, want) && Accepted(b, len, want)
    ensures Sha256Spec.Sha256(a) == Sha256Spec.Sha256(b)
  {
    MatchesOneDigest(Sha256Spec.Sha256(a), Sha256Spec.Sha256(b), want);
  }

  method Digest(sha: Hasher) returns (hex: array<char>)
    requires sha.Valid() && |sha.Seen()| < TWO31
    modifies sha, sha.buffer
    ensures fresh(hex) && IsText(hex[..], Lower(HexUpper(Sha256Spec.Sha256(old(sha.Seen())))))
  {
    var digest := sha.Finish();
    hex := new char[65];
    BytesToHexUpper(digest, hex);
    AsciiLowerInPlace(hex, HexUpper(digest));
  }

  /**
   The stream loop. `complete` says whether exactly `len` bytes arrived; otherwise, also when a write
   was refused, the update has been dropped.
   */
  method StreamIn(polls: seq<Poll>, start: int, len: nat, sha: Hasher, upd: HeldTailWriter)
    returns (complete: bool)
    requires upd.Valid() && upd.total == len < TWO31 && upd.stream == [] && !upd.up.failed
    requires sha.Valid() && sha.Seen() == []
    requires forall p :: p in polls ==> Plausible(p)
    modifies upd, upd.up, sha, sha.buffer
    ensures upd.up.staged == old(upd.up.staged) && upd.up.Valid()
    ensures complete ==> upd.Valid() && sha.Valid() && |upd.stream| == len
    ensures complete ==> upd.stream == sha.Seen() == Streamed(polls, len, [], start)
    ensures !complete ==> upd.up.size == 0
    ensures upd.up.Sound() && complete ==> !upd.up.failed
    ensures upd.up.Sound() ==> (complete <==> |Streamed(polls, len, [], start)| == len)
  {
    var done, last, i := 0, start, 0;
    while done < len && i < |polls|
      invariant 0 <= i <= |polls| && upd.Valid() && sha.Valid() && upd.total == len
      invariant upd.up.staged == old(upd.up.staged)
      invariant upd.stream == sha.Seen() && done == |upd.stream|
      invariant Streamed(polls, len, [], start) == Streamed(polls[i..], len, upd.stream, last)
      invariant upd.up.Sound() ==> !upd.up.failed
    {
      match polls[i] {
        case Data(b, at) =>
          assert polls[i] in polls;
          ghost var had := upd.stream;
          sha.Update(b);
          var ok := upd.Write(b);
          if !ok {
            upd.Discard();
            return false;
          }
          done, last := done + |b|, at;
        case ReadFailed => break;
        case Gone => break;
        case Quiet(at) =>
          if Elapsed(at, last) > STALL_MS { break; }
      }
      i := i + 1;
    }
    assert Streamed(polls[i..], len, upd.stream, last) == upd.stream;
    if done != len {
      upd.Discard();
      return false;
    }
    complete := true;
  }

  /** The digest decides: commit, or drop the update and the boot command with it. */
  method Verdict(sha: Hasher, upd: HeldTailWriter, want: string) returns (applied: bool)
    requires upd.Valid() && |upd.stream| == upd.total < TWO31
    requires sha.Valid() && sha.Seen() == upd.stream
    modifies upd.up, sha, sha.buffer
    ensures upd.up.Valid() && upd.up.size == 0
    ensures applied ==> Accepted(upd.stream, upd.total, want) && upd.up.staged == Some(upd.stream)
    ensures !applied ==> upd.up.staged == old(upd.up.staged) || upd.up.staged == None
    ensures Accepted(upd.stream, upd.total, want) && upd.stream[0] == MAGIC ==>
      upd.up.Sound() && !old(upd.up.failed) ==> applied
  {
    ghost var digest := HexUpper(Sha256Spec.Sha256(upd.stream));
    var hex := Digest(sha);
    LoweringKeepsMatch(digest, want);
    var matches := Sha256HexMatches(hex, want, Lower(digest));
    if !matches {
      upd.Discard();
      upd.up.ClearCommand();
      return false;
    }
    applied := upd.Commit();
  }

  /** The part after Update.begin. */
  method Install(up: Updater, len: nat, memory: bool, polls: seq<Poll>, start: int, want: string)
    returns (applied: bool)
    requires up.Valid() && up.size == len && 0 < len < TWO31 && up.given == [] && !up.failed
    requires forall p :: p in polls ==> Plausible(p)
    modifies up
    ensures up.Valid() && up.size == 0
    ensures applied ==> Accepted(Streamed(polls, len, [], start), len, want)
    ensures applied ==> up.staged == Some(Streamed(polls, len, [], start))
    ensures !applied ==> up.staged == old(up.staged) || up.staged == None
    ensures Accepted(Streamed(polls, len, [], start), len, want)
      ==> up.Sound() && memory && Streamed(polls, len, [], start)[0] == MAGIC ==> applied
  {
    var upd := new HeldTailWriter(up, len);
    if !memory {
      upd.Discard();
      return false;
    }
    var sha := new Hasher();
    var complete := StreamIn(polls, start, len, sha, upd);
    if !complete { return false; }
    applied := Verdict(sha, upd, want);
  }

  /**
   downloadAndApply, from the response with its Content-Length on. An image is staged exactly when it
   arrived whole and its SHA-256 is the manifest's; otherwise nothing this download brought is staged
   and the Updater is idle again.
   */
  method DownloadAndApply(up: Updater, len: int, memory: bool, polls: seq<Poll>, start: int, want: string)
    returns (applied: bool)
    requires up.Valid() && len < TWO31
    requires forall p :: p in polls ==> Plausible(p)
    modifies up
    ensures up.Valid() && (old(up.size) == 0 ==> up.size == 0)
    ensures applied ==> len > 0 && Accepted(Streamed(polls, len, [], start), len, want)
    ensures applied ==> up.staged == Some(Streamed(polls, len, [], start))
    ensures !applied ==> up.staged == old(up.staged) || up.staged == None
    ensures up.Sound() && old(up.size) == 0 && 0 < len <= up.slot && memory
      && Accepted(Streamed(polls, len, [], start), len, want)
      && Streamed(polls, len, [], start)[0] == MAGIC
      ==> applied
  {
    if len <= 0 { return false; }
    var begun := up.Begin(len);
    if !begun { return false; }
    applied := Install(up, len, memory, polls, start, want);
  }
}
