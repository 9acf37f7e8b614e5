/**
 Staging an OTA image on the ESP8266: the Updater's contract (lib/fry_core/ota_stage_guard.h:4-16) and
 the writer that holds back the last byte.
 */
module OtaStage {
  import opened Prelude

  const MAGIC: Byte := 0xE9

  /**
   The ESP8266 Updater. Bytes collect in a buffer of `bufSize` and go to flash when it is full or the
   image is complete; the k-th flash write fails when `faults` says so. `staged` is the image the
   bootloader would copy at the next reboot.
   */
  class Updater {
    var size: nat                    // 0: idle
    var flashed: seq<Byte>
    var buf: seq<Byte>
    const bufSize: nat
    var failed: bool
    var staged: Option<seq<Byte>>
    const faults: nat -> bool
    var flashWrites: nat
    ghost var given: seq<Byte>       // what write() accepted since begin()
    const slot: nat                  // the largest image the partition holds

    ghost predicate Valid()
      reads this
    {
      && bufSize > 0 && |buf| <= bufSize
      && |flashed| + |buf| <= size
      && (!failed ==> given == flashed + buf)
      && (!failed && |given| == size ==> buf == [])
      && (!failed && |given| < size ==> |flashed| < size)
    }

    predicate IsFinished()
      reads this
    {
      |flashed| == size
    }

    /** No flash write will fail. */
    ghost predicate Sound()
    {
      forall k: nat :: !faults(k)
    }

    constructor (bufSize: nat, slot: nat, faults: nat -> bool)
      requires bufSize > 0
      ensures Valid() && size == 0 && staged == None
      ensures this.bufSize == bufSize && this.slot == slot && this.faults == faults
    {
      this.bufSize, this.slot, this.faults := bufSize, slot, faults;
      size, flashed, buf, failed, staged, flashWrites, given := 0, [], [], false, None, 0, [];
    }

    /** begin: accepted while idle, for an image the slot can hold. */
    method Begin(n: nat) returns (ok: bool)
      requires Valid()
      modifies this
      ensures Valid() && staged == old(staged)
      ensures ok <==> old(size) == 0 && 0 < n <= slot
      ensures ok ==> size == n && given == [] && !failed
      ensures !ok ==> size == old(size)
    {
      if size != 0 || n == 0 || n > slot { return false; }
      size, flashed, buf, failed, given := n, [], [], false, [];
      ok := true;
    }

    method Flush() returns (ok: bool)
      requires |buf| <= bufSize && |flashed| + |buf| <= size
      modifies this`flashed, this`buf, this`failed, this`flashWrites
      ensures ok ==> flashed == old(flashed) + old(buf) && buf == [] && failed == old(failed)
      ensures !ok ==> failed && flashed == old(flashed) && buf == old(buf)
      ensures ok <==> !faults(old(flashWrites))
    {
      ok := !faults(flashWrites);
      flashWrites := flashWrites + 1;
      if !ok { failed := true; return; }
      flashed, buf := flashed + buf, [];
    }

    /** write: all of the bytes or an error. */
    method Write(data: seq<Byte>) returns (n: nat)
      requires Valid()
      modifies this`flashed, this`buf, this`failed, this`flashWrites, this`given
      ensures Valid() && n <= |data|
      ensures n == |data| > 0 ==> !old(failed) && !failed && given == old(given) + data
      ensures |flashed| + |buf| <= old(|flashed| + |buf|) + if old(failed) then 0 else |data|
      ensures n < |data| ==> (failed || size == 0) && given == old(given)
      ensures Sound() && !old(failed) && |old(given)| + |data| <= size && size > 0 ==> n == |data| && !failed
    {
      if failed || size == 0 { return 0; }
      if |flashed| + |buf| + |data| > size { failed := true; return 0; }
      var left := data;
      ghost var all := flashed + buf + data;
      while |buf| + |left| > bufSize
        invariant |buf| <= bufSize && |flashed| + |buf| + |left| <= size && |left| <= |data|
        invariant flashed + buf + left == all && !failed
        invariant given == old(given) && size > 0
        decreases |left| + |buf|
      {
        var k := bufSize - |buf|;
        ghost var b, l := buf, left;
        buf, left := buf + left[..k], left[k..];
        assert b + l[..k] + l[k..] == b + l;
        assert flashed + buf + left == all;
        var ok := Flush();
        if !ok { return |data| - |left|; }
        assert flashed + [] + left == all;
      }
      buf, left := buf + left, [];
      assert flashed + buf == all;
      if |flashed| + |buf| == size {
        var ok := Flush();
        if !ok {
          if data == [] { return 0; }
          return |data| - 1;
        }
        assert flashed + [] == all;
      }
      given := given + data;
      n := |data|;
    }

    /** end(evenIfRemaining). An update that is unfinished, or whose flash failed, is dropped unless
        `even` forces it; a finished one is STAGED even by end(false). */
    method End(even: bool) returns (ok: bool)
      requires Valid()
      modifies this
      ensures Valid() && size == 0
      ensures ok ==> staged == Some(old(given))
      ensures !ok ==> staged == old(staged)
      // the two cases ota_stage_guard.h relies on
      ensures old(failed) || (old(|given|) < old(size) && !even) ==> !ok
      ensures ok <== !old(failed) && old(size) > 0 && old(|given|) == old(size) && old(given)[0] == MAGIC
    {
      var staging := size > 0 && !failed && (IsFinished() || even);
      assert flashed + [] == flashed;
      if staging && buf != [] { staging := Flush(); }
      ok := staging && |flashed| > 0 && flashed[0] == MAGIC;
      if ok { staged := Some(flashed); }
      size, flashed, buf, failed, given := 0, [], [], false, [];
    }

    /** eboot_command_clear. */
    method ClearCommand()
      requires Valid()
      modifies this`staged
      ensures Valid() && staged == None
    {
      staged := None;
    }
  }

  /** The stream is forwarded to the Updater, all but its last byte. */
  class HeldTailWriter {
    const up: Updater
    const total: nat
    var seen: nat
    var tail: Byte
    var held: bool
    ghost var stream: seq<Byte>      // what write() accepted

    /** The Updater is `total` long, has had at most total-1 bytes and never has the last one. */
    ghost predicate Valid()
      reads this, up
    {
      && up.Valid() && up.size == total > 0
      && seen == |stream| <= total && (held <==> seen == total)
      && |up.given| < total && |up.flashed| + |up.buf| < total
      && (held ==> tail == stream[total - 1])
      && (!up.failed ==> up.given == if held then stream[..total - 1] else stream)
    }

    constructor (up: Updater, total: nat)
      requires up.Valid() && up.size == total > 0 && up.given == [] && !up.failed
      ensures Valid() && stream == [] && this.up == up && this.total == total
    {
      this.up, this.total := up, total;
      seen, tail, held, stream := 0, 0, false, [];
    }

    method Write(data: seq<Byte>) returns (ok: bool)
      requires Valid()
      modifies this, up
      ensures Valid() && up.staged == old(up.staged)
      ensures ok ==> stream == old(stream) + data && (old(up.failed) || !up.failed)
      ensures !ok ==> stream == old(stream)
      ensures !ok ==> |old(stream)| + |data| > total || up.failed
      ensures up.Sound() && !old(up.failed) ==> !up.failed && (ok <==> |old(stream)| + |data| <= total)
    {
      if |data| == 0 { assert stream + data == stream; return true; }
      if held || seen + |data| > total { return false; }
      if seen + |data| < total {
        var n := up.Write(data);
        if n != |data| { return false; }
        seen, stream := seen + |data|, stream + data;
        return true;
      }
      if |data| > 1 {
        var n := up.Write(data[..|data| - 1]);
        if n != |data| - 1 { return false; }
      }
      tail, held := data[|data| - 1], true;
      seen, stream := seen + |data|, stream + data;
      ok := true;
    }

    /** commit: the held byte completes the stream. */
    method Commit() returns (ok: bool)
      requires Valid()
      modifies up
      ensures up.Valid() && up.size == 0
      ensures ok ==> |stream| == total && up.staged == Some(stream)
      ensures !ok ==> up.staged == old(up.staged)
      ensures up.Sound() && !old(up.failed) && |stream| == total && stream[0] == MAGIC ==> ok
    {
      if !held {
        var dropped := up.End(false);
        return false;
      }
      var n := up.Write([tail]);
      if n != 1 {
        var dropped := up.End(false);
        return false;
      }
      assert stream == stream[..total - 1] + [tail];
      ok := up.End(true);
    }

    /** discard: whatever came before, nothing is staged. */
    method Discard()
      requires Valid()
      modifies up
      ensures up.Valid() && up.size == 0 && up.staged == old(up.staged)
    {
      var staged := up.End(false);
    }
  }
}
