/**
 SHA-256 (lib/fry_core/sha256.cpp) against FIPS 180-4: the specification is the recursive message
 schedule, round function, constants and padding of sections 4.1.2, 4.2.2, 5.1.1 and 6.2.2; the class
 is the streaming implementation with its 64-byte buffer.
 */
module Sha256Spec {
  import opened Prelude

  function Ch(x: bv32, y: bv32, z: bv32): bv32 { (x & y) ^ (!x & z) }
  function Maj(x: bv32, y: bv32, z: bv32): bv32 { (x & y) ^ (x & z) ^ (y & z) }
  function Ep0(x: bv32): bv32 { x.RotateRight(2) ^ x.RotateRight(13) ^ x.RotateRight(22) }
  function Ep1(x: bv32): bv32 { x.RotateRight(6) ^ x.RotateRight(11) ^ x.RotateRight(25) }
  function Sig0(x: bv32): bv32 { x.RotateRight(7) ^ x.RotateRight(18) ^ (x >> 3) }
  function Sig1(x: bv32): bv32 { x.RotateRight(17) ^ x.RotateRight(19) ^ (x >> 10) }

  /** The rotations as the macros of the source write them, with two shifts. */
  lemma RotationsAreShifts(x: bv32)
    ensures Ep0(x) == ((x >> 2) | (x << 30)) ^ ((x >> 13) | (x << 19)) ^ ((x >> 22) | (x << 10))
    ensures Ep1(x) == ((x >> 6) | (x << 26)) ^ ((x >> 11) | (x << 21)) ^ ((x >> 25) | (x << 7))
    ensures Sig0(x) == ((x >> 7) | (x << 25)) ^ ((x >> 18) | (x << 14)) ^ (x >> 3)
    ensures Sig1(x) == ((x >> 17) | (x << 15)) ^ ((x >> 19) | (x << 13)) ^ (x >> 10)
  {
  }

  const K: seq<bv32> :=
    [0x428a2f98, 0x71374491, 0xb5c0fbcf, 0xe9b5dba5,
     0x3956c25b, 0x59f111f1, 0x923f82a4, 0xab1c5ed5] +
    [0xd807aa98, 0x12835b01, 0x243185be, 0x550c7dc3,
     0x72be5d74, 0x80deb1fe, 0x9bdc06a7, 0xc19bf174] +
    [0xe49b69c1, 0xefbe4786, 0x0fc19dc6, 0x240ca1cc,
     0x2de92c6f, 0x4a7484aa, 0x5cb0a9dc, 0x76f988da] +
    [0x983e5152, 0xa831c66d, 0xb00327c8, 0xbf597fc7,
     0xc6e00bf3, 0xd5a79147, 0x06ca6351, 0x14292967] +
    [0x27b70a85, 0x2e1b2138, 0x4d2c6dfc, 0x53380d13,
     0x650a7354, 0x766a0abb, 0x81c2c92e, 0x92722c85] +
    [0xa2bfe8a1, 0xa81a664b, 0xc24b8b70, 0xc76c51a3,
     0xd192e819, 0xd6990624, 0xf40e3585, 0x106aa070] +
    [0x19a4c116, 0x1e376c08, 0x2748774c, 0x34b0bcb5,
     0x391c0cb3, 0x4ed8aa4a, 0x5b9cca4f, 0x682e6ff3] +
    [0x748f82ee, 0x78a5636f, 0x84c87814, 0x8cc70208,
     0x90befffa, 0xa4506ceb, 0xbef9a3f7, 0xc67178f2]

  datatype Regs = Regs(a: bv32, b: bv32, c: bv32, d: bv32, e: bv32, f: bv32, g: bv32, h: bv32)

  const H0 := Regs(0x6a09e667, 0xbb67ae85, 0x3c6ef372, 0xa54ff53a,
                   0x510e527f, 0x9b05688c, 0x1f83d9ab, 0x5be0cd19)

  type Block = b: seq<Byte> | |b| == 64 witness seq(64, _ => 0)

  /** Big-endian word. */
  function Word(b0: Byte, b1: Byte, b2: Byte, b3: Byte): bv32 {
    (b0 as int * 0x100_0000 + b1 as int * 0x1_0000 + b2 as int * 0x100 + b3 as int) as bv32
  }

  function NextWord(w2: bv32, w7: bv32, w15: bv32, w16: bv32): bv32 {
    Sig1(w2) + w7 + Sig0(w15) + w16
  }

  /** The t-th word of the block itself. */
  function WordAt(b: Block, t: nat): bv32
    requires t < 16
  {
    Word(b[4 * t], b[4 * t + 1], b[4 * t + 2], b[4 * t + 3])
  }

  /** The message schedule, section 6.2.2 step 1. */
  function W(b: Block, t: nat): bv32
    requires t < 64
  {
    if t < 16 then WordAt(b, t)
    else NextWord(W(b, t - 2), W(b, t - 7), W(b, t - 15), W(b, t - 16))
  }

  /** One round, section 6.2.2 step 3. */
  function Round(r: Regs, k: bv32, w: bv32): Regs {
    var t1 := r.h + Ep1(r.e) + Ch(r.e, r.f, r.g) + k + w;
    var t2 := Ep0(r.a) + Maj(r.a, r.b, r.c);
    Regs(t1 + t2, r.a, r.b, r.c, r.d + t1, r.e, r.f, r.g)
  }

  function Rounds(h: Regs, b: Block, t: nat): Regs
    requires t <= 64
  {
    if t == 0 then h else Round(Rounds(h, b, t - 1), K[t - 1], W(b, t - 1))
  }

  function Plus(x: Regs, y: Regs): Regs {
    Regs(x.a + y.a, x.b + y.b, x.c + y.c, x.d + y.d, x.e + y.e, x.f + y.f, x.g + y.g, x.h + y.h)
  }

  function Compress(h: Regs, b: Block): Regs {
    Plus(h, Rounds(h, b, 64))
  }

  /** The compression folded over whole blocks. */
  function HashBlocks(m: seq<Byte>): Regs
    requires |m| % 64 == 0
  {
    if |m| == 0 then H0 else Compress(HashBlocks(m[..|m| - 64]), m[|m| - 64..])
  }

  // ---- padding, section 5.1.1 ------------------------------------------------------------------

  function ByteAt(n: nat, j: nat): Byte {
    if j == 0 then n % 256 else ByteAt(n / 256, j - 1)
  }

  /** n as a 64-bit big-endian integer. */
  function Length64(n: nat): seq<Byte> {
    seq(8, i requires 0 <= i < 8 => ByteAt(n, 7 - i))
  }

  function Zeros(n: nat): seq<Byte> {
    seq(n, _ => 0)
  }

  /** The number of zero bytes: the least k with |m| + 1 + k congruent to 56 modulo 64 (the only one
      below 64). */
  function ZeroCount(len: nat): (k: nat)
    ensures (len + 1 + k) % 64 == 56
    ensures k < 64
  {
    var k := (55 - len) % 64;
    assert len + 1 + k == 56 + 64 * -((55 - len) / 64);
    k
  }

  function Pad(m: seq<Byte>): (p: seq<Byte>)
    ensures |p| % 64 == 0
  {
    m + [0x80] + Zeros(ZeroCount(|m|)) + Length64(8 * |m|)
  }

  function WordBytes(w: bv32): seq<Byte> {
    [((w >> 24) & 0xff) as bv8 as Byte, ((w >> 16) & 0xff) as bv8 as Byte,
     ((w >> 8) & 0xff) as bv8 as Byte, (w & 0xff) as bv8 as Byte]
  }

  function RegsBytes(r: Regs): seq<Byte> {
    WordBytes(r.a) + WordBytes(r.b) + WordBytes(r.c) + WordBytes(r.d) +
    WordBytes(r.e) + WordBytes(r.f) + WordBytes(r.g) + WordBytes(r.h)
  }

  /** The SHA-256 digest of a message. */
  function Sha256(m: seq<Byte>): (d: seq<Byte>)
    ensures |d| == 32
  {
    RegsBytes(HashBlocks(Pad(m)))
  }
}

module Sha256Impl {
  import opened Prelude
  import opened Sha256Spec

  const TWO64 := 0x1_0000_0000_0000_0000

  class Hasher {
    var state: Regs
    const buffer: array<Byte>
    var bufferLen: nat
    var bitLen: nat
    ghost var blocks: seq<Byte>   // the whole blocks compressed so far

    ghost predicate Valid()
      reads this, buffer
    {
      && buffer.Length == 64 && bufferLen < 64
      && |blocks| % 64 == 0 && state == HashBlocks(blocks)
      && bitLen == 8 * |blocks| % TWO64
    }

    /** Every byte handed to update so far. */
    ghost function Seen(): seq<Byte>
      reads this, buffer
      requires Valid()
    {
      blocks + buffer[..bufferLen]
    }

    constructor ()
      ensures Valid() && fresh(buffer) && Seen() == []
    {
      state := H0;
      buffer := new Byte[64](_ => 0);
      bufferLen, bitLen, blocks := 0, 0, [];
    }

    /** The schedule half of transform: sixteen words of the block, then the recurrence. */
    method Schedule() returns (m: array<bv32>)
      requires buffer.Length == 64
      ensures fresh(m) && m.Length == 64
      ensures forall t :: 0 <= t < 64 ==> m[t] == W(buffer[..], t)
    {
      m := LoadWords();
      ghost var b := buffer[..];
      forall t | 0 <= t < 16
        ensures m[t] == W(b, t)
      {
        assert W(b, t) == WordAt(b, t);
      }
      Expand(b, m);
    }

    method LoadWords() returns (m: array<bv32>)
      requires buffer.Length == 64
      ensures fresh(m) && m.Length == 64
      ensures forall t :: 0 <= t < 16 ==> m[t] == WordAt(buffer[..], t)
    {
      m := new bv32[64];
      var b := buffer[..];
      for i := 0 to 16
        invariant forall t :: 0 <= t < i ==> m[t] == WordAt(b, t)
      {
        m[i] := WordAt(b, i);
      }
    }

    static method Expand(ghost b: Block, m: array<bv32>)
      requires m.Length == 64 && forall t :: 0 <= t < 16 ==> m[t] == W(b, t)
      modifies m
      ensures forall t :: 0 <= t < 64 ==> m[t] == W(b, t)
    {
      ghost var ws := seq(64, t requires 0 <= t < 64 => W(b, t));
      for i := 16 to 64
        invariant forall t :: 0 <= t < i ==> m[t] == ws[t]
      {
        assert ws[i] == NextWord(ws[i - 2], ws[i - 7], ws[i - 15], ws[i - 16]);
        m[i] := NextWord(m[i - 2], m[i - 7], m[i - 15], m[i - 16]);
      }
    }

    /** transform: fills the 64-word schedule, then runs the rounds. */
    method Transform()
      requires buffer.Length == 64
      modifies this`state
      ensures state == Compress(old(state), buffer[..])
    {
      ghost var b: Block := buffer[..];
      var m := Schedule();
      var r := state;
      for i := 0 to 64
        invariant r == Rounds(state, b, i)
      {
        r := Round(r, K[i], m[i]);
      }
      state := Plus(state, r);
    }

    /** update: one byte at a time into the buffer, compressing whenever it is full. */
    method Update(data: seq<Byte>)
      requires Valid()
      modifies this, buffer
      ensures Valid() && Seen() == old(Seen()) + data
    {
      for i := 0 to |data|
        invariant Valid() && Seen() == old(Seen()) + data[..i]
      {
        UpdateByte(data[i]);
        assert data[..i + 1] == data[..i] + [data[i]];
      }
      assert data[..|data|] == data;
    }

    method UpdateByte(x: Byte)
      requires Valid()
      modifies this, buffer
      ensures Valid() && Seen() == old(Seen()) + [x]
    {
      ghost var tail := buffer[..bufferLen];
      buffer[bufferLen] := x;
      bufferLen := bufferLen + 1;
      assert buffer[..bufferLen] == tail + [x];
      assert blocks + (tail + [x]) == blocks + tail + [x];
      if bufferLen == 64 { Flush(); }
    }

    method Flush()
      requires buffer.Length == 64 == bufferLen && |blocks| % 64 == 0
      requires state == HashBlocks(blocks) && bitLen == 8 * |blocks| % TWO64
      modifies this
      ensures Valid() && Seen() == old(blocks) + old(buffer[..64])
    {
      assert buffer[..64] == buffer[..];
      CompressBlock();
      bitLen := (bitLen + 512) % TWO64;
      bufferLen := 0;
      assert Seen() == blocks;
    }

    /** transform on the full buffer extends the compressed blocks by it. */
    method CompressBlock()
      requires buffer.Length == 64 && |blocks| % 64 == 0 && state == HashBlocks(blocks)
      modifies this`state, this`blocks
      ensures |blocks| % 64 == 0 && state == HashBlocks(blocks)
      ensures blocks == old(blocks) + buffer[..]
      ensures (8 * |old(blocks)| % TWO64 + 512) % TWO64 == 8 * |blocks| % TWO64
    {
      BlockAppended(blocks, buffer[..]);
      BitsAdded(|blocks|, 64);
      Transform();
      blocks := blocks + buffer[..];
    }

    /** finish: the padding is laid out in the buffer, over one block or two. */
    method Finish() returns (out: seq<Byte>)
      requires Valid() && |Seen()| < TWO64 / 8
      modifies this, buffer
      ensures out == Sha256(old(Seen()))
    {
      ghost var m := Seen();
      var bits := (bitLen + 8 * bufferLen) % TWO64;
      BitsTotal(|blocks|, bufferLen);
      LayOut();
      assert Pad(m) == blocks + (buffer[..56] + Length64(bits));
      WriteLength(bits);
      CompressBlock();
      out := RegsBytes(state);
    }

    /** Everything up to the length field. */
    method LayOut()
      requires Valid()
      modifies this`state, this`blocks, buffer
      ensures |blocks| % 64 == 0 && state == HashBlocks(blocks)
      ensures Pad(old(Seen())) == blocks + (buffer[..56] + Length64(8 * |old(Seen())|))
    {
      ghost var tail := buffer[..bufferLen];
      if bufferLen < 56 {
        FillFrom(56);
        PadOneBlock(blocks, tail);
      } else {
        FillFrom(64);
        assert buffer[..64] == buffer[..];
        PadTwoBlocks(blocks, tail);
        CompressBlock();
        forall i | 0 <= i < 56 { buffer[i] := 0; }
        assert buffer[..56] == Zeros(56);
      }
    }

    method WriteLength(bits: nat)
      requires buffer.Length == 64
      modifies buffer
      ensures buffer[..] == old(buffer[..56]) + Length64(bits)
    {
      for j := 0 to 8
        invariant buffer[..56] == old(buffer[..56])
        invariant forall i :: 0 <= i < j ==> buffer[63 - i] == ByteAt(bits, i)
      {
        buffer[63 - j] := ByteAt(bits, j);
      }
      forall i | 0 <= i < 8
        ensures buffer[56 + i] == Length64(bits)[i]
      {
        assert buffer[63 - (7 - i)] == ByteAt(bits, 7 - i);
      }
    }

    /** Writes 0x80 behind the pending bytes and zeros up to `end`. */
    method FillFrom(end: nat)
      requires Valid() && bufferLen < end <= 64
      modifies buffer
      ensures buffer[..end] == old(buffer[..bufferLen]) + [0x80] + Zeros(end - 1 - bufferLen)
    {
      buffer[bufferLen] := 0x80;
      var i := bufferLen + 1;
      while i < end
        invariant bufferLen + 1 <= i <= end
        invariant buffer[..bufferLen] == old(buffer[..bufferLen]) && buffer[bufferLen] == 0x80
        invariant forall k :: bufferLen < k < i ==> buffer[k] == 0
      {
        buffer[i] := 0;
        i := i + 1;
      }
    }
  }

  lemma BitsAdded(n: nat, k: nat)
    ensures (8 * n % TWO64 + 8 * k) % TWO64 == 8 * (n + k) % TWO64
  {
    assert 8 * n == 8 * n / TWO64 * TWO64 + 8 * n % TWO64;
    assert 8 * (n + k) == 8 * n / TWO64 * TWO64 + (8 * n % TWO64 + 8 * k);
  }

  /** Below 2^64 bits the counter has not wrapped. */
  lemma BitsTotal(n: nat, k: nat)
    requires n + k < TWO64 / 8
    ensures (8 * n % TWO64 + 8 * k) % TWO64 == 8 * (n + k)
  {
    BitsAdded(n, k);
  }

  lemma BlockAppended(m: seq<Byte>, b: seq<Byte>)
    requires |m| % 64 == 0 && |b| == 64
    ensures (|m| + 64) % 64 == 0 && HashBlocks(m + b) == Compress(HashBlocks(m), b)
  {
    assert (m + b)[..|m + b| - 64] == m && (m + b)[|m + b| - 64..] == b;
  }

  /** Up to 55 pending bytes: the padding and the length share their block. */
  lemma PadOneBlock(blocks: seq<Byte>, tail: seq<Byte>)
    requires |blocks| % 64 == 0 && |tail| < 56
    ensures Pad(blocks + tail)
         == blocks + (tail + [0x80] + Zeros(55 - |tail|) + Length64(8 * |blocks + tail|))
  {
    assert ZeroCount(|blocks + tail|) == 55 - |tail|;
  }

  /** 56 to 63 pending bytes: the length needs a block of its own. */
  lemma PadTwoBlocks(blocks: seq<Byte>, tail: seq<Byte>)
    requires |blocks| % 64 == 0 && 56 <= |tail| < 64
    ensures Pad(blocks + tail)
         == blocks + (tail + [0x80] + Zeros(63 - |tail|)) + (Zeros(56) + Length64(8 * |blocks + tail|))
  {
    assert ZeroCount(|blocks + tail|) == 119 - |tail|;
    assert Zeros(119 - |tail|) == Zeros(63 - |tail|) + Zeros(56);
  }
}
