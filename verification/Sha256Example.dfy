/**
 The one-block example that is published with FIPS 180-4: the SHA-256 digest of "abc". It fixes the
 constants, rotations, additions and padding of Sha256Spec by values that do not mention them. The
 schedule and the rounds are followed four words and four rounds at a time.
 */
module Sha256Example {
  import opened Prelude
  import opened Sha256Spec

  /** "abc" */
  predicate IsMessage(m: seq<Byte>) {
    m == [0x61, 0x62, 0x63]
  }

  type Quad = q: seq<bv32> | |q| == 4 witness [0, 0, 0, 0]

  // ---- the values --------------------------------------------------------------------------------

  /** The message schedule; the first four rows are the padded message. */
  const W0: Quad := [0x61626380, 0x00000000, 0x00000000, 0x00000000]
  const W1: Quad := [0x00000000, 0x00000000, 0x00000000, 0x00000000]
  const W2: Quad := [0x00000000, 0x00000000, 0x00000000, 0x00000000]
  const W3: Quad := [0x00000000, 0x00000000, 0x00000000, 0x00000018]
  const W4: Quad := [0x61626380, 0x000f0000, 0x7da86405, 0x600003c6]
  const W5: Quad := [0x3e9d7b78, 0x0183fc00, 0x12dcbfdb, 0xe2e2c38e]
  const W6: Quad := [0xc8215c1a, 0xb73679a2, 0xe5bc3909, 0x32663c5b]
  const W7: Quad := [0x9d209d67, 0xec8726cb, 0x702138a4, 0xd3b7973b]
  const W8: Quad := [0x93f5997f, 0x3b68ba73, 0xaff4ffc1, 0xf10a5c62]
  const W9: Quad := [0x0a8b3996, 0x72af830a, 0x9409e33e, 0x24641522]
  const W10: Quad := [0x9f47bf94, 0xf0a64f5a, 0x3e246a79, 0x27333ba3]
  const W11: Quad := [0x0c4763f2, 0x840abf27, 0x7a290d5d, 0x065c43da]
  const W12: Quad := [0xfb3e89cb, 0xcc7617db, 0xb9e66c34, 0xa9993667]
  const W13: Quad := [0x84badedd, 0xc21462bc, 0x1487472c, 0xb20f7a99]
  const W14: Quad := [0xef57b9cd, 0xebe6b238, 0x9fe3095e, 0x78bc8d4b]
  const W15: Quad := [0xa43fcf15, 0x668b2ff8, 0xeeaba2cc, 0x12b1edeb]

  /** The constants of the rounds, section 4.2.2. */
  const K0: Quad := [0x428a2f98, 0x71374491, 0xb5c0fbcf, 0xe9b5dba5]
  const K1: Quad := [0x3956c25b, 0x59f111f1, 0x923f82a4, 0xab1c5ed5]
  const K2: Quad := [0xd807aa98, 0x12835b01, 0x243185be, 0x550c7dc3]
  const K3: Quad := [0x72be5d74, 0x80deb1fe, 0x9bdc06a7, 0xc19bf174]
  const K4: Quad := [0xe49b69c1, 0xefbe4786, 0x0fc19dc6, 0x240ca1cc]
  const K5: Quad := [0x2de92c6f, 0x4a7484aa, 0x5cb0a9dc, 0x76f988da]
  const K6: Quad := [0x983e5152, 0xa831c66d, 0xb00327c8, 0xbf597fc7]
  const K7: Quad := [0xc6e00bf3, 0xd5a79147, 0x06ca6351, 0x14292967]
  const K8: Quad := [0x27b70a85, 0x2e1b2138, 0x4d2c6dfc, 0x53380d13]
  const K9: Quad := [0x650a7354, 0x766a0abb, 0x81c2c92e, 0x92722c85]
  const K10: Quad := [0xa2bfe8a1, 0xa81a664b, 0xc24b8b70, 0xc76c51a3]
  const K11: Quad := [0xd192e819, 0xd6990624, 0xf40e3585, 0x106aa070]
  const K12: Quad := [0x19a4c116, 0x1e376c08, 0x2748774c, 0x34b0bcb5]
  const K13: Quad := [0x391c0cb3, 0x4ed8aa4a, 0x5b9cca4f, 0x682e6ff3]
  const K14: Quad := [0x748f82ee, 0x78a5636f, 0x84c87814, 0x8cc70208]
  const K15: Quad := [0x90befffa, 0xa4506ceb, 0xbef9a3f7, 0xc67178f2]

  /** The registers before the first round and after every fourth one. */
  const S0 := Regs(0x6a09e667, 0xbb67ae85, 0x3c6ef372, 0xa54ff53a,
                  0x510e527f, 0x9b05688c, 0x1f83d9ab, 0x5be0cd19)
  const S1 := Regs(0xd550f666, 0xc8c347a7, 0x5a6ad9ad, 0x5d6aebcd,
                  0x24e00850, 0xf92939eb, 0x78ce7989, 0xfa2a4622)
  const S2 := Regs(0x85a07b5f, 0xe5030380, 0x2b4209f5, 0x04409a6a,
                  0x0c657a79, 0x9b27a401, 0x714260ad, 0x43ada245)
  const S3 := Regs(0xf71fc5a9, 0x4798a3f4, 0x8c87346b, 0x8e04ecb9,
                  0x816fd6e9, 0x436b23e8, 0x1cc92596, 0x32ca2d8c)
  const S4 := Regs(0xb0fa238e, 0xc0645fde, 0xd932eb16, 0x87912990,
                  0x07590dcd, 0x0b92f20c, 0x745a48de, 0x1e578218)
  const S5 := Regs(0xe1f20c33, 0xfe777bbf, 0xc2fbd9d1, 0x21da9a9b,
                  0xb0638179, 0xcc899961, 0x846ee454, 0x8034229c)
  const S6 := Regs(0xc5d53d8d, 0xa7a3623f, 0xc2606d6d, 0x9dc68b63,
                  0xaa47c347, 0x49f5114a, 0xe1257970, 0x8ada8930)
  const S7 := Regs(0x77d37528, 0xb62ec4bc, 0xcde8037d, 0x1c2c2838,
                  0xedffbff8, 0xc74c6516, 0x14383d8e, 0x2823ef91)
  const S8 := Regs(0x73b33bf5, 0xea992a22, 0xa0060b30, 0x363482c9,
                  0xba591112, 0x0109ab3a, 0xade79437, 0x6112a3b7)
  const S9 := Regs(0x65a0cfe4, 0xa9a7738c, 0xfe604df5, 0x98e12507,
                  0xf4b002d6, 0x085f3833, 0x59249dd3, 0x9cd9f5f6)
  const S10 := Regs(0x79ea687a, 0x6dc57a8a, 0x34df1604, 0x41a65cb1,
                   0x1efbc0a0, 0xf0781bc8, 0xa507a53d, 0x0772a26b)
  const S11 := Regs(0x9d4baf93, 0x17aa0dfe, 0xdf46652f, 0xd6670766,
                   0xfda24c2e, 0xdecd4715, 0x838b2711, 0x26352d63)
  const S12 := Regs(0x4172328d, 0xa14c14b0, 0x72ab4b91, 0x26628815,
                   0xfecf0bc6, 0xd57b94a9, 0xb7755da1, 0xa80f11f0)
  const S13 := Regs(0x886e7a22, 0x7a0508a1, 0xf11bfaa8, 0x05757ceb,
                   0x49231c1e, 0x52f1ccf7, 0x6e5c390c, 0xbd714038)
  const S14 := Regs(0x38cc9913, 0x3ec45cdb, 0xf5702fdb, 0x101fd28f,
                   0x54cb266b, 0xe50e1b4f, 0x9f4787c3, 0x529e7d00)
  const S15 := Regs(0xb6ae8fff, 0xffb70472, 0xc062d46f, 0xfcd1887b,
                   0xb21bad3d, 0x6d83bfc6, 0x7e44008e, 0x9b5e906c)
  const S16 := Regs(0x506e3058, 0xd39a2165, 0x04d24d6c, 0xb85e2ce9,
                   0x5ef50f24, 0xfb121210, 0x948d25b6, 0x961f4894)

  function NextFour(x: Quad, y: Quad, z: Quad, v: Quad): Quad {
    var a := NextWord(v[2], z[1], x[1], x[0]);
    var b := NextWord(v[3], z[2], x[2], x[1]);
    [a, b, NextWord(a, z[3], x[3], x[2]), NextWord(b, v[0], y[0], x[3])]
  }

  function Four(r: Regs, k: Quad, w: Quad): Regs {
    Round(Round(Round(Round(r, k[0], w[0]), k[1], w[1]), k[2], w[2]), k[3], w[3])
  }

  /** The schedule, four words at a time. */
  lemma KnownWords()
    ensures NextFour(W0, W1, W2, W3) == W4
    ensures NextFour(W1, W2, W3, W4) == W5
    ensures NextFour(W2, W3, W4, W5) == W6
    ensures NextFour(W3, W4, W5, W6) == W7
    ensures NextFour(W4, W5, W6, W7) == W8
    ensures NextFour(W5, W6, W7, W8) == W9
    ensures NextFour(W6, W7, W8, W9) == W10
    ensures NextFour(W7, W8, W9, W10) == W11
    ensures NextFour(W8, W9, W10, W11) == W12
    ensures NextFour(W9, W10, W11, W12) == W13
    ensures NextFour(W10, W11, W12, W13) == W14
    ensures NextFour(W11, W12, W13, W14) == W15
  {
  }

  /** The rounds, four at a time. */
  lemma KnownRounds0()
    ensures Four(S0, K0, W0) == S1
    ensures Four(S1, K1, W1) == S2
    ensures Four(S2, K2, W2) == S3
    ensures Four(S3, K3, W3) == S4
  {
  }

  lemma KnownRounds1()
    ensures Four(S4, K4, W4) == S5
    ensures Four(S5, K5, W5) == S6
    ensures Four(S6, K6, W6) == S7
    ensures Four(S7, K7, W7) == S8
  {
  }

  lemma KnownRounds2()
    ensures Four(S8, K8, W8) == S9
    ensures Four(S9, K9, W9) == S10
    ensures Four(S10, K10, W10) == S11
    ensures Four(S11, K11, W11) == S12
  {
  }

  lemma KnownRounds3()
    ensures Four(S12, K12, W12) == S13
    ensures Four(S13, K13, W13) == S14
    ensures Four(S14, K14, W14) == S15
    ensures Four(S15, K15, W15) == S16
  {
  }

  /** The constants are those of the table. */
  lemma KnownConstants()
    ensures K[0..4] == K0
    ensures K[4..8] == K1
    ensures K[8..12] == K2
    ensures K[12..16] == K3
    ensures K[16..20] == K4
    ensures K[20..24] == K5
    ensures K[24..28] == K6
    ensures K[28..32] == K7
    ensures K[32..36] == K8
    ensures K[36..40] == K9
    ensures K[40..44] == K10
    ensures K[44..48] == K11
    ensures K[48..52] == K12
    ensures K[52..56] == K13
    ensures K[56..60] == K14
    ensures K[60..64] == K15
  {
  }

  // ---- the schedule and the rounds of any block --------------------------------------------------

  /** The schedule and the registers before every round, as sequences. */
  ghost predicate IsRun(b: Block, ws: seq<bv32>, rs: seq<Regs>) {
    && |ws| == 64 && |rs| == 65
    && (forall t {:trigger W(b, t)} :: 0 <= t < 64 ==> ws[t] == W(b, t))
    && (forall t {:trigger Rounds(H0, b, t)} :: 0 <= t <= 64 ==> rs[t] == Rounds(H0, b, t))
  }

  predicate Row(ws: seq<bv32>, n: nat, w: Quad) {
    n + 4 <= |ws| && ws[n] == w[0] && ws[n + 1] == w[1] && ws[n + 2] == w[2] && ws[n + 3] == w[3]
  }

  lemma NextIs(b: Block, ws: seq<bv32>, rs: seq<Regs>, t: nat)
    requires 16 <= t < 64 && IsRun(b, ws, rs)
    ensures ws[t] == NextWord(ws[t - 2], ws[t - 7], ws[t - 15], ws[t - 16])
  {
    assert W(b, t) == NextWord(W(b, t - 2), W(b, t - 7), W(b, t - 15), W(b, t - 16));
  }

  lemma FourWords(b: Block, ws: seq<bv32>, rs: seq<Regs>, n: nat, x: Quad, y: Quad, z: Quad, v: Quad, next: Quad)
    requires 16 <= n && n + 4 <= 64 && IsRun(b, ws, rs)
    requires Row(ws, n - 16, x) && Row(ws, n - 12, y) && Row(ws, n - 8, z) && Row(ws, n - 4, v)
    requires NextFour(x, y, z, v) == next
    ensures Row(ws, n, next)
  {
    NextIs(b, ws, rs, n);
    NextIs(b, ws, rs, n + 1);
    NextIs(b, ws, rs, n + 2);
    NextIs(b, ws, rs, n + 3);
  }

  lemma OneRound(b: Block, ws: seq<bv32>, rs: seq<Regs>, n: nat)
    requires n < 64 && IsRun(b, ws, rs)
    ensures rs[n + 1] == Round(rs[n], K[n], ws[n])
  {
    assert Rounds(H0, b, n + 1) == Round(Rounds(H0, b, n), K[n], W(b, n));
  }

  lemma FourRounds(b: Block, ws: seq<bv32>, rs: seq<Regs>, n: nat, s: Regs, k: Quad, w: Quad, next: Regs)
    requires n + 4 <= 64 && IsRun(b, ws, rs) && rs[n] == s && Row(ws, n, w)
    requires K[n..n + 4] == k && Four(s, k, w) == next
    ensures rs[n + 4] == next
  {
    OneRound(b, ws, rs, n);
    OneRound(b, ws, rs, n + 1);
    OneRound(b, ws, rs, n + 2);
    OneRound(b, ws, rs, n + 3);
    assert k[0] == K[n] && k[1] == K[n + 1] && k[2] == K[n + 2] && k[3] == K[n + 3];
  }

  // ---- the example's block -----------------------------------------------------------------------

  /** The padded message: its three bytes, the bit behind them, zeros, and its length of 24 bits. */
  predicate IsAbc(b: Block) {
    && b[0] == 0x61 && b[1] == 0x62 && b[2] == 0x63 && b[3] == 0x80
    && (forall j :: 4 <= j < 63 ==> b[j] == 0) && b[63] == 24
  }

  lemma PadAbc(m: seq<Byte>)
    requires IsMessage(m)
    ensures |Pad(m)| == 64 && IsAbc(Pad(m))
  {
    assert ZeroCount(3) == 52;
    var length := Length64(24);
    assert Pad(m) == m + [0x80] + Zeros(52) + length;
    forall j | 56 <= j < 63 ensures Pad(m)[j] == 0 {
      assert Pad(m)[j] == length[j - 56] == ByteAt(24, 63 - j);
      ZeroBytes(62 - j);
    }
    assert Pad(m)[63] == length[7] == ByteAt(24, 0);
  }

  lemma {:induction false} ZeroBytes(i: nat)
    ensures ByteAt(0, i) == 0 && ByteAt(24, i + 1) == 0
  {
    if i > 0 { ZeroBytes(i - 1); }
  }

  lemma WordIs(b0: Byte, b1: Byte, b2: Byte, b3: Byte, n: U32)
    requires n == b0 as int * 0x100_0000 + b1 as int * 0x1_0000 + b2 as int * 0x100 + b3 as int
    ensures Word(b0, b1, b2, b3) == n as bv32
  {
  }

  lemma EndWords()
    ensures Word(0x61, 0x62, 0x63, 0x80) == W0[0] && Word(0, 0, 0, 24) == W3[3] && Word(0, 0, 0, 0) == 0
  {
    WordIs(0x61, 0x62, 0x63, 0x80, 0x61626380);
    WordIs(0, 0, 0, 24, 24);
    WordIs(0, 0, 0, 0, 0);
  }

  lemma FirstWords(b: Block, ws: seq<bv32>, rs: seq<Regs>)
    requires IsAbc(b) && IsRun(b, ws, rs)
    ensures Row(ws, 0, W0) && Row(ws, 4, W1) && Row(ws, 8, W2) && Row(ws, 12, W3)
  {
    EndWords();
    forall t | 0 <= t < 16
      ensures ws[t] == Word(b[4 * t], b[4 * t + 1], b[4 * t + 2], b[4 * t + 3])
    {
      assert W(b, t) == WordAt(b, t);
    }
  }

  lemma Schedule(b: Block, ws: seq<bv32>, rs: seq<Regs>)
    requires IsAbc(b) && IsRun(b, ws, rs)
    ensures Row(ws, 0, W0) && Row(ws, 4, W1) && Row(ws, 8, W2) && Row(ws, 12, W3)
    ensures Row(ws, 16, W4) && Row(ws, 20, W5) && Row(ws, 24, W6) && Row(ws, 28, W7)
    ensures Row(ws, 32, W8) && Row(ws, 36, W9) && Row(ws, 40, W10) && Row(ws, 44, W11)
    ensures Row(ws, 48, W12) && Row(ws, 52, W13) && Row(ws, 56, W14) && Row(ws, 60, W15)
  {
    FirstWords(b, ws, rs);
    KnownWords();
    FourWords(b, ws, rs, 16, W0, W1, W2, W3, W4);
    FourWords(b, ws, rs, 20, W1, W2, W3, W4, W5);
    FourWords(b, ws, rs, 24, W2, W3, W4, W5, W6);
    FourWords(b, ws, rs, 28, W3, W4, W5, W6, W7);
    FourWords(b, ws, rs, 32, W4, W5, W6, W7, W8);
    FourWords(b, ws, rs, 36, W5, W6, W7, W8, W9);
    FourWords(b, ws, rs, 40, W6, W7, W8, W9, W10);
    FourWords(b, ws, rs, 44, W7, W8, W9, W10, W11);
    FourWords(b, ws, rs, 48, W8, W9, W10, W11, W12);
    FourWords(b, ws, rs, 52, W9, W10, W11, W12, W13);
    FourWords(b, ws, rs, 56, W10, W11, W12, W13, W14);
    FourWords(b, ws, rs, 60, W11, W12, W13, W14, W15);
  }

  lemma Rounds0(b: Block, ws: seq<bv32>, rs: seq<Regs>)
    requires IsAbc(b) && IsRun(b, ws, rs) && rs[0] == S0
    ensures rs[16] == S4
  {
    Schedule(b, ws, rs);
    KnownConstants();
    KnownRounds0();
    FourRounds(b, ws, rs, 0, S0, K0, W0, S1);
    FourRounds(b, ws, rs, 4, S1, K1, W1, S2);
    FourRounds(b, ws, rs, 8, S2, K2, W2, S3);
    FourRounds(b, ws, rs, 12, S3, K3, W3, S4);
  }

  lemma Rounds16(b: Block, ws: seq<bv32>, rs: seq<Regs>)
    requires IsAbc(b) && IsRun(b, ws, rs) && rs[16] == S4
    ensures rs[32] == S8
  {
    Schedule(b, ws, rs);
    KnownConstants();
    KnownRounds1();
    FourRounds(b, ws, rs, 16, S4, K4, W4, S5);
    FourRounds(b, ws, rs, 20, S5, K5, W5, S6);
    FourRounds(b, ws, rs, 24, S6, K6, W6, S7);
    FourRounds(b, ws, rs, 28, S7, K7, W7, S8);
  }

  lemma Rounds32(b: Block, ws: seq<bv32>, rs: seq<Regs>)
    requires IsAbc(b) && IsRun(b, ws, rs) && rs[32] == S8
    ensures rs[48] == S12
  {
    Schedule(b, ws, rs);
    KnownConstants();
    KnownRounds2();
    FourRounds(b, ws, rs, 32, S8, K8, W8, S9);
    FourRounds(b, ws, rs, 36, S9, K9, W9, S10);
    FourRounds(b, ws, rs, 40, S10, K10, W10, S11);
    FourRounds(b, ws, rs, 44, S11, K11, W11, S12);
  }

  lemma Rounds48(b: Block, ws: seq<bv32>, rs: seq<Regs>)
    requires IsAbc(b) && IsRun(b, ws, rs) && rs[48] == S12
    ensures rs[64] == S16
  {
    Schedule(b, ws, rs);
    KnownConstants();
    KnownRounds3();
    FourRounds(b, ws, rs, 48, S12, K12, W12, S13);
    FourRounds(b, ws, rs, 52, S13, K13, W13, S14);
    FourRounds(b, ws, rs, 56, S14, K14, W14, S15);
    FourRounds(b, ws, rs, 60, S15, K15, W15, S16);
  }

  /** The registers after the last addition. */
  const FINAL := Regs(0xba7816bf, 0x8f01cfea, 0x414140de, 0x5dae2223,
                      0xb00361a3, 0x96177a9c, 0xb410ff61, 0xf20015ad)

  lemma LastSum()
    ensures Plus(H0, S16) == FINAL
  {
  }

  lemma LastBytes()
    ensures RegsBytes(FINAL) == DIGEST
  {
  }

  const DIGEST: seq<Byte> :=
      [0xba, 0x78, 0x16, 0xbf, 0x8f, 0x01, 0xcf, 0xea,
       0x41, 0x41, 0x40, 0xde, 0x5d, 0xae, 0x22, 0x23,
       0xb0, 0x03, 0x61, 0xa3, 0x96, 0x17, 0x7a, 0x9c,
       0xb4, 0x10, 0xff, 0x61, 0xf2, 0x00, 0x15, 0xad]

  /** The digest of "abc". */
  lemma DigestOfAbc(m: seq<Byte>)
    requires IsMessage(m)
    ensures Sha256(m) == DIGEST
  {
    PadAbc(m);
    var b: Block := Pad(m);
    var ws := seq(64, t requires 0 <= t < 64 => W(b, t));
    var rs := seq(65, t requires 0 <= t <= 64 => Rounds(H0, b, t));
    assert rs[0] == Rounds(H0, b, 0) == S0;
    Rounds0(b, ws, rs);
    Rounds16(b, ws, rs);
    Rounds32(b, ws, rs);
    Rounds48(b, ws, rs);
    OneBlock(b);
    LastSum();
    LastBytes();
  }

  lemma OneBlock(b: Block)
    ensures HashBlocks(b) == Plus(H0, Rounds(H0, b, 64))
  {
    assert b[..0] == [] && b[0..] == b;
  }
}
