/**
 The base64 text of a 32-byte WireGuard key (lib/fry_core/wg_provision.cpp:10-20, 40-85): the texts
 the check accepts are exactly the texts of keys, one each.
 */
module WgKey {
  import opened Prelude

  type Sextet = n: int | 0 <= n < 64

  /** The standard alphabet, in its order: A-Z, a-z, 0-9, +, /. */
  function Char(n: Sextet): char {
    if n < 26 then ('A' as int + n) as char
    else if n < 52 then ('a' as int + (n - 26)) as char
    else if n < 62 then ('0' as int + (n - 52)) as char
    else if n == 62 then '+' else '/'
  }

  /** The position of c in the alphabet; -1 when it is not there. */
  function Value(c: char): (v: int)
    ensures v == -1 || (0 <= v < 64 && Char(v) == c)
  {
    if 'A' <= c <= 'Z' then c as int - 'A' as int
    else if 'a' <= c <= 'z' then c as int - 'a' as int + 26
    else if '0' <= c <= '9' then c as int - '0' as int + 52
    else if c == '+' then 62 else if c == '/' then 63 else -1
  }

  lemma ValueOfChar(n: Sextet)
    ensures Value(Char(n)) == n
  {
  }

  /** b64Value: a search through the alphabet. */
  method B64Value(c: char) returns (v: int)
    ensures v == Value(c)
  {
    for i := 0 to 64
      invariant forall k: Sextet :: k < i ==> Char(k) != c
    {
      if Char(i) == c {
        ValueOfChar(i);
        return i;
      }
    }
    v := -1;
  }

  lemma Quotient(v: nat, q: nat, r: nat, m: nat)
    requires m > 0 && v == q * m + r && r < m
    ensures v / m == q && v % m == r
  {
    if v / m < q {
      Spaced(v / m, q, m);
    } else if v / m > q {
      Spaced(q, v / m, m);
    }
  }

  lemma {:induction false} Spaced(q: int, r: int, m: nat)
    requires q < r
    ensures q * m + m <= r * m
    decreases r - q
  {
    assert r * m == (r - 1) * m + m;
    if q < r - 1 { Spaced(q, r - 1, m); }
  }

  // ---- three bytes, four sextets ---------------------------------------------------------------

  datatype Four = Four(w: Sextet, x: Sextet, y: Sextet, z: Sextet)
  datatype Three = Three(a: Byte, b: Byte, c: Byte)

  function ToFour(t: Three): Four {
    Four(t.a / 4, t.a % 4 * 16 + t.b / 16, t.b % 16 * 4 + t.c / 64, t.c % 64)
  }

  function ToThree(f: Four): Three {
    Three(f.w * 4 + f.x / 16, f.x % 16 * 16 + f.y / 4, f.y % 4 * 64 + f.z)
  }

  lemma FourThree(f: Four)
    ensures ToFour(ToThree(f)) == f
  {
    var x1, x0, y1, y0 := f.x / 16, f.x % 16, f.y / 4, f.y % 4;
    assert f.x == x1 * 16 + x0 && f.y == y1 * 4 + y0;
    var t := ToThree(f);
    assert t.a / 4 == f.w && t.a % 4 == x1 by { Quotient(t.a, f.w, x1, 4); }
    assert t.b / 16 == x0 && t.b % 16 == y1 by { Quotient(t.b, x0, y1, 16); }
    assert t.c / 64 == y0 && t.c % 64 == f.z by { Quotient(t.c, y0, f.z, 64); }
  }

  lemma ThreeFour(t: Three)
    ensures ToThree(ToFour(t)) == t
  {
    var a1, a0, b1, b0, c1, c0 := t.a / 4, t.a % 4, t.b / 16, t.b % 16, t.c / 64, t.c % 64;
    assert t.a == a1 * 4 + a0 && t.b == b1 * 16 + b0 && t.c == c1 * 64 + c0;
  }

  /** The last group of two bytes leaves two zero bits. */
  lemma TailBits(f: Four)
    requires f.z == 0
    ensures ToThree(f).c == 0 <==> f.y % 4 == 0
  {
  }

  lemma TailSextet(t: Three)
    requires t.c == 0
    ensures ToFour(t).z == 0 && ToFour(t).y % 4 == 0
  {
  }

  // ---- whole keys ------------------------------------------------------------------------------

  /** The sextets of g groups of three bytes and a tail of two. */
  function Sextets(key: seq<Byte>, g: nat): (sx: seq<Sextet>)
    requires |key| == 3 * g + 2
    ensures |sx| == 4 * g + 3
    decreases g
  {
    if g == 0 then
      var f := ToFour(Three(key[0], key[1], 0));
      [f.w, f.x, f.y]
    else
      var f := ToFour(Three(key[0], key[1], key[2]));
      [f.w, f.x, f.y, f.z] + Sextets(key[3..], g - 1)
  }

  function Bytes(sx: seq<Sextet>, g: nat): (key: seq<Byte>)
    requires |sx| == 4 * g + 3
    ensures |key| == 3 * g + 2
    decreases g
  {
    if g == 0 then
      var t := ToThree(Four(sx[0], sx[1], sx[2], 0));
      [t.a, t.b]
    else
      var t := ToThree(Four(sx[0], sx[1], sx[2], sx[3]));
      [t.a, t.b, t.c] + Bytes(sx[4..], g - 1)
  }

  lemma BytesOfFour(f: Four, rest: seq<Sextet>, g: nat)
    requires |rest| == 4 * g + 3
    ensures var t := ToThree(f);
      Bytes([f.w, f.x, f.y, f.z] + rest, g + 1) == [t.a, t.b, t.c] + Bytes(rest, g)
  {
    assert ([f.w, f.x, f.y, f.z] + rest)[4..] == rest;
  }

  lemma SextetsOfThree(t: Three, rest: seq<Byte>, g: nat)
    requires |rest| == 3 * g + 2
    ensures var f := ToFour(t);
      Sextets([t.a, t.b, t.c] + rest, g + 1) == [f.w, f.x, f.y, f.z] + Sextets(rest, g)
  {
    assert ([t.a, t.b, t.c] + rest)[3..] == rest;
  }

  lemma {:induction false} BytesOfSextets(key: seq<Byte>, g: nat)
    requires |key| == 3 * g + 2
    ensures Bytes(Sextets(key, g), g) == key
    decreases g
  {
    if g == 0 {
      ThreeFour(Three(key[0], key[1], 0));
      TailSextet(Three(key[0], key[1], 0));
    } else {
      var t, rest := Three(key[0], key[1], key[2]), Sextets(key[3..], g - 1);
      ThreeFour(t);
      BytesOfSextets(key[3..], g - 1);
      BytesOfFour(ToFour(t), rest, g - 1);
      assert key == [t.a, t.b, t.c] + key[3..];
    }
  }

  lemma {:induction false} LastSextet(key: seq<Byte>, g: nat)
    requires |key| == 3 * g + 2
    ensures Sextets(key, g)[4 * g + 2] % 4 == 0
    decreases g
  {
    if g == 0 {
      TailSextet(Three(key[0], key[1], 0));
    } else {
      LastSextet(key[3..], g - 1);
    }
  }

  lemma {:induction false} SextetsOfBytes(sx: seq<Sextet>, g: nat)
    requires |sx| == 4 * g + 3 && sx[4 * g + 2] % 4 == 0
    ensures Sextets(Bytes(sx, g), g) == sx
    decreases g
  {
    if g == 0 {
      var f := Four(sx[0], sx[1], sx[2], 0);
      FourThree(f);
      TailBits(f);
    } else {
      var f := Four(sx[0], sx[1], sx[2], sx[3]);
      FourThree(f);
      SextetsOfBytes(sx[4..], g - 1);
      SextetsOfThree(ToThree(f), Bytes(sx[4..], g - 1), g - 1);
    }
  }

  function Chars(sx: seq<Sextet>): (s: string)
    ensures |s| == |sx|
  {
    if sx == [] then "" else Chars(sx[..|sx| - 1]) + [Char(sx[|sx| - 1])]
  }

  lemma {:induction false} CharAt(sx: seq<Sextet>, i: nat)
    requires i < |sx|
    ensures Chars(sx)[i] == Char(sx[i])
  {
    if i < |sx| - 1 { CharAt(sx[..|sx| - 1], i); }
  }

  /** The groups of a key, all but its last two bytes. */
  function Groups(key: seq<Byte>): (g: nat)
    requires |key| % 3 == 2
    ensures |key| == 3 * g + 2
  {
    |key| / 3
  }

  /** The text of a key. */
  function Text(key: seq<Byte>): string
    requires |key| % 3 == 2
  {
    Chars(Sextets(key, Groups(key))) + "="
  }

  /** Characters of the alphabet, the last of them a multiple of four, and a '='. */
  predicate Accepted(s: string) {
    var n := |s| - 1;
    n > 0 && s[n] == '=' && (forall i :: 0 <= i < n ==> Value(s[i]) >= 0) && Value(s[n - 1]) % 4 == 0
  }

  predicate IsWgKeyB64(s: string) { |s| == 44 && Accepted(s) }

  function Values(s: string): seq<Sextet>
    requires forall i :: 0 <= i < |s| ==> Value(s[i]) >= 0
  {
    seq(|s|, i requires 0 <= i < |s| => Value(s[i]))
  }

  lemma {:induction false} CharsOfValues(s: string)
    requires forall i :: 0 <= i < |s| ==> Value(s[i]) >= 0
    ensures Chars(Values(s)) == s
  {
    if s != "" {
      CharsOfValues(s[..|s| - 1]);
      assert Values(s)[..|s| - 1] == Values(s[..|s| - 1]);
    }
  }

  lemma KeyTextAccepted(key: seq<Byte>)
    requires |key| % 3 == 2
    ensures var s := Text(key);
      Accepted(s) && |s| == 4 * Groups(key) + 4 && Values(s[..|s| - 1]) == Sextets(key, Groups(key))
  {
    var sx, s := Sextets(key, Groups(key)), Text(key);
    LastSextet(key, Groups(key));
    forall i | 0 <= i < |sx|
      ensures Value(s[i]) == sx[i]
    {
      CharAt(sx, i);
      ValueOfChar(sx[i]);
    }
  }

  lemma TextOfBytes(sx: seq<Sextet>, g: nat)
    requires |sx| == 4 * g + 3 && sx[4 * g + 2] % 4 == 0
    ensures Text(Bytes(sx, g)) == Chars(sx) + "="
  {
    SextetsOfBytes(sx, g);
    assert Groups(Bytes(sx, g)) == g;
  }

  lemma AcceptedIsKeyText(s: string, g: nat) returns (key: seq<Byte>)
    requires Accepted(s) && |s| == 4 * g + 4
    ensures |key| == 3 * g + 2 && Text(key) == s
  {
    var front, sx := FrontValues(s, g);
    key := Bytes(sx, g);
    TextOfBytes(sx, g);
  }

  lemma FrontValues(s: string, g: nat) returns (front: string, sx: seq<Sextet>)
    requires Accepted(s) && |s| == 4 * g + 4
    ensures |sx| == 4 * g + 3 && sx[4 * g + 2] % 4 == 0
    ensures Chars(sx) == front && s == front + "="
  {
    front := s[..4 * g + 3];
    sx := Values(front);
    CharsOfValues(front);
    assert front[4 * g + 2] == s[|s| - 2];
  }

  /** A text is accepted exactly when it is the text of a 32-byte key. */
  lemma AcceptedIffKeyText(s: string)
    ensures IsWgKeyB64(s) <==> exists key: seq<Byte> :: |key| == 32 && Text(key) == s
  {
    if IsWgKeyB64(s) {
      var key := AcceptedIsKeyText(s, (|s| - 4) / 4);
    }
    if key: seq<Byte> :| |key| == 32 && Text(key) == s {
      KeyTextAccepted(key);
    }
  }

  /** Two keys never share a text. */
  lemma KeyTextsDiffer(k: seq<Byte>, l: seq<Byte>)
    requires |k| == |l| && |k| % 3 == 2 && Text(k) == Text(l)
    ensures k == l
  {
    KeyTextAccepted(k);
    KeyTextAccepted(l);
    BytesOfSextets(k, Groups(k));
    BytesOfSextets(l, Groups(l));
  }

  // ---- the loops -------------------------------------------------------------------------------

  /** The shifts and masks of a 24-bit group. */
  lemma ShiftsAndMasks(t: Three, v: nat)
    requires v == t.a * 0x1_0000 + t.b as int * 0x100 + t.c as int
    ensures v / 0x4_0000 % 64 == ToFour(t).w && v / 0x1000 % 64 == ToFour(t).x
    ensures v / 64 % 64 == ToFour(t).y && v % 64 == ToFour(t).z
  {
    ThreeFour(t);
    var f := ToFour(t);
    var q := f.w * 64 + f.x;
    var p := q * 64 + f.y;
    assert t.a == f.w * 4 + f.x / 16 && t.b == f.x % 16 * 16 + f.y / 4 && t.c == f.y % 4 * 64 + f.z;
    assert v == p * 64 + f.z;
    Quotient(v, p, f.z, 64);
    Quotient(p, q, f.y, 64);
    Quotient(v, q, f.y * 64 + f.z, 0x1000);
    Quotient(q, f.w, f.x, 64);
    Quotient(v, f.w, f.x * 0x1000 + f.y * 64 + f.z, 0x4_0000);
    Quotient(f.w, 0, f.w, 64);
  }

  lemma {:induction false} CharsAppend(xs: seq<Sextet>, ys: seq<Sextet>)
    ensures Chars(xs + ys) == Chars(xs) + Chars(ys)
  {
    if ys == [] {
      assert xs + ys == xs;
    } else {
      assert (xs + ys)[..|xs + ys| - 1] == xs + ys[..|ys| - 1];
      CharsAppend(xs, ys[..|ys| - 1]);
    }
  }

  lemma CharsOfFour(f: Four)
    ensures Chars([f.w, f.x, f.y, f.z]) == GroupText(f)
    ensures Chars([f.w, f.x, f.y]) == [Char(f.w), Char(f.x), Char(f.y)]
  {
    CharAt([f.w, f.x, f.y, f.z], 0);
    CharAt([f.w, f.x, f.y, f.z], 1);
    CharAt([f.w, f.x, f.y, f.z], 2);
    CharAt([f.w, f.x, f.y, f.z], 3);
    CharAt([f.w, f.x, f.y], 0);
    CharAt([f.w, f.x, f.y], 1);
    CharAt([f.w, f.x, f.y], 2);
  }

  function GroupText(f: Four): string {
    [Char(f.w), Char(f.x), Char(f.y), Char(f.z)]
  }

  /** One turn of the loop: three bytes become four characters. */
  method PutGroup(t: Three, out: array<char>, oi: nat)
    requires oi + 4 <= out.Length
    modifies out
    ensures out[..oi + 4] == old(out[..oi]) + GroupText(ToFour(t))
  {
    var v := t.a * 0x1_0000 + t.b as int * 0x100 + t.c as int;
    ShiftsAndMasks(t, v);
    ghost var done := out[..oi];
    out[oi], out[oi + 1], out[oi + 2], out[oi + 3] :=
      Char(v / 0x4_0000 % 64), Char(v / 0x1000 % 64), Char(v / 64 % 64), Char(v % 64);
    assert out[..oi + 4] == done + GroupText(ToFour(t));
  }

  /** `done` is the text of all but the last g groups and the tail, which begin at i. */
  ghost predicate Remaining(key: seq<Byte>, i: nat, g: nat, done: string) {
    |key| % 3 == 2 && |key| == i + 3 * g + 2 && done + Chars(Sextets(key[i..], g)) + "=" == Text(key)
  }

  lemma AllRemaining(key: seq<Byte>)
    requires |key| % 3 == 2
    ensures Remaining(key, 0, Groups(key), "")
  {
    assert key[0..] == key;
    assert "" + Chars(Sextets(key, Groups(key))) == Chars(Sextets(key, Groups(key)));
  }

  lemma SextetsStep(key: seq<Byte>, i: nat, g: nat)
    requires |key| == i + 3 * g + 5
    ensures var f := ToFour(Three(key[i], key[i + 1], key[i + 2]));
      Chars(Sextets(key[i..], g + 1)) == GroupText(f) + Chars(Sextets(key[i + 3..], g))
  {
    var f := ToFour(Three(key[i], key[i + 1], key[i + 2]));
    assert key[i..][3..] == key[i + 3..];
    CharsAppend([f.w, f.x, f.y, f.z], Sextets(key[i + 3..], g));
    CharsOfFour(f);
  }

  /** encodeWgKeyB64: ten groups, the tail, the terminator; 0 when the buffer is too small. */
  method EncodeWgKeyB64(key: seq<Byte>, out: array<char>) returns (n: nat)
    requires |key| == 32
    modifies out
    ensures n == if out.Length < 45 then 0 else 45
    ensures n == 0 ==> out[..] == old(out[..])
    ensures n > 0 ==> out[..44] == Text(key) && out[44] == 0 as char
  {
    if out.Length < 45 { return 0; }
    var i, oi := PutGroups(key, out);
    assert key[i..] == [key[i], key[i + 1]];
    PutTail(key[i], key[i + 1], out);
    n := 45;
  }

  /** The loop over the full groups. */
  method PutGroups(key: seq<Byte>, out: array<char>) returns (i: nat, oi: nat)
    requires |key| % 3 == 2 && 4 * Groups(key) + 5 <= out.Length
    modifies out
    ensures i == |key| - 2 && oi == 4 * Groups(key) && Remaining(key, i, 0, out[..oi])
  {
    i, oi := 0, 0;
    ghost var g := Groups(key);
    assert out[..0] == "";
    AllRemaining(key);
    while i + 3 <= |key|
      invariant oi + 4 * g == 4 * Groups(key) && Remaining(key, i, g, out[..oi])
      decreases |key| - i
    {
      PutNext(key, i, out, oi, g - 1);
      i, oi, g := i + 3, oi + 4, g - 1;
    }
  }

  method PutNext(key: seq<Byte>, i: nat, out: array<char>, oi: nat, ghost g: nat)
    requires oi + 4 <= out.Length && i + 5 <= |key| && Remaining(key, i, g + 1, out[..oi])
    modifies out
    ensures Remaining(key, i + 3, g, out[..oi + 4])
  {
    var t := Three(key[i], key[i + 1], key[i + 2]);
    SextetsStep(key, i, g);
    Regroup(out[..oi], GroupText(ToFour(t)), Chars(Sextets(key[i + 3..], g)));
    PutGroup(t, out, oi);
  }

  lemma Regroup(a: string, b: string, c: string)
    ensures a + (b + c) == a + b + c
  {
  }

  method PutTail(a: Byte, b: Byte, out: array<char>)
    requires out.Length >= 45
    modifies out
    ensures out[..44] == old(out[..40]) + Chars(Sextets([a, b], 0)) + "=" && out[44] == 0 as char
  {
    ghost var done := out[..40];
    ghost var f := ToFour(Three(a, b, 0));
    CharsOfFour(f);
    PutGroup(Three(a, b, 0), out, 40);
    assert out[..43] == out[..44][..43] == done + [Char(f.w), Char(f.x), Char(f.y)];
    out[43], out[44] := '=', 0 as char;
    assert out[..44] == out[..43] + "=";
  }

  method CheckWgKeyB64(s: string) returns (ok: bool)
    ensures ok <==> IsWgKeyB64(s)
  {
    if |s| != 44 { return false; }
    if s[43] != '=' { return false; }
    for i := 0 to 42
      invariant forall k :: 0 <= k < i ==> Value(s[k]) >= 0
    {
      var v := B64Value(s[i]);
      if v < 0 { return false; }
    }
    var last := B64Value(s[42]);
    ok := last >= 0 && last % 4 == 0;
  }
}
