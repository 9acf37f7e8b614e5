/**
 The hex text of a digest and its comparison with the manifest's (lib/fry_core/sha256.cpp:122-134,
 lib/fry_core/ota_sha_match.h). Character buffers are NUL-terminated arrays.
 */
module OtaDigest {
  import opened Prelude

  const NUL := 0 as char

  /** `buf` holds the C string `s`. */
  ghost predicate IsText(buf: seq<char>, s: string) {
    |s| < |buf| && buf[..|s|] == s && buf[|s|] == NUL && NUL !in s
  }

  function HexDigit(n: int): char
    requires 0 <= n < 16
  {
    if n < 10 then '0' + n as char else 'A' + (n - 10) as char
  }

  function HexUpper(data: seq<Byte>): (s: string)
    ensures |s| == 2 * |data|
    ensures forall i :: 0 <= i < |data| ==>
      s[2 * i] == HexDigit(data[i] / 16) && s[2 * i + 1] == HexDigit(data[i] % 16)
    ensures NUL !in s
  {
    if data == [] then ""
    else
      var n := |data| - 1;
      HexUpper(data[..n]) + [HexDigit(data[n] / 16), HexDigit(data[n] % 16)]
  }

  function LowerChar(c: char): char {
    if 'A' <= c <= 'Z' then c - 'A' + 'a' else c
  }

  function Lower(s: string): string {
    seq(|s|, i requires 0 <= i < |s| => LowerChar(s[i]))
  }

  /** What the manifest's digest must be for the image to be accepted. */
  ghost predicate Matches(hex: string, want: string) {
    |hex| == 64 && |want| == 64 && Lower(hex) == Lower(want)
  }

  /** The value of a hexadecimal digit in either case; -1 for any other character. */
  function HexValue(c: char): int {
    if '0' <= c <= '9' then c as int - '0' as int
    else if 'A' <= c <= 'F' then c as int - 'A' as int + 10
    else if 'a' <= c <= 'f' then c as int - 'a' as int + 10
    else -1
  }

  lemma DigitMatches(n: int, c: char)
    requires 0 <= n < 16
    ensures LowerChar(HexDigit(n)) == LowerChar(c) <==> HexValue(c) == n
  {
  }

  /** The digest that a manifest's 64 characters spell, in either case, is the one that matches, and no
      other text matches. */
  lemma MatchesIffSpelled(d: seq<Byte>, want: string)
    requires |d| == 32
    ensures Matches(HexUpper(d), want) <==>
      |want| == 64 && forall i :: 0 <= i < 32 ==>
        HexValue(want[2 * i]) == d[i] / 16 && HexValue(want[2 * i + 1]) == d[i] % 16
  {
    var hex := HexUpper(d);
    if |want| == 64 {
      forall i | 0 <= i < 32
        ensures LowerChar(hex[2 * i]) == LowerChar(want[2 * i]) <==> HexValue(want[2 * i]) == d[i] / 16
        ensures LowerChar(hex[2 * i + 1]) == LowerChar(want[2 * i + 1]) <==> HexValue(want[2 * i + 1]) == d[i] % 16
      {
        DigitMatches(d[i] / 16, want[2 * i]);
        DigitMatches(d[i] % 16, want[2 * i + 1]);
      }
      SamePairs(Lower(hex), Lower(want));
    }
  }

  lemma SamePairs(a: string, b: string)
    requires |a| == |b| == 64
    ensures a == b <==> forall i :: 0 <= i < 32 ==> a[2 * i] == b[2 * i] && a[2 * i + 1] == b[2 * i + 1]
  {
    if forall i :: 0 <= i < 32 ==> a[2 * i] == b[2 * i] && a[2 * i + 1] == b[2 * i + 1] {
      forall k | 0 <= k < 64 ensures a[k] == b[k] {
        assert k == 2 * (k / 2) + k % 2;
        assert a[2 * (k / 2)] == b[2 * (k / 2)] && a[2 * (k / 2) + 1] == b[2 * (k / 2) + 1];
      }
    }
  }

  /** A manifest digest accepts at most one 32-byte digest. */
  lemma MatchesOneDigest(d: seq<Byte>, e: seq<Byte>, want: string)
    requires |d| == |e| == 32
    requires Matches(HexUpper(d), want) && Matches(HexUpper(e), want)
    ensures d == e
  {
    MatchesIffSpelled(d, want);
    MatchesIffSpelled(e, want);
    forall i | 0 <= i < 32
      ensures d[i] == e[i]
    {
      assert HexValue(want[2 * i]) == d[i] / 16 == e[i] / 16;
      assert HexValue(want[2 * i + 1]) == d[i] % 16 == e[i] % 16;
    }
  }

  /** asciiLowerInPlace changes nothing the comparison looks at. */
  lemma LoweringKeepsMatch(hex: string, want: string)
    ensures Matches(Lower(hex), want) <==> Matches(hex, want)
  {
    assert Lower(Lower(hex)) == Lower(hex);
  }

  method BytesToHexUpper(data: seq<Byte>, out: array<char>)
    modifies out
    ensures out.Length > 2 * |data| ==> IsText(out[..], HexUpper(data))
    ensures 0 < out.Length <= 2 * |data| ==> IsText(out[..], "")
  {
    if out.Length < 2 * |data| + 1 {
      if out.Length > 0 { out[0] := NUL; }
      return;
    }
    for i := 0 to |data|
      invariant out[..2 * i] == HexUpper(data)[..2 * i]
    {
      ghost var done := out[..2 * i];
      out[2 * i] := HexDigit(data[i] / 16);
      out[2 * i + 1] := HexDigit(data[i] % 16);
      assert out[..2 * i + 2] == done + [HexDigit(data[i] / 16), HexDigit(data[i] % 16)];
    }
    assert HexUpper(data)[..2 * |data|] == HexUpper(data);
    out[2 * |data|] := NUL;
  }

  method AsciiLowerInPlace(a: array<char>, ghost s: string)
    requires IsText(a[..], s)
    modifies a
    ensures IsText(a[..], Lower(s))
    ensures a[|s|..] == old(a[|s|..])
  {
    var i := 0;
    while a[i] != NUL
      invariant 0 <= i <= |s| < a.Length
      invariant a[..i] == Lower(s)[..i]
      invariant a[i..] == old(a[i..])
      decreases |s| - i
    {
      assert a[i] == old(a[i..])[0] == s[i];
      ghost var rest := a[i..];
      a[i] := LowerChar(a[i]);
      assert a[i + 1..] == rest[1..];
      i := i + 1;
    }
    assert a[..i] == Lower(s);
  }

  /** The comparison reads the digest buffer as a C string and never past its NUL. */
  method Sha256HexMatches(hex: array<char>, want: string, ghost s: string) returns (ok: bool)
    requires IsText(hex[..], s)
    ensures ok <==> Matches(s, want)
  {
    if |want| != 64 { return false; }
    for i := 0 to 64
      invariant i <= |s|
      invariant forall k :: 0 <= k < i ==> LowerChar(s[k]) == LowerChar(want[k])
    {
      assert hex[i] == hex[..][i];
      if hex[i] == NUL { return false; }
      assert i < |s| && hex[i] == s[i];
      if LowerChar(hex[i]) != LowerChar(want[i]) {
        assert Lower(s)[i] != Lower(want)[i];
        return false;
      }
    }
    assert |s| == 64 ==> Lower(s) == Lower(want);
    ok := hex[64] == NUL;
  }
}
