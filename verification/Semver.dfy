/**
 Version precedence (lib/fry_core/semver.cpp) against section 11 of Semantic Versioning 2.0.0. The
 structured `Version` and `Precedence` are the standard's own terms; `Parse` says how the code reads
 any string whatsoever, and the loops are proved to compare the parsed versions.
 A C string pointer is the string from that pointer on.
 */
module Semver {
  import opened Prelude

  datatype Ident = Num(n: nat) | Alpha(text: string)

  /** No pre-release identifiers: a release. */
  datatype Version = Version(major: nat, minor: nat, patch: nat, pre: seq<Ident>)

  // ---- section 11 of the standard --------------------------------------------------------------

  function Cmp(a: int, b: int): int {
    if a < b then -1 else if a > b then 1 else 0
  }

  /** ASCII order, a proper prefix being lower. */
  function CompareText(a: string, b: string): int {
    if a == "" || b == "" then Cmp(|a|, |b|)
    else if a[0] != b[0] then (if a[0] < b[0] then -1 else 1)
    else CompareText(a[1..], b[1..])
  }

  function CompareIdents(x: Ident, y: Ident): int {
    match (x, y)
    case (Num(m), Num(n)) => Cmp(m, n)
    case (Num(_), Alpha(_)) => -1
    case (Alpha(_), Num(_)) => 1
    case (Alpha(s), Alpha(t)) => CompareText(s, t)
  }

  function ComparePre(x: seq<Ident>, y: seq<Ident>): int {
    if x == [] || y == [] then Cmp(|x|, |y|)
    else
      var c := CompareIdents(x[0], y[0]);
      if c != 0 then c else ComparePre(x[1..], y[1..])
  }

  function CompareCores(v: Version, w: Version): int {
    if v.major != w.major then Cmp(v.major, w.major)
    else if v.minor != w.minor then Cmp(v.minor, w.minor)
    else Cmp(v.patch, w.patch)
  }

  function Precedence(v: Version, w: Version): int {
    if CompareCores(v, w) != 0 then CompareCores(v, w)
    else if v.pre == [] || w.pre == [] then Cmp(|w.pre|, |v.pre|)  // a release outranks its pre-releases
    else ComparePre(v.pre, w.pre)
  }

  // ---- Precedence is a total preorder ----------------------------------------------------------

  lemma {:induction false} TextLaws(a: string, b: string, c: string)
    ensures CompareText(a, b) == -CompareText(b, a)
    ensures CompareText(a, b) == 0 <==> a == b
    ensures CompareText(a, b) <= 0 && CompareText(b, c) <= 0 ==> CompareText(a, c) <= 0
    ensures CompareText(a, b) in {-1, 0, 1}
  {
    if a != "" && b != "" && a[0] == b[0] {
      if c != "" {
        TextLaws(a[1..], b[1..], c[1..]);
      } else {
        TextLaws(a[1..], b[1..], c);
      }
      assert a == [a[0]] + a[1..] && b == [b[0]] + b[1..];
    }
  }

  lemma IdentLaws(x: Ident, y: Ident, z: Ident)
    ensures CompareIdents(x, y) == -CompareIdents(y, x)
    ensures CompareIdents(x, y) == 0 <==> x == y
    ensures CompareIdents(x, y) <= 0 && CompareIdents(y, z) <= 0 ==> CompareIdents(x, z) <= 0
    ensures CompareIdents(x, y) in {-1, 0, 1}
  {
    if x.Alpha? && y.Alpha? {
      TextLaws(x.text, y.text, if z.Alpha? then z.text else "");
    }
  }

  lemma {:induction false} PreLaws(x: seq<Ident>, y: seq<Ident>, z: seq<Ident>)
    ensures ComparePre(x, y) == -ComparePre(y, x)
    ensures ComparePre(x, y) == 0 <==> x == y
    ensures ComparePre(x, y) <= 0 && ComparePre(y, z) <= 0 ==> ComparePre(x, z) <= 0
    ensures ComparePre(x, y) in {-1, 0, 1}
  {
    if x != [] && y != [] {
      var zs := if z == [] then y else z;
      IdentLaws(x[0], y[0], zs[0]);
      IdentLaws(y[0], zs[0], x[0]);
      IdentLaws(x[0], zs[0], y[0]);
      PreLaws(x[1..], y[1..], zs[1..]);
      assert x == [x[0]] + x[1..] && y == [y[0]] + y[1..];
    }
  }

  lemma PrecedenceLaws(u: Version, v: Version, w: Version)
    ensures Precedence(u, v) == -Precedence(v, u)
    ensures Precedence(u, v) == 0 <==> u == v
    ensures Precedence(u, v) <= 0 && Precedence(v, w) <= 0 ==> Precedence(u, w) <= 0
    ensures Precedence(u, v) in {-1, 0, 1}
  {
    PreLaws(u.pre, v.pre, w.pre);
  }

  /** 1.0.0 with these pre-release identifiers. */
  function One(pre: seq<Ident>): Version { Version(1, 0, 0, pre) }

  /** The chain that section 11 gives for pre-releases, alpha < alpha.1 < alpha.beta < beta < beta.2 <
      beta.11 < rc.1 < the release, and the one for core numbers. */
  lemma Section11()
    ensures Precedence(One([Alpha("alpha")]), One([Alpha("alpha"), Num(1)])) < 0
    ensures Precedence(One([Alpha("alpha"), Num(1)]), One([Alpha("alpha"), Alpha("beta")])) < 0
    ensures Precedence(One([Alpha("alpha"), Alpha("beta")]), One([Alpha("beta")])) < 0
    ensures Precedence(One([Alpha("beta")]), One([Alpha("beta"), Num(2)])) < 0
    ensures Precedence(One([Alpha("beta"), Num(2)]), One([Alpha("beta"), Num(11)])) < 0
    ensures Precedence(One([Alpha("beta"), Num(11)]), One([Alpha("rc"), Num(1)])) < 0
    ensures Precedence(One([Alpha("rc"), Num(1)]), One([])) < 0
    ensures Precedence(One([]), Version(2, 0, 0, [])) < 0
    ensures Precedence(Version(2, 0, 0, []), Version(2, 1, 0, [])) < 0
    ensures Precedence(Version(2, 1, 0, []), Version(2, 1, 1, [])) < 0
  {
    SameIdentifiers("alpha");
    SameIdentifiers("beta");
    assert [Alpha("alpha"), Num(1)][1..] == [Num(1)] && [Alpha("alpha"), Alpha("beta")][1..] == [Alpha("beta")];
    assert [Alpha("beta"), Num(2)][1..] == [Num(2)] && [Alpha("beta"), Num(11)][1..] == [Num(11)];
    assert [Alpha("alpha")][1..] == [] && [Alpha("beta")][1..] == [];
  }

  lemma SameIdentifiers(t: string)
    ensures CompareIdents(Alpha(t), Alpha(t)) == 0
  {
    IdentLaws(Alpha(t), Alpha(t), Alpha(t));
  }

  // ---- what the code reads ---------------------------------------------------------------------

  predicate IsDigit(c: char) { '0' <= c <= '9' }

  predicate AllDigits(s: string) {
    forall i :: 0 <= i < |s| ==> IsDigit(s[i])
  }

  /** The number of leading digits. */
  function Lead(s: string): (n: nat)
    ensures n <= |s| && AllDigits(s[..n])
    ensures n < |s| ==> !IsDigit(s[n])
  {
    if s == "" || !IsDigit(s[0]) then 0 else
      var n := Lead(s[1..]);
      assert s[..n + 1] == [s[0]] + s[1..][..n];
      n + 1
  }

  function DigitValue(c: char): (d: nat)
    requires IsDigit(c)
    ensures d < 10 && (d == 0 <==> c == '0')
  {
    c as int - '0' as int
  }

  function Value(s: string): nat
    requires AllDigits(s)
  {
    if s == "" then 0 else Value(s[..|s| - 1]) * 10 + DigitValue(s[|s| - 1])
  }

  /** What an unsigned 32-bit variable keeps of n: n modulo 2^32 (`WrapIsModulo`). */
  function Wrap(n: nat): U32 {
    if n < TWO32 then n else Wrap(n - TWO32)
  }

  lemma {:induction false} WrapIsModulo(n: nat)
    ensures Wrap(n) == n % TWO32
  {
    if n >= TWO32 {
      WrapIsModulo(n - TWO32);
    }
  }

  /** The numeric component s begins with. */
  function Number(s: string): U32 {
    Wrap(Value(s[..Lead(s)]))
  }

  /** What follows the component's dot; nothing when there is no dot. */
  function Behind(s: string): string {
    if Lead(s) < |s| && s[Lead(s)] == '.' then s[Lead(s) + 1..] else ""
  }

  /** The first character that is neither a digit nor a dot, on. */
  function AfterCore(s: string): string {
    if s != "" && (IsDigit(s[0]) || s[0] == '.') then AfterCore(s[1..]) else s
  }

  predicate EndOfPre(s: string) { s == "" || s[0] == '+' }

  predicate EndOfIdent(s: string) { EndOfPre(s) || s[0] == '.' }

  /** The length of the identifier s begins with. */
  function Field(s: string): (n: nat)
    ensures n <= |s| && EndOfIdent(s[n..])
    ensures forall i :: 0 <= i < n ==> s[i] != '+' && s[i] != '.'
  {
    if EndOfIdent(s) then 0 else
      var n := Field(s[1..]);
      assert s[n + 1..] == s[1..][n..];
      n + 1
  }

  function IdentOf(s: string): Ident {
    if s != "" && AllDigits(s) then Num(Value(s)) else Alpha(s)
  }

  function Split(s: string): (ids: seq<Ident>)
    ensures ids != []
    decreases |s|
  {
    var n := Field(s);
    [IdentOf(s[..n])] + if n < |s| && s[n] == '.' then Split(s[n + 1..]) else []
  }

  function PreText(s: string): string {
    var t := AfterCore(s);
    if t != "" && t[0] == '-' then t[1..] else ""
  }

  function Pre(s: string): seq<Ident> {
    if EndOfPre(PreText(s)) then [] else Split(PreText(s))
  }

  /** The version a string stands for, whatever the string. */
  function Parse(s: string): Version {
    Version(Number(s), Number(Behind(s)), Number(Behind(Behind(s))), Pre(s))
  }

  // ---- digit strings as numbers ----------------------------------------------------------------

  function Pow10(n: nat): nat {
    if n == 0 then 1 else 10 * Pow10(n - 1)
  }

  lemma {:induction false} ValueFromLeft(s: string)
    requires s != "" && AllDigits(s)
    ensures Value(s) == DigitValue(s[0]) * Pow10(|s| - 1) + Value(s[1..])
    ensures Value(s[1..]) < Pow10(|s| - 1)
    ensures Pow10(|s| - 1) >= 1
  {
    if |s| > 1 {
      var t := s[..|s| - 1];
      ValueFromLeft(t);
      assert s[1..][..|s| - 2] == t[1..];
      assert Value(s[1..]) == Value(t[1..]) * 10 + DigitValue(s[|s| - 1]);
    }
  }

  lemma {:induction false} HigherDigit(d: nat, x: nat, e: nat, y: nat, p: nat)
    requires d < e && x < p
    ensures d * p + x < e * p + y
  {
    assert e * p == (e - 1) * p + p;
    if e > d + 1 {
      HigherDigit(d, x, e - 1, y, p);
    }
  }

  /** A longer digit string without a leading zero is larger. */
  lemma LongerIsLarger(s: string, t: string)
    requires AllDigits(s) && AllDigits(t) && |s| > |t| > 0 && s[0] != '0'
    ensures Value(s) > Value(t)
  {
    ValueFromLeft(s);
    ValueFromLeft(t);
    PowGrows(|t|, |s| - 1);
    HigherDigit(DigitValue(t[0]), Value(t[1..]), 10, 0, Pow10(|t| - 1));
    HigherDigit(0, Pow10(|s| - 1) - 1, DigitValue(s[0]), Value(s[1..]), Pow10(|s| - 1));
  }

  lemma {:induction false} PowGrows(m: nat, n: nat)
    requires m <= n
    ensures Pow10(m) <= Pow10(n)
  {
    if m < n {
      PowGrows(m, n - 1);
    }
  }

  /** Of the same length, digit strings compare as text the way they compare as numbers. */
  lemma {:induction false} SameLength(s: string, t: string)
    requires AllDigits(s) && AllDigits(t) && |s| == |t|
    ensures CompareText(s, t) == Cmp(Value(s), Value(t))
  {
    if s != "" {
      ValueFromLeft(s);
      ValueFromLeft(t);
      SameLength(s[1..], t[1..]);
      var p, d, e := Pow10(|s| - 1), DigitValue(s[0]), DigitValue(t[0]);
      if d < e {
        HigherDigit(d, Value(s[1..]), e, Value(t[1..]), p);
      } else if e < d {
        HigherDigit(e, Value(t[1..]), d, Value(s[1..]), p);
      }
    }
  }

  lemma LeadingZero(s: string)
    requires |s| > 1 && AllDigits(s) && s[0] == '0'
    ensures Value(s[1..]) == Value(s)
  {
    ValueFromLeft(s);
    var p, rest := Pow10(|s| - 1), Value(s[1..]);
    assert DigitValue(s[0]) == 0 && Value(s) == DigitValue(s[0]) * p + rest;
  }

  lemma {:induction false} CompareSuffixes(s: string, t: string, i: nat)
    requires i <= |s| && i <= |t| && s[..i] == t[..i]
    ensures CompareText(s, t) == CompareText(s[i..], t[i..])
  {
    if i == 0 {
      assert s[0..] == s && t[0..] == t;
    } else {
      assert s[0] == s[..i][0] == t[..i][0] == t[0];
      assert s[1..][..i - 1] == s[..i][1..] == t[..i][1..] == t[1..][..i - 1];
      CompareSuffixes(s[1..], t[1..], i - 1);
      assert s[1..][i - 1..] == s[i..] && t[1..][i - 1..] == t[i..];
    }
  }
}
