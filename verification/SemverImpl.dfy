/**
 The comparison loops of lib/fry_core/semver.cpp: for every two strings they compute the precedence
 of the versions the strings stand for.
 */
module SemverImpl {
  import opened Prelude
  import opened Semver

  lemma ModDigit(x: nat, d: nat)
    ensures (x % TWO32 * 10 + d) % TWO32 == (x * 10 + d) % TWO32
  {
    var q, r := x / TWO32, x % TWO32;
    ModShift(r * 10 + d, q * 10);
    assert x * 10 + d == q * 10 * TWO32 + (r * 10 + d);
  }

  lemma {:induction false} ModShift(y: nat, k: nat)
    ensures (k * TWO32 + y) % TWO32 == y % TWO32
    decreases k
  {
    if k > 0 {
      ModShift(y + TWO32, k - 1);
      assert (y + TWO32) % TWO32 == y % TWO32;
    }
  }

  /** Wrapping at every digit is wrapping once at the end. */
  lemma WrapDigit(x: nat, d: nat)
    ensures (Wrap(x) * 10 + d) % TWO32 == Wrap(x * 10 + d)
  {
    WrapIsModulo(x);
    WrapIsModulo(x * 10 + d);
    ModDigit(x, d);
  }

  method NextComponent(p: string) returns (v: U32, rest: string)
    ensures v == Number(p) && rest == Behind(p)
  {
    rest, v := p, 0;
    ghost var n := 0;
    while rest != "" && IsDigit(rest[0])
      invariant n <= Lead(p) && rest == p[n..] && v == Wrap(Value(p[..n]))
      decreases |rest|
    {
      LeadReaches(p, n);
      assert p[..n + 1][..n] == p[..n];
      WrapDigit(Value(p[..n]), DigitValue(rest[0]));
      v := (v * 10 + DigitValue(rest[0])) % TWO32;
      rest, n := rest[1..], n + 1;
    }
    LeadReaches(p, n);
    rest := if rest != "" && rest[0] == '.' then rest[1..] else "";
  }

  /** Inside the leading digits the next character is one more digit or their end. */
  lemma LeadReaches(p: string, n: nat)
    requires n <= Lead(p)
    ensures n < |p| && IsDigit(p[n]) <==> n < Lead(p)
  {
    if n < Lead(p) {
      assert p[..Lead(p)][n] == p[n];
    }
  }

  /** The string behind the first k components. */
  function Rest(s: string, k: nat): string {
    if k == 0 then s else Behind(Rest(s, k - 1))
  }

  function Nth(s: string, k: nat): U32 {
    Number(Rest(s, k))
  }

  lemma CoresAreNth(s: string)
    ensures Nth(s, 0) == Parse(s).major && Nth(s, 1) == Parse(s).minor && Nth(s, 2) == Parse(s).patch
  {
    assert Rest(s, 0) == s;
    assert Rest(s, 1) == Behind(s);
    assert Rest(s, 2) == Behind(Behind(s));
  }

  /** The first component that differs decides. */
  lemma FirstDifference(a: string, b: string, k: nat)
    requires k <= 3 && forall j :: 0 <= j < k ==> Nth(a, j) == Nth(b, j)
    ensures k == 3 || Nth(a, k) != Nth(b, k) ==>
      CompareCores(Parse(a), Parse(b)) == if k == 3 then 0 else Cmp(Nth(a, k), Nth(b, k))
  {
    CoresAreNth(a);
    CoresAreNth(b);
  }

  method CompareSemver(a: string, b: string) returns (r: int)
    ensures r == CompareCores(Parse(a), Parse(b))
  {
    var k;
    r, k := CompareComponents(a, b);
    FirstDifference(a, b, k);
  }

  /** The loop of compareSemver; k is the component that decided, 3 when none did. */
  method CompareComponents(a: string, b: string) returns (r: int, k: nat)
    ensures k <= 3 && forall j :: 0 <= j < k ==> Nth(a, j) == Nth(b, j)
    ensures k < 3 ==> Nth(a, k) != Nth(b, k)
    ensures r == if k == 3 then 0 else Cmp(Nth(a, k), Nth(b, k))
  {
    var pa, pb := a, b;
    for i := 0 to 3
      invariant pa == Rest(a, i) && pb == Rest(b, i)
      invariant forall k :: 0 <= k < i ==> Nth(a, k) == Nth(b, k)
    {
      var ca, ra := NextComponent(pa);
      var cb, rb := NextComponent(pb);
      assert ca == Nth(a, i) && cb == Nth(b, i);
      if ca < cb { return -1, i; }
      if ca > cb { return 1, i; }
      pa, pb := ra, rb;
    }
    r, k := 0, 3;
  }

  method PreRelease(v: string) returns (pre: string)
    ensures pre == PreText(v)
  {
    pre := v;
    while pre != "" && (IsDigit(pre[0]) || pre[0] == '.')
      invariant AfterCore(pre) == AfterCore(v)
      decreases |pre|
    {
      pre := pre[1..];
    }
    pre := if pre != "" && pre[0] == '-' then pre[1..] else "";
  }

  lemma DigitsGrow(p: string, n: nat)
    requires n < |p|
    ensures AllDigits(p[..n + 1]) <==> AllDigits(p[..n]) && IsDigit(p[n])
  {
    assert p[..n + 1] == p[..n] + [p[n]];
    assert AllDigits(p[..n + 1]) ==> IsDigit(p[..n + 1][n]);
    assert forall i :: 0 <= i < n ==> p[..n + 1][i] == p[..n][i];
  }

  lemma FieldGrows(p: string, n: nat)
    requires n < |p| && !EndOfIdent(p[n..])
    ensures Field(p[n..]) == 1 + Field(p[n + 1..])
  {
    assert p[n..][1..] == p[n + 1..];
  }

  method IdentLen(p: string) returns (n: nat, numeric: bool)
    ensures n == Field(p)
    ensures numeric <==> IdentOf(p[..n]).Num?
  {
    n, numeric := 0, true;
    while !EndOfIdent(p[n..])
      invariant n <= |p| && Field(p) == n + Field(p[n..])
      invariant numeric <==> AllDigits(p[..n])
      decreases |p| - n
    {
      if !IsDigit(p[n]) { numeric := false; }
      DigitsGrow(p, n);
      FieldGrows(p, n);
      n := n + 1;
    }
    if n == 0 { numeric := false; }
  }

  method StripZeros(s: string) returns (t: string)
    requires s != "" && AllDigits(s)
    ensures t != "" && AllDigits(t) && Value(t) == Value(s)
    ensures |t| > 1 ==> t[0] != '0'
  {
    t := s;
    while |t| > 1 && t[0] == '0'
      invariant t != "" && AllDigits(t) && Value(t) == Value(s)
    {
      LeadingZero(t);
      t := t[1..];
    }
  }

  /** The final loop of compareIdent. */
  method CompareBytes(a: string, b: string) returns (r: int)
    ensures r == CompareText(a, b)
  {
    var n := if |a| < |b| then |a| else |b|;
    for i := 0 to n
      invariant a[..i] == b[..i]
    {
      CompareSuffixes(a, b, i);
      if a[i] != b[i] { return if a[i] < b[i] then -1 else 1; }
    }
    CompareSuffixes(a, b, n);
    if |a| != |b| { return if |a| < |b| then -1 else 1; }
    r := 0;
  }

  /** compareIdent: digit strings by length and then as text, which is their order as numbers. */
  method CompareIdent(a: string, na: bool, b: string, nb: bool) returns (r: int)
    requires (na <==> IdentOf(a).Num?) && (nb <==> IdentOf(b).Num?)
    ensures r == CompareIdents(IdentOf(a), IdentOf(b))
  {
    if na && nb {
      var x := StripZeros(a);
      var y := StripZeros(b);
      if |x| != |y| {
        if |x| < |y| { LongerIsLarger(y, x); } else { LongerIsLarger(x, y); }
        return if |x| < |y| then -1 else 1;
      }
      SameLength(x, y);
      r := CompareBytes(x, y);
    } else if na != nb {
      r := if na then -1 else 1;
    } else {
      r := CompareBytes(a, b);
    }
  }

  method CompareSemverPrecedence(a: string, b: string) returns (r: int)
    ensures r == Precedence(Parse(a), Parse(b))
  {
    var core := CompareSemver(a, b);
    if core != 0 { return core; }
    var pa := PreRelease(a);
    var pb := PreRelease(b);
    var ha, hb := !EndOfPre(pa), !EndOfPre(pb);
    if !ha || !hb {
      return if ha == hb then 0 else if ha then -1 else 1;
    }
    while true
      invariant ComparePre(Split(pa), Split(pb)) == ComparePre(Split(PreText(a)), Split(PreText(b)))
      decreases |pa|
    {
      var la, na := IdentLen(pa);
      var lb, nb := IdentLen(pb);
      var c := CompareIdent(pa[..la], na, pb[..lb], nb);
      if c != 0 { return c; }
      pa, pb := pa[la..], pb[lb..];
      var moreA, moreB := pa != "" && pa[0] == '.', pb != "" && pb[0] == '.';
      if !moreA || !moreB {
        return if moreA == moreB then 0 else if moreA then 1 else -1;
      }
      pa, pb := pa[1..], pb[1..];
    }
  }

  /** isNewerVersionOta. */
  method IsNewerVersionOta(latest: string, current: string) returns (newer: bool)
    ensures newer <==> Precedence(Parse(latest), Parse(current)) > 0
  {
    var c := CompareSemverPrecedence(latest, current);
    newer := c > 0;
  }
}
