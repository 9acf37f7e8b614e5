/**
 Agreement with Semantic Versioning 2.0.0: the text the standard gives to a version is read back as
 that version, so the code's comparison is the standard's precedence, up to the 32-bit wrap of the
 three core numbers (lib/fry_core/semver.cpp:11-26).
 */
module SemverText {
  import opened Prelude
  import opened Semver

  function DigitChar(d: nat): (c: char)
    requires d < 10
    ensures IsDigit(c) && DigitValue(c) == d
  {
    ('0' as int + d) as char
  }

  /** A number without leading zeros. */
  function Digits(n: nat): (s: string)
    ensures s != "" && AllDigits(s) && Value(s) == n
  {
    if n < 10 then
      var s := [DigitChar(n)];
      assert s[..0] == "";
      s
    else
      var t := Digits(n / 10);
      var s := t + [DigitChar(n % 10)];
      assert s[..|s| - 1] == t;
      s
  }

  predicate IdentChar(c: char) {
    IsDigit(c) || 'A' <= c <= 'Z' || 'a' <= c <= 'z' || c == '-'
  }

  /** Section 9: an alphanumeric identifier is made of identifier characters, not only digits. */
  predicate ValidIdent(x: Ident) {
    x.Alpha? ==> !AllDigits(x.text) && forall i :: 0 <= i < |x.text| ==> IdentChar(x.text[i])
  }

  predicate AllValid(pre: seq<Ident>) {
    forall i :: 0 <= i < |pre| ==> ValidIdent(pre[i])
  }

  predicate Valid(v: Version) { AllValid(v.pre) }

  function IdentText(x: Ident): string {
    match x
    case Num(n) => Digits(n)
    case Alpha(t) => t
  }

  function Texts(pre: seq<Ident>): seq<string> {
    if pre == [] then [] else [IdentText(pre[0])] + Texts(pre[1..])
  }

  /** The identifiers with dots between them. */
  function Joined(xs: seq<string>): string {
    if xs == [] then "" else if |xs| == 1 then xs[0] else xs[0] + ("." + Joined(xs[1..]))
  }

  function Join(pre: seq<Ident>): string { Joined(Texts(pre)) }

  function CoreText(v: Version): string {
    Digits(v.major) + "." + Digits(v.minor) + "." + Digits(v.patch)
  }

  function PreAndBuild(pre: seq<Ident>, build: string): string {
    (if pre == [] then "" else "-" + Join(pre)) + build
  }

  /** `build` is empty or a build metadata suffix with its '+'. */
  function Text(v: Version, build: string): string {
    CoreText(v) + PreAndBuild(v.pre, build)
  }

  predicate Build(b: string) { EndOfPre(b) }

  /** What is left of the core numbers in 32 bits. */
  function Wrapped(v: Version): Version {
    Version(Wrap(v.major), Wrap(v.minor), Wrap(v.patch), v.pre)
  }

  lemma {:induction false} LeadOf(d: string, rest: string)
    requires AllDigits(d) && (rest == "" || !IsDigit(rest[0]))
    ensures Lead(d + rest) == |d|
  {
    if d == "" {
      assert d + rest == rest;
    } else {
      assert (d + rest)[1..] == d[1..] + rest;
      LeadOf(d[1..], rest);
    }
  }

  lemma ComponentOf(d: string, rest: string)
    requires AllDigits(d) && (rest == "" || !IsDigit(rest[0]))
    ensures Number(d + rest) == Wrap(Value(d))
    ensures Behind(d + rest) == if rest != "" && rest[0] == '.' then rest[1..] else ""
  {
    var s := d + rest;
    LeadOf(d, rest);
    assert s[..|d|] == d;
    assert rest != "" ==> s[|d|] == rest[0] && s[|d| + 1..] == rest[1..];
  }

  predicate CoreChars(s: string) {
    forall i :: 0 <= i < |s| ==> IsDigit(s[i]) || s[i] == '.'
  }

  lemma {:induction false} AfterCoreOf(core: string, rest: string)
    requires CoreChars(core) && (rest == "" || !(IsDigit(rest[0]) || rest[0] == '.'))
    ensures AfterCore(core + rest) == rest
  {
    if core == "" {
      assert core + rest == rest;
    } else {
      assert (core + rest)[1..] == core[1..] + rest;
      AfterCoreOf(core[1..], rest);
    }
  }

  lemma {:induction false} FieldOf(x: string, rest: string)
    requires EndOfIdent(rest) && forall i :: 0 <= i < |x| ==> IdentChar(x[i])
    ensures Field(x + rest) == |x|
  {
    if x == "" {
      assert x + rest == rest;
    } else {
      assert (x + rest)[1..] == x[1..] + rest;
      FieldOf(x[1..], rest);
    }
  }

  lemma IdentOfText(x: Ident)
    requires ValidIdent(x)
    ensures IdentOf(IdentText(x)) == x && IdentText(x) != ""
    ensures forall i :: 0 <= i < |IdentText(x)| ==> IdentChar(IdentText(x)[i])
  {
    match x
    case Num(_) =>
    case Alpha(t) =>
      assert t == "" ==> AllDigits(t);
  }

  predicate IdentChars(x: string) {
    x != "" && forall k :: 0 <= k < |x| ==> IdentChar(x[k])
  }

  predicate IdentTexts(xs: seq<string>) {
    forall i :: 0 <= i < |xs| ==> IdentChars(xs[i])
  }

  function Idents(xs: seq<string>): seq<Ident> {
    if xs == [] then [] else [IdentOf(xs[0])] + Idents(xs[1..])
  }

  lemma {:induction false} SplitOfJoined(xs: seq<string>, build: string)
    requires xs != [] && Build(build) && IdentTexts(xs)
    ensures Split(Joined(xs) + build) == Idents(xs)
  {
    var x := xs[0];
    if |xs| == 1 {
      SplitOne(x, build);
      assert xs[1..] == [];
    } else {
      var tail := Joined(xs[1..]);
      SplitOfJoined(xs[1..], build);
      SplitTwo(x, tail + build);
      DotBetween(x, tail, build);
    }
  }

  lemma DotBetween(x: string, tail: string, build: string)
    ensures x + ("." + tail) + build == x + ("." + (tail + build))
  {
  }

  lemma JoinedStarts(xs: seq<string>)
    requires xs != [] && IdentTexts(xs)
    ensures Joined(xs) != "" && IdentChar(Joined(xs)[0])
  {
    assert Joined(xs)[0] == xs[0][0];
  }

  lemma {:induction false} IdentsOfTexts(pre: seq<Ident>)
    requires AllValid(pre)
    ensures Idents(Texts(pre)) == pre && IdentTexts(Texts(pre)) && |Texts(pre)| == |pre|
  {
    if pre != [] {
      IdentOfText(pre[0]);
      IdentsOfTexts(pre[1..]);
      assert Texts(pre)[1..] == Texts(pre[1..]);
    }
  }

  lemma SplitOfJoin(pre: seq<Ident>, build: string)
    requires pre != [] && Build(build) && AllValid(pre)
    ensures Split(Join(pre) + build) == pre
    ensures Join(pre) != "" && IdentChar(Join(pre)[0])
  {
    IdentsOfTexts(pre);
    SplitOfJoined(Texts(pre), build);
    JoinedStarts(Texts(pre));
  }

  lemma SplitOne(x: string, build: string)
    requires Build(build) && IdentChars(x)
    ensures Split(x + build) == [IdentOf(x)]
  {
    FieldOf(x, build);
    assert (x + build)[..|x|] == x;
  }

  lemma SplitTwo(x: string, rest: string)
    requires IdentChars(x)
    ensures Split(x + ("." + rest)) == [IdentOf(x)] + Split(rest)
  {
    var s := x + ("." + rest);
    FieldOf(x, "." + rest);
    assert s[..|x|] == x && s[|x| + 1..] == rest;
  }

  lemma ThreeNumbers(d1: string, d2: string, d3: string, rest: string)
    requires AllDigits(d1) && AllDigits(d2) && AllDigits(d3)
    requires rest == "" || !(IsDigit(rest[0]) || rest[0] == '.')
    ensures var s := d1 + "." + d2 + "." + d3 + rest;
      && Number(s) == Wrap(Value(d1))
      && Number(Behind(s)) == Wrap(Value(d2))
      && Number(Behind(Behind(s))) == Wrap(Value(d3))
  {
    var r2 := d3 + rest;
    var r1 := d2 + ("." + r2);
    assert d1 + "." + d2 + "." + d3 + rest == d1 + ("." + r1);
    ComponentOf(d1, "." + r1);
    assert ("." + r1)[1..] == r1;
    ComponentOf(d2, "." + r2);
    assert ("." + r2)[1..] == r2;
    ComponentOf(d3, rest);
  }

  lemma PreTextOf(core: string, t: string, build: string)
    requires CoreChars(core) && Build(build)
    ensures PreText(core + ("-" + t)) == t
    ensures PreText(core + build) == ""
  {
    AfterCoreOf(core, "-" + t);
    AfterCoreOf(core, build);
  }

  lemma PreOfText(core: string, pre: seq<Ident>, build: string)
    requires CoreChars(core) && Build(build) && AllValid(pre)
    ensures Pre(core + PreAndBuild(pre, build)) == pre
  {
    PreTextOf(core, Join(pre) + build, build);
    if pre == [] {
      assert PreAndBuild(pre, build) == build;
    } else {
      assert PreAndBuild(pre, build) == "-" + (Join(pre) + build);
      SplitOfJoin(pre, build);
    }
  }

  /** Reading a version's text gives the version back; build metadata is ignored. */
  lemma ParseText(v: Version, build: string)
    requires Valid(v) && Build(build)
    ensures Parse(Text(v, build)) == Wrapped(v)
  {
    PreOfText(CoreText(v), v.pre, build);
    ThreeNumbers(Digits(v.major), Digits(v.minor), Digits(v.patch), PreAndBuild(v.pre, build));
  }

  predicate Fits(v: Version) {
    v.major < TWO32 && v.minor < TWO32 && v.patch < TWO32
  }

  /** Below 2^32 the comparison of two texts is section 11's precedence of the versions. */
  lemma AgreesWithStandard(v: Version, b: string, w: Version, c: string)
    requires Valid(v) && Valid(w) && Fits(v) && Fits(w) && Build(b) && Build(c)
    ensures Precedence(Parse(Text(v, b)), Parse(Text(w, c))) == Precedence(v, w)
  {
    ParseText(v, b);
    ParseText(w, c);
  }

  ghost predicate Ranked(v: Version, w: Version) {
    Precedence(Parse(Text(v, "")), Parse(Text(w, ""))) == Precedence(v, w)
  }

  /** A version is ranked correctly against every 32-bit one exactly when it is a 32-bit one. */
  lemma RankedIffFits(v: Version)
    requires Valid(v)
    ensures (forall w :: Valid(w) && Fits(w) ==> Ranked(v, w)) <==> Fits(v)
  {
    if Fits(v) {
      forall w | Valid(w) && Fits(w)
        ensures Ranked(v, w)
      {
        AgreesWithStandard(v, "", w, "");
      }
    } else {
      Misranked(v, Higher(v));
    }
  }

  /** A 32-bit release below v that no wrapped reading of v outranks. */
  function Higher(v: Version): Version {
    var top := TWO32 - 1;
    Version(if v.major < TWO32 then v.major else top,
            if v.major < TWO32 && v.minor < TWO32 then v.minor else top, top, [])
  }

  lemma HigherWraps(v: Version)
    requires !Fits(v)
    ensures Precedence(v, Higher(v)) == 1 && Precedence(Wrapped(v), Higher(v)) <= 0
  {
  }

  lemma Misranked(v: Version, w: Version)
    requires Valid(v) && !Fits(v) && w == Higher(v)
    ensures Valid(w) && Fits(w) && !Ranked(v, w)
  {
    HigherWraps(v);
    ParseText(v, "");
    ParseText(w, "");
    assert Wrapped(w) == w;
  }
}
