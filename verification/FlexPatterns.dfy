/**
 The regular expressions of the scanner, and that the predicates on matched texts are their
 languages.
 */
module FlexPatterns {
  import opened Settings
  import opened Lexemes
  import opened Matching
  import opened Patterns
  import opened Lexing
  import opened Rescan

  // ----- regular expressions

  /** One or any number of characters of a class, a fixed text, a sequence, a choice. */
  datatype Regex = One(cls: char -> bool) | Many(cls: char -> bool) | Text(s: string) | Cat(a: Regex, b: Regex) | Or(a: Regex, b: Regex)

  ghost predicate Accepts(r: Regex, w: string)
    decreases r
  {
    match r
    case One(c) => |w| == 1 && c(w[0])
    case Many(c) => forall i :: 0 <= i < |w| ==> c(w[i])
    case Text(s) => w == s
    case Cat(a, b) => exists k :: 0 <= k <= |w| && Accepts(a, w[..k]) && Accepts(b, w[k..])
    case Or(a, b) => Accepts(a, w) || Accepts(b, w)
  }

  function Plus(c: char -> bool): Regex {
    Cat(One(c), Many(c))
  }

  function Opt(r: Regex): Regex {
    Or(Text(""), r)
  }

  lemma Splits(a: Regex, b: Regex, w: string, k: nat)
    requires k <= |w| && Accepts(a, w[..k]) && Accepts(b, w[k..])
    ensures Accepts(Cat(a, b), w)
  {
  }

  lemma CatOne(c: char -> bool, b: Regex, w: string)
    ensures Accepts(Cat(One(c), b), w) <==> w != [] && c(w[0]) && Accepts(b, w[1..])
  {
    if w != [] && c(w[0]) && Accepts(b, w[1..]) {
      assert w[..1] == [w[0]];
      Splits(One(c), b, w, 1);
    }
  }

  lemma CatText(s: string, b: Regex, w: string)
    ensures Accepts(Cat(Text(s), b), w) <==> s <= w && Accepts(b, w[|s|..])
  {
    if s <= w && Accepts(b, w[|s|..]) {
      Splits(Text(s), b, w, |s|);
    }
  }

  lemma CatOpt(a: Regex, b: Regex, w: string)
    ensures Accepts(Cat(Opt(a), b), w) <==> Accepts(b, w) || Accepts(Cat(a, b), w)
  {
    if Accepts(b, w) {
      assert w[..0] == "" && w[0..] == w;
      Splits(Opt(a), b, w, 0);
    }
    if Accepts(Cat(a, b), w) {
      var k :| 0 <= k <= |w| && Accepts(a, w[..k]) && Accepts(b, w[k..]);
      Splits(Opt(a), b, w, k);
    }
    if Accepts(Cat(Opt(a), b), w) {
      var k :| 0 <= k <= |w| && Accepts(Opt(a), w[..k]) && Accepts(b, w[k..]);
      if Accepts(a, w[..k]) {
        Splits(a, b, w, k);
      } else {
        assert Accepts(Text(""), w[..k]) && |w[..k]| == k;
        assert w[0..] == w;
      }
    }
  }

  /** What follows a run of a class does not begin with it. */
  ghost predicate EndsRun(c: char -> bool, b: Regex) {
    forall v :: Accepts(b, v) ==> v == [] || !c(v[0])
  }

  lemma PartsAt(w: string, j: nat)
    requires j <= |w|
    ensures forall i :: 0 <= i < j ==> w[..j][i] == w[i]
    ensures j < |w| ==> w[j..] != [] && w[j..][0] == w[j]
  {
  }

  /** So the run is the longest possible. */
  lemma CatMany(c: char -> bool, b: Regex, w: string, k: nat)
    requires k <= |w| && (forall i :: 0 <= i < k ==> c(w[i])) && (k < |w| ==> !c(w[k])) && EndsRun(c, b)
    ensures Accepts(Cat(Many(c), b), w) <==> Accepts(b, w[k..])
  {
    if Accepts(b, w[k..]) {
      Splits(Many(c), b, w, k);
    }
    if Accepts(Cat(Many(c), b), w) {
      var j :| 0 <= j <= |w| && Accepts(Many(c), w[..j]) && Accepts(b, w[j..]);
      PartsAt(w, j);
      assert j == k;
    }
  }

  lemma ManyThenText(c: char -> bool, s: string, b: Regex, w: string, k: nat)
    requires k <= |w| && (forall i :: 0 <= i < k ==> c(w[i])) && (k < |w| ==> !c(w[k]))
    requires s != [] && !c(s[0])
    ensures Accepts(Cat(Many(c), Cat(Text(s), b)), w) <==> s <= w[k..] && Accepts(b, w[k..][|s|..])
  {
    forall v | Accepts(Cat(Text(s), b), v)
      ensures v == [] || !c(v[0])
    {
      CatText(s, b, v);
    }
    CatMany(c, Cat(Text(s), b), w, k);
    CatText(s, b, w[k..]);
  }

  // ----- the definitions of the scanner

  const DIGIT: char -> bool := c => '0' <= c <= '9'
  const HEX_DIGIT: char -> bool := c => '0' <= c <= '9' || 'A' <= c <= 'F' || 'a' <= c <= 'f'
  const SIGN: char -> bool := c => c == '-' || c == '+'
  const BLANK: char -> bool := c => c == ' ' || c == '\t'
  const ANY: char -> bool := c => c != '\n'
  const NO_QUOTE: char -> bool := c => c != '\"' && c != '\\'
  const FIRST: char -> bool := c => 'A' <= c <= 'Z' || 'a' <= c <= 'z' || c == '*'
  const LATER: char -> bool := c => c == '-' || 'A' <= c <= 'Z' || 'a' <= c <= 'z' || '0' <= c <= '9' || c == '_' || c == '*'

  function Either(a: char, b: char): Regex {
    One(c => c == a || c == b)
  }

  const TRUE := Cat(Either('T', 't'), Cat(Either('R', 'r'), Cat(Either('U', 'u'), Either('E', 'e'))))
  const FALSE := Cat(Either('F', 'f'), Cat(Either('A', 'a'), Cat(Either('L', 'l'), Cat(Either('S', 's'), Either('E', 'e')))))
  const NAME := Cat(One(FIRST), Many(LATER))
  const INTEGER := Cat(Opt(One(SIGN)), Plus(DIGIT))
  const LONG := Cat(Text("L"), Opt(Text("L")))
  const INTEGER64 := Cat(INTEGER, LONG)
  const HEX := Cat(Text("0"), Cat(Either('X', 'x'), Plus(HEX_DIGIT)))
  const HEX64 := Cat(HEX, LONG)
  const HEX_CHAR := Cat(Text("\\"), Cat(Either('X', 'x'), Cat(One(HEX_DIGIT), One(HEX_DIGIT))))
  const EXPONENT := Cat(Either('e', 'E'), Cat(Opt(One(SIGN)), Plus(DIGIT)))
  const POINTED := Cat(Many(DIGIT), Cat(Text("."), Cat(Many(DIGIT), Opt(EXPONENT))))
  const DECIMALS := Cat(Text("."), Many(DIGIT))
  const SCALE := Cat(Opt(DECIMALS), EXPONENT)
  const SCALED := Cat(Plus(DIGIT), SCALE)
  const FLOAT := Or(Cat(Opt(One(SIGN)), POINTED), Cat(Opt(One(SIGN)), SCALED))
  const LINE_COMMENT := Cat(Or(Text("#"), Text("//")), Many(ANY))
  const INCLUDE_OPEN := Cat(Many(BLANK), Cat(Text("@include"), Cat(Plus(BLANK), Text("\""))))

  /** The pattern of a rule, without the condition on what is around the match. */
  function PatternOf(r: nat): Regex {
    match r
    case 1 => Text("/*")
    case 2 => Text("*/")
    case 3 => One(ANY)
    case 4 => Text("\n")
    case 5 => Text("\"")
    case 6 => Plus(NO_QUOTE)
    case 7 => Text("\\n")
    case 8 => Text("\\r")
    case 9 => Text("\\t")
    case 10 => Text("\\f")
    case 11 => Text("\\\\")
    case 12 => Text("\\\"")
    case 13 => HEX_CHAR
    case 14 => Text("\\")
    case 15 => Text("\"")
    case 16 => INCLUDE_OPEN
    case 17 => Plus(NO_QUOTE)
    case 18 => Text("\\\\")
    case 19 => Text("\\\"")
    case 20 => Text("\"")
    case 21 => Or(Text("\n"), Or(Text("\r"), Text([0x0C as char])))
    case 22 => Plus(BLANK)
    case 23 => Or(Text("="), Text(":"))
    case 24 => Text(",")
    case 25 => Text("{")
    case 26 => Text("}")
    case 27 => TRUE
    case 28 => FALSE
    case 29 => NAME
    case 30 => FLOAT
    case 31 => INTEGER
    case 32 => INTEGER64
    case 33 => HEX
    case 34 => HEX64
    case 35 => Text("[")
    case 36 => Text("]")
    case 37 => Text("(")
    case 38 => Text(")")
    case 39 => Text(";")
    case 40 => LINE_COMMENT
    case _ => One(ANY)
  }

  /** The start condition in which a rule is active. */
  function ActiveIn(r: nat): Condition {
    if 2 <= r <= 4 then COMMENT else if 6 <= r <= 15 then STRING else if 17 <= r <= 20 then INCLUDE else INITIAL
  }

  // ----- the languages of the patterns

  lemma AcceptsPlus(c: char -> bool, w: string)
    ensures Accepts(Plus(c), w) <==> w != [] && forall i :: 0 <= i < |w| ==> c(w[i])
  {
    CatOne(c, Many(c), w);
    if w != [] {
      assert forall i :: 1 <= i < |w| ==> w[i] == w[1..][i - 1];
      assert forall i :: 0 <= i < |w[1..]| ==> w[1..][i] == w[i + 1];
    }
  }

  lemma AcceptsDigits(w: string)
    ensures Accepts(Plus(DIGIT), w) <==> AllDigits(w)
  {
    AcceptsPlus(DIGIT, w);
  }

  /** A sign may be dropped in front of what begins with none. */
  lemma AfterSign(b: Regex, w: string)
    requires forall v :: Accepts(b, v) ==> v != [] && !SIGN(v[0])
    ensures Accepts(Cat(Opt(One(SIGN)), b), w) <==> Accepts(b, DropSign(w))
  {
    CatOpt(One(SIGN), b, w);
    CatOne(SIGN, b, w);
  }

  lemma AcceptsInteger(w: string)
    ensures Accepts(INTEGER, w) <==> IsInteger(w)
  {
    forall v | Accepts(Plus(DIGIT), v)
      ensures v != [] && !SIGN(v[0])
    {
      AcceptsDigits(v);
    }
    AfterSign(Plus(DIGIT), w);
    AcceptsDigits(DropSign(w));
  }

  lemma AcceptsHex(w: string)
    ensures Accepts(HEX, w) <==> IsHex(w)
  {
    CatText("0", Cat(Either('X', 'x'), Plus(HEX_DIGIT)), w);
    if "0" <= w {
      var v := w[1..];
      CatOne(Either('X', 'x').cls, Plus(HEX_DIGIT), v);
      if v != [] {
        AcceptsPlus(HEX_DIGIT, v[1..]);
        assert v[1..] == w[2..];
      }
    }
  }

  lemma AcceptsLong(w: string)
    ensures Accepts(LONG, w) <==> w == "L" || w == "LL"
  {
    CatText("L", Opt(Text("L")), w);
    if "L" <= w {
      assert w == "L" + w[1..];
    }
  }

  /** A suffix after what does not end in L. */
  lemma BeforeLong(a: Regex, w: string)
    requires forall v :: Accepts(a, v) ==> v != [] && v[|v| - 1] != 'L'
    ensures Accepts(Cat(a, LONG), w) <==> DropLong(w) != w && Accepts(a, DropLong(w))
  {
    var d := DropLong(w);
    if d != w && Accepts(a, d) {
      WithoutLong(w);
      AcceptsLong(w[|d|..]);
      Splits(a, LONG, w, |d|);
    }
    if Accepts(Cat(a, LONG), w) {
      LongIsDropped(a, w);
    }
  }

  lemma LongIsDropped(a: Regex, w: string)
    requires forall v :: Accepts(a, v) ==> v != [] && v[|v| - 1] != 'L'
    requires Accepts(Cat(a, LONG), w)
    ensures DropLong(w) != w && Accepts(a, DropLong(w))
  {
    var k :| 0 <= k <= |w| && Accepts(a, w[..k]) && Accepts(LONG, w[k..]);
    AcceptsLong(w[k..]);
    WithLong(w, k);
  }

  lemma WithoutLong(w: string)
    requires DropLong(w) != w
    ensures var d := DropLong(w); d <= w && (w[|d|..] == "L" || w[|d|..] == "LL")
  {
    var d := DropLong(w);
    assert w[..|d|] == d;
    if |w| - |d| == 1 {
      assert w[|d|..] == "L";
    } else {
      assert w[|d|..] == "LL";
    }
  }

  lemma WithLong(w: string, k: nat)
    requires 0 < k <= |w| && w[..k][k - 1] != 'L' && (w[k..] == "L" || w[k..] == "LL")
    ensures DropLong(w) == w[..k] && DropLong(w) != w
  {
    assert w == w[..k] + w[k..];
    assert w[k - 1] == w[..k][k - 1] && w[k] == w[k..][0] && w[|w| - 1] == w[k..][|w| - 1 - k];
  }

  lemma AcceptsInteger64(w: string)
    ensures Accepts(INTEGER64, w) <==> IsInteger64(w)
  {
    forall v | Accepts(INTEGER, v)
      ensures v != [] && v[|v| - 1] != 'L'
    {
      AcceptsInteger(v);
      assert v[|v| - 1] == DropSign(v)[|DropSign(v)| - 1];
    }
    BeforeLong(INTEGER, w);
    AcceptsInteger(DropLong(w));
  }

  lemma AcceptsHex64(w: string)
    ensures Accepts(HEX64, w) <==> IsHex64(w)
  {
    forall v | Accepts(HEX, v)
      ensures v != [] && v[|v| - 1] != 'L'
    {
      AcceptsHex(v);
      assert v[|v| - 1] == v[2..][|v| - 3];
    }
    BeforeLong(HEX, w);
    AcceptsHex(DropLong(w));
  }

  lemma AcceptsExponent(w: string)
    ensures Accepts(EXPONENT, w) <==> IsExponent(w)
  {
    CatOne(Either('e', 'E').cls, INTEGER, w);
    if w != [] {
      AcceptsInteger(w[1..]);
    }
  }

  lemma AcceptsFraction(w: string)
    ensures Accepts(Cat(Many(DIGIT), Opt(EXPONENT)), w) <==> IsFraction(w)
  {
    forall v | Accepts(Opt(EXPONENT), v)
      ensures v == [] || !DIGIT(v[0])
    {
      AcceptsExponent(v);
    }
    CatMany(DIGIT, Opt(EXPONENT), w, Span(w));
    AcceptsExponent(w[Span(w)..]);
  }

  lemma AcceptsPointed(w: string)
    ensures Accepts(POINTED, w) <==> Span(w) < |w| && w[Span(w)] == '.' && IsFraction(w[Span(w) + 1..])
  {
    var k := Span(w);
    ManyThenText(DIGIT, ".", Cat(Many(DIGIT), Opt(EXPONENT)), w, k);
    PartsAt(w, k);
    if k < |w| && w[k] == '.' {
      assert w[k..] == "." + w[k + 1..] && w[k..][1..] == w[k + 1..];
      AcceptsFraction(w[k + 1..]);
    }
  }

  /** A point with more digits, or none, and an exponent. */
  predicate IsScale(v: string) {
    IsExponent(v) || (v != [] && v[0] == '.' && IsFraction(v[1..]))
  }

  lemma AcceptsDecimals(v: string)
    ensures Accepts(DECIMALS, v) <==> v != [] && v[0] == '.' && forall i :: 1 <= i < |v| ==> DIGIT(v[i])
  {
    CatText(".", Many(DIGIT), v);
    if v != [] {
      assert forall i :: 1 <= i < |v| ==> v[i] == v[1..][i - 1];
      assert forall i :: 0 <= i < |v| - 1 ==> v[1..][i] == v[i + 1];
      assert v[0] == '.' ==> "." <= v;
    }
  }

  lemma ScaleIsScale(v: string)
    requires Accepts(SCALE, v)
    ensures IsScale(v)
  {
    CatOpt(DECIMALS, EXPONENT, v);
    AcceptsExponent(v);
    if !Accepts(EXPONENT, v) {
      DecimalsAndExponent(v);
    }
  }

  lemma DecimalsAndExponent(v: string)
    requires Accepts(Cat(DECIMALS, EXPONENT), v)
    ensures v != [] && v[0] == '.' && IsFraction(v[1..])
  {
    var k :| 0 <= k <= |v| && Accepts(DECIMALS, v[..k]) && Accepts(EXPONENT, v[k..]);
    AcceptsDecimals(v[..k]);
    AcceptsExponent(v[k..]);
    PointTail(v, k);
  }

  lemma PointTail(v: string, k: nat)
    requires 0 < k <= |v| && v[..k][0] == '.' && (forall i :: 1 <= i < k ==> IsDigit(v[..k][i])) && IsExponent(v[k..])
    ensures v[0] == '.' && IsFraction(v[1..])
  {
    var f := v[1..];
    PartsAt(v, k);
    assert forall i :: 0 <= i < k - 1 ==> f[i] == v[i + 1];
    assert f[k - 1..] == v[k..] && f[k - 1] == v[k..][0];
    SpanOfDigits(f, k - 1);
  }

  /** Digits and a scale are a float. */
  lemma ScaledIsFloat(w: string, k: nat)
    requires 0 < k <= |w| && AllDigits(w[..k]) && IsScale(w[k..])
    ensures IsUnsignedFloat(w) && IsDigit(w[0])
  {
    var v := w[k..];
    PartsAt(w, k);
    SpanOfDigits(w, k);
    if w[k] == '.' {
      assert w[k + 1..] == v[1..];
    }
  }

  lemma AcceptsScaled(w: string)
    ensures Accepts(SCALED, w) ==> IsUnsignedFloat(w) && IsDigit(w[0])
  {
    if Accepts(SCALED, w) {
      var k :| 0 <= k <= |w| && Accepts(Plus(DIGIT), w[..k]) && Accepts(SCALE, w[k..]);
      AcceptsDigits(w[..k]);
      ScaleIsScale(w[k..]);
      ScaledIsFloat(w, k);
    }
  }

  lemma FloatIsAccepted(w: string)
    requires IsUnsignedFloat(w)
    ensures Accepts(POINTED, w) || Accepts(SCALED, w)
  {
    var k := Span(w);
    AcceptsPointed(w);
    if !(k < |w| && w[k] == '.') {
      AcceptsDigits(w[..k]);
      AcceptsExponent(w[k..]);
      CatOpt(DECIMALS, EXPONENT, w[k..]);
      Splits(Plus(DIGIT), SCALE, w, k);
    }
  }

  lemma SignedPointed(w: string)
    ensures Accepts(Cat(Opt(One(SIGN)), POINTED), w) <==> Accepts(POINTED, DropSign(w))
  {
    forall v | Accepts(POINTED, v)
      ensures v != [] && !SIGN(v[0])
    {
      AcceptsPointed(v);
    }
    AfterSign(POINTED, w);
  }

  lemma SignedScaled(w: string)
    ensures Accepts(Cat(Opt(One(SIGN)), SCALED), w) <==> Accepts(SCALED, DropSign(w))
  {
    forall v | Accepts(SCALED, v)
      ensures v != [] && !SIGN(v[0])
    {
      AcceptsScaled(v);
    }
    AfterSign(SCALED, w);
  }

  lemma PointedIsFloat(u: string)
    requires Accepts(POINTED, u)
    ensures IsUnsignedFloat(u)
  {
    AcceptsPointed(u);
  }

  lemma UnsignedFloatIs(u: string)
    ensures Accepts(POINTED, u) || Accepts(SCALED, u) <==> IsUnsignedFloat(u)
  {
    if Accepts(POINTED, u) {
      PointedIsFloat(u);
    } else if Accepts(SCALED, u) {
      AcceptsScaled(u);
    } else if IsUnsignedFloat(u) {
      FloatIsAccepted(u);
    }
  }

  lemma AcceptsFloat(w: string)
    ensures Accepts(FLOAT, w) <==> IsFloat(w)
  {
    SignedPointed(w);
    SignedScaled(w);
    UnsignedFloatIs(DropSign(w));
  }

  lemma AcceptsTrue(w: string)
    ensures Accepts(TRUE, w) <==> IsWord(w, "true")
  {
    var e := Either('E', 'e');
    var ue := Cat(Either('U', 'u'), e);
    var rue := Cat(Either('R', 'r'), ue);
    CatOne(Either('T', 't').cls, rue, w);
    if |w| >= 4 {
      CatOne(Either('R', 'r').cls, ue, w[1..]);
      CatOne(Either('U', 'u').cls, e, w[1..][1..]);
      assert w[1..][0] == w[1] && w[1..][1..][0] == w[2] && w[1..][1..][1..][0] == w[3];
      FourLetters(w);
    } else {
      ShortIsNoTrue(w);
    }
  }

  lemma ShortIsNoTrue(w: string)
    requires |w| < 4
    ensures !Accepts(TRUE, w)
  {
    var e := Either('E', 'e');
    var ue := Cat(Either('U', 'u'), e);
    CatOne(Either('T', 't').cls, Cat(Either('R', 'r'), ue), w);
    if |w| >= 1 {
      CatOne(Either('R', 'r').cls, ue, w[1..]);
      if |w| >= 2 {
        CatOne(Either('U', 'u').cls, e, w[1..][1..]);
      }
    }
  }

  lemma FourLetters(w: string)
    requires |w| >= 4
    ensures IsWord(w, "true") <==>
              |w| == 4 && (w[0] == 'T' || w[0] == 't') && (w[1] == 'R' || w[1] == 'r') && (w[2] == 'U' || w[2] == 'u') && (w[3] == 'E' || w[3] == 'e')
  {
    if IsWord(w, "true") {
      assert ToLower(w[0]) == 't' && ToLower(w[1]) == 'r' && ToLower(w[2]) == 'u' && ToLower(w[3]) == 'e';
    }
  }

  /** A word of five letters, each in either case. */
  lemma AcceptsFalse(w: string)
    ensures Accepts(FALSE, w) <==> IsWord(w, "false")
  {
    var e := Either('E', 'e');
    var se := Cat(Either('S', 's'), e);
    var lse := Cat(Either('L', 'l'), se);
    var alse := Cat(Either('A', 'a'), lse);
    CatOne(Either('F', 'f').cls, alse, w);
    if |w| >= 1 {
      CatOne(Either('A', 'a').cls, lse, w[1..]);
    }
    if |w| >= 2 {
      CatOne(Either('L', 'l').cls, se, w[1..][1..]);
    }
    if |w| >= 3 {
      CatOne(Either('S', 's').cls, e, w[1..][1..][1..]);
    }
    if |w| >= 5 {
      assert w[1..][0] == w[1] && w[1..][1..][0] == w[2] && w[1..][1..][1..][0] == w[3] && w[1..][1..][1..][1..][0] == w[4];
      FiveLetters(w);
    }
  }

  lemma FiveLetters(w: string)
    requires |w| >= 5
    ensures IsWord(w, "false") <==>
              && |w| == 5 && (w[0] == 'F' || w[0] == 'f') && (w[1] == 'A' || w[1] == 'a') && (w[2] == 'L' || w[2] == 'l')
              && (w[3] == 'S' || w[3] == 's') && (w[4] == 'E' || w[4] == 'e')
  {
    if IsWord(w, "false") {
      assert ToLower(w[0]) == 'f' && ToLower(w[1]) == 'a' && ToLower(w[2]) == 'l' && ToLower(w[3]) == 's' && ToLower(w[4]) == 'e';
    }
  }

  lemma AcceptsName(w: string)
    ensures Accepts(NAME, w) <==> ValidName(w)
  {
    CatOne(FIRST, Many(LATER), w);
    if w != [] {
      assert forall i :: 1 <= i < |w| ==> w[i] == w[1..][i - 1];
      assert forall i :: 0 <= i < |w| - 1 ==> w[1..][i] == w[i + 1];
    }
  }

  lemma {:induction false} BlanksAre(w: string, k: nat)
    requires k <= |w| && (forall i :: 0 <= i < k ==> IsBlank(w[i])) && (k < |w| ==> !IsBlank(w[k]))
    ensures Blanks(w) == k
  {
  }

  const GAP_AND_QUOTE := Cat(Plus(BLANK), Text("\""))

  lemma AcceptsGap(v: string)
    ensures Accepts(GAP_AND_QUOTE, v) <==> v != [] && IsBlank(v[0]) && v[Blanks(v)..] == "\""
  {
    if Accepts(GAP_AND_QUOTE, v) {
      var k :| 0 <= k <= |v| && Accepts(Plus(BLANK), v[..k]) && Accepts(Text("\""), v[k..]);
      AcceptsPlus(BLANK, v[..k]);
      PartsAt(v, k);
      BlanksAre(v, k);
    }
    if v != [] && IsBlank(v[0]) && v[Blanks(v)..] == "\"" {
      AcceptsPlus(BLANK, v[..Blanks(v)]);
      Splits(Plus(BLANK), Text("\""), v, Blanks(v));
    }
  }

  lemma AcceptsInclude(w: string)
    ensures Accepts(INCLUDE_OPEN, w) <==> IsIncludeOpen(w)
  {
    var k := Blanks(w);
    ManyThenText(BLANK, "@include", GAP_AND_QUOTE, w, k);
    if "@include" <= w[k..] {
      AcceptsGap(w[k..][8..]);
    }
  }

  lemma AcceptsComment(w: string)
    requires w != [] && w[|w| - 1] == '\n'
    ensures Accepts(LINE_COMMENT, w[..|w| - 1]) <==> IsLineComment(w)
  {
    var v := w[..|w| - 1];
    assert forall i :: 0 <= i < |v| ==> v[i] == w[i];
    if IsLineComment(w) {
      var k := if w[0] == '#' then 1 else 2;
      assert v[..k] == if k == 1 then "#" else "//";
      assert forall i :: 0 <= i < |v[k..]| ==> v[k..][i] == v[k + i];
      Splits(Or(Text("#"), Text("//")), Many(ANY), v, k);
    }
    if Accepts(LINE_COMMENT, v) {
      var k :| 0 <= k <= |v| && Accepts(Or(Text("#"), Text("//")), v[..k]) && Accepts(Many(ANY), v[k..]);
      CommentText(v, k);
      assert w == v + "\n";
    }
  }

  lemma CommentText(v: string, k: nat)
    requires k <= |v| && (v[..k] == "#" || v[..k] == "//") && forall i :: 0 <= i < |v[k..]| ==> v[k..][i] != '\n'
    ensures v[0] == '#' || (|v| >= 2 && v[0] == '/' && v[1] == '/')
    ensures forall i :: 0 <= i < |v| ==> v[i] != '\n'
  {
    PartsAt(v, k);
    assert forall i :: k <= i < |v| ==> v[i] == v[k..][i - k];
  }

  lemma AcceptsCode(w: string)
    ensures Accepts(HEX_CHAR, w) <==>
              |w| == 4 && w[0] == '\\' && (w[1] == 'x' || w[1] == 'X') && IsHexDigit(w[2]) && IsHexDigit(w[3])
  {
    var two := Cat(One(HEX_DIGIT), One(HEX_DIGIT));
    assert w != [] && w[0] == '\\' ==> "\\" <= w;
    CatText("\\", Cat(Either('X', 'x'), two), w);
    if "\\" <= w {
      CatOne(Either('X', 'x').cls, two, w[1..]);
      if |w| >= 2 {
        CatOne(HEX_DIGIT, One(HEX_DIGIT), w[1..][1..]);
        assert w[1..][1..] == w[2..];
      }
    }
  }

  // ----- the predicates are the patterns

  /** What the scanner demands of a match of rule `r` in a start condition. */
  ghost predicate MatchesPattern(sc: Condition, bol: bool, r: nat, w: string) {
    if r == NRULES then |w| == 1
    else
      && sc == ActiveIn(r)
      && (r == 16 ==> bol)
      && if r == COMMENT_RULE then w != [] && w[|w| - 1] == '\n' && Accepts(LINE_COMMENT, w[..|w| - 1])
         else Accepts(PatternOf(r), w)
  }

  lemma NamePatterns(r: nat, bol: bool, w: string)
    requires 27 <= r <= 29
    ensures InInitial(r, bol, w) == Accepts(PatternOf(r), w)
  {
    AcceptsTrue(w);
    AcceptsFalse(w);
    AcceptsName(w);
  }

  lemma FloatPattern(bol: bool, w: string)
    ensures InInitial(30, bol, w) == Accepts(PatternOf(30), w)
  {
    AcceptsFloat(w);
  }

  lemma IntegerPatterns(r: nat, bol: bool, w: string)
    requires 31 <= r <= 34
    ensures InInitial(r, bol, w) == Accepts(PatternOf(r), w)
  {
    if r == 31 {
      AcceptsInteger(w);
    } else if r == 32 {
      AcceptsInteger64(w);
    } else if r == 33 {
      AcceptsHex(w);
    } else {
      AcceptsHex64(w);
    }
  }

  lemma TwoSigns(r: nat, bol: bool, w: string)
    requires r == 21 || r == 23
    ensures InInitial(r, bol, w) == Accepts(PatternOf(r), w)
  {
    if |w| == 1 {
      assert w == [w[0]];
    }
    if r == 21 {
      assert Accepts(Or(Text("\r"), Text([0x0C as char])), w) <==> w == "\r" || w == [0x0C as char];
    }
  }

  /** The texts that the rules for single signs match. */
  function SignOf(r: nat): char
    requires r in SIGN_RULES
  {
    match r
    case 5 => '\"'
    case 24 => ','
    case 25 => '{'
    case 26 => '}'
    case 35 => '['
    case 36 => ']'
    case 37 => '('
    case 38 => ')'
    case _ => ';'
  }

  const SIGN_RULES: set<nat> := {5, 24, 25, 26, 35, 36, 37, 38, 39}

  lemma SignPatterns(r: nat, bol: bool, w: string)
    requires r in SIGN_RULES
    ensures InInitial(r, bol, w) == Accepts(PatternOf(r), w)
  {
    var c := SignOf(r);
    assert PatternOf(r) == Text([c]);
    assert InInitial(r, bol, w) == Is1(w, c);
    assert Is1(w, c) ==> w == [c];
  }

  lemma BlankPattern(bol: bool, w: string)
    ensures InInitial(22, bol, w) == Accepts(PatternOf(22), w)
  {
    AcceptsPlus(BLANK, w);
    if w != [] && forall i :: 0 <= i < |w| ==> IsBlank(w[i]) {
      BlanksAre(w, |w|);
    }
  }

  lemma MarkPatterns(bol: bool, w: string)
    ensures InInitial(1, bol, w) == Accepts(PatternOf(1), w)
    ensures InInitial(41, bol, w) == Accepts(PatternOf(41), w)
  {
    assert Is2(w, '/', '*') ==> w == "/*";
  }

  lemma InitialPatterns(r: nat, bol: bool, w: string)
    requires 1 <= r < NRULES && ActiveIn(r) == INITIAL
    ensures InInitial(r, bol, w) == MatchesPattern(INITIAL, bol, r, w)
  {
    if 27 <= r <= 29 {
      NamePatterns(r, bol, w);
    } else if r == 30 {
      FloatPattern(bol, w);
    } else if 31 <= r <= 34 {
      IntegerPatterns(r, bol, w);
    } else if r == 16 {
      AcceptsInclude(w);
    } else if r == COMMENT_RULE {
      if w != [] && w[|w| - 1] == '\n' {
        AcceptsComment(w);
      }
    } else if r == 22 {
      BlankPattern(bol, w);
    } else if r == 21 || r == 23 {
      TwoSigns(r, bol, w);
    } else if r in SIGN_RULES {
      SignPatterns(r, bol, w);
    } else {
      MarkPatterns(bol, w);
    }
  }

  lemma OtherPatterns(r: nat, w: string)
    requires 1 <= r < NRULES && ActiveIn(r) != INITIAL
    ensures InComment(r, w) == (2 <= r <= 4 && Accepts(PatternOf(r), w))
    ensures InString(r, w) == (6 <= r <= 15 && Accepts(PatternOf(r), w))
    ensures InInclude(r, w) == (17 <= r <= 20 && Accepts(PatternOf(r), w))
  {
    AcceptsPlus(NO_QUOTE, w);
    AcceptsCode(w);
    if |w| == 1 {
      assert w == [w[0]];
    } else if |w| == 2 {
      assert w == [w[0], w[1]];
    }
  }

  /** Every predicate on matched texts is the language of the pattern of its rule. */
  lemma MatchesAreLanguages(sc: Condition, bol: bool, r: nat, w: string)
    requires 1 <= r <= NRULES
    ensures Matches(sc, bol, r, w) <==> MatchesPattern(sc, bol, r, w)
  {
    if r < NRULES {
      if ActiveIn(r) == INITIAL {
        InitialPatterns(r, bol, w);
      } else {
        OtherPatterns(r, w);
      }
    }
  }
}
