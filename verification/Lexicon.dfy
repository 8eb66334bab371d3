/**
 What the words, numerals, literals and signs of a configuration text are scanned as, written out
 character by character.
 */
module Lexicon {
  import opened Options
  import opened Settings
  import opened Tokens
  import opened Lexemes
  import opened Numerals
  import opened Matching
  import opened Patterns
  import opened Lexing
  import opened Rescan
  import opened RescanString

  /** Digits from 0 to 9. */
  predicate Decimals(ds: string) {
    forall i :: 0 <= i < |ds| ==> '0' <= ds[i] <= '9'
  }

  /** Digits from 0 to 9, and letters from A to F in either case. */
  predicate HexDigits(hs: string) {
    forall i :: 0 <= i < |hs| ==> HexCharacter(hs[i])
  }

  predicate HexCharacter(c: char) {
    '0' <= c <= '9' || 'A' <= c <= 'F' || 'a' <= c <= 'f'
  }

  const SIGNS: set<string> := {"", "+", "-"}
  const LONG_SUFFIXES: set<string> := {"L", "LL"}

  function Signed(sign: string, n: nat): int {
    if sign == "-" then 0 - n else n
  }

  /** The token at the front of a text, and what follows it. */
  ghost predicate Reads(g: Scanning, s: string, bol: bool, tok: Token, rest: string) {
    Initial(g, s, bol) == Prepend([tok], Initial(g, rest, false))
  }

  lemma WordReads(u: Rules, g: Scanning, w: string, rest: string, bol: bool, r: nat, tok: Token)
    requires IsFlex(u) && IsScan(u, g) && WordOf(w, r) && Delimits(rest) && TokenOf(r, w, "") == Some(tok)
    ensures Reads(g, w + rest, bol, tok, rest)
  {
    ScanWord(u, g, w, rest, bol, r);
  }

  // ----- decimal numerals

  lemma DropsSign(sign: string, body: string)
    requires sign in SIGNS && body != [] && !IsSign(body[0])
    ensures DropSign(sign + body) == body && (NumeralHead(body[0]) ==> NumeralHead((sign + body)[0]))
    ensures (sign + body)[0] == '-' <==> sign == "-"
  {
    if sign == "" {
      assert sign + body == body;
    } else {
      assert (sign + body)[1..] == body;
    }
  }

  lemma IntegerShape(sign: string, ds: string)
    requires sign in SIGNS && Decimals(ds) && ds != []
    ensures var w := sign + ds;
            WordOf(w, 31) && SignedValue(w) == Signed(sign, Number(ds, Decimal)) && IsInteger(w) && NumeralHead(w[0])
  {
    var w := sign + ds;
    DropsSign(sign, ds);
    SpanOfDigits(ds, |ds|);
    assert sign == "-" ==> w[1..] == ds;
    NumeralIsOnly(w, 31);
  }

  /** An integer that fits an `int` is read as it is, and any other truncated. */
  lemma ScanInteger(u: Rules, g: Scanning, sign: string, ds: string, rest: string, bol: bool)
    requires IsFlex(u) && IsScan(u, g) && sign in SIGNS && Decimals(ds) && ds != [] && Delimits(rest)
    ensures Reads(g, sign + ds + rest, bol, TokInteger(Wrap32(Clamp64(Signed(sign, Number(ds, Decimal))))), rest)
  {
    IntegerShape(sign, ds);
    WordReads(u, g, sign + ds, rest, bol, 31, TokInteger(Wrap32(Clamp64(Signed(sign, Number(ds, Decimal))))));
  }

  lemma DropsSuffix(w: string, suffix: string)
    requires suffix in LONG_SUFFIXES && w != [] && w[|w| - 1] != 'L'
    ensures DropLong(w + suffix) == w && DropLong(w) == w && w + suffix != w
  {
    var x := w + suffix;
    assert x[|x| - 1] == 'L' && (suffix == "LL" ==> x[|x| - 2] == 'L') && (suffix == "L" ==> x[|x| - 2] == w[|w| - 1]);
    assert x[..|w|] == w;
  }

  lemma LongIsNoOther(sign: string, ds: string, suffix: string)
    requires sign in SIGNS && Decimals(ds) && ds != [] && suffix in LONG_SUFFIXES
    ensures var w := sign + (ds + suffix); !IsFloat(w) && !IsInteger(w) && NumeralHead(w[0])
  {
    var v := ds + suffix;
    DropsSign(sign, v);
    LetterInside(v, |ds|);
  }

  lemma LetterInside(v: string, k: nat)
    requires k < |v| && Decimals(v[..k]) && v[k] == 'L'
    ensures !IsUnsignedFloat(v) && !AllDigits(v)
  {
    assert forall i :: 0 <= i < k ==> v[i] == v[..k][i];
    SpanOfDigits(v, k);
    assert v[k..][0] == 'L';
  }

  lemma Integer64Shape(sign: string, ds: string, suffix: string)
    requires sign in SIGNS && Decimals(ds) && ds != [] && suffix in LONG_SUFFIXES
    ensures var w := sign + ds + suffix; WordOf(w, 32) && Atoll(w) == Clamp64(Signed(sign, Number(ds, Decimal)))
  {
    var v := sign + ds;
    IntegerShape(sign, ds);
    LongIsDropped(v, sign, ds, suffix);
    LongIsOnly(v + suffix, v);
  }

  lemma LongIsDropped(v: string, sign: string, ds: string, suffix: string)
    requires v == sign + ds && sign in SIGNS && Decimals(ds) && ds != [] && suffix in LONG_SUFFIXES
    ensures DropLong(v + suffix) == v && v + suffix != v
    ensures !IsFloat(v + suffix) && !IsInteger(v + suffix) && NumeralHead((v + suffix)[0])
  {
    assert v[|v| - 1] == ds[|ds| - 1];
    DropsSuffix(v, suffix);
    assert v + suffix == sign + (ds + suffix);
    LongIsNoOther(sign, ds, suffix);
  }

  lemma LongIsOnly(w: string, v: string)
    requires w != [] && w != v && DropLong(w) == v && IsInteger(v) && !IsFloat(w) && !IsInteger(w) && NumeralHead(w[0])
    ensures WordOf(w, 32) && Atoll(w) == Clamp64(SignedValue(v))
  {
    NumeralIsOnly(w, 32);
  }

  /** With one or two letters L it is a 64-bit integer. */
  lemma ScanInteger64(u: Rules, g: Scanning, sign: string, ds: string, suffix: string, rest: string, bol: bool)
    requires IsFlex(u) && IsScan(u, g) && sign in SIGNS && Decimals(ds) && ds != [] && suffix in LONG_SUFFIXES && Delimits(rest)
    ensures Reads(g, sign + ds + suffix + rest, bol, TokInteger64(Clamp64(Signed(sign, Number(ds, Decimal)))), rest)
  {
    Integer64Shape(sign, ds, suffix);
    WordReads(u, g, sign + ds + suffix, rest, bol, 32, TokInteger64(Clamp64(Signed(sign, Number(ds, Decimal)))));
  }

  // ----- hexadecimal numerals

  /** `strtoul` and `strtoull` give the largest value when the number does not fit. */
  function Saturated(n: nat): nat {
    if n < TWO64 then n else TWO64 - 1
  }

  lemma HexShape(x: char, hs: string)
    requires x in "xX" && HexDigits(hs) && hs != []
    ensures var w := ['0', x] + hs; WordOf(w, 33) && IsHex(w) && w[2..] == hs && w[|w| - 1] == hs[|hs| - 1]
  {
    var w := ['0', x] + hs;
    assert w[2..] == hs;
    HexIsNoDecimal(w);
    NumeralIsOnly(w, 33);
  }

  /** A hexadecimal integer. */
  lemma ScanHex(u: Rules, g: Scanning, x: char, hs: string, rest: string, bol: bool)
    requires IsFlex(u) && IsScan(u, g) && x in "xX" && HexDigits(hs) && hs != [] && Delimits(rest)
    ensures Reads(g, ['0', x] + hs + rest, bol, TokHex(Wrap32(Saturated(Number(hs, Hexadecimal)))), rest)
  {
    HexShape(x, hs);
    WordReads(u, g, ['0', x] + hs, rest, bol, 33, TokHex(Wrap32(Saturated(Number(hs, Hexadecimal)))));
  }

  lemma Hex64Shape(x: char, hs: string, suffix: string)
    requires x in "xX" && HexDigits(hs) && hs != [] && suffix in LONG_SUFFIXES
    ensures var w := ['0', x] + hs + suffix; WordOf(w, 34) && DropLong(w) == ['0', x] + hs && DropLong(w)[2..] == hs
  {
    var v := ['0', x] + hs;
    HexShape(x, hs);
    DropsSuffix(v, suffix);
    var w := v + suffix;
    HexIsNoDecimal(w);
    assert w[|w| - 1] == 'L' && w[2..][|w| - 3] == 'L';
    NumeralIsOnly(w, 34);
  }

  lemma ScanHex64(u: Rules, g: Scanning, x: char, hs: string, suffix: string, rest: string, bol: bool)
    requires IsFlex(u) && IsScan(u, g) && x in "xX" && HexDigits(hs) && hs != [] && suffix in LONG_SUFFIXES && Delimits(rest)
    ensures Reads(g, ['0', x] + hs + suffix + rest, bol, TokHex64(Wrap64(Saturated(Number(hs, Hexadecimal)))), rest)
  {
    Hex64Shape(x, hs, suffix);
    WordReads(u, g, ['0', x] + hs + suffix, rest, bol, 34, TokHex64(Wrap64(Saturated(Number(hs, Hexadecimal)))));
  }

  // ----- floating-point numerals

  /** An exponent, as it is written: a letter E, a sign and digits. */
  predicate Exponent(e: string) {
    e != [] && e[0] in "eE" && exists sign :: sign in SIGNS && sign < e[1..] && Decimals(e[1 + |sign|..])
  }

  lemma ExponentShape(e: string)
    requires Exponent(e)
    ensures IsExponent(e)
  {
    var sign :| sign in SIGNS && sign < e[1..] && Decimals(e[1 + |sign|..]);
    var ds := e[1 + |sign|..];
    assert e[1..] == sign + ds;
    DropsSign(sign, ds);
  }

  lemma FloatIsOnly(sign: string, v: string)
    requires sign in SIGNS && IsUnsignedFloat(v) && v != [] && !IsSign(v[0])
    ensures WordOf(sign + v, 30)
  {
    DropsSign(sign, v);
    HeadOfFloat(sign + v);
    NumeralIsOnly(sign + v, 30);
  }

  lemma FloatWordReads(u: Rules, g: Scanning, w: string, rest: string, bol: bool)
    requires IsFlex(u) && IsScan(u, g) && Delimits(rest) && WordOf(w, 30)
    ensures Reads(g, w + rest, bol, TokFloat(w), rest)
  {
    WordReads(u, g, w, rest, bol, 30, TokFloat(w));
  }

  lemma FloatReads(u: Rules, g: Scanning, sign: string, v: string, rest: string, bol: bool)
    requires IsFlex(u) && IsScan(u, g) && Delimits(rest)
    requires sign in SIGNS && IsUnsignedFloat(v) && v != [] && !IsSign(v[0])
    ensures Reads(g, sign + v + rest, bol, TokFloat(sign + v), rest)
  {
    FloatIsOnly(sign, v);
    FloatWordReads(u, g, sign + v, rest, bol);
  }

  lemma FractionShape(fs: string, e: string)
    requires Decimals(fs) && (e == "" || Exponent(e))
    ensures IsFraction(fs + e)
  {
    if e != "" {
      ExponentShape(e);
      assert (fs + e)[|fs|] == e[0];
    }
    SpanOfDigits(fs + e, |fs|);
    assert (fs + e)[|fs|..] == e;
  }

  lemma PointShape(ds: string, fs: string, e: string)
    requires Decimals(ds) && Decimals(fs) && (e == "" || Exponent(e))
    ensures var v := ds + "." + (fs + e); IsUnsignedFloat(v) && v != [] && !IsSign(v[0])
  {
    var v := ds + "." + (fs + e);
    assert v[|ds|] == '.' && v[|ds| + 1..] == fs + e;
    SpanOfDigits(v, |ds|);
    FractionShape(fs, e);
  }

  lemma PlainExponentShape(ds: string, e: string)
    requires Decimals(ds) && ds != [] && Exponent(e)
    ensures IsUnsignedFloat(ds + e) && !IsSign((ds + e)[0])
  {
    ExponentShape(e);
    assert (ds + e)[|ds|] == e[0] && (ds + e)[|ds|..] == e;
    SpanOfDigits(ds + e, |ds|);
  }

  /** Digits with a point are a float, whose token has them all; the digits before or after the point may be missing. */
  lemma ScanPoint(u: Rules, g: Scanning, sign: string, ds: string, fs: string, e: string, rest: string, bol: bool)
    requires IsFlex(u) && IsScan(u, g) && Delimits(rest)
    requires sign in SIGNS && Decimals(ds) && Decimals(fs) && (e == "" || Exponent(e))
    ensures var w := sign + (ds + "." + (fs + e)); Reads(g, w + rest, bol, TokFloat(w), rest)
  {
    PointShape(ds, fs, e);
    FloatReads(u, g, sign, ds + "." + (fs + e), rest, bol);
  }

  /** So are digits with an exponent. */
  lemma ScanExponent(u: Rules, g: Scanning, sign: string, ds: string, e: string, rest: string, bol: bool)
    requires IsFlex(u) && IsScan(u, g) && Delimits(rest)
    requires sign in SIGNS && Decimals(ds) && ds != [] && Exponent(e)
    ensures var w := sign + (ds + e); Reads(g, w + rest, bol, TokFloat(w), rest)
  {
    PlainExponentShape(ds, e);
    FloatReads(u, g, sign, ds + e, rest, bol);
  }

  // ----- words

  /** `true` and `false` in any mixture of cases are booleans. */
  lemma ScanBoolean(u: Rules, g: Scanning, w: string, rest: string, bol: bool)
    requires IsFlex(u) && IsScan(u, g) && Delimits(rest)
    ensures |w| == 4 && w[0] in "tT" && w[1] in "rR" && w[2] in "uU" && w[3] in "eE" ==>
              Reads(g, w + rest, bol, TokBoolean(1), rest)
    ensures |w| == 5 && w[0] in "fF" && w[1] in "aA" && w[2] in "lL" && w[3] in "sS" && w[4] in "eE" ==>
              Reads(g, w + rest, bol, TokBoolean(0), rest)
  {
    if |w| == 4 && w[0] in "tT" && w[1] in "rR" && w[2] in "uU" && w[3] in "eE" {
      assert IsWord(w, "true");
      NameIsWord(w);
      WordReads(u, g, w, rest, bol, 27, TokBoolean(1));
    }
    if |w| == 5 && w[0] in "fF" && w[1] in "aA" && w[2] in "lL" && w[3] in "sS" && w[4] in "eE" {
      assert IsWord(w, "false");
      NameIsWord(w);
      WordReads(u, g, w, rest, bol, 28, TokBoolean(0));
    }
  }

  /** Any other name is a name. */
  lemma ScanName(u: Rules, g: Scanning, w: string, rest: string, bol: bool)
    requires IsFlex(u) && IsScan(u, g) && ValidName(w) && Delimits(rest)
    requires !(|w| == 4 && w[0] in "tT" && w[1] in "rR" && w[2] in "uU" && w[3] in "eE")
    requires !(|w| == 5 && w[0] in "fF" && w[1] in "aA" && w[2] in "lL" && w[3] in "sS" && w[4] in "eE")
    ensures Reads(g, w + rest, bol, TokName(w), rest)
  {
    if IsWord(w, "true") {
      LettersOf(w, "true");
    } else if IsWord(w, "false") {
      LettersOf(w, "false");
    }
    NameIsWord(w);
    WordReads(u, g, w, rest, bol, 29, TokName(w));
  }

  lemma LettersOf(w: string, v: string)
    requires IsWord(w, v)
    ensures v == "true" ==> |w| == 4 && w[0] in "tT" && w[1] in "rR" && w[2] in "uU" && w[3] in "eE"
    ensures v == "false" ==> |w| == 5 && w[0] in "fF" && w[1] in "aA" && w[2] in "lL" && w[3] in "sS" && w[4] in "eE"
  {
    if v == "true" {
      assert ToLower(w[0]) == 't' && ToLower(w[1]) == 'r' && ToLower(w[2]) == 'u' && ToLower(w[3]) == 'e';
    }
    if v == "false" {
      assert ToLower(w[0]) == 'f' && ToLower(w[1]) == 'a' && ToLower(w[2]) == 'l' && ToLower(w[3]) == 's' && ToLower(w[4]) == 'e';
    }
  }

  // ----- signs

  /** The signs are tokens of their own, whatever follows them. */
  lemma ScanSigns(u: Rules, g: Scanning, rest: string, bol: bool)
    requires IsFlex(u) && IsScan(u, g)
    ensures Reads(g, "=" + rest, bol, TokEquals, rest) && Reads(g, ":" + rest, bol, TokEquals, rest)
    ensures Reads(g, "," + rest, bol, TokComma, rest) && Reads(g, ";" + rest, bol, TokSemicolon, rest)
    ensures Reads(g, "{" + rest, bol, TokGroupStart, rest) && Reads(g, "}" + rest, bol, TokGroupEnd, rest)
    ensures Reads(g, "[" + rest, bol, TokArrayStart, rest) && Reads(g, "]" + rest, bol, TokArrayEnd, rest)
    ensures Reads(g, "(" + rest, bol, TokListStart, rest) && Reads(g, ")" + rest, bol, TokListEnd, rest)
  {
    ScanSign(u, g, '=', TokEquals, rest, bol);
    ScanSign(u, g, ':', TokEquals, rest, bol);
    ScanSign(u, g, ',', TokComma, rest, bol);
    ScanSign(u, g, ';', TokSemicolon, rest, bol);
    ScanSign(u, g, '{', TokGroupStart, rest, bol);
    ScanSign(u, g, '}', TokGroupEnd, rest, bol);
    ScanSign(u, g, '[', TokArrayStart, rest, bol);
    ScanSign(u, g, ']', TokArrayEnd, rest, bol);
    ScanSign(u, g, '(', TokListStart, rest, bol);
    ScanSign(u, g, ')', TokListEnd, rest, bol);
  }

  lemma ScanSign(u: Rules, g: Scanning, c: char, tok: Token, rest: string, bol: bool)
    requires IsFlex(u) && IsScan(u, g) && c != '\n' && PunctuationRule(c) != 0 && TokenOf(PunctuationRule(c), [c], "") == Some(tok)
    ensures Reads(g, [c] + rest, bol, tok, rest)
  {
    ScanPunctuation(u, g, c, rest, bol);
  }

  /** White space separates, and is no token. */
  lemma ScanSpace(u: Rules, g: Scanning, rest: string, bol: bool)
    requires IsFlex(u) && IsScan(u, g)
    ensures Initial(g, "\n" + rest, bol) == Initial(g, rest, true)
    ensures Initial(g, "\r" + rest, bol) == Initial(g, rest, false)
    ensures Initial(g, [0x0C as char] + rest, bol) == Initial(g, rest, false)
    ensures Plain(rest) ==> Initial(g, " " + rest, bol) == Initial(g, rest, false) == Initial(g, "\t" + rest, bol)
  {
    SkipsOne(u, g, '\n', rest, bol);
    SkipsOne(u, g, '\r', rest, bol);
    SkipsOne(u, g, 0x0C as char, rest, bol);
    if Plain(rest) {
      ScanBlank(u, g, ' ', rest, bol);
      ScanBlank(u, g, '\t', rest, bol);
    }
  }

  lemma SkipsOne(u: Rules, g: Scanning, c: char, rest: string, bol: bool)
    requires IsFlex(u) && IsScan(u, g) && PunctuationRule(c) == 21
    ensures Initial(g, [c] + rest, bol) == Initial(g, rest, c == '\n')
  {
    ScanPunctuation(u, g, c, rest, bol);
    var tail := Initial(g, rest, c == '\n');
    assert Prepend([], tail) == tail;
  }

  /** A character that no rule but the last ones matches, and none as the first of several. */
  predicate BeginsNothing(c: char) {
    !LongHead(c) && PunctuationRule(c) == 0 && c != '\"'
  }

  lemma BestStrange(u: Rules, c: char, rest: string, bol: bool)
    requires IsFlex(u) && BeginsNothing(c)
    ensures u.best(INITIAL, bol, [c] + rest) == (1, 41)
  {
    var s := [c] + rest;
    assert s[..1] == [c];
    forall k, q | 1 < k <= |s| && 1 <= q <= NRULES
      ensures !u.matches(INITIAL, bol, q, s[..k])
    {
      NotMatchedByHead(u, bol, q, s[..k]);
    }
    forall q | 1 <= q < 41
      ensures !u.matches(INITIAL, bol, q, s[..1])
    {
      assert MatchesAsFlex(u, INITIAL, bol, q, s[..1]);
      StrangeMatchesNothing(bol, q, s[..1]);
    }
    assert MatchesAsFlex(u, INITIAL, bol, 41, s[..1]);
    BestIs(u, INITIAL, bol, s, 1, 41);
  }

  lemma StrangeMatchesNothing(bol: bool, q: nat, w: string)
    requires |w| == 1 && BeginsNothing(w[0]) && q < 41
    ensures !Matches(INITIAL, bol, q, w)
  {
    if q == 16 {
      if IsIncludeOpen(w) {
        HeadOfInclude(w);
      }
    } else if 30 <= q <= 34 {
      StrangeIsNoNumeral(w);
    }
  }

  lemma StrangeIsNoNumeral(w: string)
    requires |w| == 1 && BeginsNothing(w[0])
    ensures !IsFloat(w) && !IsInteger(w) && !IsInteger64(w) && !IsHex(w) && !IsHex64(w)
  {
    if IsFloat(w) {
      HeadOfFloat(w);
    }
    if IsInteger(w) || IsInteger64(w) {
      HeadOfInteger(w);
    }
  }

  /** A character that begins nothing is a token that no rule of the grammar has. */
  lemma ScanStrange(u: Rules, g: Scanning, c: char, rest: string, bol: bool)
    requires IsFlex(u) && IsScan(u, g) && (c in "!$%&'<>?" || c in "^_`|~\\")
    ensures Reads(g, [c] + rest, bol, TokGarbage, rest)
  {
    StrangeBeginsNothing(c);
    ScanNothing(u, g, c, rest, bol);
  }

  lemma StrangeBeginsNothing(c: char)
    requires c in "!$%&'<>?" || c in "^_`|~\\"
    ensures BeginsNothing(c)
  {
  }

  lemma ScanNothing(u: Rules, g: Scanning, c: char, rest: string, bol: bool)
    requires IsFlex(u) && IsScan(u, g) && BeginsNothing(c)
    ensures Reads(g, [c] + rest, bol, TokGarbage, rest)
  {
    var s := [c] + rest;
    BestStrange(u, c, rest, bol);
    assert s[..1] == [c] && s[1..] == rest;
    assert StepsAt(u, g, s, bol, INITIAL, "") && ActsAsFlex(u, 41, [c], "", INITIAL);
    assert "" + Appended(41, [c]) == "";
  }

  // ----- string literals

  /**
   One piece of a literal: a character that stands for itself, an escape, a coded character, or
   a backslash that begins no escape, with the character after it.
   */
  datatype Piece = Itself(c: char) | Escaped(c: char) | Coded(x: char, high: char, low: char) | Stray(c: char)

  predicate ValidPiece(p: Piece) {
    match p
    case Itself(c) => c != '\"' && c != '\\' && c != '\0'
    case Escaped(c) => c in "nrtf\\\""
    case Coded(x, h, l) => x in "xX" && HexCharacter(h) && HexCharacter(l) && !(h == l == '0')
    case Stray(c) =>
      && c != 'n' && c != 'r' && c != 't' && c != 'f' && c != '\\' && c != '\"' && c != 'x' && c != 'X' && c != '\0'
  }

  function PieceText(p: Piece): string {
    match p
    case Itself(c) => [c]
    case Escaped(c) => ['\\', c]
    case Coded(x, h, l) => ['\\', x, h, l]
    case Stray(c) => ['\\', c]
  }

  function HexValue(c: char): (v: int)
    ensures HexCharacter(c) ==> 0 <= v < 16
  {
    var n := c as int;
    if 48 <= n <= 57 then n - 48 else if 65 <= n <= 70 then n - 55 else if 97 <= n <= 102 then n - 87 else 0
  }

  /** What a piece stands for; a coded character has its number in two hexadecimal digits. */
  function PieceMeaning(p: Piece): string
    requires ValidPiece(p)
  {
    match p
    case Itself(c) => [c]
    case Escaped(c) =>
      if c == 'n' then "\n" else if c == 'r' then "\r" else if c == 't' then "\t" else if c == 'f' then [0x0C as char] else [c]
    case Coded(_, h, l) => [(16 * HexValue(h) + HexValue(l)) as char]
    case Stray(c) => ['\\', c]
  }

  predicate ValidPieces(ps: seq<Piece>) {
    forall i :: 0 <= i < |ps| ==> ValidPiece(ps[i])
  }

  function PiecesText(ps: seq<Piece>): string {
    if ps == [] then "" else PieceText(ps[0]) + PiecesText(ps[1..])
  }

  function PiecesMeaning(ps: seq<Piece>): string
    requires ValidPieces(ps)
  {
    if ps == [] then "" else PieceMeaning(ps[0]) + PiecesMeaning(ps[1..])
  }

  lemma CodedMeaning(x: char, h: char, l: char)
    requires ValidPiece(Coded(x, h, l))
    ensures Appended(13, ['\\', x, h, l]) == PieceMeaning(Coded(x, h, l))
  {
    assert ValueOf(h) == HexValue(h) && ValueOf(l) == HexValue(l);
    var c := (16 * HexValue(h) + HexValue(l)) as char;
    assert CString([c]) == [c] + CString([c][1..]);
  }

  lemma StrayMatchesNothing(q: nat, w: string)
    requires |w| >= 2 && w[0] == '\\' && ValidPiece(Stray(w[1]))
    ensures !Matches(STRING, false, q, w)
  {
    assert w[0] in "\"\\";
  }

  lemma BestStray(u: Rules, c: char, rest: string)
    requires IsFlex(u) && ValidPiece(Stray(c))
    ensures u.best(STRING, false, ['\\', c] + rest) == (1, 14)
  {
    var s := ['\\', c] + rest;
    forall k, q | 1 < k <= |s| && 1 <= q <= NRULES
      ensures !u.matches(STRING, false, q, s[..k])
    {
      assert MatchesAsFlex(u, STRING, false, q, s[..k]);
      StrayMatchesNothing(q, s[..k]);
    }
    assert s[..1] == "\\";
    forall q | 1 <= q < 14
      ensures !u.matches(STRING, false, q, s[..1])
    {
      assert MatchesAsFlex(u, STRING, false, q, s[..1]);
      assert s[..1][0] in "\"\\";
    }
    assert MatchesAsFlex(u, STRING, false, 14, s[..1]);
    BestIs(u, STRING, false, s, 1, 14);
  }

  lemma ScanStray(u: Rules, g: Scanning, c: char, rest: string, buf: string)
    requires IsFlex(u) && IsScan(u, g) && ValidPiece(Stray(c)) && OrdinaryRun(rest)
    ensures Inside(g, ['\\', c] + rest, buf) == Inside(g, rest, buf + ['\\', c])
  {
    var s := ['\\', c] + rest;
    BestStray(u, c, rest);
    assert s[..1] == "\\" && s[1..] == [c] + rest;
    StepInside(u, g, s, buf, 1, 14);
    ScanOrdinary(u, g, c, rest, buf + "\\");
    assert buf + "\\" + [c] == buf + ['\\', c];
  }

  lemma ScanCoded(u: Rules, g: Scanning, x: char, h: char, l: char, rest: string, buf: string)
    requires IsFlex(u) && IsScan(u, g) && ValidPiece(Coded(x, h, l))
    ensures Inside(g, ['\\', x, h, l] + rest, buf) == Inside(g, rest, buf + PieceMeaning(Coded(x, h, l)))
  {
    var e := ['\\', x, h, l];
    var s := e + rest;
    BestHexEscape(u, s);
    assert s[..4] == e && s[4..] == rest;
    StepInside(u, g, s, buf, 4, 13);
    CodedMeaning(x, h, l);
  }

  lemma ScanPiece(u: Rules, g: Scanning, p: Piece, rest: string, buf: string)
    requires IsFlex(u) && IsScan(u, g) && ValidPiece(p) && OrdinaryRun(rest)
    ensures Inside(g, PieceText(p) + rest, buf) == Inside(g, rest, buf + PieceMeaning(p))
    ensures OrdinaryRun(PieceText(p) + rest)
  {
    match p
    case Itself(c) => ScanOrdinary(u, g, c, rest, buf);
    case Escaped(c) => ScanEscape(u, g, c, rest, buf);
    case Coded(x, h, l) => ScanCoded(u, g, x, h, l, rest, buf);
    case Stray(c) => ScanStray(u, g, c, rest, buf);
  }

  lemma Reassociate(a: string, b: string, c: string)
    ensures (a + b) + c == a + (b + c)
  {
  }

  lemma {:induction false} ScanPieces(u: Rules, g: Scanning, ps: seq<Piece>, rest: string, buf: string)
    requires IsFlex(u) && IsScan(u, g) && ValidPieces(ps)
    ensures Inside(g, PiecesText(ps) + ("\"" + rest), buf) == Prepend([TokString(buf + PiecesMeaning(ps))], Initial(g, rest, false))
    ensures OrdinaryRun(PiecesText(ps) + ("\"" + rest))
  {
    var end := "\"" + rest;
    if ps == [] {
      assert PiecesText(ps) + end == end && buf + PiecesMeaning(ps) == buf;
      CloseQuote(u, g, rest, buf);
    } else {
      ScanPieces(u, g, ps[1..], rest, buf + PieceMeaning(ps[0]));
      ScanPiece(u, g, ps[0], PiecesText(ps[1..]) + end, buf);
      Reassociate(PieceText(ps[0]), PiecesText(ps[1..]), end);
      Reassociate(buf, PieceMeaning(ps[0]), PiecesMeaning(ps[1..]));
    }
  }

  /** A literal of any pieces is one token, with what the pieces stand for. */
  lemma ScanString(u: Rules, g: Scanning, ps: seq<Piece>, rest: string, bol: bool)
    requires IsFlex(u) && IsScan(u, g) && ValidPieces(ps)
    ensures Reads(g, "\"" + (PiecesText(ps) + ("\"" + rest)), bol, TokString(PiecesMeaning(ps)), rest)
  {
    OpenQuote(u, g, PiecesText(ps) + ("\"" + rest), bol);
    ScanPieces(u, g, ps, rest, "");
    assert "" + PiecesMeaning(ps) == PiecesMeaning(ps);
  }
}
