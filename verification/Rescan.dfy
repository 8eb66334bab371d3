/**
 Scanning the pieces that the writer puts together: punctuation, white space, words and
 string literals.
 */
module Rescan {
  import opened Tokens
  import opened Settings
  import opened Lexemes
  import opened Numerals
  import opened Matching
  import opened Patterns
  import opened Lexing
  import opened WriterSpec

  // ----- what a match can begin with

  /** A character that can begin a match of two or more characters. */
  predicate LongHead(c: char) {
    c in "/#@." || IsBlank(c) || IsNameStart(c) || IsDigit(c) || IsSign(c)
  }

  lemma HeadOfFloat(w: string)
    requires IsFloat(w)
    ensures IsDigit(w[0]) || IsSign(w[0]) || w[0] == '.'
  {
  }

  lemma HeadOfInteger(w: string)
    requires IsInteger(w) || IsInteger64(w)
    ensures w != [] && (IsDigit(w[0]) || IsSign(w[0]))
  {
  }

  lemma HeadOfHex(w: string)
    requires IsHex(w) || IsHex64(w)
    ensures w != [] && IsDigit(w[0])
  {
  }

  lemma HeadOfInclude(w: string)
    requires IsIncludeOpen(w)
    ensures w != [] && (IsBlank(w[0]) || w[0] == '@')
    ensures Blanks(w) < |w| && w[Blanks(w)] == '@'
  {
    var u := w[Blanks(w)..];
    assert u[0] == "@include"[0];
  }

  lemma HeadOfLong(bol: bool, q: nat, w: string)
    requires |w| >= 2 && Matches(INITIAL, bol, q, w)
    ensures LongHead(w[0])
  {
    if q == 16 {
      HeadOfInclude(w);
    } else if q == 30 {
      HeadOfFloat(w);
    } else if q == 31 || q == 32 {
      HeadOfInteger(w);
    } else if q == 33 || q == 34 {
      HeadOfHex(w);
    }
  }

  // ----- one step of the scan

  /** The scan of the text that follows a piece, or precedes it, in the initial condition. */
  function Initial(g: Scanning, s: string, bol: bool): Scanned {
    g(s, bol, INITIAL, "")
  }

  lemma StepInitial(u: Rules, g: Scanning, s: string, bol: bool, n: nat, r: nat)
    requires IsFlex(u) && IsScan(u, g) && s != [] && u.best(INITIAL, bol, s) == (n, r) && 21 <= r <= 39
    ensures Initial(g, s, bol) ==
            Prepend(OneOrNone(TokenOf(r, s[..n], "")), Initial(g, s[n..], s[n - 1] == '\n'))
  {
    assert ActsAsFlex(u, r, s[..n], "", INITIAL);
    StaysInitial(r, s[..n]);
    StepPlain(u, g, s, bol, n, r);
  }

  lemma StaysInitial(r: nat, w: string)
    requires 21 <= r <= 39
    ensures Appended(r, w) == [] && NextCondition(r, INITIAL) == INITIAL
  {
  }

  lemma StepPlain(u: Rules, g: Scanning, s: string, bol: bool, n: nat, r: nat)
    requires IsFlex(u) && IsScan(u, g) && s != [] && u.best(INITIAL, bol, s) == (n, r) && 21 <= r <= 39
    requires u.appended(r, s[..n]) == [] && u.next(r, INITIAL) == INITIAL
    ensures Initial(g, s, bol) == Prepend(OneOrNone(u.token(r, s[..n], "")), Initial(g, s[n..], s[n - 1] == '\n'))
  {
    assert StepsAt(u, g, s, bol, INITIAL, "");
    assert "" + u.appended(r, s[..n]) == "";
    assert s[..n][|s[..n]| - 1] == s[n - 1];
  }

  // ----- punctuation

  function PunctuationRule(c: char): nat {
    if c == FORM_FEED then 21
    else match c
    case '=' => 23
    case ':' => 23
    case ',' => 24
    case '{' => 25
    case '}' => 26
    case '[' => 35
    case ']' => 36
    case '(' => 37
    case ')' => 38
    case ';' => 39
    case '\n' => 21
    case '\r' => 21
    case _ => 0
  }

  lemma NotMatchedByHead(u: Rules, bol: bool, q: nat, w: string)
    requires IsFlex(u) && |w| >= 2 && !LongHead(w[0])
    ensures !u.matches(INITIAL, bol, q, w)
  {
    assert MatchesAsFlex(u, INITIAL, bol, q, w);
    if Matches(INITIAL, bol, q, w) {
      HeadOfLong(bol, q, w);
    }
  }

  lemma BestPunctuation(u: Rules, s: string, bol: bool)
    requires IsFlex(u) && s != [] && PunctuationRule(s[0]) != 0
    ensures u.best(INITIAL, bol, s) == (1, PunctuationRule(s[0]))
  {
    assert s[..1] == [s[0]];
    forall k, q | 1 < k <= |s| && 1 <= q <= NRULES
      ensures !u.matches(INITIAL, bol, q, s[..k])
    {
      NotMatchedByHead(u, bol, q, s[..k]);
    }
    forall q | 1 <= q < PunctuationRule(s[0])
      ensures !u.matches(INITIAL, bol, q, s[..1])
    {
      assert MatchesAsFlex(u, INITIAL, bol, q, s[..1]);
    }
    assert MatchesAsFlex(u, INITIAL, bol, PunctuationRule(s[0]), s[..1]);
    BestIs(u, INITIAL, bol, s, 1, PunctuationRule(s[0]));
  }

  lemma ScanPunctuation(u: Rules, g: Scanning, c: char, rest: string, bol: bool)
    requires IsFlex(u) && IsScan(u, g) && PunctuationRule(c) != 0
    ensures Initial(g, [c] + rest, bol) ==
            Prepend(OneOrNone(TokenOf(PunctuationRule(c), [c], "")), Initial(g, rest, c == '\n'))
  {
    var s := [c] + rest;
    BestPunctuation(u, s, bol);
    StepInitial(u, g, s, bol, 1, PunctuationRule(c));
    assert s[..1] == [c] && s[1..] == rest;
  }

  // ----- white space

  /** The first character that is not a blank does not begin an include directive. */
  predicate Plain(s: string) {
    Blanks(s) < |s| ==> s[Blanks(s)] != '@'
  }

  lemma {:induction false} PrefixBlanks(s: string, k: nat)
    requires k <= |s|
    ensures Blanks(s[..k]) == if k <= Blanks(s) then k else Blanks(s)
  {
    if k > 0 && IsBlank(s[0]) {
      assert s[..k][1..] == s[1..][..k - 1];
      PrefixBlanks(s[1..], k - 1);
    }
  }

  lemma PlainIsNoInclude(s: string, k: nat)
    requires Plain(s) && k <= |s|
    ensures !IsIncludeOpen(s[..k])
  {
    if IsIncludeOpen(s[..k]) {
      HeadOfInclude(s[..k]);
      PrefixBlanks(s, k);
    }
  }

  /** Only the include directive looks at the beginning of the line. */
  lemma BolOnlyForInclude(u: Rules, q: nat, w: string)
    requires IsFlex(u) && !IsIncludeOpen(w)
    ensures u.matches(INITIAL, true, q, w) == u.matches(INITIAL, false, q, w)
  {
    assert MatchesAsFlex(u, INITIAL, true, q, w) && MatchesAsFlex(u, INITIAL, false, q, w);
  }

  lemma SameBest(u: Rules, s: string)
    requires IsFlex(u) && s != [] && Plain(s)
    ensures u.best(INITIAL, true, s) == u.best(INITIAL, false, s)
  {
    assert TakesBest(u, INITIAL, false, s);
    var m := u.best(INITIAL, false, s);
    forall k, q: nat | 1 <= k <= |s|
      ensures u.matches(INITIAL, true, q, s[..k]) == u.matches(INITIAL, false, q, s[..k])
    {
      PlainIsNoInclude(s, k);
      BolOnlyForInclude(u, q, s[..k]);
    }
    BestIs(u, INITIAL, true, s, m.0, m.1);
  }

  lemma NoIncludeRule(u: Rules, s: string)
    requires IsFlex(u) && s != []
    ensures u.best(INITIAL, false, s).1 != INCLUDE_RULE
  {
    assert TakesBest(u, INITIAL, false, s);
    assert MatchesAsFlex(u, INITIAL, false, INCLUDE_RULE, s[..u.best(INITIAL, false, s).0]);
  }

  lemma BolIrrelevant(u: Rules, g: Scanning, s: string)
    requires IsFlex(u) && IsScan(u, g) && Plain(s)
    ensures Initial(g, s, true) == Initial(g, s, false)
  {
    assert StepsAt(u, g, s, true, INITIAL, "") && StepsAt(u, g, s, false, INITIAL, "");
    if s != [] {
      SameBest(u, s);
      NoIncludeRule(u, s);
    }
  }

  lemma BestBlanks(u: Rules, s: string, bol: bool)
    requires IsFlex(u) && Plain(s) && Blanks(s) > 0
    ensures u.best(INITIAL, bol, s) == (Blanks(s), 22)
  {
    var n := Blanks(s);
    PrefixBlanks(s, n);
    forall k, q | n < k <= |s| && 1 <= q <= NRULES
      ensures !u.matches(INITIAL, bol, q, s[..k])
    {
      PlainIsNoInclude(s, k);
      PrefixBlanks(s, k);
      OnlyBlankRules(u, bol, q, s[..k]);
    }
    forall q | 1 <= q < 22
      ensures !u.matches(INITIAL, bol, q, s[..n])
    {
      PlainIsNoInclude(s, n);
      OnlyBlankRules(u, bol, q, s[..n]);
    }
    assert MatchesAsFlex(u, INITIAL, bol, 22, s[..n]);
    BestIs(u, INITIAL, bol, s, n, 22);
  }

  lemma OnlyBlankRules(u: Rules, bol: bool, q: nat, w: string)
    requires IsFlex(u) && w != [] && IsBlank(w[0])
    requires q != 22 || Blanks(w) < |w|
    requires q < 22 || |w| >= 2
    requires !IsIncludeOpen(w)
    ensures !u.matches(INITIAL, bol, q, w)
  {
    OnlyBlankMatches(bol, q, w);
    assert MatchesAsFlex(u, INITIAL, bol, q, w);
  }

  lemma OnlyBlankMatches(bol: bool, q: nat, w: string)
    requires w != [] && IsBlank(w[0]) && !IsIncludeOpen(w)
    requires q != 22 || Blanks(w) < |w|
    requires q < 22 || |w| >= 2
    ensures !Matches(INITIAL, bol, q, w)
  {
    if 27 <= q <= 34 || q == 40 {
      BlankMatchesNoWord(bol, q, w);
    } else if q <= 22 {
      BlankMatchesNoMark(bol, q, w);
    } else {
      TwoMatchNoSign(bol, q, w);
    }
  }

  /** Comments, quotes, directives, line ends and white space. */
  lemma BlankMatchesNoMark(bol: bool, q: nat, w: string)
    requires w != [] && IsBlank(w[0]) && q <= 22
    requires q != 16 || !IsIncludeOpen(w)
    requires q != 22 || Blanks(w) < |w|
    ensures !Matches(INITIAL, bol, q, w)
  {
    if q == 16 || q == 22 {
      assert !InInitial(q, bol, w);
    } else {
      assert w[0] == ' ' || w[0] == '\t';
    }
  }

  /** Names, truth values, numerals and line comments. */
  lemma BlankMatchesNoWord(bol: bool, q: nat, w: string)
    requires w != [] && IsBlank(w[0]) && (27 <= q <= 34 || q == 40)
    ensures !Matches(INITIAL, bol, q, w)
  {
    BlankIsNoWord(w);
  }

  /** The other rules match one character. */
  lemma TwoMatchNoSign(bol: bool, q: nat, w: string)
    requires |w| >= 2 && q > 22 && !(27 <= q <= 34) && q != 40
    ensures !Matches(INITIAL, bol, q, w)
  {
  }

  lemma BlankIsNoWord(w: string)
    requires w != [] && IsBlank(w[0])
    ensures !IsFloat(w) && !IsInteger(w) && !IsInteger64(w) && !IsHex(w) && !IsHex64(w)
    ensures !ValidName(w) && !IsWord(w, "true") && !IsWord(w, "false") && !IsLineComment(w)
  {
    if IsFloat(w) {
      HeadOfFloat(w);
    }
    if IsInteger(w) || IsInteger64(w) {
      HeadOfInteger(w);
    }
  }

  lemma ScanBlanks(u: Rules, g: Scanning, s: string, bol: bool)
    requires IsFlex(u) && IsScan(u, g) && Plain(s)
    ensures Initial(g, s, bol) == Initial(g, s[Blanks(s)..], false)
  {
    if Blanks(s) == 0 {
      assert s[0..] == s;
      BolIrrelevant(u, g, s);
    } else {
      ScanBlankRun(u, g, s, bol);
    }
  }

  lemma ScanBlankRun(u: Rules, g: Scanning, s: string, bol: bool)
    requires IsFlex(u) && IsScan(u, g) && Plain(s) && Blanks(s) > 0
    ensures Initial(g, s, bol) == Initial(g, s[Blanks(s)..], false)
  {
    BestBlanks(u, s, bol);
    StepInitial(u, g, s, bol, Blanks(s), 22);
  }

  /** A blank before plain text makes no difference. */
  lemma ScanBlank(u: Rules, g: Scanning, c: char, rest: string, bol: bool)
    requires IsFlex(u) && IsScan(u, g) && IsBlank(c) && Plain(rest)
    ensures Plain([c] + rest) && Initial(g, [c] + rest, bol) == Initial(g, rest, false)
  {
    var s := [c] + rest;
    assert s[1..] == rest;
    assert Blanks(s) == 1 + Blanks(rest);
    assert s[Blanks(s)..] == rest[Blanks(rest)..];
    ScanBlanks(u, g, s, bol);
    ScanBlanks(u, g, rest, false);
  }

  // ----- names and numerals

  predicate NumeralHead(c: char) {
    IsDigit(c) || IsSign(c) || c == '.'
  }

  predicate WordHead(c: char) {
    IsNameStart(c) || NumeralHead(c)
  }

  predicate WordChar(c: char) {
    IsNameChar(c) || IsSign(c) || c == '.'
  }

  predicate AllWord(w: string) {
    forall i :: 0 <= i < |w| ==> WordChar(w[i])
  }

  /** Text that ends the word before it. */
  predicate Delimits(s: string) {
    s != [] && s[0] in " ,;\n" && Plain(s)
  }

  lemma AllWordDropSign(w: string)
    requires AllWord(DropSign(w))
    ensures AllWord(w)
  {
    if w != [] && IsSign(w[0]) {
      assert forall i :: 1 <= i < |w| ==> w[i] == w[1..][i - 1];
    }
  }

  lemma AllWordSplit(w: string, k: nat)
    requires k <= |w| && AllWord(w[..k]) && AllWord(w[k..])
    ensures AllWord(w)
  {
    assert forall i :: k <= i < |w| ==> w[i] == w[k..][i - k];
    assert forall i :: 0 <= i < k ==> w[i] == w[..k][i];
  }

  lemma NumeralIsWord(w: string)
    requires IsInteger(w) || IsInteger64(w) || IsHex(w) || IsHex64(w)
    ensures AllWord(w)
  {
    if IsInteger(w) {
      IntegerChars(w);
    } else if IsHex(w) {
      HexChars(w);
    } else {
      LongNumeralChars(w);
    }
  }

  lemma IntegerChars(w: string)
    requires AllDigits(DropSign(w))
    ensures AllWord(w)
  {
    AllWordDropSign(w);
  }

  lemma HexChars(w: string)
    requires IsHex(w)
    ensures AllWord(w)
  {
    assert w[..2][0] == w[0] && w[..2][1] == w[1];
    AllWordSplit(w, 2);
  }

  lemma LongNumeralChars(w: string)
    requires IsInteger64(w) || IsHex64(w)
    ensures AllWord(w)
  {
    var v := DropLong(w);
    if IsInteger64(w) {
      IntegerChars(v);
    } else {
      HexChars(v);
    }
    LongChars(w);
  }

  lemma LongChars(w: string)
    requires AllWord(DropLong(w))
    ensures AllWord(w)
  {
    var v := DropLong(w);
    assert w[..|v|] == v;
    AllWordSplit(w, |v|);
  }

  lemma ExponentIsWord(w: string)
    requires IsExponent(w)
    ensures AllWord(w)
  {
    AllWordDropSign(w[1..]);
    AllWordSplit(w, 1);
  }

  lemma FloatIsWord(w: string)
    requires IsFloat(w)
    ensures AllWord(w)
  {
    UnsignedFloatIsWord(DropSign(w));
    AllWordDropSign(w);
  }

  lemma UnsignedFloatIsWord(u: string)
    requires IsUnsignedFloat(u)
    ensures AllWord(u)
  {
    var k := Span(u);
    if k < |u| && u[k] == '.' {
      PointIsWord(u, k);
    } else {
      DigitsAndExponentAreWord(u, k);
    }
  }

  lemma DigitsAndExponentAreWord(u: string, k: nat)
    requires k <= |u| && (forall i :: 0 <= i < k ==> IsDigit(u[i])) && IsExponent(u[k..])
    ensures AllWord(u)
  {
    ExponentIsWord(u[k..]);
    AllWordSplit(u, k);
  }

  lemma PointIsWord(u: string, k: nat)
    requires k < |u| && (forall i :: 0 <= i < k ==> IsDigit(u[i])) && u[k] == '.' && IsFraction(u[k + 1..])
    ensures AllWord(u)
  {
    FractionIsWord(u[k + 1..]);
    AllWordSplit(u, k + 1);
  }

  lemma FractionIsWord(f: string)
    requires IsFraction(f)
    ensures AllWord(f)
  {
    if f[Span(f)..] != [] {
      ExponentIsWord(f[Span(f)..]);
    }
    AllWordSplit(f, Span(f));
  }

  lemma WordsOnly(bol: bool, q: nat, w: string)
    requires w != [] && WordHead(w[0]) && Matches(INITIAL, bol, q, w)
    ensures AllWord(w)
  {
    if q < 27 {
      WordIsNoPunctuation(bol, q, w);
      assert false;
    } else if q > 34 {
      NoOtherHead(bol, q, w);
    } else if q < 30 {
      NameChars(bol, q, w);
    } else {
      NumeralChars(bol, q, w);
    }
  }

  lemma NameChars(bol: bool, q: nat, w: string)
    requires 27 <= q < 30 && Matches(INITIAL, bol, q, w)
    ensures AllWord(w)
  {
  }

  lemma NumeralChars(bol: bool, q: nat, w: string)
    requires 30 <= q <= 34 && Matches(INITIAL, bol, q, w)
    ensures AllWord(w)
  {
    if q == 30 {
      FloatIsWord(w);
    } else {
      NumeralIsWord(w);
    }
  }

  /** Longer matches of the later rules begin differently. */
  lemma NoOtherHead(bol: bool, q: nat, w: string)
    requires w != [] && WordHead(w[0]) && Matches(INITIAL, bol, q, w) && q > 34
    ensures |w| == 1 && WordChar(w[0])
  {
  }

  /** Before a delimiter the longest match of a word is the word itself. */
  lemma BestWord(u: Rules, bol: bool, w: string, rest: string, r: nat)
    requires IsFlex(u) && w != [] && WordHead(w[0]) && Delimits(rest)
    requires 1 <= r <= NRULES && Matches(INITIAL, bol, r, w)
    requires forall q :: 1 <= q < r ==> !Matches(INITIAL, bol, q, w)
    ensures u.best(INITIAL, bol, w + rest) == (|w|, r)
  {
    var s, n := w + rest, |w|;
    assert s[..n] == w;
    forall k, q | n < k <= |s| && 1 <= q <= NRULES
      ensures !u.matches(INITIAL, bol, q, s[..k])
    {
      assert MatchesAsFlex(u, INITIAL, bol, q, s[..k]);
      assert s[..k][n] == rest[0] && !WordChar(rest[0]);
      if Matches(INITIAL, bol, q, s[..k]) {
        WordsOnly(bol, q, s[..k]);
      }
    }
    forall q | 1 <= q < r
      ensures !u.matches(INITIAL, bol, q, s[..n])
    {
      assert MatchesAsFlex(u, INITIAL, bol, q, s[..n]);
    }
    assert MatchesAsFlex(u, INITIAL, bol, r, s[..n]);
    BestIs(u, INITIAL, bol, s, n, r);
  }

  /** A word of rule `r`, and of no earlier rule. */
  ghost predicate WordOf(w: string, r: nat) {
    && w != [] && WordHead(w[0]) && 27 <= r <= 34
    && forall bol :: Matches(INITIAL, bol, r, w) && forall q :: 1 <= q < r ==> !Matches(INITIAL, bol, q, w)
  }

  lemma ScanWord(u: Rules, g: Scanning, w: string, rest: string, bol: bool, r: nat)
    requires IsFlex(u) && IsScan(u, g) && WordOf(w, r) && Delimits(rest)
    ensures Initial(g, w + rest, bol) == Prepend(OneOrNone(TokenOf(r, w, "")), Initial(g, rest, false))
    ensures Plain(w + rest)
  {
    var s := w + rest;
    WordHasNoLineEnd(w, r);
    WordIsBest(u, bol, w, rest, r);
    assert s[..|w|] == w && s[|w|..] == rest && s[|w| - 1] == w[|w| - 1];
    StepInitial(u, g, s, bol, |w|, r);
    assert s[0] == w[0];
  }

  lemma WordHasNoLineEnd(w: string, r: nat)
    requires WordOf(w, r)
    ensures w[|w| - 1] != '\n'
  {
    WordsOnly(true, r, w);
  }

  lemma WordIsBest(u: Rules, bol: bool, w: string, rest: string, r: nat)
    requires IsFlex(u) && WordOf(w, r) && Delimits(rest)
    ensures u.best(INITIAL, bol, w + rest) == (|w|, r)
  {
    BestWord(u, bol, w, rest, r);
  }

  /** A word can neither open a comment or a directive nor be punctuation or a blank. */
  lemma WordIsNoPunctuation(bol: bool, q: nat, w: string)
    requires w != [] && WordHead(w[0]) && q < 27
    ensures !Matches(INITIAL, bol, q, w)
  {
    if q == 16 {
      WordOpensNoDirective(w);
    } else {
      WordIsNoMark(bol, q, w);
    }
  }

  lemma WordOpensNoDirective(w: string)
    requires w != [] && WordHead(w[0])
    ensures !IsIncludeOpen(w)
  {
    if IsIncludeOpen(w) {
      HeadOfInclude(w);
    }
  }

  lemma WordIsNoMark(bol: bool, q: nat, w: string)
    requires w != [] && WordHead(w[0]) && q < 27 && q != 16
    ensures !Matches(INITIAL, bol, q, w)
  {
  }

  predicate Reserved(name: string) {
    IsWord(name, "true") || IsWord(name, "false")
  }

  lemma NameIsWord(w: string)
    requires ValidName(w)
    ensures !Reserved(w) ==> WordOf(w, 29)
    ensures IsWord(w, "true") ==> WordOf(w, 27)
    ensures IsWord(w, "false") ==> WordOf(w, 28)
  {
    forall bol, q: nat | 1 <= q < 27
      ensures !Matches(INITIAL, bol, q, w)
    {
      WordIsNoPunctuation(bol, q, w);
    }
  }

  lemma NumeralIsNoName(w: string)
    requires w != [] && NumeralHead(w[0])
    ensures !ValidName(w) && !Reserved(w)
  {
  }

  /** No rule before `r` matches the numeral. */
  lemma NotBefore(w: string, r: nat, bol: bool, q: nat)
    requires w != [] && NumeralHead(w[0]) && 1 <= q < r <= 34
    requires (r > 30 ==> !IsFloat(w)) && (r > 31 ==> !IsInteger(w)) && (r > 32 ==> !IsInteger64(w)) && (r > 33 ==> !IsHex(w))
    ensures !Matches(INITIAL, bol, q, w)
  {
    if q < 27 {
      WordIsNoPunctuation(bol, q, w);
    } else if q < 30 {
      NumeralMatchesNoName(bol, q, w);
    } else {
      NoEarlierShape(w, r, bol, q);
    }
  }

  lemma NumeralMatchesNoName(bol: bool, q: nat, w: string)
    requires w != [] && NumeralHead(w[0]) && 27 <= q < 30
    ensures !Matches(INITIAL, bol, q, w)
  {
    NumeralIsNoName(w);
  }

  lemma NoEarlierShape(w: string, r: nat, bol: bool, q: nat)
    requires 30 <= q < r <= 34
    requires !IsFloat(w) && (r > 31 ==> !IsInteger(w)) && (r > 32 ==> !IsInteger64(w)) && (r > 33 ==> !IsHex(w))
    ensures !Matches(INITIAL, bol, q, w)
  {
  }

  /** A numeral belongs to the rule for its shape, and to no earlier one. */
  lemma NumeralIsOnly(w: string, r: nat)
    requires w != [] && NumeralHead(w[0]) && 30 <= r <= 34
    requires Matches(INITIAL, true, r, w) && Matches(INITIAL, false, r, w)
    requires (r > 30 ==> !IsFloat(w)) && (r > 31 ==> !IsInteger(w)) && (r > 32 ==> !IsInteger64(w)) && (r > 33 ==> !IsHex(w))
    ensures WordOf(w, r)
  {
    forall bol, q: nat | 1 <= q < r
      ensures !Matches(INITIAL, bol, q, w)
    {
      NotBefore(w, r, bol, q);
    }
    forall bol
      ensures Matches(INITIAL, bol, r, w)
    {
      assert bol == true || bol == false;
    }
  }

  lemma {:induction false} SpanOfDigits(w: string, k: nat)
    requires k <= |w| && (forall i :: 0 <= i < k ==> IsDigit(w[i])) && (k < |w| ==> !IsDigit(w[k]))
    ensures Span(w) == k
  {
  }

  lemma IntIsWord(v: int)
    requires IsInt32(v)
    ensures WordOf(WriteInt(v), 31)
  {
    IntRoundTrip(v);
    var w := WriteInt(v);
    SpanOfDigits(DropSign(w), |DropSign(w)|);
    NumeralIsOnly(w, 31);
  }

  lemma Int64IsWord(v: int)
    requires IsInt64(v)
    ensures WordOf(WriteInt(v) + "L", 32)
  {
    Int64RoundTrip(v);
    SignedRoundTrip(v);
    LongIsNoInteger(WriteInt(v));
    NumeralIsOnly(WriteInt(v) + "L", 32);
  }

  lemma LongIsNoInteger(w: string)
    requires w != [] && IsInteger(w)
    ensures !IsFloat(w + "L") && !IsInteger(w + "L")
  {
    var u, x := DropSign(w), DropSign(w + "L");
    assert x == u + "L" && x[|u|] == 'L';
    SpanOfDigits(x, |u|);
  }

  lemma HexIsNoDecimal(w: string)
    requires IsHex(w) || IsHex64(w)
    ensures !IsFloat(w) && !IsInteger(w) && !IsInteger64(w)
  {
    assert |w| >= 3 && w[0] == '0' && !IsDigit(w[1]) && w[1] != '.';
    SpanOfDigits(w, 1);
    assert w[1..][0] == w[1];
  }

  lemma HexIsWord(v: int)
    requires IsInt32(v)
    ensures WordOf(WriteHex32(v), 33)
  {
    HexRoundTrip(v);
    HexIsNoDecimal(WriteHex32(v));
    NumeralIsOnly(WriteHex32(v), 33);
  }

  lemma Hex64IsWord(v: int)
    requires IsInt64(v)
    ensures WordOf(WriteHex64(v) + "L", 34)
  {
    var w := WriteHex64(v) + "L";
    Hex64RoundTrip(v);
    HexIsNoDecimal(w);
    assert w[2..][|w| - 3] == 'L';
    NumeralIsOnly(w, 34);
  }
}
