/**
 The patterns of the scanner and the actions that go with them, rule by rule.
 */
module Patterns {
  import opened Options
  import opened Tokens
  import opened Settings
  import opened Lexemes
  import opened Numerals
  import opened Matching

  predicate Is1(w: string, c: char) {
    |w| == 1 && w[0] == c
  }

  predicate Is2(w: string, c: char, d: char) {
    |w| == 2 && w[0] == c && w[1] == d
  }

  predicate InInitial(r: int, bol: bool, w: string) {
    match r
    case 1 => Is2(w, '/', '*')
    case 5 => Is1(w, '\"')
    case 16 => bol && IsIncludeOpen(w)
    case 21 => Is1(w, '\n') || Is1(w, '\r') || Is1(w, FORM_FEED)
    case 22 => w != [] && Blanks(w) == |w|
    case 23 => Is1(w, '=') || Is1(w, ':')
    case 24 => Is1(w, ',')
    case 25 => Is1(w, '{')
    case 26 => Is1(w, '}')
    case 27 => IsWord(w, "true")
    case 28 => IsWord(w, "false")
    case 29 => ValidName(w)
    case 30 => IsFloat(w)
    case 31 => IsInteger(w)
    case 32 => IsInteger64(w)
    case 33 => IsHex(w)
    case 34 => IsHex64(w)
    case 35 => Is1(w, '[')
    case 36 => Is1(w, ']')
    case 37 => Is1(w, '(')
    case 38 => Is1(w, ')')
    case 39 => Is1(w, ';')
    case 40 => IsLineComment(w)
    case 41 => |w| == 1 && w[0] != '\n'
    case _ => false
  }

  predicate InComment(r: int, w: string) {
    match r
    case 2 => Is2(w, '*', '/')
    case 3 => |w| == 1 && w[0] != '\n'
    case 4 => Is1(w, '\n')
    case _ => false
  }

  predicate InString(r: int, w: string) {
    match r
    case 6 => NoneOf(w, "\"\\")
    case 7 => Is2(w, '\\', 'n')
    case 8 => Is2(w, '\\', 'r')
    case 9 => Is2(w, '\\', 't')
    case 10 => Is2(w, '\\', 'f')
    case 11 => Is2(w, '\\', '\\')
    case 12 => Is2(w, '\\', '\"')
    case 13 => |w| == 4 && w[0] == '\\' && (w[1] == 'x' || w[1] == 'X') && IsHexDigit(w[2]) && IsHexDigit(w[3])
    case 14 => Is1(w, '\\')
    case 15 => Is1(w, '\"')
    case _ => false
  }

  predicate InInclude(r: int, w: string) {
    match r
    case 17 => NoneOf(w, "\"\\")
    case 18 => Is2(w, '\\', '\\')
    case 19 => Is2(w, '\\', '\"')
    case 20 => Is1(w, '\"')
    case _ => false
  }

  /** Rule `r` matches the text `w`; the default rule 42 matches any character. */
  predicate Matches(sc: Condition, bol: bool, r: int, w: string) {
    if r == NRULES then |w| == 1
    else match sc
      case INITIAL => InInitial(r, bol, w)
      case COMMENT => InComment(r, w)
      case STRING => InString(r, w)
      case INCLUDE => InInclude(r, w)
  }

  // ----- the actions

  /** A C string ends at its first NUL. */
  function CString(w: string): string {
    if w == [] || w[0] == '\0' then [] else [w[0]] + CString(w[1..])
  }

  /** Text without NUL is its own C string. */
  lemma {:induction false} CStringOfText(text: string)
    requires '\0' !in text
    ensures CString(text) == text
  {
    if text != [] {
      CStringOfText(text[1..]);
    }
  }

  /** What is appended to the string buffer for the text `w` of rule `r`. */
  function Appended(r: nat, w: string): string {
    match r
    case 6 => CString(w)
    case 7 => "\n"
    case 8 => "\r"
    case 9 => "\t"
    case 10 => [FORM_FEED]
    case 11 => "\\"
    case 12 => "\""
    case 13 => if |w| == 4 then CString([(16 * (ValueOf(w[2]) % 16) + ValueOf(w[3]) % 16) as char]) else []
    case 14 => "\\"
    case 17 => CString(w)
    case 18 => "\\"
    case 19 => "\""
    case _ => []
  }

  /** The start condition after rule `r`. */
  function NextCondition(r: nat, sc: Condition): Condition {
    match r
    case 1 => COMMENT
    case 2 => INITIAL
    case 5 => STRING
    case 15 => INITIAL
    case 16 => INCLUDE
    case _ => sc
  }

  /** The token that rule `r` returns for the text `w`, with `buf` in the string buffer. */
  function TokenOf(r: nat, w: string, buf: string): Option<Token> {
    match r
    case 15 => Some(TokString(buf))
    case 23 => Some(TokEquals)
    case 24 => Some(TokComma)
    case 25 => Some(TokGroupStart)
    case 26 => Some(TokGroupEnd)
    case 27 => Some(TokBoolean(1))
    case 28 => Some(TokBoolean(0))
    case 29 => Some(TokName(w))
    case 30 => Some(TokFloat(w))
    case 31 => Some(TokInteger(Atoi(w)))
    case 32 => Some(TokInteger64(Atoll(w)))
    case 33 => if |w| >= 2 then Some(TokHex(Wrap32(Strtoul16(w)))) else None
    case 34 => if |DropLong(w)| >= 2 then Some(TokHex64(Wrap64(Strtoul16(DropLong(w))))) else None
    case 35 => Some(TokArrayStart)
    case 36 => Some(TokArrayEnd)
    case 37 => Some(TokListStart)
    case 38 => Some(TokListEnd)
    case 39 => Some(TokSemicolon)
    case 41 => Some(TokGarbage)
    case _ => None
  }

  const MATCHES: Relation := (sc: Condition, bol: bool, r: nat, w: string) => Matches(sc, bol, r, w)

  function BestMatch(sc: Condition, bol: bool, s: string): (nat, nat) {
    if s == [] then (0, 0)
    else
      assert Total(MATCHES);
      Best(MATCHES, sc, bol, s)
  }

  const FLEX: Rules := Rules(
    MATCHES,
    (sc: Condition, bol: bool, s: string) => BestMatch(sc, bol, s),
    (r: nat, w: string) => Appended(r, w),
    (r: nat, sc: Condition) => NextCondition(r, sc),
    (r: nat, w: string, buf: string) => TokenOf(r, w, buf))

  // ----- `u` is the scanner of this module

  ghost predicate MatchesAsFlex(u: Rules, sc: Condition, bol: bool, r: nat, w: string) {
    u.matches(sc, bol, r, w) == Matches(sc, bol, r, w)
  }

  ghost predicate ActsAsFlex(u: Rules, r: nat, w: string, buf: string, sc: Condition) {
    && u.appended(r, w) == Appended(r, w)
    && u.next(r, sc) == NextCondition(r, sc)
    && u.token(r, w, buf) == TokenOf(r, w, buf)
  }

  ghost predicate IsFlex(u: Rules) {
    && Defaults(u)
    && (forall sc, bol, r: nat, w {:trigger MatchesAsFlex(u, sc, bol, r, w)} :: MatchesAsFlex(u, sc, bol, r, w))
    && (forall r: nat, w, buf, sc {:trigger ActsAsFlex(u, r, w, buf, sc)} :: ActsAsFlex(u, r, w, buf, sc))
  }

  lemma FlexIsFlex()
    ensures IsFlex(FLEX)
  {
  }
}
