/**
 Scanning a string literal gives back the string that was written.
 */
module RescanString {
  import opened Sequences
  import opened Tokens
  import opened Lexemes
  import opened Numerals
  import opened Matching
  import opened Patterns
  import opened Lexing
  import opened WriterSpec
  import opened Rescan

  /** The scan inside a string literal, with `buf` collected so far. */
  function Inside(g: Scanning, s: string, buf: string): Scanned {
    g(s, false, STRING, buf)
  }

  lemma StepInside(u: Rules, g: Scanning, s: string, buf: string, n: nat, r: nat)
    requires IsFlex(u) && IsScan(u, g) && s != []
    requires u.best(STRING, false, s) == (n, r) && 6 <= r <= 14
    ensures Inside(g, s, buf) == Inside(g, s[n..], buf + Appended(r, s[..n]))
  {
    assert StepsAt(u, g, s, false, STRING, buf) && ActsAsFlex(u, r, s[..n], buf, STRING);
    assert s[..n][|s[..n]| - 1] == s[n - 1];
    InsideAnyLine(u, g, s[n..], buf + Appended(r, s[..n]));
  }

  /** No rule for strings looks at the beginning of the line. */
  lemma InsideAnyLine(u: Rules, g: Scanning, s: string, buf: string)
    requires IsFlex(u) && IsScan(u, g)
    ensures g(s, true, STRING, buf) == g(s, false, STRING, buf)
  {
    assert StepsAt(u, g, s, true, STRING, buf) && StepsAt(u, g, s, false, STRING, buf);
    if s != [] {
      SameBestInside(u, s);
      NoIncludeInside(u, s);
    }
  }

  lemma NoIncludeInside(u: Rules, s: string)
    requires IsFlex(u) && s != []
    ensures u.best(STRING, true, s).1 != INCLUDE_RULE
  {
    var m := u.best(STRING, true, s);
    assert TakesBest(u, STRING, true, s) && MatchesAsFlex(u, STRING, true, m.1, s[..m.0]);
  }

  lemma SameBestInside(u: Rules, s: string)
    requires IsFlex(u) && s != []
    ensures u.best(STRING, true, s) == u.best(STRING, false, s)
  {
    var m := u.best(STRING, true, s);
    assert TakesBest(u, STRING, true, s);
    forall k, q: nat | 0 <= k <= |s|
      ensures u.matches(STRING, true, q, s[..k]) == u.matches(STRING, false, q, s[..k])
    {
      assert MatchesAsFlex(u, STRING, true, q, s[..k]) && MatchesAsFlex(u, STRING, false, q, s[..k]);
    }
    BestIs(u, STRING, false, s, m.0, m.1);
  }

  // ----- runs of ordinary characters

  /** A character that stands for itself inside a literal, and is not NUL. */
  predicate Ordinary(c: char) {
    c != '\"' && c != '\\' && c != '\0'
  }

  /** The number of characters before the first quote or backslash. */
  function Run(s: string): (k: nat)
    ensures k <= |s|
    ensures forall i :: 0 <= i < k ==> s[i] !in "\"\\"
    ensures k < |s| ==> s[k] in "\"\\"
  {
    if s != [] && s[0] !in "\"\\" then 1 + Run(s[1..]) else 0
  }

  predicate OrdinaryRun(s: string) {
    forall i :: 0 <= i < Run(s) ==> Ordinary(s[i])
  }

  lemma BestRun(u: Rules, s: string)
    requires IsFlex(u) && Run(s) > 0
    ensures u.best(STRING, false, s) == (Run(s), 6)
  {
    var n := Run(s);
    forall k, q | n < k <= |s| && 1 <= q <= NRULES
      ensures !u.matches(STRING, false, q, s[..k])
    {
      assert MatchesAsFlex(u, STRING, false, q, s[..k]);
      assert s[..k][n] == s[n] && s[..k][0] == s[0];
    }
    forall q | 1 <= q < 6
      ensures !u.matches(STRING, false, q, s[..n])
    {
      assert MatchesAsFlex(u, STRING, false, q, s[..n]);
    }
    assert MatchesAsFlex(u, STRING, false, 6, s[..n]);
    BestIs(u, STRING, false, s, n, 6);
  }

  /** A whole run is collected at once. */
  lemma ScanRun(u: Rules, g: Scanning, s: string, buf: string)
    requires IsFlex(u) && IsScan(u, g) && OrdinaryRun(s)
    ensures Inside(g, s, buf) == Inside(g, s[Run(s)..], buf + s[..Run(s)])
  {
    var n := Run(s);
    if n == 0 {
      assert s[0..] == s && buf + s[..0] == buf;
    } else {
      BestRun(u, s);
      CStringOfText(s[..n]);
      StepInside(u, g, s, buf, n, 6);
    }
  }

  /** So it makes no difference where a run is cut. */
  lemma ScanOrdinary(u: Rules, g: Scanning, c: char, rest: string, buf: string)
    requires IsFlex(u) && IsScan(u, g) && Ordinary(c) && OrdinaryRun(rest)
    ensures OrdinaryRun([c] + rest)
    ensures Inside(g, [c] + rest, buf) == Inside(g, rest, buf + [c])
  {
    var s, n := [c] + rest, Run(rest);
    assert s[1..] == rest && Run(s) == 1 + n;
    ScanRun(u, g, s, buf);
    ScanRun(u, g, rest, buf + [c]);
    assert s[Run(s)..] == rest[n..];
    assert buf + s[..Run(s)] == buf + [c] + rest[..n];
  }

  // ----- escapes

  /** The rule for the escape that a backslash and `c` begin. */
  function EscapeRule(c: char): nat {
    match c
    case 'n' => 7
    case 'r' => 8
    case 't' => 9
    case 'f' => 10
    case '\\' => 11
    case '\"' => 12
    case _ => 0
  }

  lemma BestEscape(u: Rules, s: string)
    requires IsFlex(u) && |s| >= 2 && s[0] == '\\' && EscapeRule(s[1]) != 0
    ensures u.best(STRING, false, s) == (2, EscapeRule(s[1]))
  {
    forall k, q | 2 < k <= |s| && 1 <= q <= NRULES
      ensures !u.matches(STRING, false, q, s[..k])
    {
      assert MatchesAsFlex(u, STRING, false, q, s[..k]);
      assert s[..k][0] == s[0] && s[..k][1] == s[1];
    }
    assert s[..2][0] == s[0] && s[..2][1] == s[1];
    forall q | 1 <= q < EscapeRule(s[1])
      ensures !u.matches(STRING, false, q, s[..2])
    {
      assert MatchesAsFlex(u, STRING, false, q, s[..2]);
    }
    assert MatchesAsFlex(u, STRING, false, EscapeRule(s[1]), s[..2]);
    BestIs(u, STRING, false, s, 2, EscapeRule(s[1]));
  }

  lemma ScanEscape(u: Rules, g: Scanning, c: char, rest: string, buf: string)
    requires IsFlex(u) && IsScan(u, g) && EscapeRule(c) != 0
    ensures Inside(g, ['\\', c] + rest, buf) == Inside(g, rest, buf + Appended(EscapeRule(c), ['\\', c]))
  {
    var s := ['\\', c] + rest;
    BestEscape(u, s);
    assert s[..2] == ['\\', c] && s[2..] == rest;
    StepInside(u, g, s, buf, 2, EscapeRule(c));
  }

  lemma BestHexEscape(u: Rules, s: string)
    requires IsFlex(u) && |s| >= 4 && s[0] == '\\' && s[1] in "xX" && IsHexDigit(s[2]) && IsHexDigit(s[3])
    ensures u.best(STRING, false, s) == (4, 13)
  {
    forall k, q | 4 < k <= |s| && 1 <= q <= NRULES
      ensures !u.matches(STRING, false, q, s[..k])
    {
      assert MatchesAsFlex(u, STRING, false, q, s[..k]);
      assert s[..k][0] == s[0];
    }
    assert s[..4][0] == s[0];
    forall q | 1 <= q < 13
      ensures !u.matches(STRING, false, q, s[..4])
    {
      assert MatchesAsFlex(u, STRING, false, q, s[..4]);
    }
    assert MatchesAsFlex(u, STRING, false, 13, s[..4]);
    BestIs(u, STRING, false, s, 4, 13);
  }

  lemma ScanHexEscape(u: Rules, g: Scanning, c: char, rest: string, buf: string)
    requires IsFlex(u) && IsScan(u, g) && '\0' < c < ' '
    ensures var e := "\\x" + [DigitOf(c as int / 16), DigitOf(c as int % 16)];
            Inside(g, e + rest, buf) == Inside(g, rest, buf + [c])
  {
    var e := "\\x" + [DigitOf(c as int / 16), DigitOf(c as int % 16)];
    var s := e + rest;
    BestHexEscape(u, s);
    assert s[..4] == e && s[4..] == rest;
    StepInside(u, g, s, buf, 4, 13);
    HexOfChar(c);
  }

  lemma HexOfChar(c: char)
    requires '\0' < c < ' '
    ensures Appended(13, "\\x" + [DigitOf(c as int / 16), DigitOf(c as int % 16)]) == [c]
  {
    var h, l := c as int / 16, c as int % 16;
    ValueOfDigit(h);
    ValueOfDigit(l);
    assert (16 * h + l) as char == c;
    assert CString([c]) == [c] + CString([c][1..]);
  }

  /** One character of the string, whichever way it is written. */
  lemma ScanEscapedChar(u: Rules, g: Scanning, c: char, rest: string, buf: string)
    requires IsFlex(u) && IsScan(u, g) && c != '\0' && OrdinaryRun(rest)
    ensures Inside(g, EscapeChar(c) + rest, buf) == Inside(g, rest, buf + [c])
    ensures OrdinaryRun(EscapeChar(c) + rest)
  {
    if c == '\"' || c == '\\' {
      ScanEscape(u, g, c, rest, buf);
    } else if c == '\n' {
      ScanEscape(u, g, 'n', rest, buf);
    } else if c == '\r' {
      ScanEscape(u, g, 'r', rest, buf);
    } else if c == FORM_FEED {
      ScanEscape(u, g, 'f', rest, buf);
    } else if c == '\t' {
      ScanEscape(u, g, 't', rest, buf);
    } else if c >= ' ' {
      ScanOrdinary(u, g, c, rest, buf);
    } else {
      ScanHexEscape(u, g, c, rest, buf);
    }
  }

  // ----- the whole literal

  lemma BestQuote(u: Rules, sc: Condition, bol: bool, s: string)
    requires IsFlex(u) && s != [] && s[0] == '\"' && (sc == INITIAL || sc == STRING)
    ensures u.best(sc, bol, s) == (1, if sc == INITIAL then 5 else STRING_RULE)
  {
    var r := if sc == INITIAL then 5 else STRING_RULE;
    forall k, q | 1 < k <= |s| && 1 <= q <= NRULES
      ensures !u.matches(sc, bol, q, s[..k])
    {
      assert s[..k][0] == s[0];
      if sc == INITIAL {
        NotMatchedByHead(u, bol, q, s[..k]);
      } else {
        assert MatchesAsFlex(u, sc, bol, q, s[..k]);
      }
    }
    assert s[..1] == [s[0]];
    forall q | 1 <= q < r
      ensures !u.matches(sc, bol, q, s[..1])
    {
      assert MatchesAsFlex(u, sc, bol, q, s[..1]);
    }
    assert MatchesAsFlex(u, sc, bol, r, s[..1]);
    BestIs(u, sc, bol, s, 1, r);
  }

  lemma OpenQuote(u: Rules, g: Scanning, rest: string, bol: bool)
    requires IsFlex(u) && IsScan(u, g)
    ensures Initial(g, "\"" + rest, bol) == Inside(g, rest, "")
  {
    var s := "\"" + rest;
    BestQuote(u, INITIAL, bol, s);
    assert s[..1] == "\"" && s[1..] == rest;
    assert StepsAt(u, g, s, bol, INITIAL, "") && ActsAsFlex(u, 5, s[..1], "", INITIAL);
    assert "" + Appended(5, s[..1]) == "";
  }

  lemma CloseQuote(u: Rules, g: Scanning, rest: string, buf: string)
    requires IsFlex(u) && IsScan(u, g)
    ensures Inside(g, "\"" + rest, buf) == Prepend([TokString(buf)], Initial(g, rest, false))
  {
    var s := "\"" + rest;
    BestQuote(u, STRING, false, s);
    assert s[..1] == "\"" && s[1..] == rest;
    assert StepsAt(u, g, s, false, STRING, buf) && ActsAsFlex(u, STRING_RULE, s[..1], buf, STRING);
  }

  predicate NoNul(s: string) {
    forall i :: 0 <= i < |s| ==> s[i] != '\0'
  }

  lemma EscapeFirst(s: string, rest: string, buf: string)
    requires s != [] && s[0] != '\0'
    ensures Escape(s) + "\"" + rest == EscapeChar(s[0]) + (Escape(s[1..]) + "\"" + rest)
    ensures buf + [s[0]] + s[1..] == buf + s
  {
    assert Escape(s) == EscapeChar(s[0]) + Escape(s[1..]);
    Associates(EscapeChar(s[0]), Escape(s[1..]), "\"", rest);
    Rejoins(s, buf);
  }

  lemma Rejoins(s: string, buf: string)
    requires s != []
    ensures buf + [s[0]] + s[1..] == buf + s
  {
  }

  lemma {:induction false} ScanEscaped(u: Rules, g: Scanning, s: string, rest: string, buf: string)
    requires IsFlex(u) && IsScan(u, g) && NoNul(s)
    ensures Inside(g, Escape(s) + "\"" + rest, buf) ==
            Prepend([TokString(buf + s)], Initial(g, rest, false))
    ensures OrdinaryRun(Escape(s) + "\"" + rest)
    decreases |s|
  {
    if s == [] {
      assert Escape(s) + "\"" + rest == "\"" + rest && buf + s == buf;
      CloseQuote(u, g, rest, buf);
    } else {
      var tail := Escape(s[1..]) + "\"" + rest;
      ScanEscaped(u, g, s[1..], rest, buf + [s[0]]);
      ScanEscapedChar(u, g, s[0], tail, buf);
      EscapeFirst(s, rest, buf);
    }
  }

  /** The literal written for a string is scanned as one token that holds the string. */
  lemma ScanLiteral(u: Rules, g: Scanning, s: string, rest: string, bol: bool)
    requires IsFlex(u) && IsScan(u, g) && NoNul(s)
    ensures Initial(g, "\"" + Escape(s) + "\"" + rest, bol) ==
            Prepend([TokString(s)], Initial(g, rest, false))
    ensures Plain("\"" + Escape(s) + "\"" + rest)
  {
    var body := Escape(s) + "\"" + rest;
    OpenQuote(u, g, body, bol);
    ScanEscaped(u, g, s, rest, "");
    assert "\"" + Escape(s) + "\"" + rest == "\"" + body && "" + s == s;
  }
}
