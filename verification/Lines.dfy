/**
 Scanning a text in parts. A line end that is read outside strings, comments and directives is
 never inside a match, so the text up to it and the text after it can be scanned one by one.
 */
module Lines {
  import opened Tokens
  import opened Settings
  import opened Lexemes
  import opened Matching
  import opened Patterns
  import opened Lexing
  import opened Rescan

  // ----- one match

  /** What a match with a rule and a text does in a start condition, with a string buffer. */
  type Stepping = (nat, string, Condition, string) -> Scanned

  ghost predicate OneMatchAt(u: Rules, g: Scanning, step: Stepping, s: string, bol: bool, sc: Condition, buf: string)
    requires Defaults(u)
  {
    if s == [] then g(s, bol, sc, buf) == Scanned([], sc, buf, [])
    else
      var m := u.best(sc, bol, s);
      var w, rest := s[..Taken(m)], s[Taken(m)..];
      var a := step(m.1, w, sc, buf);
      g(s, bol, sc, buf) == Then(a, g(rest, w[|w| - 1] == '\n', a.sc, a.buf))
  }

  /** A run inside a string or a directive stays there. */
  ghost predicate StaysInside(step: Stepping, r: nat, w: string, sc: Condition, buf: string) {
    RunsOn(sc, r) ==> step(r, w, sc, buf).sc == sc
  }

  ghost predicate IsStepping(u: Rules, g: Scanning, step: Stepping) {
    && IsFlex(u)
    && (forall s, bol, sc, buf {:trigger OneMatchAt(u, g, step, s, bol, sc, buf)} :: OneMatchAt(u, g, step, s, bol, sc, buf))
    && (forall r, w, sc, buf {:trigger StaysInside(step, r, w, sc, buf)} :: StaysInside(step, r, w, sc, buf))
  }

  lemma OneStep(u: Rules, f: Files, depth: nat, s: string, bol: bool, sc: Condition, buf: string)
    requires Defaults(u) && depth <= MAX_INCLUDE_DEPTH
    ensures OneMatchAt(u, ScanAt(u, f, depth), (r: nat, w: string, sc: Condition, buf: string) =>
              AfterMatch(u, f, depth, r, w, sc, buf), s, bol, sc, buf)
  {
    if s != [] {
      ScanStep(u, f, depth, s, bol, sc, buf);
    }
  }

  lemma ScanSteps(u: Rules, f: Files, depth: nat) returns (step: Stepping)
    requires IsFlex(u) && depth <= MAX_INCLUDE_DEPTH
    ensures IsStepping(u, ScanAt(u, f, depth), step)
  {
    step := (r: nat, w: string, sc: Condition, buf: string) => AfterMatch(u, f, depth, r, w, sc, buf);
    var g := ScanAt(u, f, depth);
    forall s, bol, sc, buf
      ensures OneMatchAt(u, g, step, s, bol, sc, buf)
    {
      OneStep(u, f, depth, s, bol, sc, buf);
    }
    forall r: nat, w, sc, buf
      ensures StaysInside(step, r, w, sc, buf)
    {
      assert ActsAsFlex(u, r, w, buf, sc);
    }
  }

  // ----- no match crosses a line end, except inside strings and directives

  predicate HasLineEnd(w: string) {
    exists j :: 0 <= j < |w| - 1 && w[j] == '\n'
  }

  lemma NumeralsHaveNoLineEnd(w: string)
    requires IsFloat(w) || IsInteger(w) || IsInteger64(w) || IsHex(w) || IsHex64(w)
    ensures '\n' !in w
  {
    if IsFloat(w) {
      FloatIsWord(w);
    } else {
      NumeralIsWord(w);
    }
    assert !WordChar('\n');
  }

  lemma NamesHaveNoLineEnd(w: string)
    requires ValidName(w) || IsWord(w, "true") || IsWord(w, "false")
    ensures '\n' !in w
  {
    assert ToLower('\n') == '\n' && '\n' !in "true" && '\n' !in "false";
  }

  lemma DirectiveHasNoLineEnd(w: string)
    requires IsIncludeOpen(w)
    ensures '\n' !in w
  {
    var b := Blanks(w);
    var u := w[b..];
    var v := u[8..];
    forall i | 0 <= i < |w|
      ensures w[i] != '\n'
    {
      if b <= i < b + 8 {
        assert w[i] == u[i - b] == "@include"[i - b];
      } else if b + 8 <= i < b + 8 + Blanks(v) {
        assert w[i] == v[i - b - 8];
      } else if b + 8 + Blanks(v) <= i {
        assert w[i] == v[Blanks(v)..][i - b - 8 - Blanks(v)];
      }
    }
  }

  lemma InitialStaysOnLine(bol: bool, q: nat, w: string)
    requires |w| >= 2 && HasLineEnd(w)
    ensures !Matches(INITIAL, bol, q, w)
  {
    if 30 <= q <= 34 && Matches(INITIAL, bol, q, w) {
      NumeralsHaveNoLineEnd(w);
    } else if 27 <= q <= 29 && Matches(INITIAL, bol, q, w) {
      NamesHaveNoLineEnd(w);
    } else if q == 16 && Matches(INITIAL, bol, q, w) {
      DirectiveHasNoLineEnd(w);
    }
  }

  lemma OthersStayOnLine(sc: Condition, bol: bool, q: nat, w: string)
    requires sc != INITIAL && |w| >= 2 && HasLineEnd(w)
    ensures Matches(sc, bol, q, w) ==> (sc == STRING && q == 6) || (sc == INCLUDE && q == 17)
  {
  }

  /** The rule of the start condition that matches line ends, and what it must not meet. */
  predicate RunsOn(sc: Condition, r: nat) {
    (sc == STRING && r == 6) || (sc == INCLUDE && r == 17)
  }

  /**
   The match at the front of a text that ends in a line end does not depend on what follows,
   unless it is a run to the end of the text inside a string or a directive.
   */
  lemma BestBeforeLineEnd(u: Rules, sc: Condition, bol: bool, s: string, t: string)
    requires IsFlex(u) && s != [] && s[|s| - 1] == '\n'
    ensures u.best(sc, bol, s + t) == u.best(sc, bol, s)
            || (u.best(sc, bol, s).0 == |s| && RunsOn(sc, u.best(sc, bol, s).1))
  {
    var m := u.best(sc, bol, s);
    assert TakesBest(u, sc, bol, s);
    assert (s + t)[..m.0] == s[..m.0];
    if (sc == STRING || sc == INCLUDE) && NoneOf(s, "\"\\") {
      BestRunOn(u, sc, bol, s);
    } else {
      forall k, q | m.0 < k <= |s + t| && 1 <= q <= NRULES
        ensures !u.matches(sc, bol, q, (s + t)[..k])
      {
        if k <= |s| {
          assert (s + t)[..k] == s[..k];
        } else {
          NoMatchBeyond(u, sc, bol, q, s, (s + t)[..k]);
        }
      }
      BestIs(u, sc, bol, s + t, m.0, m.1);
    }
  }

  lemma NoMatchBeyond(u: Rules, sc: Condition, bol: bool, q: nat, s: string, w: string)
    requires IsFlex(u) && s != [] && s[|s| - 1] == '\n' && s < w && 1 <= q <= NRULES
    requires sc == STRING || sc == INCLUDE ==> !NoneOf(s, "\"\\")
    ensures !u.matches(sc, bol, q, w)
  {
    assert w[|s| - 1] == '\n';
    assert HasLineEnd(w);
    assert MatchesAsFlex(u, sc, bol, q, w);
    if sc == INITIAL {
      InitialStaysOnLine(bol, q, w);
    } else {
      OthersStayOnLine(sc, bol, q, w);
    }
  }

  lemma BestRunOn(u: Rules, sc: Condition, bol: bool, s: string)
    requires IsFlex(u) && (sc == STRING || sc == INCLUDE) && NoneOf(s, "\"\\")
    ensures u.best(sc, bol, s) == (|s|, if sc == STRING then 6 else 17)
  {
    var r := if sc == STRING then 6 else 17;
    assert s[..|s|] == s;
    assert MatchesAsFlex(u, sc, bol, r, s);
    forall q | 1 <= q < r
      ensures !u.matches(sc, bol, q, s[..|s|])
    {
      assert MatchesAsFlex(u, sc, bol, q, s);
    }
    BestIs(u, sc, bol, s, |s|, r);
  }

  // ----- texts are scanned one after the other

  /** A text of whole lines. */
  predicate IsLines(s: string) {
    s == [] || s[|s| - 1] == '\n'
  }

  /**
   The scan of whole lines that ends outside comments, strings and directives, followed by that
   of the rest, is the scan of both together.
   */
  lemma {:induction false} LinesThenRest(u: Rules, g: Scanning, step: Stepping, s: string, t: string, bol: bool,
                                         sc: Condition, buf: string)
    requires IsStepping(u, g, step) && IsLines(s)
    requires var r := g(s, bol, sc, buf); r.sc == INITIAL && r.buf == ""
    ensures g(s + t, bol, sc, buf) ==
            Then(g(s, bol, sc, buf), g(t, if s == [] then bol else true, INITIAL, ""))
    decreases |s|
  {
    if s == [] {
      assert s + t == t && OneMatchAt(u, g, step, s, bol, sc, buf);
    } else {
      var n, bol', a := FirstMatch(u, g, step, s, t, bol, sc, buf);
      LinesThenRest(u, g, step, s[n..], t, bol', a.sc, a.buf);
      ThenBoth(a, g(s[n..], bol', a.sc, a.buf), g(t, true, INITIAL, ""));
    }
  }

  /** The first match is the same with and without more text behind. */
  lemma FirstMatch(u: Rules, g: Scanning, step: Stepping, s: string, t: string, bol: bool, sc: Condition, buf: string)
    returns (n: nat, bol': bool, a: Scanned)
    requires IsStepping(u, g, step) && s != [] && IsLines(s) && g(s, bol, sc, buf).sc == INITIAL
    ensures 1 <= n <= |s| && (n == |s| ==> bol')
    ensures g(s, bol, sc, buf) == Then(a, g(s[n..], bol', a.sc, a.buf))
    ensures g(s + t, bol, sc, buf) == Then(a, g(s[n..] + t, bol', a.sc, a.buf))
  {
    SameBestMatch(u, g, step, s, t, bol, sc, buf);
    var m := u.best(sc, bol, s);
    n := Taken(m);
    OneMatch(u, g, step, s, bol, sc, buf, n);
    OneMatch(u, g, step, s + t, bol, sc, buf, n);
    a, bol' := step(m.1, s[..n], sc, buf), s[n - 1] == '\n';
    assert (s + t)[..n] == s[..n] && (s + t)[n..] == s[n..] + t;
  }

  lemma OneMatch(u: Rules, g: Scanning, step: Stepping, s: string, bol: bool, sc: Condition, buf: string, n: nat)
    requires IsStepping(u, g, step) && s != [] && n == Taken(u.best(sc, bol, s))
    ensures 1 <= n <= |s|
    ensures var a := step(u.best(sc, bol, s).1, s[..n], sc, buf);
            g(s, bol, sc, buf) == Then(a, g(s[n..], s[n - 1] == '\n', a.sc, a.buf))
  {
    assert OneMatchAt(u, g, step, s, bol, sc, buf);
  }

  lemma SameBestMatch(u: Rules, g: Scanning, step: Stepping, s: string, t: string, bol: bool,
                      sc: Condition, buf: string)
    requires IsStepping(u, g, step) && s != [] && IsLines(s) && g(s, bol, sc, buf).sc == INITIAL
    ensures u.best(sc, bol, s + t) == u.best(sc, bol, s)
  {
    BestBeforeLineEnd(u, sc, bol, s, t);
    if u.best(sc, bol, s).0 == |s| && RunsOn(sc, u.best(sc, bol, s).1) {
      EndsInside(u, g, step, s, bol, sc, buf);
    }
  }

  /** After a run to the end of the text the scanner is still inside the string or the directive. */
  lemma EndsInside(u: Rules, g: Scanning, step: Stepping, s: string, bol: bool, sc: Condition, buf: string)
    requires IsStepping(u, g, step) && s != []
    requires u.best(sc, bol, s).0 == |s| && RunsOn(sc, u.best(sc, bol, s).1)
    ensures g(s, bol, sc, buf).sc == sc
  {
    var r := u.best(sc, bol, s).1;
    var bol' := s[..|s|][|s| - 1] == '\n';
    var a := step(r, s[..|s|], sc, buf);
    assert OneMatchAt(u, g, step, s, bol, sc, buf) && StaysInside(step, r, s[..|s|], sc, buf);
    assert OneMatchAt(u, g, step, s[|s|..], bol', a.sc, a.buf);
  }

  lemma ThenBoth(a: Scanned, b: Scanned, s: Scanned)
    ensures Then(a, Then(b, s)) == Then(Then(a, b), s)
  {
  }

  lemma ScanLinesThenRest(u: Rules, f: Files, depth: nat, s: string, t: string, bol: bool)
    requires IsFlex(u) && depth <= MAX_INCLUDE_DEPTH && IsLines(s)
    requires var r := Scan(u, f, depth, s, bol, INITIAL, ""); r.sc == INITIAL && r.buf == ""
    ensures Scan(u, f, depth, s + t, bol, INITIAL, "") ==
            Then(Scan(u, f, depth, s, bol, INITIAL, ""),
                 Scan(u, f, depth, t, if s == [] then bol else true, INITIAL, ""))
  {
    var step := ScanSteps(u, f, depth);
    LinesThenRest(u, ScanAt(u, f, depth), step, s, t, bol, INITIAL, "");
  }
}
