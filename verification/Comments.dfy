/**
 Comments, as they are written: the scanner skips them.
 */
module Comments {
  import opened Settings
  import opened Tokens
  import opened Lexemes
  import opened Matching
  import opened Patterns
  import opened Lexing
  import opened Rescan
  import opened Lines

  predicate NoLineEnd(w: string) {
    forall i :: 0 <= i < |w| ==> w[i] != '\n'
  }

  // ----- a comment to the end of the line

  /** Of the texts that begin with `#` or `//` only the one up to the first line end is matched by a rule of more than a character. */
  lemma LineCommentOnly(bol: bool, q: nat, w: string, n: nat)
    requires |w| >= 2 && (w[0] == '#' || (w[0] == '/' && w[1] == '/'))
    requires 2 <= n && (forall i :: 0 <= i < n - 1 && i < |w| ==> w[i] != '\n') && (n - 1 < |w| ==> w[n - 1] == '\n')
    requires |w| > n || (|w| == n && q < COMMENT_RULE)
    ensures !Matches(INITIAL, bol, q, w)
  {
    if q == COMMENT_RULE {
      assert w[n - 1] == '\n';
    } else {
      MarkMatchesNothingElse(bol, q, w);
    }
  }

  lemma MarkMatchesNothingElse(bol: bool, q: nat, w: string)
    requires |w| >= 2 && (w[0] == '#' || (w[0] == '/' && w[1] == '/')) && q != COMMENT_RULE
    ensures !Matches(INITIAL, bol, q, w)
  {
    if q == 16 {
      if IsIncludeOpen(w) {
        HeadOfInclude(w);
      }
    } else if 30 <= q <= 34 {
      HashIsNoNumeral(w);
    } else {
      assert !IsNameStart(w[0]);
    }
  }

  lemma HashIsNoNumeral(w: string)
    requires w != [] && (w[0] == '#' || w[0] == '/')
    ensures !IsFloat(w) && !IsInteger(w) && !IsInteger64(w) && !IsHex(w) && !IsHex64(w)
  {
    if IsFloat(w) {
      HeadOfFloat(w);
    }
    if IsInteger(w) || IsInteger64(w) {
      HeadOfInteger(w);
    }
  }

  lemma BestLineComment(u: Rules, bol: bool, mark: string, w: string, rest: string)
    requires IsFlex(u) && mark in {"#", "//"} && NoLineEnd(w)
    ensures u.best(INITIAL, bol, mark + w + "\n" + rest) == (|mark| + |w| + 1, COMMENT_RULE)
  {
    var s, n := mark + w + "\n" + rest, |mark| + |w| + 1;
    assert s[..n] == mark + w + "\n";
    assert forall i :: 0 <= i < n - 1 ==> s[i] != '\n';
    assert s[n - 1] == '\n' && (s[0] == '#' || (s[0] == '/' && s[1] == '/'));
    forall k, q | n < k <= |s| && 1 <= q <= NRULES
      ensures !u.matches(INITIAL, bol, q, s[..k])
    {
      assert MatchesAsFlex(u, INITIAL, bol, q, s[..k]);
      LineCommentOnly(bol, q, s[..k], n);
    }
    forall q | 1 <= q < COMMENT_RULE
      ensures !u.matches(INITIAL, bol, q, s[..n])
    {
      assert MatchesAsFlex(u, INITIAL, bol, q, s[..n]);
      LineCommentOnly(bol, q, s[..n], n);
    }
    assert MatchesAsFlex(u, INITIAL, bol, COMMENT_RULE, s[..n]);
    BestIs(u, INITIAL, bol, s, n, COMMENT_RULE);
  }

  lemma LineCommentParts(mark: string, w: string, rest: string)
    requires mark in {"#", "//"} && NoLineEnd(w)
    ensures var s, n := mark + w + "\n" + rest, |mark| + |w|;
            n < |s| && s[..n] == mark + w && s[n..] == "\n" + rest && s[..n][n - 1] != '\n'
  {
    assert (mark + w)[|mark| + |w| - 1] != '\n';
  }

  /** The comment goes up to the line end, which is scanned on its own. */
  lemma ScanLineComment(u: Rules, g: Scanning, bol: bool, mark: string, w: string, rest: string)
    requires IsFlex(u) && IsScan(u, g) && mark in {"#", "//"} && NoLineEnd(w)
    ensures Initial(g, mark + w + "\n" + rest, bol) == Initial(g, "\n" + rest, false)
  {
    var s := mark + w + "\n" + rest;
    BestLineComment(u, bol, mark, w, rest);
    LineCommentParts(mark, w, rest);
    assert StepsAt(u, g, s, bol, INITIAL, "") && ActsAsFlex(u, COMMENT_RULE, mark + w, "", INITIAL);
    assert "" + Appended(COMMENT_RULE, mark + w) == "";
    assert Prepend([], Initial(g, "\n" + rest, false)) == Initial(g, "\n" + rest, false);
  }

  /** `#` and `//` begin a comment that ends with the line, wherever on the line they stand. */
  lemma LineCommentIsSkipped(f: Files, depth: nat, bol: bool, w: string, rest: string)
    requires depth <= MAX_INCLUDE_DEPTH && forall i :: 0 <= i < |w| ==> w[i] != '\n'
    ensures Scan(FLEX, f, depth, "#" + w + "\n" + rest, bol, INITIAL, "") ==
            Scan(FLEX, f, depth, "\n" + rest, false, INITIAL, "")
    ensures Scan(FLEX, f, depth, "//" + w + "\n" + rest, bol, INITIAL, "") ==
            Scan(FLEX, f, depth, "\n" + rest, false, INITIAL, "")
  {
    FlexIsFlex();
    ScanIsScan(FLEX, f, depth);
    ScanLineComment(FLEX, ScanAt(FLEX, f, depth), bol, "#", w, rest);
    ScanLineComment(FLEX, ScanAt(FLEX, f, depth), bol, "//", w, rest);
  }

  // ----- a comment between marks

  lemma BestCommentOpen(u: Rules, bol: bool, rest: string)
    requires IsFlex(u)
    ensures u.best(INITIAL, bol, "/*" + rest) == (2, 1)
  {
    var s := "/*" + rest;
    assert s[..2] == "/*";
    forall k, q | 2 < k <= |s| && 1 <= q <= NRULES
      ensures !u.matches(INITIAL, bol, q, s[..k])
    {
      assert MatchesAsFlex(u, INITIAL, bol, q, s[..k]);
      OpenMarkOnly(bol, q, s[..k]);
    }
    assert MatchesAsFlex(u, INITIAL, bol, 1, s[..2]);
    BestIs(u, INITIAL, bol, s, 2, 1);
  }

  lemma OpenMarkOnly(bol: bool, q: nat, w: string)
    requires |w| > 2 && w[0] == '/' && w[1] == '*'
    ensures !Matches(INITIAL, bol, q, w)
  {
    if q == 16 {
      if IsIncludeOpen(w) {
        HeadOfInclude(w);
      }
    } else if 30 <= q <= 34 {
      HashIsNoNumeral(w);
    }
  }

  /** Inside a comment a character is matched on its own, unless it begins the closing mark. */
  lemma BestInComment(u: Rules, bol: bool, s: string)
    requires IsFlex(u) && s != []
    ensures u.best(COMMENT, bol, s) ==
            if |s| >= 2 && s[0] == '*' && s[1] == '/' then (2, 2) else (1, if s[0] == '\n' then 4 else 3)
  {
    var closes := |s| >= 2 && s[0] == '*' && s[1] == '/';
    var n, r := if closes then 2 else 1, if closes then 2 else if s[0] == '\n' then 4 else 3;
    assert s[..n][0] == s[0] && (closes ==> s[..n][1] == s[1]);
    forall k, q | n < k <= |s| && 1 <= q <= NRULES
      ensures !u.matches(COMMENT, bol, q, s[..k])
    {
      assert MatchesAsFlex(u, COMMENT, bol, q, s[..k]);
      assert s[..k][0] == s[0] && s[..k][1] == s[1];
    }
    forall q | 1 <= q < r
      ensures !u.matches(COMMENT, bol, q, s[..n])
    {
      assert MatchesAsFlex(u, COMMENT, bol, q, s[..n]);
    }
    assert MatchesAsFlex(u, COMMENT, bol, r, s[..n]);
    BestIs(u, COMMENT, bol, s, n, r);
  }

  /** One match in a comment leaves nothing behind. */
  lemma StepInComment(u: Rules, g: Scanning, bol: bool, s: string, n: nat, r: nat)
    requires IsFlex(u) && IsScan(u, g) && s != [] && u.best(COMMENT, bol, s) == (n, r) && 2 <= r <= 4 && n <= |s|
    ensures 1 <= n && g(s, bol, COMMENT, "") == g(s[n..], s[n - 1] == '\n', if r == 2 then INITIAL else COMMENT, "")
  {
    assert StepsAt(u, g, s, bol, COMMENT, "") && ActsAsFlex(u, r, s[..n], "", COMMENT);
    assert s[..n][|s[..n]| - 1] == s[n - 1];
    assert "" + Appended(r, s[..n]) == "";
    var tail := g(s[n..], s[n - 1] == '\n', if r == 2 then INITIAL else COMMENT, "");
    assert Prepend([], tail) == tail;
  }

  /** The closing mark does not stand in the text. */
  predicate NotClosed(w: string) {
    forall i :: 0 <= i < |w| - 1 ==> !(w[i] == '*' && w[i + 1] == '/')
  }

  lemma {:induction false} ScanCommentBody(u: Rules, g: Scanning, bol: bool, w: string, rest: string)
    requires IsFlex(u) && IsScan(u, g) && NotClosed(w)
    ensures g(w + "*/" + rest, bol, COMMENT, "") == g(rest, false, INITIAL, "")
    decreases |w|
  {
    var s := w + "*/" + rest;
    BestInComment(u, bol, s);
    if w == [] {
      assert s[2..] == rest && s[0] == '*' && s[1] == '/';
      StepInComment(u, g, bol, s, 2, 2);
    } else {
      assert s[0] == w[0] && s[1] == if |w| > 1 then w[1] else '*';
      assert s[1..] == w[1..] + "*/" + rest;
      StepInComment(u, g, bol, s, 1, if s[0] == '\n' then 4 else 3);
      ScanCommentBody(u, g, s[0] == '\n', w[1..], rest);
    }
  }

  lemma ScanCommentOpen(u: Rules, g: Scanning, bol: bool, more: string)
    requires IsFlex(u) && IsScan(u, g)
    ensures Initial(g, "/*" + more, bol) == g(more, false, COMMENT, "")
  {
    var s := "/*" + more;
    BestCommentOpen(u, bol, more);
    assert s[..2] == "/*" && s[2..] == more;
    assert StepsAt(u, g, s, bol, INITIAL, "") && ActsAsFlex(u, 1, "/*", "", INITIAL);
    assert "" + Appended(1, "/*") == "";
    var tail := g(more, false, COMMENT, "");
    assert Prepend([], tail) == tail;
  }

  lemma ScanComment(u: Rules, g: Scanning, bol: bool, w: string, rest: string)
    requires IsFlex(u) && IsScan(u, g) && NotClosed(w)
    ensures Initial(g, "/*" + w + "*/" + rest, bol) == Initial(g, rest, false)
  {
    var more := w + "*/" + rest;
    assert "/*" + w + "*/" + rest == "/*" + more;
    ScanCommentOpen(u, g, bol, more);
    ScanCommentBody(u, g, false, w, rest);
  }

  /** A comment between marks may go over several lines; what follows its first closing mark is scanned. */
  lemma CommentIsSkipped(f: Files, depth: nat, bol: bool, w: string, rest: string)
    requires depth <= MAX_INCLUDE_DEPTH && forall i :: 0 <= i < |w| - 1 ==> !(w[i] == '*' && w[i + 1] == '/')
    ensures Scan(FLEX, f, depth, "/*" + w + "*/" + rest, bol, INITIAL, "") == Scan(FLEX, f, depth, rest, false, INITIAL, "")
  {
    FlexIsFlex();
    ScanIsScan(FLEX, f, depth);
    ScanComment(FLEX, ScanAt(FLEX, f, depth), bol, w, rest);
  }

  // ----- anywhere in a text

  lemma LineEndEitherWay(u: Rules, g: Scanning, rest: string)
    requires IsFlex(u) && IsScan(u, g)
    ensures Initial(g, "\n" + rest, true) == Initial(g, "\n" + rest, false)
  {
    ScanPunctuation(u, g, '\n', rest, true);
    ScanPunctuation(u, g, '\n', rest, false);
  }

  /** What makes no difference at the beginning of a line makes none after whole lines. */
  lemma SameAfterLines(u: Rules, f: Files, depth: nat, s: string, bol: bool, a: string, b: string)
    requires IsFlex(u) && depth <= MAX_INCLUDE_DEPTH && IsLines(s) && s != []
    requires var r := Scan(u, f, depth, s, bol, INITIAL, ""); r.sc == INITIAL && r.buf == ""
    requires Scan(u, f, depth, a, true, INITIAL, "") == Scan(u, f, depth, b, true, INITIAL, "")
    ensures Scan(u, f, depth, s + a, bol, INITIAL, "") == Scan(u, f, depth, s + b, bol, INITIAL, "")
  {
    ScanLinesThenRest(u, f, depth, s, a, bol);
    ScanLinesThenRest(u, f, depth, s, b, bol);
  }

  /** After whole lines that end outside comments, strings and directives a comment makes no difference. */
  lemma CommentAfterLines(u: Rules, f: Files, depth: nat, s: string, bol: bool, mark: string, w: string, rest: string)
    requires IsFlex(u) && depth <= MAX_INCLUDE_DEPTH && IsLines(s) && s != [] && mark in {"#", "//"} && NoLineEnd(w)
    requires var r := Scan(u, f, depth, s, bol, INITIAL, ""); r.sc == INITIAL && r.buf == ""
    ensures Scan(u, f, depth, s + (mark + w + "\n" + rest), bol, INITIAL, "") ==
            Scan(u, f, depth, s + ("\n" + rest), bol, INITIAL, "")
  {
    ScanIsScan(u, f, depth);
    ScanLineComment(u, ScanAt(u, f, depth), true, mark, w, rest);
    LineEndEitherWay(u, ScanAt(u, f, depth), rest);
    SameAfterLines(u, f, depth, s, bol, mark + w + "\n" + rest, "\n" + rest);
  }

  // ----- the last line

  /** Without a line end there is no comment: the mark at the end of a text is garbage. */
  lemma LastLineIsNoComment(u: Rules, g: Scanning, bol: bool, w: string)
    requires IsFlex(u) && IsScan(u, g) && NoLineEnd(w)
    ensures Initial(g, "#" + w, bol) == Prepend([TokGarbage], Initial(g, w, false))
  {
    var s := "#" + w;
    BestHashAtEnd(u, bol, w);
    assert s[..1] == "#" && s[1..] == w;
    assert StepsAt(u, g, s, bol, INITIAL, "") && ActsAsFlex(u, 41, "#", "", INITIAL);
    assert "" + Appended(41, "#") == "";
  }

  lemma BestHashAtEnd(u: Rules, bol: bool, w: string)
    requires IsFlex(u) && NoLineEnd(w)
    ensures u.best(INITIAL, bol, "#" + w) == (1, 41)
  {
    var s := "#" + w;
    assert s[..1] == "#";
    forall k, q | 1 < k <= |s| && 1 <= q <= NRULES
      ensures !u.matches(INITIAL, bol, q, s[..k])
    {
      assert MatchesAsFlex(u, INITIAL, bol, q, s[..k]);
      assert s[..k][k - 1] == s[k - 1] == w[k - 2];
      if q != COMMENT_RULE {
        MarkMatchesNothingElse(bol, q, s[..k]);
      }
    }
    forall q | 1 <= q < 41
      ensures !u.matches(INITIAL, bol, q, s[..1])
    {
      assert MatchesAsFlex(u, INITIAL, bol, q, s[..1]);
      OneHashMatchesNothing(bol, q);
    }
    assert MatchesAsFlex(u, INITIAL, bol, 41, s[..1]);
    BestIs(u, INITIAL, bol, s, 1, 41);
  }

  lemma OneHashMatchesNothing(bol: bool, q: nat)
    requires q < 41
    ensures !Matches(INITIAL, bol, q, "#")
  {
    if q == 16 {
      if IsIncludeOpen("#") {
        HeadOfInclude("#");
      }
    } else if 30 <= q <= 34 {
      HashIsNoNumeral("#");
    }
  }
}
