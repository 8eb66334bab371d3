/**
 Include directives: the token stream of a text with a directive is the one of the included
 file in its place.
 */
module Includes {
  import opened Tokens
  import opened Grammar
  import opened LrComplete
  import opened Lexemes
  import opened Matching
  import opened Patterns
  import opened Lexing
  import opened ParseTheorem
  import opened WriterSpec
  import opened Rescan
  import opened RescanString
  import opened Lines

  // ----- scanning the directive

  predicate AllBlank(w: string) {
    forall i :: 0 <= i < |w| ==> IsBlank(w[i])
  }

  /** What the rule for the front of a directive matches: blanks around the key word, and the quote. */
  function Opening(lead: string, gap: string): string {
    lead + ("@include" + (gap + "\""))
  }

  predicate IsOpening(lead: string, gap: string) {
    AllBlank(lead) && AllBlank(gap) && gap != []
  }

  /** A file name as it stands in a directive: quotes and backslashes are escaped. */
  function PathText(name: string): string {
    if name == [] then []
    else (if name[0] in "\"\\" then ['\\', name[0]] else [name[0]]) + PathText(name[1..])
  }

  /** A directive for the file `name`, indented by `lead`. */
  function Directive(lead: string, gap: string, name: string): string {
    Opening(lead, gap) + (PathText(name) + "\"")
  }

  lemma {:induction false} BlanksThen(b: string, rest: string)
    requires AllBlank(b) && (rest == [] || !IsBlank(rest[0]))
    ensures Blanks(b + rest) == |b|
  {
    if b == [] {
      assert b + rest == rest;
    } else {
      assert (b + rest)[1..] == b[1..] + rest;
      BlanksThen(b[1..], rest);
    }
  }

  /** Blanks, something else, and how much of it is left in a prefix of the whole. */
  lemma PrefixAfterBlanks(b: string, rest: string, k: nat)
    requires AllBlank(b) && rest != [] && !IsBlank(rest[0]) && k <= |b + rest|
    ensures Blanks((b + rest)[..k]) == if k <= |b| then k else |b|
    ensures (b + rest)[..k][Blanks((b + rest)[..k])..] == if k <= |b| then [] else rest[..k - |b|]
  {
    BlanksThen(b, rest);
    PrefixBlanks(b + rest, k);
  }

  /** The key word of a directive. */
  const AT := "@include"

  lemma OpeningOnly(lead: string, gap: string, rest: string, k: nat)
    requires IsOpening(lead, gap) && k <= |Opening(lead, gap) + rest|
    ensures IsIncludeOpen((Opening(lead, gap) + rest)[..k]) <==> k == |Opening(lead, gap)|
  {
    var tail := gap + ("\"" + rest);
    assert Opening(lead, gap) + rest == lead + (AT + tail);
    assert (AT + tail)[0] == '@';
    PrefixAfterBlanks(lead, AT + tail, k);
    if k > |lead| {
      KeyWordOnly(gap, rest, k - |lead|);
    }
  }

  /** The same behind the blanks in front. */
  lemma KeyWordOnly(gap: string, rest: string, k: nat)
    requires AllBlank(gap) && gap != [] && k <= |AT + (gap + ("\"" + rest))|
    ensures var u := (AT + (gap + ("\"" + rest)))[..k];
            (AT <= u && var v := u[8..]; v != [] && IsBlank(v[0]) && v[Blanks(v)..] == "\"") <==> k == 8 + |gap| + 1
  {
    var tail := gap + ("\"" + rest);
    var u := (AT + tail)[..k];
    if k > 8 {
      assert u[..8] == AT && u[8..] == tail[..k - 8];
      TailOnly(gap, rest, k - 8);
    } else if AT <= u {
      assert u[8..] == [];
    }
  }

  lemma TailOnly(gap: string, rest: string, k: nat)
    requires AllBlank(gap) && gap != [] && 1 <= k <= |gap + ("\"" + rest)|
    ensures var v := (gap + ("\"" + rest))[..k]; IsBlank(v[0]) && (v[Blanks(v)..] == "\"" <==> k == |gap| + 1)
  {
    assert ("\"" + rest)[0] == '\"';
    PrefixAfterBlanks(gap, "\"" + rest, k);
    if k == |gap| + 1 {
      assert ("\"" + rest)[..1] == "\"";
    }
  }

  lemma BestOpening(u: Rules, lead: string, gap: string, rest: string)
    requires IsFlex(u) && IsOpening(lead, gap)
    ensures u.best(INITIAL, true, Opening(lead, gap) + rest) == (|Opening(lead, gap)|, 16)
  {
    var s, n := Opening(lead, gap) + rest, |Opening(lead, gap)|;
    assert s[0] == if lead == [] then '@' else lead[0];
    OpeningOnly(lead, gap, rest, n);
    forall k | n < k <= |s|
      ensures !IsIncludeOpen(s[..k]) && Blanks(s[..k]) < k
    {
      OpeningOnly(lead, gap, rest, k);
      BlanksOfOpening(lead, gap, rest, k);
    }
    BestFront(u, s, n);
  }

  lemma BestFront(u: Rules, s: string, n: nat)
    requires IsFlex(u) && 2 <= n <= |s| && (s[0] == '@' || IsBlank(s[0])) && IsIncludeOpen(s[..n])
    requires forall k :: n < k <= |s| ==> !IsIncludeOpen(s[..k]) && Blanks(s[..k]) < k
    ensures u.best(INITIAL, true, s) == (n, 16)
  {
    forall k, q | n < k <= |s| && 1 <= q <= NRULES
      ensures !u.matches(INITIAL, true, q, s[..k])
    {
      DirectiveHeadRules(u, q, s[..k]);
    }
    forall q | 1 <= q < 16
      ensures !u.matches(INITIAL, true, q, s[..n])
    {
      assert MatchesAsFlex(u, INITIAL, true, q, s[..n]);
    }
    assert MatchesAsFlex(u, INITIAL, true, 16, s[..n]);
    BestIs(u, INITIAL, true, s, n, 16);
  }

  lemma BlanksOfOpening(lead: string, gap: string, rest: string, k: nat)
    requires IsOpening(lead, gap) && |Opening(lead, gap)| <= k <= |Opening(lead, gap) + rest|
    ensures Blanks((Opening(lead, gap) + rest)[..k]) < k
  {
    var tail := AT + (gap + ("\"" + rest));
    assert Opening(lead, gap) + rest == lead + tail && tail[0] == '@';
    PrefixAfterBlanks(lead, tail, k);
  }

  /** What begins like a directive and is none matches no rule as a whole. */
  lemma DirectiveHeadRules(u: Rules, q: nat, w: string)
    requires IsFlex(u) && |w| >= 2 && (w[0] == '@' || IsBlank(w[0])) && Blanks(w) < |w| && !IsIncludeOpen(w)
    ensures !u.matches(INITIAL, true, q, w)
  {
    if w[0] == '@' {
      AtSignRules(u, q, w);
    } else {
      OnlyBlankRules(u, true, q, w);
    }
  }

  /** An at sign begins nothing but a directive. */
  lemma AtSignRules(u: Rules, q: nat, w: string)
    requires IsFlex(u) && |w| >= 2 && w[0] == '@' && !IsIncludeOpen(w)
    ensures !u.matches(INITIAL, true, q, w)
  {
    assert MatchesAsFlex(u, INITIAL, true, q, w);
    if IsFloat(w) {
      HeadOfFloat(w);
    }
    if IsInteger(w) || IsInteger64(w) {
      HeadOfInteger(w);
    }
  }

  /** A run of ordinary characters of the name, before a backslash or the closing quote. */
  lemma BestName(u: Rules, bol: bool, run: string, rest: string)
    requires IsFlex(u) && NoneOf(run, "\"\\") && rest != [] && rest[0] in "\"\\"
    ensures u.best(INCLUDE, bol, run + rest) == (|run|, 17)
  {
    var s, n := run + rest, |run|;
    assert s[..n] == run;
    forall k, q | n < k <= |s| && 1 <= q <= NRULES
      ensures !u.matches(INCLUDE, bol, q, s[..k])
    {
      assert MatchesAsFlex(u, INCLUDE, bol, q, s[..k]);
      assert s[..k][n] == rest[0] && s[..k][0] == run[0];
    }
    forall q | 1 <= q < 17
      ensures !u.matches(INCLUDE, bol, q, s[..n])
    {
      assert MatchesAsFlex(u, INCLUDE, bol, q, s[..n]);
    }
    assert MatchesAsFlex(u, INCLUDE, bol, 17, s[..n]);
    BestIs(u, INCLUDE, bol, s, n, 17);
  }

  /** An escaped quote or backslash. */
  lemma BestPathEscape(u: Rules, bol: bool, c: char, rest: string)
    requires IsFlex(u) && c in "\"\\"
    ensures u.best(INCLUDE, bol, ['\\', c] + rest) == (2, if c == '\\' then 18 else 19)
  {
    var s, r := ['\\', c] + rest, if c == '\\' then 18 else 19;
    assert s[..2] == ['\\', c];
    forall k, q | 2 < k <= |s| && 1 <= q <= NRULES
      ensures !u.matches(INCLUDE, bol, q, s[..k])
    {
      assert MatchesAsFlex(u, INCLUDE, bol, q, s[..k]);
      assert s[..k][0] == '\\';
    }
    forall q | 1 <= q < r
      ensures !u.matches(INCLUDE, bol, q, s[..2])
    {
      assert MatchesAsFlex(u, INCLUDE, bol, q, s[..2]);
      assert s[..2][0] == '\\' && s[..2][1] == c;
    }
    assert MatchesAsFlex(u, INCLUDE, bol, r, s[..2]);
    BestIs(u, INCLUDE, bol, s, 2, r);
  }

  /** Inside a directive nothing but the quote matches a text that begins with one. */
  lemma OnlyQuoteMatches(bol: bool, q: nat, w: string)
    requires w != [] && w[0] == '\"' && (|w| >= 2 || q < INCLUDE_RULE)
    ensures !Matches(INCLUDE, bol, q, w)
  {
    assert w[0] in "\"\\";
  }

  lemma BestClosing(u: Rules, bol: bool, rest: string)
    requires IsFlex(u)
    ensures u.best(INCLUDE, bol, "\"" + rest) == (1, INCLUDE_RULE)
  {
    var s := "\"" + rest;
    assert s[..1] == "\"";
    forall k, q | 1 < k <= |s| && 1 <= q <= NRULES
      ensures !u.matches(INCLUDE, bol, q, s[..k])
    {
      assert MatchesAsFlex(u, INCLUDE, bol, q, s[..k]);
      OnlyQuoteMatches(bol, q, s[..k]);
    }
    forall q | 1 <= q < INCLUDE_RULE
      ensures !u.matches(INCLUDE, bol, q, s[..1])
    {
      assert MatchesAsFlex(u, INCLUDE, bol, q, s[..1]);
      OnlyQuoteMatches(bol, q, s[..1]);
    }
    assert MatchesAsFlex(u, INCLUDE, bol, INCLUDE_RULE, s[..1]);
    BestIs(u, INCLUDE, bol, s, 1, INCLUDE_RULE);
  }

  /** A match whose action returns no token. */
  lemma SilentStep(u: Rules, g: Scanning, s: string, bol: bool, sc: Condition, buf: string, n: nat, r: nat)
    requires IsFlex(u) && IsScan(u, g) && s != [] && u.best(sc, bol, s) == (n, r) && 16 <= r <= 19
    ensures g(s, bol, sc, buf) == g(s[n..], s[n - 1] == '\n', NextCondition(r, sc), buf + Appended(r, s[..n]))
  {
    assert StepsAt(u, g, s, bol, sc, buf) && ActsAsFlex(u, r, s[..n], buf, sc);
    assert s[..n][|s[..n]| - 1] == s[n - 1];
    var tail := g(s[n..], s[n - 1] == '\n', NextCondition(r, sc), buf + Appended(r, s[..n]));
    assert Prepend([], tail) == tail;
  }

  // ----- the directive is replaced by the tokens of the file

  /** What the scan becomes once the closing quote of a directive is reached. */
  function AfterDirective(u: Rules, f: Files, depth: nat, name: string, rest: string): Scanned
    requires Defaults(u) && depth <= MAX_INCLUDE_DEPTH
  {
    if depth == MAX_INCLUDE_DEPTH then Prepend([TokError], Scan(u, f, depth, rest, false, INCLUDE, name))
    else if PathOf(f, name) in f.contents then
      var inner := Scan(u, f, depth + 1, f.contents[PathOf(f, name)], true, INITIAL, "");
      Then(Enter(PathOf(f, name), inner), Scan(u, f, depth, rest, false, inner.sc, inner.buf))
    else Prepend([TokError], Scan(u, f, depth, rest, false, INCLUDE, ""))
  }

  lemma ScanClosing(u: Rules, f: Files, depth: nat, name: string, rest: string, bol: bool)
    requires IsFlex(u) && depth <= MAX_INCLUDE_DEPTH
    ensures Scan(u, f, depth, "\"" + rest, bol, INCLUDE, name) == AfterDirective(u, f, depth, name, rest)
  {
    var s := "\"" + rest;
    BestClosing(u, bol, rest);
    assert s[..1] == "\"" && s[1..] == rest && s[0] != '\n';
  }

  /** A name in a directive begins with its run of ordinary characters, as they are. */
  lemma {:induction false} RunOfName(name: string)
    ensures var k := Run(name); PathText(name) == name[..k] + PathText(name[k..])
  {
    if Run(name) > 0 {
      RunOfName(name[1..]);
      OneMoreInRun(name, Run(name[1..]));
    } else {
      assert name[0..] == name && name[..0] + PathText(name) == PathText(name);
    }
  }

  lemma OneMoreInRun(name: string, k: nat)
    requires k < |name| && name[0] !in "\"\\"
    requires PathText(name[1..]) == name[1..][..k] + PathText(name[1..][k..])
    ensures PathText(name) == name[..k + 1] + PathText(name[k + 1..])
  {
    var a, b := name[1..][..k], PathText(name[k + 1..]);
    assert name[1..][k..] == name[k + 1..];
    assert name[..k + 1] == [name[0]] + a;
    assert [name[0]] + (a + b) == [name[0]] + a + b;
  }

  lemma AfterRun(name: string, tail: string)
    requires tail != [] && tail[0] == '\"'
    ensures var s := PathText(name[Run(name)..]) + tail; s != [] && s[0] in "\"\\"
  {
  }

  /** What is before the closing quote is collected in the string buffer. */
  lemma {:induction false} ScanName(u: Rules, g: Scanning, name: string, tail: string, bol: bool, buf: string)
    returns (bol': bool)
    requires IsFlex(u) && IsScan(u, g) && NoNul(name) && tail != [] && tail[0] == '\"'
    ensures g(PathText(name) + tail, bol, INCLUDE, buf) == g(tail, bol', INCLUDE, buf + name)
    decreases |name|
  {
    if name == [] {
      bol' := bol;
      assert PathText(name) + tail == tail && buf + name == buf;
    } else {
      var k := Piece(name);
      bol' := ScanPiece(u, g, name, tail, bol, buf);
      bol' := ScanName(u, g, name[k..], tail, bol', buf + name[..k]);
      assert buf + name[..k] + name[k..] == buf + name;
    }
  }

  /** The length of what one match takes of a name: a run, or an escaped character. */
  function Piece(name: string): (k: nat)
    requires name != []
    ensures 1 <= k <= |name|
  {
    if Run(name) == 0 then 1 else Run(name)
  }

  lemma ScanPiece(u: Rules, g: Scanning, name: string, tail: string, bol: bool, buf: string) returns (bol': bool)
    requires IsFlex(u) && IsScan(u, g) && NoNul(name) && name != [] && tail != [] && tail[0] == '\"'
    ensures var k := Piece(name);
            g(PathText(name) + tail, bol, INCLUDE, buf) == g(PathText(name[k..]) + tail, bol', INCLUDE, buf + name[..k])
  {
    var k := Piece(name);
    var more := PathText(name[k..]) + tail;
    RunOfName(name);
    if Run(name) == 0 {
      assert PathText(name) + tail == ['\\', name[0]] + more && name[..1] == [name[0]];
      ScanPathEscape(u, g, name[0], more, bol, buf);
      bol' := false;
    } else {
      AfterRun(name, tail);
      bol' := ScanRun(u, g, name[..k], more, bol, buf);
      assert PathText(name) + tail == name[..k] + more;
    }
  }

  lemma ScanPathEscape(u: Rules, g: Scanning, c: char, more: string, bol: bool, buf: string)
    requires IsFlex(u) && IsScan(u, g) && c in "\"\\"
    ensures g(['\\', c] + more, bol, INCLUDE, buf) == g(more, false, INCLUDE, buf + [c])
  {
    var s, r := ['\\', c] + more, if c == '\\' then 18 else 19;
    BestPathEscape(u, bol, c, more);
    assert s[..2] == ['\\', c] && s[2..] == more;
    SilentStep(u, g, s, bol, INCLUDE, buf, 2, r);
    assert Appended(r, s[..2]) == [c];
  }

  lemma ScanRun(u: Rules, g: Scanning, run: string, more: string, bol: bool, buf: string) returns (bol': bool)
    requires IsFlex(u) && IsScan(u, g) && NoNul(run) && NoneOf(run, "\"\\") && more != [] && more[0] in "\"\\"
    ensures g(run + more, bol, INCLUDE, buf) == g(more, bol', INCLUDE, buf + run)
  {
    var s, k := run + more, |run|;
    BestName(u, bol, run, more);
    CStringOfText(run);
    assert s[..k] == run && s[k..] == more;
    SilentStep(u, g, s, bol, INCLUDE, buf, k, 17);
    bol' := s[k - 1] == '\n';
  }

  lemma ScanOpening(u: Rules, g: Scanning, lead: string, gap: string, tail: string)
    requires IsFlex(u) && IsScan(u, g) && IsOpening(lead, gap)
    ensures g(Opening(lead, gap) + tail, true, INITIAL, "") == g(tail, false, INCLUDE, "")
  {
    var s, n := Opening(lead, gap) + tail, |Opening(lead, gap)|;
    BestOpening(u, lead, gap, tail);
    assert s[n..] == tail && s[n - 1] == '\"';
    SilentStep(u, g, s, true, INITIAL, "", n, 16);
    assert "" + Appended(16, s[..n]) == "";
  }

  lemma DirectiveText(lead: string, gap: string, name: string, rest: string)
    ensures Directive(lead, gap, name) + rest == Opening(lead, gap) + (PathText(name) + ("\"" + rest))
  {
  }

  /** At the beginning of a line, outside strings and comments, a directive stands for its file. */
  lemma DirectiveExpands(u: Rules, f: Files, depth: nat, lead: string, gap: string, name: string, rest: string)
    requires IsFlex(u) && depth <= MAX_INCLUDE_DEPTH && IsOpening(lead, gap) && NoNul(name)
    ensures Scan(u, f, depth, Directive(lead, gap, name) + rest, true, INITIAL, "") ==
            AfterDirective(u, f, depth, name, rest)
  {
    ScanIsScan(u, f, depth);
    DirectiveText(lead, gap, name, rest);
    ScanOpening(u, ScanAt(u, f, depth), lead, gap, PathText(name) + ("\"" + rest));
    var bol := ScanName(u, ScanAt(u, f, depth), name, "\"" + rest, false, "");
    assert "" + name == name;
    ScanClosing(u, f, depth, name, rest, bol);
  }

  /** The text ends outside comments, strings and directives. */
  predicate EndsOutside(s: Scanned) {
    s.sc == INITIAL && s.buf == ""
  }

  /**
   The include stack splices: after whole lines that end outside comments, strings and
   directives, a directive whose file ends so too puts the tokens of the file between those of
   the text before and those of the text after, and the files it enters likewise.
   */
  lemma DirectiveSplices(u: Rules, f: Files, depth: nat, before: string, lead: string, gap: string, name: string, rest: string)
    requires IsFlex(u) && depth < MAX_INCLUDE_DEPTH && IsOpening(lead, gap) && NoNul(name)
    requires IsLines(before) && EndsOutside(Scan(u, f, depth, before, true, INITIAL, ""))
    requires PathOf(f, name) in f.contents
    requires EndsOutside(Scan(u, f, depth + 1, f.contents[PathOf(f, name)], true, INITIAL, ""))
    ensures Scan(u, f, depth, before + (Directive(lead, gap, name) + rest), true, INITIAL, "").toks ==
            Scan(u, f, depth, before, true, INITIAL, "").toks
            + Scan(u, f, depth + 1, f.contents[PathOf(f, name)], true, INITIAL, "").toks
            + Scan(u, f, depth, rest, false, INITIAL, "").toks
    ensures Scan(u, f, depth, before + (Directive(lead, gap, name) + rest), true, INITIAL, "").files ==
            Scan(u, f, depth, before, true, INITIAL, "").files
            + ([PathOf(f, name)] + Scan(u, f, depth + 1, f.contents[PathOf(f, name)], true, INITIAL, "").files)
            + Scan(u, f, depth, rest, false, INITIAL, "").files
  {
    var d := Directive(lead, gap, name) + rest;
    ScanLinesThenRest(u, f, depth, before, d, true);
    DirectiveExpands(u, f, depth, lead, gap, name, rest);
    Joined(Scan(u, f, depth, before + d, true, INITIAL, ""), Scan(u, f, depth, before, true, INITIAL, ""),
           Scan(u, f, depth, d, true, INITIAL, ""),
           Enter(PathOf(f, name), Scan(u, f, depth + 1, f.contents[PathOf(f, name)], true, INITIAL, "")),
           Scan(u, f, depth, rest, false, INITIAL, ""));
  }

  lemma Joined(whole: Scanned, a: Scanned, m: Scanned, b: Scanned, s: Scanned)
    requires whole == Then(a, m) && m == Then(b, s)
    ensures whole.toks == a.toks + b.toks + s.toks && whole.files == a.files + b.files + s.files
  {
  }

  // ----- a file that includes itself

  lemma ScanNewline(u: Rules, f: Files, depth: nat, buf: string)
    requires IsFlex(u) && depth <= MAX_INCLUDE_DEPTH
    ensures Scan(u, f, depth, "\n", false, INCLUDE, buf) == Scanned([], INCLUDE, buf + "\n", [])
  {
    var s := "\n";
    assert s[..1] == s;
    assert MatchesAsFlex(u, INCLUDE, false, 17, s[..1]);
    forall q | 1 <= q < 17
      ensures !u.matches(INCLUDE, false, q, s[..1])
    {
      assert MatchesAsFlex(u, INCLUDE, false, q, s[..1]);
    }
    BestIs(u, INCLUDE, false, s, 1, 17);
    assert ActsAsFlex(u, 17, s, buf, INCLUDE);
    CStringOfText(s);
    assert s[1..] == "";
  }

  /**
   A file that only includes itself delivers one error token, whatever the depth it starts at. Ten
   including files are the limit.
   */
  lemma {:induction false} SelfIncludeFails(u: Rules, f: Files, depth: nat, lead: string, gap: string, name: string)
    requires IsFlex(u) && depth <= MAX_INCLUDE_DEPTH && IsOpening(lead, gap) && NoNul(name)
    requires PathOf(f, name) in f.contents && f.contents[PathOf(f, name)] == Directive(lead, gap, name) + "\n"
    ensures var r := Scan(u, f, depth, f.contents[PathOf(f, name)], true, INITIAL, "");
            && r.toks == [TokError] && r.sc == INCLUDE && |r.files| == 10 - depth
            && forall p :: p in r.files ==> p == if f.dir.None? then name else f.dir.value + "/" + name
    decreases MAX_INCLUDE_DEPTH - depth
  {
    if depth == MAX_INCLUDE_DEPTH {
      DirectiveExpands(u, f, depth, lead, gap, name, "\n");
      ScanNewline(u, f, depth, name);
    } else {
      SelfIncludeFails(u, f, depth + 1, lead, gap, name);
      FailureInside(u, f, depth, lead, gap, name, Scan(u, f, depth + 1, f.contents[PathOf(f, name)], true, INITIAL, ""));
    }
  }

  /** What the included file yields, and where it leaves the scanner, is passed on. */
  lemma FailureInside(u: Rules, f: Files, depth: nat, lead: string, gap: string, name: string, inner: Scanned)
    requires IsFlex(u) && depth < MAX_INCLUDE_DEPTH && IsOpening(lead, gap) && NoNul(name)
    requires PathOf(f, name) in f.contents && inner.sc == INCLUDE
    requires inner == Scan(u, f, depth + 1, f.contents[PathOf(f, name)], true, INITIAL, "")
    ensures var r := Scan(u, f, depth, Directive(lead, gap, name) + "\n", true, INITIAL, "");
            r.toks == inner.toks && r.sc == INCLUDE && r.files == [PathOf(f, name)] + inner.files
  {
    DirectiveExpands(u, f, depth, lead, gap, name, "\n");
    ScanNewline(u, f, depth, inner.buf);
  }

  // ----- a failed directive fails the parse

  lemma NoErrorInRules(n: int)
    requires 2 <= n <= 39
    ensures Kind(TokError) !in Rhs(n)
  {
  }

  lemma {:induction false} DerivationHasNoError(t: PTree)
    requires Derivation(t) && Root(t) != Kind(TokError)
    ensures TokError !in Yield(t)
    decreases t, 0
  {
    if t.Node? {
      Expand(t);
      NoErrorInRules(t.rule);
      DerivationsHaveNoError(t.kids);
    }
  }

  lemma {:induction false} DerivationsHaveNoError(ts: seq<PTree>)
    requires forall t | t in ts :: Derivation(t) && Root(t) != Kind(TokError)
    ensures TokError !in Yields(ts)
    decreases ts, 1
  {
    if ts != [] {
      DerivationHasNoError(ts[0]);
      DerivationsHaveNoError(ts[1..]);
    }
  }

  /** A file that cannot be opened, or a directive nested too deep, anywhere makes the parse fail. */
  lemma FailedDirectiveFailsTheParse(w: seq<Token>)
    requires TokError in w
    ensures !YyParse(w).Accepted?
  {
    YyParseMeaning(w);
    forall t | Accepts(w, t)
      ensures false
    {
      DerivationHasNoError(t);
    }
  }
}
