/**
 The tokens of a written tree, and why scanning the text gives exactly these tokens.
 */
module TreeTokens {
  import opened Options
  import opened Tokens
  import opened Settings
  import opened Lexemes
  import opened Numerals
  import opened Matching
  import opened Patterns
  import opened Lexing
  import opened Trees
  import opened Meaning
  import opened WriterSpec
  import opened Rescan
  import opened RescanString

  // ----- the trees that can be written and read back

  predicate PrintableScalar(v: Scalar) {
    match v
    case SBool(_) => true
    case SInt(i) => IsInt32(i)
    case SInt64(l) => IsInt64(l)
    case SFloat(_) => false
    case SString(s) => s.Some? ==> NoNul(s.value)
  }

  /** No floats and no settings without a type; integers in range, elements unnamed, members named. */
  predicate Printable(v: Value) {
    match v
    case VNone => false
    case VScalar(data, _) => PrintableScalar(data)
    case VArray(es) => Homogeneous(es) && forall e | e in es :: e.name == None && e.value.VScalar? && Printable(e.value)
    case VList(es) => forall e | e in es :: e.name == None && Printable(e.value)
    case VGroup(ms) => NamesOk(ms) && forall m | m in ms :: Printable(m.value)
  }

  predicate PrintableMember(t: Tree) {
    t.name.Some? && ValidName(t.name.value) && Printable(t.value)
  }

  predicate PrintableElem(t: Tree) {
    t.name == None && Printable(t.value)
  }

  // ----- their tokens

  function ScalarToken(y: Style, v: Scalar, format: int): Token {
    match v
    case SBool(b) => TokBoolean(if b != 0 then 1 else 0)
    case SInt(i) => if FormatOf(y, format) == FORMAT_HEX then TokHex(i) else TokInteger(i)
    case SInt64(l) => if FormatOf(y, format) == FORMAT_HEX then TokHex64(l) else TokInteger64(l)
    case SFloat(f) => TokFloat(y.floatText(f))
    case SString(s) => TokString(match s case None => [] case Some(u) => u)
  }

  /** A name that reads as a truth value is scanned as one. */
  function NameToken(name: string): Token {
    if IsWord(name, "true") then TokBoolean(1)
    else if IsWord(name, "false") then TokBoolean(0)
    else TokName(name)
  }

  function ValueTokens(y: Style, v: Value): seq<Token>
    decreases v, 1
  {
    match v
    case VNone => []
    case VScalar(data, format) => [ScalarToken(y, data, format)]
    case VArray(es) => [TokArrayStart] + ElemsTokens(y, es) + [TokArrayEnd]
    case VList(es) => [TokListStart] + ElemsTokens(y, es) + [TokListEnd]
    case VGroup(ms) => [TokGroupStart] + MembersTokens(y, ms) + [TokGroupEnd]
  }

  function ElemsTokens(y: Style, es: seq<Tree>): seq<Token>
    decreases es, 0
  {
    if es == [] then []
    else ElemTokens(y, es[0]) + (if |es| > 1 then [TokComma] else []) + ElemsTokens(y, es[1..])
  }

  function ElemTokens(y: Style, e: Tree): seq<Token>
    decreases e, 0
  {
    ValueTokens(y, e.value)
  }

  function MembersTokens(y: Style, ms: seq<Tree>): seq<Token>
    decreases ms, 0
  {
    if ms == [] then [] else MemberTokens(y, ms[0]) + MembersTokens(y, ms[1..])
  }

  function MemberTokens(y: Style, t: Tree): seq<Token>
    decreases t, 0
  {
    (if t.name.Some? then [NameToken(t.name.value), TokEquals] else [])
    + ValueTokens(y, t.value)
    + (if y.semicolons then [TokSemicolon] else [])
  }

  // ----- scanning white space and punctuation

  /** Scanning `p` before `rest` yields the tokens `ts`. */
  ghost predicate ScansTo(g: Scanning, p: string, rest: string, ts: seq<Token>) {
    && Plain(p + rest)
    && forall bol :: Initial(g, p + rest, bol) == Prepend(ts, Initial(g, rest, false))
  }

  lemma ScansNothing(g: Scanning, u: Rules, rest: string)
    requires IsFlex(u) && IsScan(u, g) && Plain(rest)
    ensures ScansTo(g, "", rest, [])
  {
    assert "" + rest == rest;
    BolIrrelevant(u, g, rest);
    assert Prepend([], Initial(g, rest, false)) == Initial(g, rest, false);
    forall bol ensures Initial(g, rest, bol) == Initial(g, rest, false) {
      assert bol == true || bol == false;
    }
  }

  lemma ScansBoth(g: Scanning, p: string, q: string, rest: string, ts: seq<Token>, us: seq<Token>)
    requires ScansTo(g, p, q + rest, ts) && ScansTo(g, q, rest, us)
    ensures ScansTo(g, p + q, rest, ts + us)
  {
    assert p + q + rest == p + (q + rest);
    var r := Initial(g, rest, false);
    assert ts + (us + r.toks) == ts + us + r.toks;
  }

  /** The token of a punctuation character; none for the line end. */
  function PunctuationTokens(c: char): seq<Token> {
    OneOrNone(TokenOf(PunctuationRule(c), [c], ""))
  }

  lemma ScansPunctuation(g: Scanning, u: Rules, c: char, rest: string)
    requires IsFlex(u) && IsScan(u, g) && PunctuationRule(c) != 0 && Plain(rest)
    ensures ScansTo(g, [c], rest, PunctuationTokens(c))
  {
    BolIrrelevant(u, g, rest);
    forall bol ensures Initial(g, [c] + rest, bol) == Prepend(PunctuationTokens(c), Initial(g, rest, false)) {
      ScanPunctuation(u, g, c, rest, bol);
    }
    assert ([c] + rest)[0] == c;
  }

  lemma {:induction false} ScansBlanks(g: Scanning, u: Rules, c: char, n: nat, rest: string)
    requires IsFlex(u) && IsScan(u, g) && IsBlank(c) && Plain(rest)
    ensures ScansTo(g, Repeat(c, n), rest, [])
    decreases n
  {
    if n == 0 {
      ScansNothing(g, u, rest);
    } else {
      ScansBlanks(g, u, c, n - 1, rest);
      ScansBlank(g, u, c, Repeat(c, n - 1) + rest);
      ScansBoth(g, [c], Repeat(c, n - 1), rest, [], []);
    }
  }

  lemma ScansBlank(g: Scanning, u: Rules, c: char, rest: string)
    requires IsFlex(u) && IsScan(u, g) && IsBlank(c) && Plain(rest)
    ensures ScansTo(g, [c], rest, [])
  {
    assert Prepend([], Initial(g, rest, false)) == Initial(g, rest, false);
    forall bol ensures Initial(g, [c] + rest, bol) == Initial(g, rest, false) {
      ScanBlank(u, g, c, rest, bol);
    }
    ScanBlank(u, g, c, rest, false);
  }

  lemma ScansIndent(g: Scanning, u: Rules, y: Style, depth: nat, rest: string)
    requires IsFlex(u) && IsScan(u, g) && Plain(rest)
    ensures ScansTo(g, IndentFrom(y, depth), rest, [])
  {
    if depth <= 1 {
      ScansNothing(g, u, rest);
    } else if y.tabWidth == 0 {
      ScansBlanks(g, u, '\t', depth - 1, rest);
    } else {
      ScansBlanks(g, u, ' ', |Indent(y, depth)|, rest);
    }
  }

  // ----- scanning scalars

  lemma ScansWord(g: Scanning, u: Rules, w: string, r: nat, rest: string)
    requires IsFlex(u) && IsScan(u, g) && WordOf(w, r) && Delimits(rest)
    ensures ScansTo(g, w, rest, OneOrNone(TokenOf(r, w, "")))
  {
    forall bol ensures Initial(g, w + rest, bol) == Prepend(OneOrNone(TokenOf(r, w, "")), Initial(g, rest, false)) {
      ScanWord(u, g, w, rest, bol, r);
    }
    ScanWord(u, g, w, rest, false, r);
  }

  lemma ScansLiteral(g: Scanning, u: Rules, s: string, rest: string)
    requires IsFlex(u) && IsScan(u, g) && NoNul(s)
    ensures ScansTo(g, "\"" + Escape(s) + "\"", rest, [TokString(s)])
  {
    forall bol ensures Initial(g, "\"" + Escape(s) + "\"" + rest, bol) == Prepend([TokString(s)], Initial(g, rest, false)) {
      ScanLiteral(u, g, s, rest, bol);
    }
    ScanLiteral(u, g, s, rest, false);
  }

  lemma ScansScalar(g: Scanning, u: Rules, y: Style, v: Scalar, format: int, rest: string)
    requires IsFlex(u) && IsScan(u, g) && PrintableScalar(v) && Delimits(rest)
    ensures ScansTo(g, ScalarText(y, v, format), rest, [ScalarToken(y, v, format)])
  {
    match v
    case SBool(b) =>
      var w := if b != 0 then "true" else "false";
      NameIsWord(w);
      ScansWord(g, u, w, if b != 0 then 27 else 28, rest);
    case SInt(i) => ScansInt(g, u, y, i, format, rest);
    case SInt64(l) => ScansInt64(g, u, y, l, format, rest);
    case SString(s) => ScansLiteral(g, u, match s case None => [] case Some(t) => t, rest);
  }

  lemma ScansInt(g: Scanning, u: Rules, y: Style, i: int, format: int, rest: string)
    requires IsFlex(u) && IsScan(u, g) && IsInt32(i) && Delimits(rest)
    ensures ScansTo(g, ScalarText(y, SInt(i), format), rest, [ScalarToken(y, SInt(i), format)])
  {
    if FormatOf(y, format) == FORMAT_HEX {
      HexRoundTrip(i);
      HexIsWord(i);
      ScansWord(g, u, WriteHex32(i), 33, rest);
    } else {
      IntRoundTrip(i);
      IntIsWord(i);
      ScansWord(g, u, WriteInt(i), 31, rest);
    }
  }

  lemma ScansInt64(g: Scanning, u: Rules, y: Style, l: int, format: int, rest: string)
    requires IsFlex(u) && IsScan(u, g) && IsInt64(l) && Delimits(rest)
    ensures ScansTo(g, ScalarText(y, SInt64(l), format), rest, [ScalarToken(y, SInt64(l), format)])
  {
    if FormatOf(y, format) == FORMAT_HEX {
      Hex64RoundTrip(l);
      Hex64IsWord(l);
      ScansWord(g, u, WriteHex64(l) + "L", 34, rest);
    } else {
      Int64RoundTrip(l);
      Int64IsWord(l);
      ScansWord(g, u, WriteInt(l) + "L", 32, rest);
    }
  }

  lemma ScansName(g: Scanning, u: Rules, name: string, rest: string)
    requires IsFlex(u) && IsScan(u, g) && ValidName(name) && Delimits(rest)
    ensures ScansTo(g, name, rest, [NameToken(name)])
  {
    NameIsWord(name);
    ScansWord(g, u, name, if IsWord(name, "true") then 27 else if IsWord(name, "false") then 28 else 29, rest);
  }

  // ----- scanning values and settings

  lemma PlainAfter(c: char, rest: string)
    requires !IsBlank(c) && c != '@'
    ensures Plain([c] + rest)
  {
    assert ([c] + rest)[0] == c;
  }

  lemma ScansThree(g: Scanning, p: string, q: string, r: string, rest: string,
                   ts: seq<Token>, us: seq<Token>, vs: seq<Token>)
    requires ScansTo(g, r, rest, vs) && ScansTo(g, q, r + rest, us) && ScansTo(g, p, q + (r + rest), ts)
    ensures ScansTo(g, p + q + r, rest, ts + us + vs)
  {
    assert q + r + rest == q + (r + rest);
    ScansBoth(g, q, r, rest, us, vs);
    assert p + q + (r + rest) == p + (q + (r + rest));
    ScansBoth(g, p, q, r + rest, ts, us);
    ScansBoth(g, p + q, r, rest, ts + us, vs);
  }

  lemma ScansComma(g: Scanning, u: Rules, rest: string)
    requires IsFlex(u) && IsScan(u, g) && Plain(rest)
    ensures ScansTo(g, ", ", rest, [TokComma]) && Delimits(", " + rest)
  {
    ScansBlank(g, u, ' ', rest);
    ScansPunctuation(g, u, ',', " " + rest);
    ScansBoth(g, ",", " ", rest, [TokComma], []);
    assert "," + " " == ", ";
    assert (", " + rest)[0] == ',';
  }

  /** A bracket followed by a blank. */
  lemma ScansBracket(g: Scanning, u: Rules, c: char, rest: string)
    requires IsFlex(u) && IsScan(u, g) && (c == '(' || c == '[') && Plain(rest)
    ensures ScansTo(g, [c] + " ", rest, PunctuationTokens(c))
  {
    ScansBlank(g, u, ' ', rest);
    ScansPunctuation(g, u, c, " " + rest);
    ScansBoth(g, [c], " ", rest, PunctuationTokens(c), []);
  }

  lemma {:induction false} ScansValue(g: Scanning, u: Rules, y: Style, v: Value, depth: nat, rest: string)
    requires IsFlex(u) && IsScan(u, g) && Printable(v) && depth > 0 && Delimits(rest)
    ensures ScansTo(g, ValueText(y, v, depth), rest, ValueTokens(y, v))
    decreases v, 2
  {
    match v
    case VScalar(data, format) => ScansScalar(g, u, y, data, format, rest);
    case VList(es) => ScansVector(g, u, y, v, es, '(', ')', depth, rest);
    case VArray(es) => ScansVector(g, u, y, v, es, '[', ']', depth, rest);
    case VGroup(ms) => ScansGroup(g, u, y, ms, depth, rest);
  }

  lemma {:induction false} ScansVector(g: Scanning, u: Rules, y: Style, v: Value, es: seq<Tree>, c: char, c': char,
                                       depth: nat, rest: string)
    requires IsFlex(u) && IsScan(u, g) && (forall e | e in es :: Printable(e.value)) && Plain(rest)
    requires (v == VList(es) && c == '(' && c' == ')') || (v == VArray(es) && c == '[' && c' == ']')
    ensures ScansTo(g, ValueText(y, v, depth), rest, ValueTokens(y, v))
    decreases v, 1
  {
    PlainAfter(c', rest);
    ScansElems(g, u, y, es, depth, [c'] + rest);
    ScansBetween(g, u, c, c', ElemsText(y, es, depth), ElemsTokens(y, es), rest);
    VectorIs(y, v, es, c, c', depth);
  }

  /** A bracket, a blank, some text and the closing bracket. */
  lemma ScansBetween(g: Scanning, u: Rules, c: char, c': char, p: string, ts: seq<Token>, rest: string)
    requires IsFlex(u) && IsScan(u, g) && Plain(rest) && (c == '(' || c == '[') && (c' == ')' || c' == ']')
    requires ScansTo(g, p, [c'] + rest, ts)
    ensures ScansTo(g, [c] + " " + p + [c'], rest, PunctuationTokens(c) + ts + PunctuationTokens(c'))
  {
    ScansPunctuation(g, u, c', rest);
    ScansBracket(g, u, c, p + ([c'] + rest));
    ScansThree(g, [c] + " ", p, [c'], rest, PunctuationTokens(c), ts, PunctuationTokens(c'));
  }

  lemma VectorIs(y: Style, v: Value, es: seq<Tree>, c: char, c': char, depth: nat)
    requires (v == VList(es) && c == '(' && c' == ')') || (v == VArray(es) && c == '[' && c' == ']')
    ensures ValueText(y, v, depth) == [c] + " " + ElemsText(y, es, depth) + [c']
    ensures ValueTokens(y, v) == PunctuationTokens(c) + ElemsTokens(y, es) + PunctuationTokens(c')
  {
    assert [c] + " " == if c == '(' then "( " else "[ ";
  }

  lemma {:induction false} ScansGroup(g: Scanning, u: Rules, y: Style, ms: seq<Tree>, depth: nat, rest: string)
    requires IsFlex(u) && IsScan(u, g) && Printable(VGroup(ms)) && depth > 0 && Plain(rest)
    ensures ScansTo(g, ValueText(y, VGroup(ms), depth), rest, ValueTokens(y, VGroup(ms)))
    decreases VGroup(ms), 1
  {
    ScansClose(g, u, y, depth, rest);
    ScansMembers(g, u, y, ms, depth, CloseText(y, depth) + rest);
    ScansOpen(g, u, y, depth, MembersText(y, ms, depth) + (CloseText(y, depth) + rest));
    ScansThree(g, OpenText(y, depth), MembersText(y, ms, depth), CloseText(y, depth), rest,
               [TokGroupStart], MembersTokens(y, ms), [TokGroupEnd]);
  }

  lemma ScansLineEnd(g: Scanning, u: Rules, rest: string)
    requires IsFlex(u) && IsScan(u, g) && Plain(rest)
    ensures ScansTo(g, "\n", rest, [])
  {
    ScansPunctuation(g, u, '\n', rest);
  }

  lemma ScansBraceLine(g: Scanning, u: Rules, rest: string)
    requires IsFlex(u) && IsScan(u, g) && Plain(rest)
    ensures ScansTo(g, "{\n", rest, [TokGroupStart])
  {
    ScansLineEnd(g, u, rest);
    ScansPunctuation(g, u, '{', "\n" + rest);
    ScansBoth(g, "{", "\n", rest, [TokGroupStart], []);
    assert "{" + "\n" == "{\n";
  }

  lemma ScansOpen(g: Scanning, u: Rules, y: Style, depth: nat, rest: string)
    requires IsFlex(u) && IsScan(u, g) && depth > 0 && Plain(rest)
    ensures ScansTo(g, OpenText(y, depth), rest, [TokGroupStart])
  {
    ScansBraceLine(g, u, rest);
    if y.braceOnOwnLine {
      ScansIndent(g, u, y, depth, "{\n" + rest);
      ScansLineEnd(g, u, IndentFrom(y, depth) + ("{\n" + rest));
      ScansThree(g, "\n", IndentFrom(y, depth), "{\n", rest, [], [], [TokGroupStart]);
    } else {
      assert [] + "{\n" == "{\n";
    }
  }

  lemma ScansClose(g: Scanning, u: Rules, y: Style, depth: nat, rest: string)
    requires IsFlex(u) && IsScan(u, g) && depth > 0 && Plain(rest)
    ensures ScansTo(g, CloseText(y, depth), rest, [TokGroupEnd])
  {
    ScansPunctuation(g, u, '}', rest);
    ScansIndent(g, u, y, depth, "}" + rest);
    ScansBoth(g, IndentFrom(y, depth), "}", rest, [], [TokGroupEnd]);
  }

  lemma {:induction false} ScansElems(g: Scanning, u: Rules, y: Style, es: seq<Tree>, depth: nat, rest: string)
    requires IsFlex(u) && IsScan(u, g) && (forall e | e in es :: Printable(e.value)) && Plain(rest)
    ensures ScansTo(g, ElemsText(y, es, depth), rest, ElemsTokens(y, es))
    decreases es, 1
  {
    if es == [] {
      ScansNothing(g, u, rest);
    } else {
      var more := ElemsText(y, es[1..], depth);
      ScansElems(g, u, y, es[1..], depth, rest);
      if |es| > 1 {
        ScansComma(g, u, more + rest);
        ScansElem(g, u, y, es[0], depth, ", " + (more + rest));
        ScansThree(g, ElemText(y, es[0], depth), ", ", more, rest,
                   ElemTokens(y, es[0]), [TokComma], ElemsTokens(y, es[1..]));
      } else {
        ScansBlank(g, u, ' ', more + rest);
        assert (" " + (more + rest))[0] == ' ';
        ScansElem(g, u, y, es[0], depth, " " + (more + rest));
        ScansThree(g, ElemText(y, es[0], depth), " ", more, rest,
                   ElemTokens(y, es[0]), [], ElemsTokens(y, es[1..]));
      }
    }
  }

  lemma {:induction false} ScansElem(g: Scanning, u: Rules, y: Style, e: Tree, depth: nat, rest: string)
    requires IsFlex(u) && IsScan(u, g) && Printable(e.value) && Delimits(rest)
    ensures ScansTo(g, ElemText(y, e, depth), rest, ElemTokens(y, e))
    decreases e, 0
  {
    ScansValue(g, u, y, e.value, depth + 1, rest);
  }

  lemma {:induction false} ScansMembers(g: Scanning, u: Rules, y: Style, ms: seq<Tree>, depth: nat, rest: string)
    requires IsFlex(u) && IsScan(u, g) && (forall m | m in ms :: PrintableMember(m)) && Plain(rest)
    ensures ScansTo(g, MembersText(y, ms, depth), rest, MembersTokens(y, ms))
    decreases ms, 1
  {
    if ms == [] {
      ScansNothing(g, u, rest);
    } else {
      ScansMembers(g, u, y, ms[1..], depth, rest);
      ScansMember(g, u, y, ms[0], depth + 1, MembersText(y, ms[1..], depth) + rest);
      ScansBoth(g, SettingText(y, ms[0], depth + 1), MembersText(y, ms[1..], depth), rest,
                MemberTokens(y, ms[0]), MembersTokens(y, ms[1..]));
    }
  }

  lemma ScansEnd(g: Scanning, u: Rules, y: Style, depth: nat, rest: string)
    requires IsFlex(u) && IsScan(u, g) && depth > 0 && Plain(rest)
    ensures ScansTo(g, EndText(y, depth), rest, if y.semicolons then [TokSemicolon] else [])
    ensures Delimits(EndText(y, depth) + rest)
  {
    ScansLineEnd(g, u, rest);
    if y.semicolons {
      ScansPunctuation(g, u, ';', "\n" + rest);
      ScansBoth(g, ";", "\n", rest, [TokSemicolon], []);
      assert ";" + "\n" == ";\n";
      assert (";\n" + rest)[0] == ';';
    } else {
      assert ("\n" + rest)[0] == '\n';
    }
  }

  /** The sign between a name and a value, with its blanks. */
  lemma ScansOperator(g: Scanning, u: Rules, c: char, rest: string)
    requires IsFlex(u) && IsScan(u, g) && (c == ':' || c == '=') && Plain(rest)
    ensures ScansTo(g, " " + [c] + " ", rest, [TokEquals])
  {
    ScansBlank(g, u, ' ', rest);
    ScansPunctuation(g, u, c, " " + rest);
    ScansBlank(g, u, ' ', [c] + (" " + rest));
    ScansThree(g, " ", [c], " ", rest, [], [TokEquals], []);
  }

  lemma ScansAssign(g: Scanning, u: Rules, y: Style, t: Tree, rest: string)
    requires IsFlex(u) && IsScan(u, g) && t.name.Some? && ValidName(t.name.value) && Plain(rest)
    ensures ScansTo(g, AssignText(y, t), rest, [NameToken(t.name.value), TokEquals])
  {
    var c := if (if t.value.VGroup? then y.colonForGroups else y.colonForOthers) then ':' else '=';
    var op := if c == ':' then " : " else " = ";
    ScansOperator(g, u, c, rest);
    assert " " + [c] + " " == op && (op + rest)[0] == ' ';
    ScansName(g, u, t.name.value, op + rest);
    ScansBoth(g, t.name.value, op, rest, [NameToken(t.name.value)], [TokEquals]);
  }

  lemma {:induction false} ScansMember(g: Scanning, u: Rules, y: Style, t: Tree, depth: nat, rest: string)
    requires IsFlex(u) && IsScan(u, g) && PrintableMember(t) && depth > 0 && Plain(rest)
    ensures ScansTo(g, SettingText(y, t, depth), rest, MemberTokens(y, t))
    decreases t, 1
  {
    var body := AssignText(y, t) + ValueText(y, t.value, depth) + EndText(y, depth);
    ScansBody(g, u, y, t, depth, rest);
    ScansIndent(g, u, y, depth, body + rest);
    ScansBoth(g, IndentFrom(y, depth), body, rest, [], MemberTokens(y, t));
    assert [] + MemberTokens(y, t) == MemberTokens(y, t);
    assert IndentFrom(y, depth) + body == SettingText(y, t, depth);
  }

  lemma {:induction false} ScansBody(g: Scanning, u: Rules, y: Style, t: Tree, depth: nat, rest: string)
    requires IsFlex(u) && IsScan(u, g) && PrintableMember(t) && depth > 0 && Plain(rest)
    ensures ScansTo(g, AssignText(y, t) + ValueText(y, t.value, depth) + EndText(y, depth), rest, MemberTokens(y, t))
    decreases t, 0
  {
    var a, v, e := AssignText(y, t), ValueText(y, t.value, depth), EndText(y, depth);
    ScansEnd(g, u, y, depth, rest);
    ScansValue(g, u, y, t.value, depth, e + rest);
    ScansAssign(g, u, y, t, v + (e + rest));
    ScansThree(g, a, v, e, rest, [NameToken(t.name.value), TokEquals], ValueTokens(y, t.value),
               if y.semicolons then [TokSemicolon] else []);
  }

  /** The text of a whole configuration is scanned to its tokens. */
  lemma ScanConfigText(u: Rules, g: Scanning, y: Style, ms: seq<Tree>, bol: bool)
    requires IsFlex(u) && IsScan(u, g) && Printable(VGroup(ms))
    ensures Initial(g, ConfigText(y, Tree(None, VGroup(ms))), bol) == Scanned(MembersTokens(y, ms), INITIAL, "", [])
  {
    var text := MembersText(y, ms, 0);
    ConfigTextOfMembers(y, ms);
    ScansMembers(g, u, y, ms, 0, "");
    assert text + "" == text;
    assert StepsAt(u, g, "", false, INITIAL, "");
  }

  lemma ConfigTextOfMembers(y: Style, ms: seq<Tree>)
    ensures ConfigText(y, Tree(None, VGroup(ms))) == MembersText(y, ms, 0)
  {
    assert ValueText(y, VGroup(ms), 0) == MembersText(y, ms, 0);
  }
}
