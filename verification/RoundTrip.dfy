/**
 Reading a written configuration gives it back. A tree of settings is written, the text is
 scanned and the tokens are parsed. This succeeds exactly when no member is named like a truth
 value and the parser's stack suffices; the result is then the tree that was written, up to
 the formats, truth values and null strings that the text cannot tell apart.
 */
module RoundTrip {
  import opened Options
  import opened Tokens
  import opened Grammar
  import opened LrDriver
  import opened LrComplete
  import LrTables
  import opened Settings
  import opened Lexemes
  import opened Numerals
  import M = Matching
  import opened Patterns
  import opened Lexing
  import opened Trees
  import opened Actions
  import opened Meaning
  import opened ParseTheorem
  import StackHeight
  import opened WriterSpec
  import opened Rescan
  import opened RescanString
  import opened TreeTokens
  import opened Unparse
  import opened UnparseYield
  import opened UnparseMeaning
  import opened UnparseHeight

  // ----- in a sentence of the grammar, an equals sign follows a name

  predicate NamedEquals(w: seq<Token>) {
    forall i :: 0 <= i < |w| && w[i] == TokEquals ==> i > 0 && w[i - 1].TokName?
  }

  ghost predicate Misnamed(w: seq<Token>) {
    exists i :: 0 < i < |w| && w[i] == TokEquals && !w[i - 1].TokName?
  }

  lemma NamedConcat(a: seq<Token>, b: seq<Token>)
    requires NamedEquals(a) && NamedEquals(b)
    ensures NamedEquals(a + b)
  {
    forall i | 0 <= i < |a + b| && (a + b)[i] == TokEquals
      ensures i > 0 && (a + b)[i - 1].TokName?
    {
      if i >= |a| {
        assert b[i - |a|] == TokEquals;
      }
    }
  }

  lemma MisnamedPart(a: seq<Token>, b: seq<Token>, c: seq<Token>)
    requires Misnamed(b)
    ensures Misnamed(a + b + c)
  {
    var i :| 0 < i < |b| && b[i] == TokEquals && !b[i - 1].TokName?;
    var w := a + b + c;
    assert w[|a| + i] == b[i] && w[|a| + i - 1] == b[i - 1];
  }

  lemma EqualsOnlyInSetting(n: int)
    requires 2 <= n <= 39 && n != 12
    ensures EQUALS !in Rhs(n)
  {
  }

  lemma {:induction false} DerivationIsNamed(t: PTree)
    requires Derivation(t) && Root(t) != EQUALS
    ensures NamedEquals(Yield(t))
    decreases t, 0
  {
    match t
    case Leaf(_) =>
    case Node(n, kids) =>
      Expand(t);
      if n == 12 {
        SettingShape(t);
        DerivationIsNamed(kids[3]);
        DerivationIsNamed(kids[4]);
        NamedConcat([kids[0].tok, kids[2].tok], Yield(kids[3]));
        NamedConcat([kids[0].tok, kids[2].tok] + Yield(kids[3]), Yield(kids[4]));
        SettingYields(kids);
      } else {
        EqualsOnlyInSetting(n);
        DerivationsAreNamed(kids);
      }
  }

  lemma SettingYields(kids: seq<PTree>)
    requires |kids| == 5 && kids[0].Leaf? && kids[1] == Node(11, []) && kids[2].Leaf?
    ensures Yields(kids) == [kids[0].tok, kids[2].tok] + Yield(kids[3]) + Yield(kids[4])
  {
    assert kids[1..] == [kids[1], kids[2], kids[3], kids[4]];
    YieldsFour(kids[1], kids[2], kids[3], kids[4]);
    assert Yields(kids) == Yield(kids[0]) + Yields(kids[1..]);
    assert Yield(kids[1]) == [];
  }

  lemma {:induction false} DerivationsAreNamed(ts: seq<PTree>)
    requires forall t | t in ts :: Derivation(t) && Root(t) != EQUALS
    ensures NamedEquals(Yields(ts))
    decreases ts, 1
  {
    if ts != [] {
      DerivationIsNamed(ts[0]);
      DerivationsAreNamed(ts[1..]);
      NamedConcat(Yield(ts[0]), Yields(ts[1..]));
    }
  }

  lemma MisnamedIsNoSentence(w: seq<Token>)
    requires Misnamed(w)
    ensures !Derives(w)
  {
    forall t | Parses(t, w)
      ensures false
    {
      DerivationIsNamed(t);
    }
  }

  // ----- a reserved name makes the equals sign after it misplaced

  lemma {:induction false} ReservedIsMisnamed(y: Style, v: Value)
    requires Printable(v) && !NoReserved(v)
    ensures Misnamed(ValueTokens(y, v))
    decreases v, 1
  {
    match v
    case VList(es) =>
      ElemsMisnamed(y, es);
      MisnamedPart([TokListStart], ElemsTokens(y, es), [TokListEnd]);
    case VGroup(ms) =>
      MembersMisnamed(y, ms);
      MisnamedPart([TokGroupStart], MembersTokens(y, ms), [TokGroupEnd]);
    case _ =>
  }

  lemma {:induction false} ElemsMisnamed(y: Style, es: seq<Tree>)
    requires forall e | e in es :: Printable(e.value)
    requires exists e | e in es :: !NoReserved(e.value)
    ensures Misnamed(ElemsTokens(y, es))
    decreases es, 0
  {
    var first, sep, more := ElemTokens(y, es[0]), if |es| > 1 then [TokComma] else [], ElemsTokens(y, es[1..]);
    if NoReserved(es[0].value) {
      ElemsMisnamed(y, es[1..]);
      MisnamedPart(first + sep, more, []);
      assert first + sep + more + [] == first + sep + more;
    } else {
      ElemMisnamed(y, es[0]);
      MisnamedPart([], first, sep + more);
      assert [] + first + (sep + more) == first + sep + more;
    }
  }

  lemma {:induction false} ElemMisnamed(y: Style, e: Tree)
    requires Printable(e.value) && !NoReserved(e.value)
    ensures Misnamed(ElemTokens(y, e))
    decreases e, 0
  {
    ReservedIsMisnamed(y, e.value);
  }

  ghost predicate BadMember(m: Tree) {
    m.name.Some? && (Reserved(m.name.value) || !NoReserved(m.value))
  }

  lemma {:induction false} MembersMisnamed(y: Style, ms: seq<Tree>)
    requires forall m | m in ms :: PrintableMember(m)
    requires exists m | m in ms :: BadMember(m)
    ensures Misnamed(MembersTokens(y, ms))
    decreases ms, 0
  {
    var first, more := MemberTokens(y, ms[0]), MembersTokens(y, ms[1..]);
    if BadMember(ms[0]) {
      MemberMisnamed(y, ms[0]);
      MisnamedPart([], first, more);
      assert [] + first + more == first + more;
    } else {
      MembersMisnamed(y, ms[1..]);
      MisnamedPart(first, more, []);
      assert first + more + [] == first + more;
    }
  }

  lemma {:induction false} MemberMisnamed(y: Style, m: Tree)
    requires PrintableMember(m) && BadMember(m)
    ensures Misnamed(MemberTokens(y, m))
    decreases m, 0
  {
    var head, end := [NameToken(m.name.value), TokEquals], if y.semicolons then [TokSemicolon] else [];
    if Reserved(m.name.value) {
      assert head[1] == TokEquals && !head[0].TokName?;
      MisnamedPart([], head, ValueTokens(y, m.value) + end);
      assert [] + head + (ValueTokens(y, m.value) + end) == MemberTokens(y, m);
    } else {
      ReservedIsMisnamed(y, m.value);
      MisnamedPart(head, ValueTokens(y, m.value), end);
    }
  }

  // ----- the tree that is read is legal

  lemma {:induction false} NormIsLegal(y: Style, v: Value)
    requires Printable(v)
    ensures Legal(Norm(y, v))
    decreases v
  {
    match v
    case VGroup(ms) =>
      forall i | 0 <= i < |ms| ensures Legal(NormAll(y, ms)[i].value) {
        NormIsLegal(y, ms[i].value);
      }
    case VList(es) =>
      forall i | 0 <= i < |es| ensures Legal(NormAll(y, es)[i].value) {
        NormIsLegal(y, es[i].value);
      }
    case VArray(es) =>
      forall i | 0 <= i < |es| ensures Tag(NormAll(y, es)[i].value) == Tag(es[0].value) {
        assert es[i] in es && Tag(es[i].value) == Tag(es[0].value);
        assert NormAll(y, es)[i].value == Norm(y, es[i].value);
      }
    case _ =>
  }

  // ----- the round trip

  /** `config_write`, then the scanner and the parser of `config_read` on the text. */
  function WriteThenScan(y: Style, f: Files, ms: seq<Tree>): Scanned {
    FlexIsFlex();
    Scan(FLEX, f, 0, ConfigText(y, Tree(None, VGroup(ms))), true, M.INITIAL, "")
  }

  function WriteThenRead(y: Style, f: Files, ms: seq<Tree>): Outcome<Ctx> {
    YyParse(WriteThenScan(y, f, ms).toks)
  }

  lemma ScanOfWritten(y: Style, f: Files, ms: seq<Tree>)
    requires Printable(VGroup(ms))
    ensures WriteThenScan(y, f, ms) == Scanned(MembersTokens(y, ms), M.INITIAL, "", [])
  {
    FlexIsFlex();
    ScanIsScan(FLEX, f, 0);
    ScanConfigText(FLEX, ScanAt(FLEX, f, 0), y, ms, true);
  }

  /**
   Parse undoes print, for every style, every set of files and every tree without floats and
   untyped settings.
   */
  lemma WrittenConfigurationReadsBack(y: Style, f: Files, ms: seq<Tree>)
    requires Printable(VGroup(ms))
    ensures var o := WriteThenRead(y, f, ms);
            && (o.Accepted? <==> NoReserved(VGroup(ms)) && 1 + NeedMembers(ms) < 10000)
            && (o.Accepted? ==> Sane(o.sem) && Abs(o.sem.st, ROOT) == Tree(None, Norm(y, VGroup(ms))))
  {
    ScanOfWritten(y, f, ms);
    if NoReserved(VGroup(ms)) {
      PlainNamesReadBack(y, ms);
    } else {
      var w := MembersTokens(y, ms);
      MembersMisnamed(y, ms);
      MisnamedIsNoSentence(w);
      YyParseMeaning(w);
    }
  }

  lemma PlainNamesReadBack(y: Style, ms: seq<Tree>)
    requires Printable(VGroup(ms)) && NoReserved(VGroup(ms))
    ensures var o := YyParse(MembersTokens(y, ms));
            && (o.Accepted? <==> 1 + NeedMembers(ms) < YYMAXDEPTH)
            && (o.Accepted? ==> Sane(o.sem) && Abs(o.sem.st, ROOT) == Tree(None, Norm(y, VGroup(ms))))
  {
    var w, t := MembersTokens(y, ms), ConfigurationTree(y, ms);
    ConfigurationDerives(y, ms);
    ConfigurationYield(y, ms);
    ConfigurationMeaning(y, ms);
    ConfigurationPeak(y, ms);
    NormIsLegal(y, VGroup(ms));
    YyParseMeaning(w);
    if YyParse(w).Accepted? {
      LrTables.LibconfigSuits();
      Unambiguous(LrTables.LIBCONFIG, w, t, YyParse(w).tree);
    } else {
      assert !Accepts(w, t);
    }
  }

  // ----- when nothing is lost

  /** The text tells everything about this value. */
  predicate Faithful(y: Style, v: Value) {
    match v
    case VNone => true
    case VScalar(data, format) => NormScalar(data) == data && NormFormat(y, data, format) == format
    case VGroup(ms) => forall m | m in ms :: Faithful(y, m.value)
    case VArray(es) => forall e | e in es :: Faithful(y, e.value)
    case VList(es) => forall e | e in es :: Faithful(y, e.value)
  }

  lemma {:induction false} FaithfulIffUnchanged(y: Style, v: Value)
    ensures Faithful(y, v) <==> Norm(y, v) == v
    decreases v
  {
    match v
    case VGroup(ms) => FaithfulAll(y, ms);
    case VArray(es) => FaithfulAll(y, es);
    case VList(es) => FaithfulAll(y, es);
    case _ =>
  }

  lemma {:induction false} FaithfulAll(y: Style, ts: seq<Tree>)
    ensures (forall t | t in ts :: Faithful(y, t.value)) <==> NormAll(y, ts) == ts
    decreases ts
  {
    forall i | 0 <= i < |ts| ensures Faithful(y, ts[i].value) <==> NormTree(y, ts[i]) == ts[i] {
      FaithfulTree(y, ts[i]);
    }
    if NormAll(y, ts) == ts {
      assert forall i :: 0 <= i < |ts| ==> NormTree(y, ts[i]) == NormAll(y, ts)[i] == ts[i];
    }
  }

  lemma {:induction false} FaithfulTree(y: Style, t: Tree)
    ensures Faithful(y, t.value) <==> NormTree(y, t) == t
    decreases t
  {
    FaithfulIffUnchanged(y, t.value);
  }

  /** With the default format decimal, a truth value is lost only outside 0 and 1. */
  lemma DefaultStyleIsFaithful(y: Style, data: Scalar, format: int)
    requires y.defaultFormat == FORMAT_DEFAULT
    ensures Faithful(y, VScalar(data, format)) <==>
            match data
            case SBool(b) => b in {0, 1} && format == FORMAT_DEFAULT
            case SInt(_) => format in {FORMAT_DEFAULT, FORMAT_HEX}
            case SInt64(_) => format in {FORMAT_DEFAULT, FORMAT_HEX}
            case SFloat(_) => format == FORMAT_DEFAULT
            case SString(s) => s.Some? && format == FORMAT_DEFAULT
  {
  }

  /** A tree nested at most 1666 deep, without reserved names, is read back whole. */
  lemma ShallowTreesReadBack(y: Style, f: Files, ms: seq<Tree>)
    requires Printable(VGroup(ms)) && NoReserved(VGroup(ms)) && Faithful(y, VGroup(ms))
    requires StackHeight.Depth(VGroup(ms)) <= 1666
    ensures var o := WriteThenRead(y, f, ms);
            o.Accepted? && Sane(o.sem) && Abs(o.sem.st, ROOT) == Tree(None, VGroup(ms))
  {
    WrittenConfigurationReadsBack(y, f, ms);
    FaithfulIffUnchanged(y, VGroup(ms));
    ConfigurationMeaning(y, ms);
    ConfigurationPeak(y, ms);
    StackHeight.ConfigurationPeak(ConfigurationTree(y, ms));
  }

  /** Groups inside groups, each behind another member: `n` levels below the outer one. */
  function Comb(n: nat): seq<Tree> {
    var zero := VScalar(SInt(0), FORMAT_DEFAULT);
    [Tree(Some("a"), zero), Tree(Some("b"), if n == 0 then zero else VGroup(Comb(n - 1)))]
  }

  lemma {:induction false} CombIsPlain(n: nat)
    ensures Printable(VGroup(Comb(n))) && NoReserved(VGroup(Comb(n)))
  {
    var ms := Comb(n);
    assert ValidName("a") && ValidName("b");
    if n > 0 {
      CombIsPlain(n - 1);
    }
    forall m | m in ms
      ensures m.name.Some? && !Reserved(m.name.value) && Printable(m.value) && NoReserved(m.value)
    {
      assert m == ms[0] || m == ms[1];
    }
  }

  lemma {:induction false} CombHeight(n: nat)
    ensures NeedMembers(Comb(n)) == 6 * (n + 1) && StackHeight.Depth(VGroup(Comb(n))) == n + 1
  {
    var ms := Comb(n);
    if n > 0 {
      CombHeight(n - 1);
    }
    var v := ms[1].value;
    assert Need(v) == (if n == 0 then 1 else 2 + 6 * n) && StackHeight.Depth(v) == n;
    assert ms[..1] == [ms[0]] && ms[1..] == [ms[1]];
    assert NeedMembers(ms[..1]) == NeedMember(ms[0]) == 5 && NeedMember(ms[1]) == (if n == 0 then 5 else 5 + 6 * n);
    assert ms[1..][1..] == [] && StackHeight.MaxDepth(ms[1..][1..]) == 0;
    assert StackHeight.MaxDepth(ms[1..]) == n;
    assert StackHeight.MaxDepth(ms) == n;
  }

  /** The bound of 1666 cannot be raised: one more level, and a written tree is not read back. */
  lemma DeeperTreesAreLost(y: Style, f: Files, n: nat)
    ensures Printable(VGroup(Comb(n))) && NoReserved(VGroup(Comb(n))) && StackHeight.Depth(VGroup(Comb(n))) == n + 1
    ensures WriteThenRead(y, f, Comb(n)).Accepted? <==> n + 1 <= 1666
  {
    CombIsPlain(n);
    CombHeight(n);
    WrittenConfigurationReadsBack(y, f, Comb(n));
  }

  /** A member named `True` is written as a truth value, and cannot be read back. */
  lemma ReservedNameIsLost(y: Style, f: Files)
    ensures var ms := [Tree(Some("True"), VScalar(SInt(1), FORMAT_DEFAULT))];
            Printable(VGroup(ms)) && !WriteThenRead(y, f, ms).Accepted?
  {
    var m := Tree(Some("True"), VScalar(SInt(1), FORMAT_DEFAULT));
    assert m in [m] && IsWord("True", "true");
    WrittenConfigurationReadsBack(y, f, [m]);
  }
}
