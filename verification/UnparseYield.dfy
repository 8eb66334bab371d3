/**
 The derivation of a written tree yields the tokens that its text is scanned to.
 */
module UnparseYield {
  import opened Options
  import opened Tokens
  import opened Grammar
  import opened Settings
  import opened Lexemes
  import opened Trees
  import opened WriterSpec
  import opened Rescan
  import opened TreeTokens
  import opened Unparse

  /** No member at any depth is named `true` or `false`, in any case. */
  predicate NoReserved(v: Value) {
    match v
    case VGroup(ms) => forall m | m in ms :: m.name.Some? && !Reserved(m.name.value) && NoReserved(m.value)
    case VArray(es) => true
    case VList(es) => forall e | e in es :: NoReserved(e.value)
    case _ => true
  }

  lemma YieldsOne(a: PTree)
    ensures Yields([a]) == Yield(a)
  {
    assert [a][1..] == [];
  }

  lemma YieldsTwo(a: PTree, b: PTree)
    ensures Yields([a, b]) == Yield(a) + Yield(b)
  {
    assert [a, b][1..] == [b];
    YieldsOne(b);
  }

  lemma YieldsThree(a: PTree, b: PTree, c: PTree)
    ensures Yields([a, b, c]) == Yield(a) + Yield(b) + Yield(c)
  {
    assert [a, b, c][1..] == [b, c];
    YieldsTwo(b, c);
  }

  lemma YieldsFour(a: PTree, b: PTree, c: PTree, d: PTree)
    ensures Yields([a, b, c, d]) == Yield(a) + Yield(b) + Yield(c) + Yield(d)
  {
    assert [a, b, c, d][1..] == [b, c, d];
    YieldsThree(b, c, d);
  }

  // ----- tokens of a list seen from its end

  lemma {:induction false} ElemsTokensFromEnd(y: Style, es: seq<Tree>)
    requires |es| > 1
    ensures ElemsTokens(y, es) ==
            ElemsTokens(y, es[..|es| - 1]) + [TokComma] + ElemTokens(y, es[|es| - 1])
  {
    var n := |es| - 1;
    if n == 1 {
      assert es[1..] == [es[1]] && es[..1] == [es[0]];
      assert es[1..][1..] == [] && es[..1][1..] == [];
    } else {
      ElemsTokensFromEnd(y, es[1..]);
      assert es[1..][..n - 1] == es[..n][1..];
    }
  }

  lemma {:induction false} MembersTokensFromEnd(y: Style, ms: seq<Tree>)
    requires ms != []
    ensures MembersTokens(y, ms) == MembersTokens(y, ms[..|ms| - 1]) + MemberTokens(y, ms[|ms| - 1])
  {
    var n := |ms| - 1;
    if n == 0 {
      assert ms[..0] == [] && ms[1..] == [];
    } else {
      MembersTokensFromEnd(y, ms[1..]);
      assert ms[1..][..n - 1] == ms[..n][1..];
    }
  }

  // ----- the yields

  lemma SimpleYield(y: Style, v: Value)
    requires v.VScalar?
    ensures Yield(SimpleTree(y, v)) == ValueTokens(y, v)
  {
    var tok := ScalarToken(y, v.data, v.format);
    YieldsOne(Leaf(tok));
    YieldsOne(Node(21, [Leaf(tok)]));
  }

  lemma {:induction false} SimplesYield(y: Style, es: seq<Tree>)
    requires es != [] && forall e | e in es :: e.value.VScalar?
    ensures Yield(SimplesTree(y, es)) == ElemsTokens(y, es)
  {
    var n := |es| - 1;
    SimpleYield(y, es[n].value);
    if n == 0 {
      YieldsOne(SimpleTree(y, es[0].value));
      assert es[1..] == [];
    } else {
      SimplesYield(y, es[..n]);
      YieldsThree(SimplesTree(y, es[..n]), Leaf(TokComma), SimpleTree(y, es[n].value));
      ElemsTokensFromEnd(y, es);
    }
  }

  lemma BracketYield(n: int, mark: int, open: Token, body: PTree, close: Token)
    ensures Yield(Node(n, [Leaf(open), Node(mark, []), body, Leaf(close)])) == [open] + Yield(body) + [close]
  {
    YieldsFour(Leaf(open), Node(mark, []), body, Leaf(close));
    assert Yield(Node(mark, [])) == [];
  }

  lemma ArrayYield(y: Style, es: seq<Tree>)
    requires forall e | e in es :: e.value.VScalar?
    ensures Yield(ArrayTree(y, es)) == ValueTokens(y, VArray(es))
  {
    if es != [] {
      SimplesYield(y, es);
      YieldsOne(SimplesTree(y, es));
    }
    BracketYield(14, 13, TokArrayStart, ArrayTree(y, es).kids[2], TokArrayEnd);
  }

  lemma {:induction false} ListYield(y: Style, es: seq<Tree>)
    requires forall e | e in es :: Printable(e.value) && NoReserved(e.value)
    ensures Yield(ListTree(y, es)) == ValueTokens(y, VList(es))
    decreases es, 4
  {
    if es != [] {
      ValuesYield(y, es);
      YieldsOne(ValuesTree(y, es));
    }
    BracketYield(16, 15, TokListStart, ListTree(y, es).kids[2], TokListEnd);
  }

  ghost predicate PlainMember(m: Tree) {
    m.name.Some? && !Reserved(m.name.value) && Printable(m.value) && NoReserved(m.value)
  }

  lemma {:induction false} GroupYield(y: Style, ms: seq<Tree>)
    requires forall m | m in ms :: PlainMember(m)
    ensures Yield(GroupTree(y, ms)) == ValueTokens(y, VGroup(ms))
    decreases ms, 4
  {
    if ms != [] {
      SettingsYield(y, ms);
      YieldsOne(SettingsTree(y, ms));
    }
    BracketYield(39, 38, TokGroupStart, GroupTree(y, ms).kids[2], TokGroupEnd);
  }

  lemma {:induction false} ValueYield(y: Style, v: Value)
    requires Printable(v) && NoReserved(v)
    ensures Yield(ValueTree(y, v)) == ValueTokens(y, v)
    decreases v, 2
  {
    YieldsOne(ValueTree(y, v).kids[0]);
    match v
    case VScalar(_, _) => SimpleYield(y, v);
    case VArray(es) => ArrayYield(y, es);
    case VList(es) => ListYield(y, es);
    case VGroup(ms) => GroupYield(y, ms);
  }

  lemma {:induction false} ElemYield(y: Style, e: Tree)
    requires Printable(e.value) && NoReserved(e.value)
    ensures Yield(ElemTree(y, e)) == ElemTokens(y, e)
    decreases e, 2
  {
    ValueYield(y, e.value);
  }

  lemma {:induction false} ValuesYield(y: Style, es: seq<Tree>)
    requires es != [] && forall e | e in es :: Printable(e.value) && NoReserved(e.value)
    ensures Yield(ValuesTree(y, es)) == ElemsTokens(y, es)
    decreases es, 3
  {
    var n := |es| - 1;
    ElemYield(y, es[n]);
    if n == 0 {
      YieldsOne(ElemTree(y, es[0]));
      assert es[1..] == [];
    } else {
      ValuesYield(y, es[..n]);
      YieldsThree(ValuesTree(y, es[..n]), Leaf(TokComma), ElemTree(y, es[n]));
      ElemsTokensFromEnd(y, es);
    }
  }

  lemma {:induction false} SettingYield(y: Style, m: Tree)
    requires PlainMember(m)
    ensures Yield(SettingTree(y, m)) == MemberTokens(y, m)
    decreases m, 3
  {
    ValueYield(y, m.value);
    NamedYield(m.name.value, ValueTree(y, m.value), TerminatorTree(y));
    TerminatorYield(y);
  }

  lemma TerminatorYield(y: Style)
    ensures Yield(TerminatorTree(y)) == if y.semicolons then [TokSemicolon] else []
  {
    YieldsOne(Leaf(TokSemicolon));
  }

  lemma NamedYield(name: string, v: PTree, end: PTree)
    ensures Yield(Node(12, [Leaf(TokName(name)), Node(11, []), Leaf(TokEquals), v, end])) ==
            [TokName(name), TokEquals] + Yield(v) + Yield(end)
  {
    var a, b, c := Leaf(TokName(name)), Node(11, []), Leaf(TokEquals);
    var kids := [a, b, c, v, end];
    YieldsFour(b, c, v, end);
    assert kids[0] == a && kids[1..] == [b, c, v, end];
    assert Yields(kids) == Yield(a) + Yields(kids[1..]);
    assert Yield(b) == [] && Yield(a) == [TokName(name)] && Yield(c) == [TokEquals];
  }

  lemma {:induction false} SettingsYield(y: Style, ms: seq<Tree>)
    requires ms != [] && forall m | m in ms :: PlainMember(m)
    ensures Yield(SettingsTree(y, ms)) == MembersTokens(y, ms)
    decreases ms, 3
  {
    var n := |ms| - 1;
    SettingYield(y, ms[n]);
    MembersTokensFromEnd(y, ms);
    if n == 0 {
      YieldsOne(SettingTree(y, ms[0]));
      assert MembersTokens(y, ms[..0]) == [];
    } else {
      SettingsYield(y, ms[..n]);
      YieldsTwo(SettingsTree(y, ms[..n]), SettingTree(y, ms[n]));
    }
  }

  lemma ConfigurationYield(y: Style, ms: seq<Tree>)
    requires Printable(VGroup(ms)) && NoReserved(VGroup(ms))
    ensures Yield(ConfigurationTree(y, ms)) == MembersTokens(y, ms)
  {
    if ms != [] {
      SettingsYield(y, ms);
      YieldsOne(SettingsTree(y, ms));
    }
  }
}
