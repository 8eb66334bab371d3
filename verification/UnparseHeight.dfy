/**
 How much of the parser's stack the derivation of a written tree needs.
 */
module UnparseHeight {
  import opened Options
  import opened Tokens
  import opened Grammar
  import opened LrComplete
  import opened Settings
  import opened Trees
  import opened WriterSpec
  import opened TreeTokens
  import opened Unparse

  function Max(a: nat, b: nat): nat {
    if a >= b then a else b
  }

  function Need(v: Value): nat
    decreases v, 1
  {
    match v
    case VArray(es) => if |es| <= 1 then 4 else 5
    case VList(es) => Max(4, 2 + NeedElems(es))
    case VGroup(ms) => Max(4, 2 + NeedMembers(ms))
    case _ => 1
  }

  /** All elements but the first sit above the list so far and a comma. */
  function NeedElems(es: seq<Tree>): nat
    decreases es, 0
  {
    if es == [] then 1
    else if |es| == 1 then NeedElem(es[0])
    else Max(NeedElems(es[..|es| - 1]), 2 + NeedElem(es[|es| - 1]))
  }

  function NeedElem(e: Tree): nat
    decreases e, 0
  {
    Need(e.value)
  }

  function NeedMember(e: Tree): nat
    decreases e, 0
  {
    Max(5, 3 + Need(e.value))
  }

  function NeedMembers(ms: seq<Tree>): nat
    decreases ms, 0
  {
    if ms == [] then 1
    else if |ms| == 1 then NeedMember(ms[0])
    else Max(NeedMembers(ms[..|ms| - 1]), 1 + NeedMember(ms[|ms| - 1]))
  }

  lemma PeakOfOne(a: PTree)
    ensures PeakKids([a]) == Peak(a)
  {
    assert [a][1..] == [];
  }

  lemma PeakOfTwo(a: PTree, b: PTree)
    ensures PeakKids([a, b]) == Max(Peak(a), 1 + Peak(b))
  {
    assert [a, b][1..] == [b];
    PeakOfOne(b);
  }

  lemma PeakOfThree(a: PTree, b: PTree, c: PTree)
    ensures PeakKids([a, b, c]) == Max(Peak(a), Max(1 + Peak(b), 2 + Peak(c)))
  {
    assert [a, b, c][1..] == [b, c];
    PeakOfTwo(b, c);
  }

  lemma PeakOfFour(a: PTree, b: PTree, c: PTree, d: PTree)
    ensures PeakKids([a, b, c, d]) == Max(Peak(a), Max(1 + Peak(b), Max(2 + Peak(c), 3 + Peak(d))))
  {
    assert [a, b, c, d][1..] == [b, c, d];
    PeakOfThree(b, c, d);
  }


  lemma SimplePeak(y: Style, v: Value)
    ensures Peak(SimpleTree(y, v)) == 1
  {
    if v.VScalar? {
      var tok := ScalarToken(y, v.data, v.format);
      PeakOfOne(Leaf(tok));
      PeakOfOne(Node(21, [Leaf(tok)]));
    }
  }

  lemma {:induction false} SimplesPeak(y: Style, es: seq<Tree>)
    requires es != []
    ensures Peak(SimplesTree(y, es)) == if |es| == 1 then 1 else 3
  {
    var n := |es| - 1;
    SimplePeak(y, es[n].value);
    if n == 0 {
      PeakOfOne(SimpleTree(y, es[0].value));
    } else {
      SimplesPeak(y, es[..n]);
      PeakOfThree(SimplesTree(y, es[..n]), Leaf(TokComma), SimpleTree(y, es[n].value));
    }
  }

  lemma BracketPeak(n: int, mark: int, open: Token, body: PTree, close: Token)
    ensures Peak(Node(n, [Leaf(open), Node(mark, []), body, Leaf(close)])) == Max(4, 2 + Peak(body))
  {
    PeakOfFour(Leaf(open), Node(mark, []), body, Leaf(close));
  }

  lemma ArrayPeak(y: Style, es: seq<Tree>)
    ensures Peak(ArrayTree(y, es)) == Need(VArray(es))
  {
    if es != [] {
      SimplesPeak(y, es);
      PeakOfOne(SimplesTree(y, es));
    }
    BracketPeak(14, 13, TokArrayStart, ArrayTree(y, es).kids[2], TokArrayEnd);
  }

  lemma {:induction false} ListPeak(y: Style, es: seq<Tree>)
    ensures Peak(ListTree(y, es)) == Need(VList(es))
    decreases es, 4
  {
    if es != [] {
      ValuesPeak(y, es);
      PeakOfOne(ValuesTree(y, es));
    }
    BracketPeak(16, 15, TokListStart, ListTree(y, es).kids[2], TokListEnd);
  }

  lemma {:induction false} GroupPeak(y: Style, ms: seq<Tree>)
    ensures Peak(GroupTree(y, ms)) == Need(VGroup(ms))
    decreases ms, 4
  {
    if ms != [] {
      SettingsPeak(y, ms);
      PeakOfOne(SettingsTree(y, ms));
    }
    BracketPeak(39, 38, TokGroupStart, GroupTree(y, ms).kids[2], TokGroupEnd);
  }

  lemma {:induction false} ValuePeak(y: Style, v: Value)
    ensures Peak(ValueTree(y, v)) == Need(v)
    decreases v, 2
  {
    PeakOfOne(ValueTree(y, v).kids[0]);
    match v
    case VArray(es) => ArrayPeak(y, es);
    case VList(es) => ListPeak(y, es);
    case VGroup(ms) => GroupPeak(y, ms);
    case _ => SimplePeak(y, v);
  }

  lemma {:induction false} ElemPeak(y: Style, e: Tree)
    ensures Peak(ElemTree(y, e)) == NeedElem(e)
    decreases e, 2
  {
    ValuePeak(y, e.value);
  }

  lemma {:induction false} ValuesPeak(y: Style, es: seq<Tree>)
    requires es != []
    ensures Peak(ValuesTree(y, es)) == NeedElems(es)
    decreases es, 3
  {
    var n := |es| - 1;
    ElemPeak(y, es[n]);
    if n == 0 {
      PeakOfOne(ElemTree(y, es[0]));
    } else {
      ValuesPeak(y, es[..n]);
      PeakOfThree(ValuesTree(y, es[..n]), Leaf(TokComma), ElemTree(y, es[n]));
    }
  }

  lemma {:induction false} SettingPeak(y: Style, m: Tree)
    ensures Peak(SettingTree(y, m)) == NeedMember(m)
    decreases m, 3
  {
    var name := match m.name case None => [] case Some(s) => s;
    ValuePeak(y, m.value);
    TerminatorPeak(y);
    NamedPeak(name, ValueTree(y, m.value), TerminatorTree(y));
  }

  lemma TerminatorPeak(y: Style)
    ensures Peak(TerminatorTree(y)) == 1
  {
    PeakOfOne(Leaf(TokSemicolon));
  }

  lemma NamedPeak(name: string, v: PTree, end: PTree)
    requires Peak(end) == 1
    ensures Peak(Node(12, [Leaf(TokName(name)), Node(11, []), Leaf(TokEquals), v, end])) == Max(5, 3 + Peak(v))
  {
    var a, b, c := Leaf(TokName(name)), Node(11, []), Leaf(TokEquals);
    var kids := [a, b, c, v, end];
    PeakOfFour(b, c, v, end);
    assert kids[0] == a && kids[1..] == [b, c, v, end];
    assert PeakKids(kids) == Max(Peak(a), 1 + PeakKids(kids[1..]));
  }

  lemma {:induction false} SettingsPeak(y: Style, ms: seq<Tree>)
    requires ms != []
    ensures Peak(SettingsTree(y, ms)) == NeedMembers(ms)
    decreases ms, 3
  {
    var n := |ms| - 1;
    SettingPeak(y, ms[n]);
    if n == 0 {
      PeakOfOne(SettingTree(y, ms[0]));
    } else {
      SettingsPeak(y, ms[..n]);
      PeakOfTwo(SettingsTree(y, ms[..n]), SettingTree(y, ms[n]));
    }
  }

  lemma ConfigurationPeak(y: Style, ms: seq<Tree>)
    ensures Peak(ConfigurationTree(y, ms)) == NeedMembers(ms)
  {
    if ms != [] {
      SettingsPeak(y, ms);
      PeakOfOne(SettingsTree(y, ms));
    }
  }
}
