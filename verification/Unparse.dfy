/**
 The derivation of a written tree: which rules of the grammar produce its tokens.
 */
module Unparse {
  import opened Options
  import opened Tokens
  import opened Grammar
  import opened Settings
  import opened Trees
  import opened WriterSpec
  import opened Meaning
  import opened TreeTokens

  function RuleOf(tok: Token): int {
    match tok
    case TokBoolean(_) => 23
    case TokInteger(_) => 24
    case TokInteger64(_) => 25
    case TokHex(_) => 26
    case TokHex64(_) => 27
    case _ => 28
  }

  function SimpleTree(y: Style, v: Value): PTree {
    if !v.VScalar? then Node(28, []) else
    var tok := ScalarToken(y, v.data, v.format);
    if tok.TokString? then Node(29, [Node(21, [Leaf(tok)])]) else Node(RuleOf(tok), [Leaf(tok)])
  }

  function SimplesTree(y: Style, es: seq<Tree>): PTree
    requires es != []
  {
    var n := |es| - 1;
    if n == 0 then Node(34, [SimpleTree(y, es[0].value)])
    else Node(35, [SimplesTree(y, es[..n]), Leaf(TokComma), SimpleTree(y, es[n].value)])
  }

  function OptionalSimples(y: Style, es: seq<Tree>): PTree {
    if es == [] then Node(36, []) else Node(37, [SimplesTree(y, es)])
  }

  function ArrayTree(y: Style, es: seq<Tree>): PTree {
    Node(14, [Leaf(TokArrayStart), Node(13, []), OptionalSimples(y, es), Leaf(TokArrayEnd)])
  }

  function ListTree(y: Style, es: seq<Tree>): PTree
    decreases es, 4
  {
    Node(16, [Leaf(TokListStart), Node(15, []),
              if es == [] then Node(32, []) else Node(33, [ValuesTree(y, es)]),
              Leaf(TokListEnd)])
  }

  function GroupTree(y: Style, ms: seq<Tree>): PTree
    decreases ms, 4
  {
    Node(39, [Leaf(TokGroupStart), Node(38, []),
              if ms == [] then Node(6, []) else Node(7, [SettingsTree(y, ms)]),
              Leaf(TokGroupEnd)])
  }

  function ValueTree(y: Style, v: Value): PTree
    decreases v, 2
  {
    match v
    case VArray(es) => Node(18, [ArrayTree(y, es)])
    case VList(es) => Node(19, [ListTree(y, es)])
    case VGroup(ms) => Node(20, [GroupTree(y, ms)])
    case _ => Node(17, [SimpleTree(y, v)])
  }

  function ElemTree(y: Style, e: Tree): PTree
    decreases e, 2
  {
    ValueTree(y, e.value)
  }

  function ValuesTree(y: Style, es: seq<Tree>): PTree
    requires es != []
    decreases es, 3
  {
    var n := |es| - 1;
    if n == 0 then Node(30, [ElemTree(y, es[0])])
    else Node(31, [ValuesTree(y, es[..n]), Leaf(TokComma), ElemTree(y, es[n])])
  }

  function TerminatorTree(y: Style): PTree {
    if y.semicolons then Node(9, [Leaf(TokSemicolon)]) else Node(8, [])
  }

  function SettingTree(y: Style, m: Tree): PTree
    decreases m, 3
  {
    var name := match m.name case None => [] case Some(s) => s;
    Node(12, [Leaf(TokName(name)), Node(11, []), Leaf(TokEquals), ValueTree(y, m.value), TerminatorTree(y)])
  }

  function SettingsTree(y: Style, ms: seq<Tree>): PTree
    requires ms != []
    decreases ms, 3
  {
    var n := |ms| - 1;
    if n == 0 then Node(4, [SettingTree(y, ms[0])])
    else Node(5, [SettingsTree(y, ms[..n]), SettingTree(y, ms[n])])
  }

  function ConfigurationTree(y: Style, ms: seq<Tree>): PTree {
    if ms == [] then Node(2, []) else Node(3, [SettingsTree(y, ms)])
  }

  // ----- the trees are derivations

  /** `d(t, x)`: the tree `t` derives from the symbol `x`; a parameter of the proofs below. */
  type Deriving = (PTree, Symbol) -> bool

  ghost predicate Builds(d: Deriving, n: int, kids: seq<PTree>) {
    2 <= n <= 39 && |kids| == |Rhs(n)| && (forall i :: 0 <= i < |kids| ==> d(kids[i], Rhs(n)[i])) ==>
      d(Node(n, kids), Lhs(n))
  }

  ghost predicate IsDeriving(d: Deriving) {
    && (forall tok {:trigger d(Leaf(tok), Kind(tok))} :: d(Leaf(tok), Kind(tok)))
    && (forall n, kids {:trigger Builds(d, n, kids)} :: Builds(d, n, kids))
  }

  ghost const DERIVING: Deriving := (t: PTree, x: Symbol) => Derivation(t) && Root(t) == x

  lemma DerivingIsDeriving()
    ensures IsDeriving(DERIVING)
  {
    forall n, kids
      ensures Builds(DERIVING, n, kids)
    {
      if 2 <= n <= 39 && |kids| == |Rhs(n)| && forall i :: 0 <= i < |kids| ==> DERIVING(kids[i], Rhs(n)[i]) {
        assert Roots(kids) == Rhs(n);
      }
    }
  }

  lemma LeafDerives(d: Deriving, tok: Token)
    requires IsDeriving(d)
    ensures d(Leaf(tok), Kind(tok))
  {
  }

  lemma EmptyDerives(d: Deriving, n: int)
    requires IsDeriving(d) && 2 <= n <= 39 && Rhs(n) == []
    ensures d(Node(n, []), Lhs(n))
  {
    assert Builds(d, n, []);
  }

  lemma UnitDerives(d: Deriving, n: int, k: PTree, x: Symbol)
    requires IsDeriving(d) && 2 <= n <= 39 && Rhs(n) == [x] && d(k, x)
    ensures d(Node(n, [k]), Lhs(n))
  {
    assert Builds(d, n, [k]);
  }

  lemma ThreeDerive(d: Deriving, n: int, prev: PTree, e: PTree, x: Symbol, z: Symbol)
    requires IsDeriving(d) && 2 <= n <= 39 && Rhs(n) == [x, 17, z] && d(prev, x) && d(e, z)
    ensures d(Node(n, [prev, Leaf(TokComma), e]), Lhs(n))
  {
    LeafDerives(d, TokComma);
    assert Builds(d, n, [prev, Leaf(TokComma), e]);
  }

  lemma BracketDerives(d: Deriving, n: int, mark: int, open: Token, body: PTree, close: Token, x: Symbol, z: Symbol)
    requires IsDeriving(d) && 2 <= mark <= 39 && Rhs(mark) == [] && Lhs(mark) == x
    requires 2 <= n <= 39 && Rhs(n) == [Kind(open), x, z, Kind(close)] && d(body, z)
    ensures d(Node(n, [Leaf(open), Node(mark, []), body, Leaf(close)]), Lhs(n))
  {
    LeafDerives(d, open);
    LeafDerives(d, close);
    EmptyDerives(d, mark);
    assert Builds(d, n, [Leaf(open), Node(mark, []), body, Leaf(close)]);
  }

  lemma NamedDerives(d: Deriving, name: string, v: PTree, end: PTree)
    requires IsDeriving(d) && d(v, 34) && d(end, 27)
    ensures d(Node(12, [Leaf(TokName(name)), Node(11, []), Leaf(TokEquals), v, end]), 28)
  {
    LeafDerives(d, TokName(name));
    LeafDerives(d, TokEquals);
    EmptyDerives(d, 11);
    assert Builds(d, 12, [Leaf(TokName(name)), Node(11, []), Leaf(TokEquals), v, end]);
  }

  lemma SimpleDerives(d: Deriving, y: Style, v: Value)
    requires IsDeriving(d) && v.VScalar? && PrintableScalar(v.data)
    ensures d(SimpleTree(y, v), 36)
  {
    var tok := ScalarToken(y, v.data, v.format);
    LeafDerives(d, tok);
    if tok.TokString? {
      UnitDerives(d, 21, Leaf(tok), 9);
      UnitDerives(d, 29, Node(21, [Leaf(tok)]), 35);
    } else {
      UnitDerives(d, RuleOf(tok), Leaf(tok), Kind(tok));
    }
  }

  lemma {:induction false} SimplesDerive(d: Deriving, y: Style, es: seq<Tree>)
    requires IsDeriving(d) && es != [] && forall e | e in es :: e.value.VScalar? && Printable(e.value)
    ensures d(SimplesTree(y, es), 39)
  {
    var n := |es| - 1;
    SimpleDerives(d, y, es[n].value);
    if n == 0 {
      UnitDerives(d, 34, SimpleTree(y, es[0].value), 36);
    } else {
      SimplesDerive(d, y, es[..n]);
      ThreeDerive(d, 35, SimplesTree(y, es[..n]), SimpleTree(y, es[n].value), 39, 36);
    }
  }

  lemma ArrayDerives(d: Deriving, y: Style, es: seq<Tree>)
    requires IsDeriving(d) && Printable(VArray(es))
    ensures d(ArrayTree(y, es), 30)
  {
    var body := OptionalSimples(y, es);
    ArrayBodyDerives(d, y, es);
    BracketDerives(d, 14, 13, TokArrayStart, body, TokArrayEnd, 31, 40);
  }

  lemma ArrayBodyDerives(d: Deriving, y: Style, es: seq<Tree>)
    requires IsDeriving(d) && Printable(VArray(es))
    ensures d(OptionalSimples(y, es), 40)
  {
    EmptyDerives(d, 36);
    if es != [] {
      SimplesDerive(d, y, es);
      UnitDerives(d, 37, SimplesTree(y, es), 39);
    }
  }

  lemma {:induction false} ListDerives(d: Deriving, y: Style, es: seq<Tree>)
    requires IsDeriving(d) && forall e | e in es :: Printable(e.value)
    ensures d(ListTree(y, es), 32)
    decreases es, 4
  {
    EmptyDerives(d, 32);
    if es != [] {
      ValuesDerive(d, y, es);
      UnitDerives(d, 33, ValuesTree(y, es), 37);
    }
    BracketDerives(d, 16, 15, TokListStart, ListTree(y, es).kids[2], TokListEnd, 33, 38);
  }

  lemma {:induction false} GroupDerives(d: Deriving, y: Style, ms: seq<Tree>)
    requires IsDeriving(d) && forall m | m in ms :: Printable(m.value)
    ensures d(GroupTree(y, ms), 41)
    decreases ms, 4
  {
    EmptyDerives(d, 6);
    if ms != [] {
      SettingsDerive(d, y, ms);
      UnitDerives(d, 7, SettingsTree(y, ms), 25);
    }
    BracketDerives(d, 39, 38, TokGroupStart, GroupTree(y, ms).kids[2], TokGroupEnd, 42, 26);
  }

  lemma {:induction false} ValueDerives(d: Deriving, y: Style, v: Value)
    requires IsDeriving(d) && Printable(v)
    ensures d(ValueTree(y, v), 34)
    decreases v, 2
  {
    match v
    case VScalar(_, _) =>
      SimpleDerives(d, y, v);
      UnitDerives(d, 17, SimpleTree(y, v), 36);
    case VArray(es) =>
      ArrayDerives(d, y, es);
      UnitDerives(d, 18, ArrayTree(y, es), 30);
    case VList(es) =>
      ListDerives(d, y, es);
      UnitDerives(d, 19, ListTree(y, es), 32);
    case VGroup(ms) =>
      GroupDerives(d, y, ms);
      UnitDerives(d, 20, GroupTree(y, ms), 41);
  }

  lemma {:induction false} ElemDerives(d: Deriving, y: Style, e: Tree)
    requires IsDeriving(d) && Printable(e.value)
    ensures d(ElemTree(y, e), 34)
    decreases e, 2
  {
    ValueDerives(d, y, e.value);
  }

  lemma {:induction false} ValuesDerive(d: Deriving, y: Style, es: seq<Tree>)
    requires IsDeriving(d) && es != [] && forall e | e in es :: Printable(e.value)
    ensures d(ValuesTree(y, es), 37)
    decreases es, 3
  {
    var n := |es| - 1;
    ElemDerives(d, y, es[n]);
    if n == 0 {
      UnitDerives(d, 30, ElemTree(y, es[0]), 34);
    } else {
      ValuesDerive(d, y, es[..n]);
      ThreeDerive(d, 31, ValuesTree(y, es[..n]), ElemTree(y, es[n]), 37, 34);
    }
  }

  lemma TerminatorDerives(d: Deriving, y: Style)
    requires IsDeriving(d)
    ensures d(TerminatorTree(y), 27)
  {
    if y.semicolons {
      LeafDerives(d, TokSemicolon);
      UnitDerives(d, 9, Leaf(TokSemicolon), 20);
    } else {
      EmptyDerives(d, 8);
    }
  }

  lemma {:induction false} SettingDerives(d: Deriving, y: Style, m: Tree)
    requires IsDeriving(d) && Printable(m.value)
    ensures d(SettingTree(y, m), 28)
    decreases m, 3
  {
    ValueDerives(d, y, m.value);
    TerminatorDerives(d, y);
    NamedDerives(d, match m.name case None => [] case Some(s) => s, ValueTree(y, m.value), TerminatorTree(y));
  }

  lemma {:induction false} SettingsDerive(d: Deriving, y: Style, ms: seq<Tree>)
    requires IsDeriving(d) && ms != [] && forall m | m in ms :: Printable(m.value)
    ensures d(SettingsTree(y, ms), 25)
    decreases ms, 3
  {
    var n := |ms| - 1;
    SettingDerives(d, y, ms[n]);
    if n == 0 {
      UnitDerives(d, 4, SettingTree(y, ms[0]), 28);
    } else {
      SettingsDerive(d, y, ms[..n]);
      assert Builds(d, 5, [SettingsTree(y, ms[..n]), SettingTree(y, ms[n])]);
    }
  }

  lemma ConfigurationDerives(y: Style, ms: seq<Tree>)
    requires forall m | m in ms :: Printable(m.value)
    ensures Derivation(ConfigurationTree(y, ms)) && Root(ConfigurationTree(y, ms)) == CONFIGURATION
  {
    var d := DERIVING;
    DerivingIsDeriving();
    EmptyDerives(d, 2);
    if ms != [] {
      SettingsDerive(d, y, ms);
      UnitDerives(d, 3, SettingsTree(y, ms), 25);
    }
    assert d(ConfigurationTree(y, ms), CONFIGURATION);
  }
}
