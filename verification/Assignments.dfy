/**
 What the parser makes of one assignment: every kind of scalar, several strings side by side, and
 any way to end a setting.
 */
module Assignments {
  import opened Options
  import opened Tokens
  import opened Grammar
  import opened LrComplete
  import opened Settings
  import opened Trees
  import opened Actions
  import opened Meaning
  import opened ParseTheorem
  import opened Unparse
  import opened UnparseYield
  import S = StackHeight
  import opened UnparseHeight

  /** The value that the token of a number or truth value denotes, and its format. */
  function NumberValue(tok: Token): Option<Value> {
    match tok
    case TokBoolean(b) => Some(VScalar(SBool(b), 0))
    case TokInteger(i) => Some(VScalar(SInt(i), 0))
    case TokHex(i) => Some(VScalar(SInt(i), 1))
    case TokInteger64(l) => Some(VScalar(SInt64(l), 0))
    case TokHex64(l) => Some(VScalar(SInt64(l), 1))
    case TokFloat(f) => Some(VScalar(SFloat(f), 0))
    case _ => None
  }

  function Strings(ss: seq<string>): seq<Token> {
    if ss == [] then [] else [TokString(ss[0])] + Strings(ss[1..])
  }

  function Concat(ss: seq<string>): string {
    if ss == [] then "" else ss[0] + Concat(ss[1..])
  }

  // ----- strings side by side

  function StringTree(ss: seq<string>): PTree
    requires ss != []
  {
    var n := |ss| - 1;
    if n == 0 then Node(21, [Leaf(TokString(ss[0]))]) else Node(22, [StringTree(ss[..n]), Leaf(TokString(ss[n]))])
  }

  lemma {:induction false} FromEnd(ss: seq<string>)
    requires ss != []
    ensures var n := |ss| - 1;
            Strings(ss) == Strings(ss[..n]) + [TokString(ss[n])] && Concat(ss) == Concat(ss[..n]) + ss[n]
  {
    var n := |ss| - 1;
    if n > 0 {
      FromEnd(ss[1..]);
      assert ss[1..][..n - 1] == ss[..n][1..] && ss[1..][n - 1] == ss[n];
    } else {
      assert ss[..0] == [] && ss[1..] == [];
    }
  }

  lemma {:induction false} StringDerives(d: Deriving, ss: seq<string>)
    requires IsDeriving(d) && ss != []
    ensures d(StringTree(ss), 35)
    decreases |ss|
  {
    var n := |ss| - 1;
    LeafDerives(d, TokString(ss[n]));
    if n == 0 {
      UnitDerives(d, 21, Leaf(TokString(ss[0])), STRING);
    } else {
      StringDerives(d, ss[..n]);
      assert Builds(d, 22, [StringTree(ss[..n]), Leaf(TokString(ss[n]))]);
    }
  }

  /** Strings side by side are one string, in their order. */
  lemma {:induction false} StringsAreJoined(ss: seq<string>)
    requires ss != []
    ensures IsString(StringTree(ss)) && StringOf(StringTree(ss)) == Concat(ss) && Yield(StringTree(ss)) == Strings(ss)
    decreases |ss|
  {
    var n := |ss| - 1;
    FromEnd(ss);
    if n == 0 {
      YieldsOne(Leaf(TokString(ss[0])));
    } else {
      StringsAreJoined(ss[..n]);
      YieldsTwo(StringTree(ss[..n]), Leaf(TokString(ss[n])));
    }
  }

  // ----- one setting

  /** The tokens `w` after the sign denote the value `v`. */
  ghost predicate Denotes(w: seq<Token>, v: Value) {
    || (|w| == 1 && NumberValue(w[0]) == Some(v))
    || (v.VScalar? && v.format == 0 && v.data.SString? && v.data.sval.Some? && exists ss :: IsStrings(w, ss, v.data.sval.value))
  }

  predicate IsStrings(w: seq<Token>, ss: seq<string>, s: string) {
    ss != [] && w == Strings(ss) && s == Concat(ss)
  }

  /** `t` is a derivation of the scalar `v` from the tokens `w`. */
  ghost predicate DerivesScalar(d: Deriving, t: PTree, w: seq<Token>, v: Value) {
    d(t, 36) && IsSimple(t) && Yield(t) == w && SimpleOf(t) == v
  }

  lemma ScalarDerivation(d: Deriving, w: seq<Token>, v: Value) returns (t: PTree)
    requires IsDeriving(d) && Denotes(w, v)
    ensures DerivesScalar(d, t, w, v)
  {
    if |w| == 1 && NumberValue(w[0]) == Some(v) {
      t := Node(RuleOf(w[0]), [Leaf(w[0])]);
      LeafDerives(d, w[0]);
      UnitDerives(d, RuleOf(w[0]), Leaf(w[0]), Kind(w[0]));
      YieldsOne(Leaf(w[0]));
    } else {
      var ss :| IsStrings(w, ss, v.data.sval.value);
      t := Node(29, [StringTree(ss)]);
      StringDerives(d, ss);
      StringsAreJoined(ss);
      UnitDerives(d, 29, StringTree(ss), 35);
      YieldsOne(StringTree(ss));
    }
  }

  /** A setting ends with a semicolon, with a comma, or without either. */
  function EndTree(end: seq<Token>): PTree {
    if end == [TokSemicolon] then Node(9, [Leaf(TokSemicolon)])
    else if end == [TokComma] then Node(10, [Leaf(TokComma)])
    else Node(8, [])
  }

  lemma EndDerives(d: Deriving, end: seq<Token>)
    requires IsDeriving(d) && (end == [] || end == [TokSemicolon] || end == [TokComma])
    ensures d(EndTree(end), 27) && IsTerminator(EndTree(end)) && Yield(EndTree(end)) == end && Peak(EndTree(end)) == 1
  {
    if end == [] {
      EmptyDerives(d, 8);
    } else {
      LeafDerives(d, end[0]);
      UnitDerives(d, EndTree(end).rule, Leaf(end[0]), Kind(end[0]));
      YieldsOne(Leaf(end[0]));
      PeakOfOne(Leaf(end[0]));
    }
  }

  function OneSetting(name: string, value: PTree, end: PTree): PTree {
    Node(3, [Node(4, [Node(12, [Leaf(TokName(name)), Node(11, []), Leaf(TokEquals), value, end])])])
  }

  lemma OneSettingDerives(d: Deriving, name: string, simple: PTree, end: PTree)
    requires IsDeriving(d) && d(simple, 36) && d(end, 27)
    ensures d(OneSetting(name, Node(17, [simple]), end), CONFIGURATION)
  {
    var setting := Node(12, [Leaf(TokName(name)), Node(11, []), Leaf(TokEquals), Node(17, [simple]), end]);
    UnitDerives(d, 17, simple, 36);
    NamedDerives(d, name, Node(17, [simple]), end);
    UnitDerives(d, 4, setting, 28);
    UnitDerives(d, 3, Node(4, [setting]), 25);
  }

  lemma OneSettingYields(name: string, simple: PTree, end: PTree)
    ensures Yield(OneSetting(name, Node(17, [simple]), end)) == [TokName(name), TokEquals] + Yield(simple) + Yield(end)
  {
    var value := Node(17, [simple]);
    var kids := [Leaf(TokName(name)), Node(11, []), Leaf(TokEquals), value, end];
    YieldsOne(simple);
    assert Yield(value) == Yield(simple);
    YieldsFour(kids[1], kids[2], kids[3], kids[4]);
    assert kids[1..] == [kids[1], kids[2], kids[3], kids[4]];
    assert Yield(kids[1]) == [] && Yield(kids[2]) == [TokEquals];
    assert Yields(kids) == [TokName(name)] + ([] + [TokEquals] + Yield(value) + Yield(end));
    YieldsOne(Node(12, kids));
    YieldsOne(Node(4, [Node(12, kids)]));
  }

  lemma OneSettingMeans(name: string, simple: PTree, end: PTree, v: Value)
    requires ValidName(name) && IsSimple(simple) && IsTerminator(end) && SimpleOf(simple) == v && v.VScalar?
    ensures var t := OneSetting(name, Node(17, [simple]), end);
            IsConfiguration(t) && ConfigurationOf(t) == Tree(None, VGroup([Tree(Some(name), v)]))
  {
    var value := Node(17, [simple]);
    var setting := Node(12, [Leaf(TokName(name)), Node(11, []), Leaf(TokEquals), value, end]);
    assert IsValue(value) && ValueOf(value) == v;
    assert IsSetting(setting) && SettingOf(setting) == Tree(Some(name), v);
    var settings := Node(4, [setting]);
    assert IsSettings(settings) && SettingsOf(settings) == [Tree(Some(name), v)];
  }

  lemma OneMember(name: string, v: Value)
    requires ValidName(name) && v.VScalar?
    ensures var g := VGroup([Tree(Some(name), v)]); Legal(g) && S.Depth(g) == 1
  {
    var ms := [Tree(Some(name), v)];
    assert ms[1..] == [] && S.MaxDepth(ms[1..]) == 0 && S.TreeDepth(ms[0]) == 0;
    assert NamesOk(ms) && forall m | m in ms :: Legal(m.value);
  }

  /**
   A name, a sign, a value and possibly a separator are read as one setting of that name and
   value: whatever the kind of number, and with strings side by side as one string.
   */
  lemma AssignmentIsRead(name: string, w: seq<Token>, v: Value, end: seq<Token>)
    requires ValidName(name) && Denotes(w, v) && (end == [] || end == [TokSemicolon] || end == [TokComma])
    ensures var o := YyParse([TokName(name), TokEquals] + w + end);
            o.Accepted? && Sane(o.sem) && Abs(o.sem.st, ROOT) == Tree(None, VGroup([Tree(Some(name), v)]))
  {
    DerivingIsDeriving();
    var simple := ScalarDerivation(DERIVING, w, v);
    var t := OneSetting(name, Node(17, [simple]), EndTree(end));
    EndDerives(DERIVING, end);
    OneSettingDerives(DERIVING, name, simple, EndTree(end));
    OneSettingYields(name, simple, EndTree(end));
    OneSettingMeans(name, simple, EndTree(end), v);
    OneMember(name, v);
    assert DERIVING(t, CONFIGURATION);
    S.ShallowInputIsAccepted([TokName(name), TokEquals] + w + end, t);
  }
}
