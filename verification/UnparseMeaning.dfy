/**
 The derivation of a written tree means that tree, up to what the text cannot tell apart.
 */
module UnparseMeaning {
  import opened Options
  import opened Tokens
  import opened Grammar
  import opened LrComplete
  import opened Settings
  import opened Trees
  import opened Actions
  import opened Meaning
  import opened WriterSpec
  import opened TreeTokens
  import opened Unparse

  // ----- what the text tells of a tree

  /** A truth value is 0 or 1 after reading, and a null string is empty. */
  function NormScalar(v: Scalar): Scalar {
    match v
    case SBool(b) => SBool(if b != 0 then 1 else 0)
    case SString(None) => SString(Some(""))
    case _ => v
  }

  /** The default format of the configuration becomes the format of each integer. */
  function NormFormat(y: Style, v: Scalar, format: int): int {
    if (v.SInt? || v.SInt64?) && FormatOf(y, format) == FORMAT_HEX then FORMAT_HEX else FORMAT_DEFAULT
  }

  function Norm(y: Style, v: Value): Value
    decreases v, 1
  {
    match v
    case VNone => VNone
    case VScalar(data, format) => VScalar(NormScalar(data), NormFormat(y, data, format))
    case VGroup(ms) => VGroup(NormAll(y, ms))
    case VArray(es) => VArray(NormAll(y, es))
    case VList(es) => VList(NormAll(y, es))
  }

  function NormAll(y: Style, ts: seq<Tree>): (r: seq<Tree>)
    ensures |r| == |ts|
    ensures forall i :: 0 <= i < |ts| ==> r[i] == NormTree(y, ts[i])
    decreases ts, 0
  {
    if ts == [] then [] else [NormTree(y, ts[0])] + NormAll(y, ts[1..])
  }

  function NormTree(y: Style, t: Tree): Tree
    decreases t, 0
  {
    Tree(t.name, Norm(y, t.value))
  }

  lemma {:induction false} NormAllFromEnd(y: Style, ts: seq<Tree>)
    requires ts != []
    ensures NormAll(y, ts) == NormAll(y, ts[..|ts| - 1]) + [NormTree(y, ts[|ts| - 1])]
  {
  }

  // ----- the meaning of each derivation

  lemma SimpleMeaning(y: Style, v: Value)
    requires v.VScalar? && PrintableScalar(v.data)
    ensures IsSimple(SimpleTree(y, v)) && SimpleOf(SimpleTree(y, v)) == Norm(y, v)
  {
  }

  lemma {:induction false} SimplesMeaning(y: Style, es: seq<Tree>)
    requires es != [] && forall e | e in es :: e.name == None && e.value.VScalar? && Printable(e.value)
    ensures IsSimples(SimplesTree(y, es)) && SimplesOf(SimplesTree(y, es)) == NormAll(y, es)
  {
    var n := |es| - 1;
    SimpleMeaning(y, es[n].value);
    NormAllFromEnd(y, es);
    if n > 0 {
      SimplesMeaning(y, es[..n]);
    } else {
      assert NormAll(y, es[..0]) == [];
    }
  }

  lemma ArrayMeaning(y: Style, es: seq<Tree>)
    requires Printable(VArray(es))
    ensures IsArray(ArrayTree(y, es)) && ArrayOf(ArrayTree(y, es)) == Norm(y, VArray(es))
  {
    if es != [] {
      SimplesMeaning(y, es);
    }
  }

  lemma {:induction false} ListMeaning(y: Style, es: seq<Tree>)
    requires forall e | e in es :: PrintableElem(e)
    ensures IsList(ListTree(y, es)) && ListOf(ListTree(y, es)) == Norm(y, VList(es))
    decreases es, 4
  {
    if es != [] {
      ValuesMeaning(y, es);
    }
  }

  lemma {:induction false} GroupMeaning(y: Style, ms: seq<Tree>)
    requires forall m | m in ms :: PrintableMember(m)
    ensures IsGroup(GroupTree(y, ms)) && GroupOf(GroupTree(y, ms)) == Norm(y, VGroup(ms))
    decreases ms, 4
  {
    if ms != [] {
      SettingsMeaning(y, ms);
    }
  }

  lemma {:induction false} ValueMeaning(y: Style, v: Value)
    requires Printable(v)
    ensures IsValue(ValueTree(y, v)) && ValueOf(ValueTree(y, v)) == Norm(y, v)
    decreases v, 2
  {
    match v
    case VScalar(_, _) => SimpleMeaning(y, v);
    case VArray(es) => ArrayMeaning(y, es);
    case VList(es) => ListMeaning(y, es);
    case VGroup(ms) => GroupMeaning(y, ms);
  }

  lemma {:induction false} ElemMeaning(y: Style, e: Tree)
    requires PrintableElem(e)
    ensures IsValue(ElemTree(y, e)) && Tree(None, ValueOf(ElemTree(y, e))) == NormTree(y, e)
    decreases e, 2
  {
    ValueMeaning(y, e.value);
  }

  lemma {:induction false} ValuesMeaning(y: Style, es: seq<Tree>)
    requires es != [] && forall e | e in es :: PrintableElem(e)
    ensures IsValues(ValuesTree(y, es)) && ValuesOf(ValuesTree(y, es)) == NormAll(y, es)
    decreases es, 3
  {
    var n := |es| - 1;
    ElemMeaning(y, es[n]);
    NormAllFromEnd(y, es);
    if n > 0 {
      ValuesMeaning(y, es[..n]);
    } else {
      assert NormAll(y, es[..0]) == [];
    }
  }

  lemma {:induction false} SettingMeaning(y: Style, m: Tree)
    requires PrintableMember(m)
    ensures IsSetting(SettingTree(y, m)) && SettingOf(SettingTree(y, m)) == NormTree(y, m)
    decreases m, 3
  {
    ValueMeaning(y, m.value);
  }

  lemma {:induction false} SettingsMeaning(y: Style, ms: seq<Tree>)
    requires ms != [] && forall m | m in ms :: PrintableMember(m)
    ensures IsSettings(SettingsTree(y, ms)) && SettingsOf(SettingsTree(y, ms)) == NormAll(y, ms)
    decreases ms, 3
  {
    var n := |ms| - 1;
    SettingMeaning(y, ms[n]);
    NormAllFromEnd(y, ms);
    if n > 0 {
      SettingsMeaning(y, ms[..n]);
    } else {
      assert NormAll(y, ms[..0]) == [];
    }
  }

  lemma ConfigurationMeaning(y: Style, ms: seq<Tree>)
    requires Printable(VGroup(ms))
    ensures IsConfiguration(ConfigurationTree(y, ms))
    ensures ConfigurationOf(ConfigurationTree(y, ms)) == Tree(None, VGroup(NormAll(y, ms)))
  {
    if ms != [] {
      SettingsMeaning(y, ms);
    }
  }
}
