/**
 The meaning of a derivation as a tree of settings, by recursion on the derivation.
 */
module Meaning {
  import opened Options
  import opened Tokens
  import opened Grammar
  import opened Settings
  import opened Trees
  import opened Actions

  // ----- the shape of a derivation, nonterminal by nonterminal

  predicate IsEmpty(t: PTree, n: int) {
    t == Node(n, [])
  }

  predicate IsString(t: PTree) {
    && t.Node?
    && ((t.rule == 21 && |t.kids| == 1 && t.kids[0].Leaf?)
        || (t.rule == 22 && |t.kids| == 2 && IsString(t.kids[0]) && t.kids[1].Leaf?))
  }

  predicate IsSimple(t: PTree) {
    && t.Node? && |t.kids| == 1
    && ((23 <= t.rule <= 28 && t.kids[0].Leaf?) || (t.rule == 29 && IsString(t.kids[0])))
  }

  predicate IsSimples(t: PTree) {
    && t.Node?
    && ((t.rule == 34 && |t.kids| == 1 && IsSimple(t.kids[0]))
        || (t.rule == 35 && |t.kids| == 3 && IsSimples(t.kids[0]) && t.kids[1].Leaf? && IsSimple(t.kids[2])))
  }

  predicate IsSimplesOpt(t: PTree) {
    IsEmpty(t, 36) || (t.Node? && t.rule == 37 && |t.kids| == 1 && IsSimples(t.kids[0]))
  }

  /** An aggregate of rule `n` is its brackets, the marker of rule `n - 1` and its contents. */
  predicate IsBracket(t: PTree, n: int, mark: int) {
    && t.Node? && t.rule == n && |t.kids| == 4
    && t.kids[0].Leaf? && IsEmpty(t.kids[1], mark) && t.kids[3].Leaf?
  }

  predicate IsArray(t: PTree) {
    IsBracket(t, 14, 13) && IsSimplesOpt(t.kids[2])
  }

  predicate IsList(t: PTree) {
    IsBracket(t, 16, 15) && IsValuesOpt(t.kids[2])
  }

  predicate IsGroup(t: PTree) {
    IsBracket(t, 39, 38) && IsSettingsOpt(t.kids[2])
  }

  predicate IsValue(t: PTree) {
    && t.Node? && |t.kids| == 1
    && match t.rule
       case 17 => IsSimple(t.kids[0])
       case 18 => IsArray(t.kids[0])
       case 19 => IsList(t.kids[0])
       case 20 => IsGroup(t.kids[0])
       case _ => false
  }

  predicate IsValues(t: PTree) {
    && t.Node?
    && ((t.rule == 30 && |t.kids| == 1 && IsValue(t.kids[0]))
        || (t.rule == 31 && |t.kids| == 3 && IsValues(t.kids[0]) && t.kids[1].Leaf? && IsValue(t.kids[2])))
  }

  predicate IsValuesOpt(t: PTree) {
    IsEmpty(t, 32) || (t.Node? && t.rule == 33 && |t.kids| == 1 && IsValues(t.kids[0]))
  }

  predicate IsTerminator(t: PTree) {
    IsEmpty(t, 8) || (t.Node? && t.rule in {9, 10} && |t.kids| == 1 && t.kids[0].Leaf?)
  }

  predicate IsSetting(t: PTree) {
    && t.Node? && t.rule == 12 && |t.kids| == 5
    && t.kids[0].Leaf? && IsEmpty(t.kids[1], 11) && t.kids[2].Leaf? && IsValue(t.kids[3]) && IsTerminator(t.kids[4])
  }

  predicate IsSettings(t: PTree) {
    && t.Node?
    && ((t.rule == 4 && |t.kids| == 1 && IsSetting(t.kids[0]))
        || (t.rule == 5 && |t.kids| == 2 && IsSettings(t.kids[0]) && IsSetting(t.kids[1])))
  }

  predicate IsSettingsOpt(t: PTree) {
    IsEmpty(t, 6) || (t.Node? && t.rule == 7 && |t.kids| == 1 && IsSettings(t.kids[0]))
  }

  predicate IsConfiguration(t: PTree) {
    IsEmpty(t, 2) || (t.Node? && t.rule == 3 && |t.kids| == 1 && IsSettings(t.kids[0]))
  }

  // ----- the tree that a derivation means

  function StringOf(t: PTree): string
    requires IsString(t)
    decreases t
  {
    if t.rule == 21 then TextOf(t.kids[0].tok) else StringOf(t.kids[0]) + TextOf(t.kids[1].tok)
  }

  function SimpleOf(t: PTree): Value
    requires IsSimple(t)
  {
    if t.rule == 29 then VScalar(SString(Some(StringOf(t.kids[0]))), FORMAT_DEFAULT)
    else VScalar(ScalarOf(t.kids[0].tok).0, ScalarOf(t.kids[0].tok).1)
  }

  /** The elements of an array: rules 34 and 35. */
  function SimplesOf(t: PTree): seq<Tree>
    requires IsSimples(t)
    decreases t
  {
    if t.rule == 34 then [Tree(None, SimpleOf(t.kids[0]))]
    else SimplesOf(t.kids[0]) + [Tree(None, SimpleOf(t.kids[2]))]
  }

  function ValueOf(t: PTree): Value
    requires IsValue(t)
    decreases t
  {
    if t.rule == 17 then SimpleOf(t.kids[0])
    else if t.rule == 18 then ArrayOf(t.kids[0])
    else if t.rule == 19 then ListOf(t.kids[0])
    else GroupOf(t.kids[0])
  }

  function ArrayOf(t: PTree): Value
    requires IsArray(t)
    decreases t
  {
    VArray(SimplesOptOf(t.kids[2]))
  }

  function ListOf(t: PTree): Value
    requires IsList(t)
    decreases t
  {
    VList(ValuesOptOf(t.kids[2]))
  }

  function GroupOf(t: PTree): Value
    requires IsGroup(t)
    decreases t
  {
    VGroup(SettingsOptOf(t.kids[2]))
  }

  /** The elements of a list: rules 30 and 31. */
  function ValuesOf(t: PTree): seq<Tree>
    requires IsValues(t)
    decreases t
  {
    if t.rule == 30 then [Tree(None, ValueOf(t.kids[0]))]
    else ValuesOf(t.kids[0]) + [Tree(None, ValueOf(t.kids[2]))]
  }

  function SettingOf(t: PTree): Tree
    requires IsSetting(t)
    decreases t
  {
    Tree(Some(TextOf(t.kids[0].tok)), ValueOf(t.kids[3]))
  }

  function SettingsOf(t: PTree): seq<Tree>
    requires IsSettings(t)
    decreases t
  {
    if t.rule == 4 then [SettingOf(t.kids[0])] else SettingsOf(t.kids[0]) + [SettingOf(t.kids[1])]
  }

  /** The tree of a whole configuration: an unnamed group. */
  function ConfigurationOf(t: PTree): Tree
    requires IsConfiguration(t)
  {
    Tree(None, VGroup(if t.rule == 2 then [] else SettingsOf(t.kids[0])))
  }

  function SimplesOptOf(t: PTree): seq<Tree>
    requires IsSimplesOpt(t)
    decreases t
  {
    if t.rule == 36 then [] else SimplesOf(t.kids[0])
  }

  function ValuesOptOf(t: PTree): seq<Tree>
    requires IsValuesOpt(t)
    decreases t
  {
    if t.rule == 32 then [] else ValuesOf(t.kids[0])
  }

  function SettingsOptOf(t: PTree): seq<Tree>
    requires IsSettingsOpt(t)
    decreases t
  {
    if t.rule == 6 then [] else SettingsOf(t.kids[0])
  }

  // ----- the trees that a configuration may have

  /** Members have valid names, no two of them the same. */
  predicate NamesOk(ts: seq<Tree>) {
    && (forall i :: 0 <= i < |ts| ==> ts[i].name.Some? && ValidName(ts[i].name.value))
    && (forall i, j :: 0 <= i < j < |ts| ==> ts[i].name != ts[j].name)
  }

  function Tag(v: Value): SettingType {
    match v
    case VNone => TypeNone
    case VScalar(data, _) => TypeOf(data)
    case VGroup(_) => TypeGroup
    case VArray(_) => TypeArray
    case VList(_) => TypeList
  }

  /** The elements of an array have one type. */
  predicate Homogeneous(ts: seq<Tree>) {
    forall i :: 0 <= i < |ts| ==> Tag(ts[i].value) == Tag(ts[0].value)
  }

  /** No group repeats a name, and every array has one element type. */
  predicate Legal(v: Value) {
    match v
    case VGroup(ms) => NamesOk(ms) && forall m | m in ms :: Legal(m.value)
    case VArray(es) => Homogeneous(es)
    case VList(es) => forall e | e in es :: Legal(e.value)
    case _ => true
  }

  predicate AllLegal(ts: seq<Tree>) {
    forall t | t in ts :: Legal(t.value)
  }
}
