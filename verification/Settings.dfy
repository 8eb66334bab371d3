/**
 Settings and the operations of the library on them, as functions of the store.

 A `config_setting_t *` is an index into the store, a sequence that grows by one record with
 every allocation; NULL is -1. A record keeps the fields of the C structure that the
 operations use; `kids` is the contents of the child list.
 */
module Settings {
  import opened Options

  datatype SettingType =
    | TypeNone | TypeGroup | TypeInt | TypeInt64 | TypeFloat | TypeString | TypeBool | TypeArray | TypeList

  /** The scalar members of the value union; a floating-point value is its lexeme. */
  datatype Scalar =
    | SInt(ival: int)
    | SInt64(llval: int)
    | SFloat(fval: string)
    | SString(sval: Option<string>)
    | SBool(bval: int)

  const FORMAT_DEFAULT := 0
  const FORMAT_HEX := 1

  type Id = int
  const NULL: Id := -1

  datatype Setting = Setting(
    name: Option<string>,
    stype: SettingType,
    format: int,
    data: Scalar,
    kids: seq<Id>,
    parent: Id,
    freed: bool)

  type Store = seq<Setting>

  predicate IsAggregate(t: SettingType) {
    t in {TypeGroup, TypeArray, TypeList}
  }

  function TypeOf(v: Scalar): SettingType {
    match v
    case SInt(_) => TypeInt
    case SInt64(_) => TypeInt64
    case SFloat(_) => TypeFloat
    case SString(_) => TypeString
    case SBool(_) => TypeBool
  }

  /** The zeroed union, seen as a value of the given type. */
  function Zero(t: SettingType): Scalar {
    match t
    case TypeInt64 => SInt64(0)
    case TypeFloat => SFloat("0")
    case TypeString => SString(None)
    case TypeBool => SBool(0)
    case _ => SInt(0)
  }

  // ----- names

  predicate IsAlpha(c: char) {
    'a' <= c <= 'z' || 'A' <= c <= 'Z'
  }

  predicate IsDigit(c: char) {
    '0' <= c <= '9'
  }

  predicate IsNameStart(c: char) {
    IsAlpha(c) || c == '*'
  }

  predicate IsNameChar(c: char) {
    IsAlpha(c) || IsDigit(c) || c == '*' || c == '_' || c == '-'
  }

  predicate ValidName(s: string) {
    s != [] && IsNameStart(s[0]) && forall i :: 1 <= i < |s| ==> IsNameChar(s[i])
  }

  predicate IsPathToken(c: char) {
    c in ":./"
  }

  /** The part of a string that names are compared on: up to the first path token. */
  function Segment(s: string): string {
    if s == [] || IsPathToken(s[0]) then [] else [s[0]] + Segment(s[1..])
  }

  /** Two strings name the same setting when they agree up to the first path token. */
  predicate SameName(a: string, b: string) {
    Segment(a) == Segment(b)
  }

  lemma {:induction false} SegmentOfPlain(s: string)
    requires forall i :: 0 <= i < |s| ==> !IsPathToken(s[i])
    ensures Segment(s) == s
  {
    if s != [] {
      SegmentOfPlain(s[1..]);
    }
  }

  lemma SegmentOfName(s: string)
    requires ValidName(s)
    ensures Segment(s) == s
  {
    SegmentOfPlain(s);
  }

  // ----- searching and creating

  /** The position of the first child with the given name, or -1. */
  function SearchFrom(st: Store, kids: seq<Id>, name: string, i: nat): (k: int)
    requires i <= |kids| && forall j :: 0 <= j < |kids| ==> 0 <= kids[j] < |st|
    ensures -1 <= k < |kids|
    ensures k >= 0 ==> i <= k && st[kids[k]].name.Some? && SameName(name, st[kids[k]].name.value)
    ensures forall j :: i <= j < |kids| && (k < 0 || j < k) ==>
              st[kids[j]].name.Some? ==> !SameName(name, st[kids[j]].name.value)
    decreases |kids| - i
  {
    if i == |kids| then -1
    else if st[kids[i]].name.Some? && SameName(name, st[kids[i]].name.value) then i
    else SearchFrom(st, kids, name, i + 1)
  }

  predicate KidsIn(st: Store, i: Id) {
    0 <= i < |st| && forall j :: 0 <= j < |st[i].kids| ==> i < st[i].kids[j] < |st|
  }

  /** A scalar setting holds a value of its own type. */
  predicate Typed(s: Setting) {
    s.stype in {TypeInt, TypeInt64, TypeFloat, TypeString, TypeBool} ==> TypeOf(s.data) == s.stype
  }

  /** Children are allocated after their parents, and every record is typed. */
  predicate Ordered(st: Store) {
    forall i :: 0 <= i < |st| ==> KidsIn(st, i) && Typed(st[i])
  }

  function GetMember(st: Store, i: Id, name: string): (r: Id)
    requires Ordered(st) && 0 <= i < |st|
    ensures r != NULL ==> i < r < |st|
  {
    if st[i].stype != TypeGroup then NULL
    else
      assert KidsIn(st, i);
      var k := SearchFrom(st, st[i].kids, name, 0);
      if k < 0 then NULL else st[i].kids[k]
  }

  /** The store after `config_setting_create` under an aggregate; the new setting is the last one. */
  function Create(st: Store, parent: Id, name: Option<string>, t: SettingType): (r: Store)
    requires 0 <= parent < |st|
    ensures |r| == |st| + 1
    ensures Ordered(st) ==> Ordered(r)
  {
    var r := st[parent := st[parent].(kids := st[parent].kids + [|st|])]
             + [Setting(name, t, FORMAT_DEFAULT, Zero(t), [], parent, false)];
    assert Ordered(st) ==> forall i :: 0 <= i < |st| ==> KidsIn(st, i) && KidsIn(r, i);
    r
  }

  /** `config_setting_add`, for a parent that exists: None when it returns NULL. */
  function Add(st: Store, parent: Id, name: Option<string>, t: SettingType): (r: Option<Store>)
    requires Ordered(st) && 0 <= parent < |st| && (st[parent].stype == TypeGroup ==> name.Some?)
    ensures r.Some? ==> |r.value| == |st| + 1 && Ordered(r.value)
  {
    var n := if st[parent].stype in {TypeArray, TypeList} then None else name;
    if n.Some? && !ValidName(n.value) then None
    else if n.Some? && GetMember(st, parent, n.value) != NULL then None
    else if !IsAggregate(st[parent].stype) then None
    else Some(Create(st, parent, n, t))
  }

  /** Overwriting the fields of one setting, other than its children. */
  function Update(st: Store, i: Id, s: Setting): (r: Store)
    requires 0 <= i < |st| && s.kids == st[i].kids && Typed(s)
    ensures |r| == |st|
    ensures Ordered(st) ==> Ordered(r)
  {
    var r := st[i := s];
    assert Ordered(st) ==> forall j :: 0 <= j < |st| ==> KidsIn(st, j) && KidsIn(r, j);
    r
  }

  // ----- setting values

  const INT32_MAX := 0x7FFF_FFFF
  const INT32_MIN := -0x8000_0000

  /** The five setters, without automatic conversion: None is CONFIG_FALSE. */
  function Assign(s: Setting, v: Scalar): (r: Option<Setting>) {
    if s.stype == TypeNone then Some(s.(stype := TypeOf(v), data := v))
    else if s.stype == TypeOf(v) then Some(s.(data := v))
    else if s.stype == TypeInt && v.SInt64? then
      Some(s.(data := SInt(if INT32_MIN <= v.llval <= INT32_MAX then v.llval else 0)))
    else None
  }

  function SetFormat(s: Setting, format: int): Setting {
    if s.stype in {TypeInt, TypeInt64} && format in {FORMAT_DEFAULT, FORMAT_HEX} then s.(format := format) else s
  }

  /** `__config_vector_checktype`: the first element fixes the type of an array. */
  predicate CheckType(st: Store, vector: Id, t: SettingType)
    requires Ordered(st) && 0 <= vector < |st|
  {
    assert KidsIn(st, vector);
    st[vector].kids == [] || st[vector].stype == TypeList || st[st[vector].kids[0]].stype == t
  }

  /** `config_setting_set_*_elem` with a negative index: append an element. */
  function AppendElem(st: Store, vector: Id, v: Scalar): (r: Option<Store>)
    requires Ordered(st) && 0 <= vector < |st|
    ensures r.Some? ==> |r.value| == |st| + 1 && Ordered(r.value)
  {
    if st[vector].stype !in {TypeArray, TypeList} then None
    else if !CheckType(st, vector, TypeOf(v)) then None
    else
      var c := Create(st, vector, None, TypeOf(v));
      Some(Update(c, |st|, c[|st|].(data := v)))
  }
}
