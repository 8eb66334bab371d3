/**
 The operations on a tree of settings, and what every sequence of them keeps.
 */
module Operations {
  import opened Options
  import opened Settings
  import opened TreeInvariant

  /** `config_setting_get_elem`; a negative index is out of range as an unsigned one. */
  function GetElem(st: Store, i: Id, idx: int): (r: Id)
    requires 0 <= i < |st|
  {
    if IsAggregate(st[i].stype) && 0 <= idx < |st[i].kids| then st[i].kids[idx] else NULL
  }

  /** `config_setting_remove`: None is CONFIG_FALSE. */
  ghost function Remove(st: Store, parent: Id, name: string): Option<Store>
    requires Ordered(st) && 0 <= parent < |st|
  {
    assert KidsIn(st, parent);
    if st[parent].stype != TypeGroup then None
    else
      var k := SearchFrom(st, st[parent].kids, name, 0);
      if k < 0 then None else Some(Removed(st, parent, k))
  }

  /** `config_setting_remove_elem`. */
  ghost function RemoveElem(st: Store, parent: Id, idx: int): Option<Store>
    requires 0 <= parent < |st|
  {
    if IsAggregate(st[parent].stype) && 0 <= idx < |st[parent].kids| then Some(Removed(st, parent, idx)) else None
  }

  /** The five `config_setting_set_*`. */
  function SetScalar(st: Store, i: Id, v: Scalar): (r: Option<Store>)
    requires Ordered(st) && 0 <= i < |st|
    ensures r.Some? ==> |r.value| == |st| && Ordered(r.value)
  {
    assert KidsIn(st, i) && Typed(st[i]);
    match Assign(st[i], v)
    case None => None
    case Some(s) => Some(Update(st, i, s))
  }

  /** The five `config_setting_set_*_elem`: a negative index appends. */
  function SetElem(st: Store, vector: Id, idx: int, v: Scalar): (r: Option<Store>)
    requires Ordered(st) && 0 <= vector < |st|
    ensures r.Some? ==> Ordered(r.value)
  {
    assert KidsIn(st, vector);
    if st[vector].stype !in {TypeArray, TypeList} then None
    else if idx < 0 then AppendElem(st, vector, v)
    else
      var e := GetElem(st, vector, idx);
      if e == NULL then None else SetScalar(st, e, v)
  }

  // ----- each operation keeps the tree

  lemma AddKeeps(st: Store, parent: Id, name: Option<string>, t: SettingType)
    requires WellFormed(st) && Live(st, parent) && (st[parent].stype == TypeGroup ==> name.Some?)
    ensures var r := Add(st, parent, name, t); r.Some? ==> WellFormed(r.value)
  {
    if Add(st, parent, name, t).Some? {
      CreateKeeps(st, parent, if st[parent].stype in {TypeArray, TypeList} then None else name, t);
    }
  }

  lemma AssignKeepsShape(s: Setting, v: Scalar)
    requires Typed(s) && (s.stype == TypeNone ==> s.kids == [])
    ensures var r := Assign(s, v); r.Some? ==> SameShape(s, r.value) && Typed(r.value)
    ensures var r := Assign(s, v); r.Some? && s.stype != TypeNone ==> r.value.stype == s.stype
  {
  }

  lemma LiveIsTyped(st: Store, i: Id)
    requires WellFormed(st) && Live(st, i)
    ensures KidsIn(st, i) && Typed(st[i]) && NodeOk(st, i) && (st[i].stype == TypeNone ==> st[i].kids == [])
  {
    assert KidsIn(st, i) && NodeOk(st, i);
  }

  lemma SetScalarKeeps(st: Store, i: Id, v: Scalar)
    requires WellFormed(st) && Live(st, i)
    ensures var r := SetScalar(st, i, v); r.Some? ==> WellFormed(r.value)
  {
    LiveIsTyped(st, i);
    AssignKeepsShape(st[i], v);
    if Assign(st[i], v).Some? {
      UpdateKeeps(st, i, Assign(st[i], v).value);
    }
  }

  lemma AppendElemKeeps(st: Store, vector: Id, v: Scalar)
    requires WellFormed(st) && Live(st, vector)
    ensures var r := AppendElem(st, vector, v); r.Some? ==> WellFormed(r.value)
  {
    if AppendElem(st, vector, v).Some? {
      var c := Create(st, vector, None, TypeOf(v));
      CreateKeeps(st, vector, None, TypeOf(v));
      UpdateKeeps(c, |st|, c[|st|].(data := v));
    }
  }

  lemma SetElemKeeps(st: Store, vector: Id, idx: int, v: Scalar)
    requires WellFormed(st) && Live(st, vector)
    ensures var r := SetElem(st, vector, idx, v); r.Some? ==> WellFormed(r.value)
  {
    LiveIsTyped(st, vector);
    AppendElemKeeps(st, vector, v);
    var e := GetElem(st, vector, idx);
    if e != NULL {
      SetScalarKeeps(st, e, v);
    }
  }

  lemma RemoveKeepsTree(st: Store, parent: Id, name: string)
    requires WellFormed(st) && Live(st, parent)
    ensures var r := Remove(st, parent, name); r.Some? ==> WellFormed(r.value)
  {
    assert KidsIn(st, parent);
    if Remove(st, parent, name).Some? {
      RemoveKeeps(st, parent, SearchFrom(st, st[parent].kids, name, 0));
    }
  }

  // ----- sequences of operations

  /**
   What a program or the parser can do to a tree. `Begin` is the parser giving a setting
   without a type its aggregate type.
   */
  datatype Op =
    | OpAdd(parent: Id, name: Option<string>, stype: SettingType)
    | OpRemove(parent: Id, key: string)
    | OpRemoveElem(parent: Id, idx: int)
    | OpSet(setting: Id, v: Scalar)
    | OpSetElem(vector: Id, idx: int, v: Scalar)
    | OpFormat(setting: Id, format: int)
    | OpBegin(setting: Id, stype: SettingType)

  function Target(op: Op): Id {
    match op
    case OpAdd(p, _, _) => p
    case OpRemove(p, _) => p
    case OpRemoveElem(p, _) => p
    case OpSet(s, _) => s
    case OpSetElem(v, _, _) => v
    case OpFormat(s, _) => s
    case OpBegin(s, _) => s
  }

  /** What the library demands of its callers: no freed setting, a name for a member of a group. */
  ghost predicate Allowed(st: Store, op: Op) {
    && Live(st, Target(op))
    && (op.OpAdd? && st[op.parent].stype == TypeGroup ==> op.name.Some?)
    && (op.OpBegin? ==> st[op.setting].stype == TypeNone && IsAggregate(op.stype))
  }

  function OrSame(st: Store, r: Option<Store>): Store {
    match r case None => st case Some(st') => st'
  }

  /** The store after an operation; a refused operation changes nothing. */
  ghost function Apply(st: Store, op: Op): Store
    requires WellFormed(st) && Allowed(st, op)
  {
    LiveIsTyped(st, Target(op));
    match op
    case OpAdd(p, name, t) => OrSame(st, Add(st, p, name, t))
    case OpRemove(p, name) => OrSame(st, Remove(st, p, name))
    case OpRemoveElem(p, idx) => OrSame(st, RemoveElem(st, p, idx))
    case OpSet(s, v) => OrSame(st, SetScalar(st, s, v))
    case OpSetElem(vector, idx, v) => OrSame(st, SetElem(st, vector, idx, v))
    case OpFormat(s, format) => Update(st, s, SetFormat(st[s], format))
    case OpBegin(s, t) => Update(st, s, st[s].(stype := t))
  }

  lemma ApplyKeeps(st: Store, op: Op)
    requires WellFormed(st) && Allowed(st, op)
    ensures WellFormed(Apply(st, op))
  {
    LiveIsTyped(st, Target(op));
    match op
    case OpAdd(p, name, t) => AddKeeps(st, p, name, t);
    case OpRemove(p, name) => RemoveKeepsTree(st, p, name);
    case OpRemoveElem(p, idx) => if RemoveElem(st, p, idx).Some? { RemoveKeeps(st, p, idx); }
    case OpSet(s, v) => SetScalarKeeps(st, s, v);
    case OpSetElem(vector, idx, v) => SetElemKeeps(st, vector, idx, v);
    case OpFormat(s, format) => UpdateKeeps(st, s, SetFormat(st[s], format));
    case OpBegin(s, t) => UpdateKeeps(st, s, st[s].(stype := t));
  }

  /** Each operation is allowed when its turn comes. */
  ghost predicate AllAllowed(st: Store, ops: seq<Op>)
    requires WellFormed(st)
    decreases |ops|
  {
    ops == [] || (Allowed(st, ops[0]) && (ApplyKeeps(st, ops[0]); AllAllowed(Apply(st, ops[0]), ops[1..])))
  }

  ghost function ApplyAll(st: Store, ops: seq<Op>): Store
    requires WellFormed(st) && AllAllowed(st, ops)
    decreases |ops|
  {
    if ops == [] then st else ApplyKeeps(st, ops[0]); ApplyAll(Apply(st, ops[0]), ops[1..])
  }

  /** The tree invariant holds after any sequence of operations. */
  lemma {:induction false} EverySequenceKeepsTheTree(st: Store, ops: seq<Op>)
    requires WellFormed(st) && AllAllowed(st, ops)
    ensures WellFormed(ApplyAll(st, ops))
    decreases |ops|
  {
    if ops != [] {
      ApplyKeeps(st, ops[0]);
      EverySequenceKeepsTheTree(Apply(st, ops[0]), ops[1..]);
    }
  }

  // ----- arrays keep one element type

  /** An element has the type of the first one, and that is a scalar type. */
  predicate ElemOk(st: Store, first: Id, c: Id) {
    && 0 <= first < |st| && 0 <= c < |st|
    && st[c].stype == st[first].stype && st[c].stype !in {TypeNone, TypeGroup, TypeArray, TypeList}
  }

  predicate ArrayOk(st: Store, i: Id) {
    Live(st, i) && st[i].stype == TypeArray ==>
      forall j :: 0 <= j < |st[i].kids| ==> ElemOk(st, st[i].kids[0], st[i].kids[j])
  }

  ghost predicate ArraysOk(st: Store) {
    forall i {:trigger ArrayOk(st, i)} :: ArrayOk(st, i)
  }

  /** An element of type `t` can be added to the array: a scalar type, and that of the first element. */
  predicate Suits(st: Store, p: Id, t: SettingType)
    requires Ordered(st) && 0 <= p < |st|
  {
    t !in {TypeNone, TypeGroup, TypeArray, TypeList} && CheckType(st, p, t)
  }

  /** `config_setting_add` is called on an array only with a type that suits. */
  ghost predicate Fits(st: Store, op: Op)
    requires WellFormed(st) && Allowed(st, op)
  {
    op.OpAdd? && st[op.parent].stype == TypeArray ==> Suits(st, op.parent, op.stype)
  }

  /** Same children or fewer, of the same types: still one element type. */
  lemma ArrayStaysOk(st: Store, r: Store, i: Id)
    requires Ordered(st) && ArrayOk(st, i) && |st| <= |r| && (Live(r, i) && r[i].stype == TypeArray ==> Live(st, i))
    requires Live(r, i) && r[i].stype == TypeArray ==>
               r[i].kids == [] || (st[i].stype == TypeArray && forall c | c in r[i].kids :: c in st[i].kids && r[c].stype == st[c].stype)
    ensures ArrayOk(r, i)
  {
    if Live(r, i) && r[i].stype == TypeArray && r[i].kids != [] {
      assert KidsIn(st, i);
      forall j | 0 <= j < |r[i].kids|
        ensures ElemOk(r, r[i].kids[0], r[i].kids[j])
      {
        ElemStaysOk(st, r, i, r[i].kids[0]);
        ElemStaysOk(st, r, i, r[i].kids[j]);
      }
    }
  }

  lemma ElemStaysOk(st: Store, r: Store, i: Id, c: Id)
    requires 0 <= i < |st| <= |r| && KidsIn(st, i) && ArrayOk(st, i) && Live(st, i) && st[i].stype == TypeArray
    requires c in st[i].kids && 0 <= c < |st| && r[c].stype == st[c].stype
    ensures r[c].stype == st[st[i].kids[0]].stype && r[c].stype !in {TypeNone, TypeGroup, TypeArray, TypeList}
  {
    var k :| 0 <= k < |st[i].kids| && st[i].kids[k] == c;
    assert ElemOk(st, st[i].kids[0], st[i].kids[k]);
  }

  lemma UpdateKeepsArrays(st: Store, i: Id, s: Setting)
    requires WellFormed(st) && ArraysOk(st) && Live(st, i) && Typed(s) && s.kids == st[i].kids && s.freed == st[i].freed
    requires s.stype == st[i].stype || (st[i].stype == TypeNone && st[i].kids == [])
    ensures ArraysOk(Update(st, i, s))
  {
    var r := Update(st, i, s);
    forall j
      ensures ArrayOk(r, j)
    {
      assert ArrayOk(st, j);
      if Live(st, j) {
        assert KidsIn(st, j);
        ArrayStaysOk(st, r, j);
      }
    }
  }

  lemma CreateKeepsArrays(st: Store, p: Id, name: Option<string>, t: SettingType)
    requires WellFormed(st) && ArraysOk(st) && Live(st, p)
    requires st[p].stype == TypeArray ==> Suits(st, p, t)
    ensures ArraysOk(Create(st, p, name, t))
  {
    var r := Create(st, p, name, t);
    assert KidsIn(st, p);
    forall j
      ensures ArrayOk(r, j)
    {
      assert ArrayOk(st, j);
      if Live(st, j) && j != p {
        assert KidsIn(st, j);
        ArrayStaysOk(st, r, j);
      }
    }
  }

  /** An element of another type breaks the array. */
  lemma CreateBreaksArray(st: Store, p: Id, name: Option<string>, t: SettingType)
    requires WellFormed(st) && Live(st, p) && st[p].stype == TypeArray && !Suits(st, p, t)
    ensures !ArraysOk(Create(st, p, name, t))
  {
    var r := Create(st, p, name, t);
    assert KidsIn(st, p);
    assert r[p].kids == st[p].kids + [|st|] && r[|st|].stype == t;
    assert !ElemOk(r, r[p].kids[0], r[p].kids[|st[p].kids|]);
    assert !ArrayOk(r, p);
  }

  lemma RemoveKeepsArrays(st: Store, p: Id, k: int)
    requires WellFormed(st) && ArraysOk(st) && Live(st, p) && 0 <= k < |st[p].kids|
    ensures ArraysOk(Removed(st, p, k))
  {
    var r := Removed(st, p, k);
    forall j
      ensures ArrayOk(r, j)
    {
      assert ArrayOk(st, j);
      if Live(r, j) {
        RemovedRecord(st, p, k, j);
        assert KidsIn(st, j);
        forall c | c in r[j].kids
          ensures c in st[j].kids && r[c].stype == st[c].stype
        {
          RemovedRecord(st, p, k, c);
        }
        ArrayStaysOk(st, r, j);
      }
    }
  }

  lemma SetScalarKeepsArrays(st: Store, i: Id, v: Scalar)
    requires WellFormed(st) && ArraysOk(st) && Live(st, i)
    ensures var r := SetScalar(st, i, v); r.Some? ==> ArraysOk(r.value)
  {
    LiveIsTyped(st, i);
    AssignKeepsShape(st[i], v);
    if Assign(st[i], v).Some? {
      UpdateKeepsArrays(st, i, Assign(st[i], v).value);
    }
  }

  lemma SetElemKeepsArrays(st: Store, vector: Id, idx: int, v: Scalar)
    requires WellFormed(st) && ArraysOk(st) && Live(st, vector)
    ensures var r := SetElem(st, vector, idx, v); r.Some? ==> ArraysOk(r.value)
  {
    LiveIsTyped(st, vector);
    var e := GetElem(st, vector, idx);
    if idx < 0 {
      if AppendElem(st, vector, v).Some? {
        AppendElemKeepsArrays(st, vector, v);
      }
    } else if e != NULL {
      SetScalarKeepsArrays(st, e, v);
    }
  }

  lemma AppendElemKeepsArrays(st: Store, vector: Id, v: Scalar)
    requires WellFormed(st) && ArraysOk(st) && Live(st, vector) && AppendElem(st, vector, v).Some?
    ensures ArraysOk(AppendElem(st, vector, v).value)
  {
    var c := Create(st, vector, None, TypeOf(v));
    CreateKeepsArrays(st, vector, None, TypeOf(v));
    CreateKeeps(st, vector, None, TypeOf(v));
    UpdateKeepsArrays(c, |st|, c[|st|].(data := v));
  }

  /** An operation keeps arrays homogeneous exactly when it fits. */
  lemma ApplyKeepsArraysIff(st: Store, op: Op)
    requires WellFormed(st) && ArraysOk(st) && Allowed(st, op)
    ensures ArraysOk(Apply(st, op)) <==> Fits(st, op)
  {
    LiveIsTyped(st, Target(op));
    match op
    case OpAdd(p, name, t) =>
      if Add(st, p, name, t).Some? {
        var n := if st[p].stype in {TypeArray, TypeList} then None else name;
        if st[p].stype == TypeArray && !Suits(st, p, t) {
          CreateBreaksArray(st, p, n, t);
        } else {
          CreateKeepsArrays(st, p, n, t);
        }
      }
    case OpRemove(p, name) =>
      if Remove(st, p, name).Some? {
        RemoveKeepsArrays(st, p, SearchFrom(st, st[p].kids, name, 0));
      }
    case OpRemoveElem(p, idx) => if RemoveElem(st, p, idx).Some? { RemoveKeepsArrays(st, p, idx); }
    case OpSet(s, v) => SetScalarKeepsArrays(st, s, v);
    case OpSetElem(vector, idx, v) => SetElemKeepsArrays(st, vector, idx, v);
    case OpFormat(s, format) => UpdateKeepsArrays(st, s, SetFormat(st[s], format));
    case OpBegin(s, t) => UpdateKeepsArrays(st, s, st[s].(stype := t));
  }

  ghost predicate AllFit(st: Store, ops: seq<Op>)
    requires WellFormed(st) && AllAllowed(st, ops)
    decreases |ops|
  {
    ops == [] || (Fits(st, ops[0]) && (ApplyKeeps(st, ops[0]); AllFit(Apply(st, ops[0]), ops[1..])))
  }

  /** The arrays are homogeneous before, between and after the operations. */
  ghost predicate AlwaysArraysOk(st: Store, ops: seq<Op>)
    requires WellFormed(st) && AllAllowed(st, ops)
    decreases |ops|
  {
    && ArraysOk(st)
    && (ops == [] || (ApplyKeeps(st, ops[0]); AlwaysArraysOk(Apply(st, ops[0]), ops[1..])))
  }

  /**
   Arrays stay homogeneous over a sequence of operations exactly when every operation fits;
   element sets, removals and parser steps always do.
   */
  lemma {:induction false} EverySequenceKeepsArrays(st: Store, ops: seq<Op>)
    requires WellFormed(st) && AllAllowed(st, ops) && ArraysOk(st)
    ensures AlwaysArraysOk(st, ops) <==> AllFit(st, ops)
    ensures AllFit(st, ops) ==> ArraysOk(ApplyAll(st, ops))
    decreases |ops|
  {
    if ops != [] {
      ApplyKeeps(st, ops[0]);
      ApplyKeepsArraysIff(st, ops[0]);
      if Fits(st, ops[0]) {
        EverySequenceKeepsArrays(Apply(st, ops[0]), ops[1..]);
      } else {
        assert !AlwaysArraysOk(Apply(st, ops[0]), ops[1..]);
      }
    }
  }

  /** A group with one array of one integer. */
  function OneArray(): Store {
    [Setting(None, TypeGroup, 0, SInt(0), [1], NULL, false),
     Setting(Some("a"), TypeArray, 0, SInt(0), [2], 0, false),
     Setting(None, TypeInt, 0, SInt(7), [], 1, false)]
  }

  lemma OneArrayIsWellFormed()
    ensures WellFormed(OneArray()) && ArraysOk(OneArray())
  {
    var st := OneArray();
    assert forall i :: 0 <= i < |st| ==> KidsIn(st, i) && Typed(st[i]);
    forall i
      ensures NodeOk(st, i) && ArrayOk(st, i)
    {
      if Live(st, i) {
        assert i == 0 || i == 1 || i == 2;
      }
    }
  }

  /** `config_setting_add` does not check the element type: it can mix the types of an array. */
  lemma AddMixesArrays()
    ensures exists st, op :: WellFormed(st) && ArraysOk(st) && Allowed(st, op) && !ArraysOk(Apply(st, op))
  {
    var st, op := OneArray(), OpAdd(1, None, TypeString);
    OneArrayIsWellFormed();
    ApplyKeepsArraysIff(st, op);
  }
}
