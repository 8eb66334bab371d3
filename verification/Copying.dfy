/**
 Copying a setting with everything below it to another place of the tree.
 */
module Copying {
  import opened Options
  import opened Settings
  import opened Trees
  import opened Actions
  import opened Meaning
  import opened Evaluation
  import opened TreeInvariant
  import opened Operations
  import opened Configs

  /** A tree without untyped settings whose arrays have one scalar type. */
  predicate Copyable(v: Value) {
    match v
    case VNone => false
    case VScalar(data, format) => FormatFits(data, format)
    case VArray(es) =>
      Homogeneous(es) && forall e | e in es :: e.name == None && e.value.VScalar? && FormatFits(e.value.data, e.value.format)
    case VList(es) => forall e | e in es :: e.name == None && Copyable(e.value)
    case VGroup(ms) => NamesOk(ms) && forall m | m in ms :: Copyable(m.value)
  }

  // ----- what the copy does not touch

  /** Everything live below `i` is the same in both stores. */
  ghost predicate SameBelow(st: Store, st': Store, i: Id) {
    |st| <= |st'| && forall c :: Live(st, c) && Under(st, i, c) ==> st'[c] == st[c]
  }

  lemma {:induction false} SameTree(st: Store, st': Store, i: Id)
    requires WellFormed(st) && Ordered(st') && Live(st, i) && SameBelow(st, st', i)
    ensures Abs(st', i) == Abs(st, i)
    decreases |st| - i
  {
    assert NodeOk(st, i) && KidsIn(st, i) && Under(st, i, i);
    forall j | 0 <= j < |st[i].kids|
      ensures Abs(st', st[i].kids[j]) == Abs(st, st[i].kids[j])
    {
      KidBelow(st, st', i, j);
      SameTree(st, st', st[i].kids[j]);
    }
    assert KidsIn(st', i);
    assert AbsKids(st', i, st[i].kids) == AbsKids(st, i, st[i].kids);
  }

  lemma KidBelow(st: Store, st': Store, i: Id, j: int)
    requires WellFormed(st) && Live(st, i) && SameBelow(st, st', i) && 0 <= j < |st[i].kids|
    ensures var k := st[i].kids[j]; Live(st, k) && i < k && SameBelow(st, st', k)
  {
    assert NodeOk(st, i) && KidsIn(st, i);
    var k := st[i].kids[j];
    forall c | Live(st, c) && Under(st, k, c)
      ensures st'[c] == st[c]
    {
      UnderKid(st, i, k, c);
    }
  }

  // ----- scalars

  /** The store with a new scalar below `p`. */
  function WithScalar(st: Store, p: Id, name: Option<string>, v: Scalar, format: int): (r: Store)
    requires Ordered(st) && 0 <= p < |st|
    ensures |r| == |st| + 1 && Ordered(r)
  {
    var created := Create(st, p, name, TypeOf(v));
    Update(created, |st|, created[|st|].(data := v, format := format))
  }

  lemma ScalarFills(st: Store, p: Id, name: Option<string>, v: Scalar, format: int)
    requires Ordered(st) && 0 <= p < |st|
    ensures Extends(st, WithScalar(st, p, name, v, format), p, [Tree(name, VScalar(v, format))])
  {
    assert Fills(Create(st, p, name, TypeOf(v)), WithScalar(st, p, name, v, format), VScalar(v, format));
    CreateThenFill(st, WithScalar(st, p, name, v, format), p, name, TypeOf(v), VScalar(v, format));
  }

  predicate IsInt(v: Scalar) {
    v.SInt? || v.SInt64?
  }

  /** A scalar is created with its type, and then given its value and format. */
  lemma ThreeSteps(st: Store, p: Id, name: Option<string>, v: Scalar, format: int)
    requires Ordered(st) && 0 <= p < |st| && FormatFits(v, format)
    ensures var created := Create(st, p, name, TypeOf(v));
            && SetScalar(created, |st|, v) == Some(WithScalar(st, p, name, v, FORMAT_DEFAULT))
            && (!IsInt(v) ==> format == FORMAT_DEFAULT)
    ensures var typed := WithScalar(st, p, name, v, FORMAT_DEFAULT);
            IsInt(v) ==> typed[|st| := SetFormat(typed[|st|], format)] == WithScalar(st, p, name, v, format)
  {
  }

  /** The place accepts a child of this name: a group needs a fresh one, a list drops it. */
  predicate Takes(st: Store, parent: Id, name: Option<string>)
    requires Ordered(st) && 0 <= parent < |st|
  {
    if st[parent].stype == TypeGroup
    then name.Some? && ValidName(name.value) && GetMember(st, parent, name.value) == NULL
    else st[parent].stype == TypeList
  }

  function NameIn(st: Store, parent: Id, name: Option<string>): Option<string>
    requires 0 <= parent < |st|
  {
    if st[parent].stype == TypeGroup then name else None
  }

  /** The non-aggregate case of `config_setting_copy_simple`. */
  method CopyScalar(config: Config, parent: Id, name: Option<string>, v: Scalar, format: int)
    requires config.Valid() && Live(config.store, parent) && Takes(config.store, parent, name) && FormatFits(v, format)
    modifies config
    ensures config.Valid()
    ensures config.store == WithScalar(old(config.store), parent, NameIn(old(config.store), parent, name), v, format)
  {
    ThreeSteps(config.store, parent, NameIn(config.store, parent, name), v, format);
    var added := config.Add(parent, name, TypeOf(v));
    SetAndFormat(config, added, v, format);
  }

  /** The value and the format of a new scalar. */
  method SetAndFormat(config: Config, i: Id, v: Scalar, format: int)
    requires config.Valid() && Live(config.store, i) && SetScalar(config.store, i, v).Some?
    modifies config
    ensures config.Valid()
    ensures config.store ==
            var st := SetScalar(old(config.store), i, v).value;
            if IsInt(v) then st[i := SetFormat(st[i], format)] else st
  {
    var done := config.Set(i, v);
    if IsInt(v) {
      LiveIsTyped(config.store, i);
      done := config.SetFormat(i, format);
    }
  }

  /** The non-aggregate cases of `config_setting_copy_elem`. */
  method CopyScalarElem(config: Config, vector: Id, v: Scalar, format: int)
    requires config.Valid() && Live(config.store, vector) && FormatFits(v, format)
    requires config.store[vector].stype in {TypeArray, TypeList} && CheckType(config.store, vector, TypeOf(v))
    modifies config
    ensures config.Valid()
    ensures config.store == WithScalar(old(config.store), vector, None, v, format)
  {
    ThreeSteps(config.store, vector, None, v, format);
    var e := config.SetElem(vector, -1, v);
    if IsInt(v) {
      var done := config.SetFormat(e, format);
    }
  }

  // ----- aggregates

  /** Nothing below `src` changes while the copy grows below a new setting elsewhere. */
  lemma SourceIntact(st0: Store, st1: Store, st: Store, parent: Id, name: Option<string>, t: SettingType,
                     src: Id, ts: seq<Tree>)
    requires WellFormed(st0) && Live(st0, parent) && Live(st0, src) && !Under(st0, src, parent)
    requires st1 == Create(st0, parent, name, t) && Extends(st1, st, |st0|, ts)
    ensures SameBelow(st0, st, src) && st[src] == st0[src]
  {
    assert Under(st0, src, src);
    forall c | Live(st0, c) && Under(st0, src, c)
      ensures st[c] == st0[c]
    {
      assert c != parent && st1[c] == st0[c];
    }
  }

  /** The new setting is not below anything that is copied. */
  lemma NewIsOutside(st0: Store, st1: Store, st: Store, parent: Id, name: Option<string>, t: SettingType,
                     src: Id, e: Id, ts: seq<Tree>)
    requires WellFormed(st0) && Live(st0, parent) && Live(st0, src) && !Under(st0, src, parent)
    requires st1 == Create(st0, parent, name, t) && Extends(st1, st, |st0|, ts)
    requires Live(st0, e) && st0[e].parent == src && src < e
    ensures !Under(st, e, |st0|)
  {
    if Under(st, e, |st0|) {
      assert st[|st0|].parent == parent;
      ParentsKept(st0, st, e, parent);
      UnderKid(st0, src, e, parent);
    }
  }

  lemma {:induction false} ParentsKept(st: Store, st': Store, i: Id, c: Id)
    requires |st| <= |st'| && 0 <= c < |st| && forall k :: 0 <= k < |st| ==> st'[k].parent == st[k].parent
    ensures Under(st', i, c) == Under(st, i, c)
    decreases c
  {
    if c != i && 0 <= st[c].parent < c {
      ParentsKept(st, st', i, st[c].parent);
    }
  }

  /** In a group copied so far, the name of the next member is still fresh. */
  lemma NextNameIsFresh(st: Store, p: Id, es: seq<Tree>, i: nat)
    requires Ordered(st) && 0 <= p < |st| && st[p].stype == TypeGroup
    requires NamesOk(es) && i < |es| && Children(st, p) == es[..i]
    ensures GetMember(st, p, es[i].name.value) == NULL
  {
    assert KidsIn(st, p);
    var name := es[i].name.value;
    var k := SearchFrom(st, st[p].kids, name, 0);
    if k >= 0 {
      assert Children(st, p)[k] == Abs(st, st[p].kids[k]) == es[..i][k] == es[k];
      SegmentOfName(name);
      SegmentOfName(es[k].name.value);
    }
  }

  /** An element of the copied array has the type of the first one. */
  lemma NextElemFits(st: Store, p: Id, es: seq<Tree>, i: nat)
    requires Ordered(st) && 0 <= p < |st| && st[p].stype in {TypeArray, TypeList}
    requires i < |es| && es[i].value.VScalar? && Children(st, p) == es[..i]
    requires st[p].stype == TypeArray ==> Homogeneous(es)
    ensures CheckType(st, p, TypeOf(es[i].value.data))
  {
    if st[p].stype == TypeArray {
      CheckTypeOnTrees(st, p, es[i].value.data);
    }
  }

  /**
   What `config_setting_copy` asks for, with the store `from` of the source. In a `same`
   configuration that is the store of the target too, and the target is not inside the source.
   */
  ghost predicate CanCopy(st: Store, parent: Id, from: Store, src: Id, same: bool) {
    && WellFormed(st) && Live(st, parent) && WellFormed(from) && Live(from, src)
    && Copyable(Abs(from, src).value)
    && (same ==> from == st && !Under(st, src, parent))
  }

  /** The copy `ts` has been appended to `parent`, and nothing else changed. */
  ghost predicate Copied(st: Store, st': Store, parent: Id, name: Option<string>, v: Value) {
    Extends(st, st', parent, [Tree(name, v)])
  }

  function ElemsOf(v: Value): seq<Tree> {
    match v
    case VGroup(ms) => ms
    case VArray(es) => es
    case VList(es) => es
    case _ => []
  }

  /** A setting that is not an aggregate is a scalar. */
  lemma ScalarSource(st: Store, src: Id)
    requires WellFormed(st) && Live(st, src) && Copyable(Abs(st, src).value)
    ensures if IsAggregate(st[src].stype) then ElemsOf(Abs(st, src).value) == Children(st, src)
            else Abs(st, src).value == VScalar(st[src].data, st[src].format) && FormatFits(st[src].data, st[src].format)
    ensures KidsIn(st, src) && Typed(st[src])
  {
    assert KidsIn(st, src) && Typed(st[src]);
    if IsAggregate(st[src].stype) {
      AggregateSource(st, src);
    } else {
      PlainSource(st, src);
    }
  }

  lemma PlainSource(st: Store, src: Id)
    requires Ordered(st) && 0 <= src < |st| && !IsAggregate(st[src].stype)
    ensures Abs(st, src).value == if st[src].stype == TypeNone then VNone else VScalar(st[src].data, st[src].format)
  {
    assert KidsIn(st, src);
  }

  lemma AggregateSource(st: Store, src: Id)
    requires WellFormed(st) && Live(st, src) && IsAggregate(st[src].stype)
    ensures Abs(st, src).value == AggregateOf(st[src].stype, Children(st, src))
  {
    assert KidsIn(st, src);
    assert AbsKids(st, src, st[src].kids) == Children(st, src);
  }

  /** `config_setting_copy_simple`. */
  method CopySimple(config: Config, parent: Id, from: Config, src: Id, ghost v: Value)
    requires CanCopy(config.store, parent, from.store, src, config == from) && Abs(from.store, src).value == v
    requires Takes(config.store, parent, from.store[src].name)
    modifies config
    ensures config.Valid()
    ensures var st := old(config.store); Copied(st, config.store, parent, NameIn(st, parent, old(from.store)[src].name), v)
    decreases v, 2
  {
    ScalarSource(from.store, src);
    var s := from.store[src];
    if IsAggregate(s.stype) {
      CopyAggregate(config, parent, from, src, v);
    } else {
      ScalarFills(config.store, parent, NameIn(config.store, parent, s.name), s.data, s.format);
      CopyScalar(config, parent, s.name, s.data, s.format);
    }
  }

  /** `config_setting_copy_elem`. */
  method CopyElem(config: Config, vector: Id, from: Config, src: Id, ghost v: Value)
    requires CanCopy(config.store, vector, from.store, src, config == from) && Abs(from.store, src).value == v
    requires config.store[vector].stype == TypeList || (config.store[vector].stype == TypeArray && v.VScalar?)
    requires v.VScalar? ==> CheckType(config.store, vector, TypeOf(v.data))
    modifies config
    ensures config.Valid() && Copied(old(config.store), config.store, vector, None, v)
    decreases v, 2
  {
    ScalarSource(from.store, src);
    var s := from.store[src];
    if IsAggregate(s.stype) {
      CopyAggregate(config, vector, from, src, v);
    } else {
      ScalarFills(config.store, vector, None, s.data, s.format);
      CopyScalarElem(config, vector, s.data, s.format);
    }
  }

  /**
   The elements copied so far: the new setting `|st0|` was created in `st0`, which became `st1`,
   and has grown until `st`.
   */
  ghost predicate Copying(st0: Store, st1: Store, st: Store, parent: Id, name: Option<string>,
                          from0: Store, src: Id, same: bool, i: nat) {
    && CanCopy(st0, parent, from0, src, same) && WellFormed(st)
    && st1 == Create(st0, parent, name, from0[src].stype)
    && i <= |Children(from0, src)| && Extends(st1, st, |st0|, Children(from0, src)[..i])
  }

  /** The store of the source when that of the target has become `st`. */
  function SourceNow(st: Store, from0: Store, same: bool): Store {
    if same then st else from0
  }

  /** The next element is still what it was, and can be copied below the new setting. */
  lemma NextCanBeCopied(st0: Store, st1: Store, st: Store, parent: Id, name: Option<string>,
                        from0: Store, src: Id, same: bool, i: nat)
    requires Copying(st0, st1, st, parent, name, from0, src, same, i)
    requires i < |from0[src].kids| && IsAggregate(from0[src].stype)
    ensures var from := SourceNow(st, from0, same);
            && 0 <= src < |from| && from[src] == from0[src]
            && CanCopy(st, |st0|, from, from0[src].kids[i], same)
            && Abs(from, from0[src].kids[i]) == Children(from0, src)[i]
    ensures st[|st0|].stype == from0[src].stype && Children(st, |st0|) == Children(from0, src)[..i]
  {
    var e := from0[src].kids[i];
    var es := Children(from0, src);
    ScalarSource(from0, src);
    assert NodeOk(from0, src) && NodeOk(from0, e) && es[i] in es;
    if same {
      SourceIntact(st0, st1, st, parent, name, from0[src].stype, src, es[..i]);
      KidBelow(st0, st, src, i);
      SameTree(st0, st, e);
      assert Under(st0, e, e);
      NewIsOutside(st0, st1, st, parent, name, from0[src].stype, src, e, es[..i]);
      assert st[e] == st0[e];
    }
    assert Children(st1, |st0|) == [];
    ExtendsChildren(st1, st, |st0|, es[..i]);
    assert [] + es[..i] == es[..i];
  }

  /** One element has been copied. */
  lemma OneMoreCopied(st0: Store, st1: Store, st: Store, st': Store, parent: Id, name: Option<string>,
                      from0: Store, src: Id, same: bool, i: nat)
    requires Copying(st0, st1, st, parent, name, from0, src, same, i) && i < |Children(from0, src)| && WellFormed(st')
    requires Extends(st, st', |st0|, [Children(from0, src)[i]])
    ensures Copying(st0, st1, st', parent, name, from0, src, same, i + 1)
  {
    var es := Children(from0, src);
    ExtendsTwice(st1, st, st', |st0|, es[..i], [es[i]]);
    assert es[..i] + [es[i]] == es[..i + 1];
  }

  /** All elements have been copied. */
  lemma AllCopied(st0: Store, st1: Store, st: Store, parent: Id, name: Option<string>, from0: Store, src: Id, same: bool)
    requires CanCopy(st0, parent, from0, src, same) && IsAggregate(from0[src].stype)
    requires Copying(st0, st1, st, parent, name, from0, src, same, |from0[src].kids|)
    ensures Copied(st0, st, parent, name, Abs(from0, src).value)
  {
    var es := Children(from0, src);
    assert es[..|es|] == es;
    AggregateSource(from0, src);
    AllFilled(st0, st1, st, parent, name, from0[src].stype, es);
  }

  lemma AllFilled(st0: Store, st1: Store, st: Store, parent: Id, name: Option<string>, t: SettingType, es: seq<Tree>)
    requires Ordered(st0) && 0 <= parent < |st0| && IsAggregate(t)
    requires st1 == Create(st0, parent, name, t) && Extends(st1, st, |st0|, es)
    ensures Copied(st0, st, parent, name, AggregateOf(t, es))
  {
    ExtendLast(st1, st, es);
    CreateThenFill(st0, st, parent, name, t, AggregateOf(t, es));
  }

  lemma NothingCopied(st0: Store, parent: Id, name: Option<string>, from0: Store, src: Id, same: bool)
    requires CanCopy(st0, parent, from0, src, same)
    requires WellFormed(Create(st0, parent, name, from0[src].stype))
    ensures var st1 := Create(st0, parent, name, from0[src].stype);
            Copying(st0, st1, st1, parent, name, from0, src, same, 0)
  {
    ExtendsNothing(Create(st0, parent, name, from0[src].stype), |st0|);
  }

  /** The names and types of the elements suit the new setting. */
  lemma NextSuits(st0: Store, st1: Store, st: Store, parent: Id, name: Option<string>,
                  from0: Store, src: Id, same: bool, i: nat)
    requires Copying(st0, st1, st, parent, name, from0, src, same, i)
    requires i < |from0[src].kids| && IsAggregate(from0[src].stype)
    ensures var e := from0[src].kids[i]; var es := Children(from0, src);
            && 0 <= e < |from0| && from0[e].name == es[i].name
            && (if from0[src].stype == TypeGroup
                then Takes(st, |st0|, es[i].name) && NameIn(st, |st0|, es[i].name) == es[i].name
                else es[i].name == None && (from0[src].stype == TypeArray ==> es[i].value.VScalar?)
                     && (es[i].value.VScalar? ==> CheckType(st, |st0|, TypeOf(es[i].value.data))))
  {
    var e, es := from0[src].kids[i], Children(from0, src);
    NextCanBeCopied(st0, st1, st, parent, name, from0, src, same, i);
    ScalarSource(from0, src);
    assert es[i] in es && es[i] == Abs(from0, e);
    assert KidsIn(from0, src) && KidsIn(from0, e);
    if from0[src].stype == TypeGroup {
      NextNameIsFresh(st, |st0|, es, i);
    } else if es[i].value.VScalar? {
      NextElemFits(st, |st0|, es, i);
    }
  }

  /** `config_setting_copy_aggregate`. */
  method CopyAggregate(config: Config, parent: Id, from: Config, src: Id, ghost v: Value)
    requires CanCopy(config.store, parent, from.store, src, config == from) && Abs(from.store, src).value == v
    requires IsAggregate(from.store[src].stype) && Takes(config.store, parent, from.store[src].name)
    modifies config
    ensures config.Valid()
    ensures var st := old(config.store); Copied(st, config.store, parent, NameIn(st, parent, old(from.store)[src].name), v)
    decreases v, 1
  {
    ghost var st0, from0, same := config.store, from.store, config == from;
    var t := from.store[src].stype;
    ghost var name := NameIn(st0, parent, from0[src].name);
    ScalarSource(from0, src);
    var n := |from.store[src].kids|;
    var newAgg := config.Add(parent, from.store[src].name, t);
    ghost var st1 := config.store;
    NothingCopied(st0, parent, name, from0, src, same);
    for i := 0 to n
      invariant from.store == SourceNow(config.store, from0, same)
      invariant Copying(st0, st1, config.store, parent, name, from0, src, same, i)
    {
      CopyNext(config, newAgg, from, src, i, t, st0, st1, parent, name, from0, v);
    }
    AllCopied(st0, st1, config.store, parent, name, from0, src, same);
  }

  /** The body of the loop over the elements. */
  method CopyNext(config: Config, newAgg: Id, from: Config, src: Id, i: nat, t: SettingType,
                  ghost st0: Store, ghost st1: Store, ghost parent: Id, ghost name: Option<string>,
                  ghost from0: Store, ghost v: Value)
    requires from.store == SourceNow(config.store, from0, config == from)
    requires Copying(st0, st1, config.store, parent, name, from0, src, config == from, i) && i < |from0[src].kids|
    requires IsAggregate(t) && t == from0[src].stype && newAgg == |st0| && v == Abs(from0, src).value
    modifies config
    ensures from.store == SourceNow(config.store, from0, config == from)
    ensures Copying(st0, st1, config.store, parent, name, from0, src, config == from, i + 1)
    decreases v, 0
  {
    ghost var same := config == from;
    NextCanBeCopied(st0, st1, config.store, parent, name, from0, src, same, i);
    NextSuits(st0, st1, config.store, parent, name, from0, src, same, i);
    ghost var st, copy := config.store, Children(from0, src)[i];
    ScalarSource(from0, src);
    assert copy in ElemsOf(v) && copy.value < v;
    var e := from.store[src].kids[i];
    NameOfAbs(from.store, e);
    if t == TypeGroup {
      CopySimple(config, newAgg, from, e, copy.value);
    } else {
      CopyElem(config, newAgg, from, e, copy.value);
    }
    OneMoreCopied(st0, st1, st, config.store, parent, name, from0, src, same, i);
  }

  lemma NameOfAbs(st: Store, i: Id)
    requires Ordered(st) && 0 <= i < |st|
    ensures Abs(st, i).name == st[i].name
  {
    assert KidsIn(st, i);
  }

  /**
   `config_setting_copy`, from the same configuration or from another one: one child is appended
   that equals the source, under its name in a group and unnamed in a list; everything else stays
   as it was.
   */
  method Copy(config: Config, parent: Id, from: Config, src: Id) returns (ok: bool)
    requires CanCopy(config.store, parent, from.store, src, config == from)
    requires config.store[parent].stype == TypeGroup ==> Takes(config.store, parent, from.store[src].name)
    modifies config
    ensures config.Valid()
    ensures ok <==> old(config.store)[parent].stype in {TypeGroup, TypeList}
    ensures !ok ==> config.store == old(config.store)
    ensures ok ==>
              var st, was := old(config.store), old(from.store);
              Copied(st, config.store, parent, NameIn(st, parent, was[src].name), Abs(was, src).value)
  {
    if config.store[parent].stype != TypeGroup && config.store[parent].stype != TypeList {
      return false;
    }
    if IsAggregate(from.store[src].stype) {
      CopyAggregate(config, parent, from, src, Abs(from.store, src).value);
    } else {
      CopySimple(config, parent, from, src, Abs(from.store, src).value);
    }
    ok := true;
  }
}
