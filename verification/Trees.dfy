/**
 The tree of settings that a store represents, and how it changes when a parser adds to it.
 */
module Trees {
  import opened Options
  import opened Settings

  datatype Value =
    | VNone
    | VScalar(data: Scalar, format: int)
    | VGroup(members: seq<Tree>)
    | VArray(elems: seq<Tree>)
    | VList(elems: seq<Tree>)

  datatype Tree = Tree(name: Option<string>, value: Value)

  /** The tree below setting `i`. */
  function Abs(st: Store, i: Id): Tree
    requires Ordered(st) && 0 <= i < |st|
    decreases |st| - i, |st[i].kids| + 1
  {
    assert KidsIn(st, i);
    var kids := AbsKids(st, i, st[i].kids);
    Tree(st[i].name,
         match st[i].stype
         case TypeNone => VNone
         case TypeGroup => VGroup(kids)
         case TypeArray => VArray(kids)
         case TypeList => VList(kids)
         case _ => VScalar(st[i].data, st[i].format))
  }

  function AbsKids(st: Store, i: Id, kids: seq<Id>): (ts: seq<Tree>)
    requires Ordered(st) && 0 <= i < |st| && forall j :: 0 <= j < |kids| ==> i < kids[j] < |st|
    ensures |ts| == |kids|
    ensures forall j :: 0 <= j < |kids| ==> ts[j] == Abs(st, kids[j])
    decreases |st| - i, |kids|
  {
    if kids == [] then [] else [Abs(st, kids[0])] + AbsKids(st, i, kids[1..])
  }

  /** The children of a setting, as trees. */
  function Children(st: Store, i: Id): (ts: seq<Tree>)
    requires Ordered(st) && 0 <= i < |st|
    ensures |ts| == |st[i].kids|
    ensures KidsIn(st, i) && forall j :: 0 <= j < |ts| ==> ts[j] == Abs(st, st[i].kids[j])
  {
    assert KidsIn(st, i);
    AbsKids(st, i, st[i].kids)
  }

  /** The tree below a setting depends only on records from that setting on. */
  lemma {:induction false} AbsFrame(st: Store, st': Store, i: Id)
    requires Ordered(st) && Ordered(st') && 0 <= i < |st| <= |st'|
    requires forall j :: i <= j < |st| ==> st'[j] == st[j]
    ensures Abs(st', i) == Abs(st, i)
    decreases |st| - i
  {
    assert KidsIn(st, i) && KidsIn(st', i);
    forall j | 0 <= j < |st[i].kids|
      ensures Abs(st', st[i].kids[j]) == Abs(st, st[i].kids[j])
    {
      AbsFrame(st, st', st[i].kids[j]);
    }
    assert AbsKids(st', i, st[i].kids) == AbsKids(st, i, st[i].kids);
  }

  // ----- growth of the store

  /** `st'` is `st` with new children appended to `p`, which represent `ts`. */
  ghost predicate Extends(st: Store, st': Store, p: Id, ts: seq<Tree>) {
    && Ordered(st) && Ordered(st')
    && 0 <= p < |st| <= |st'|
    && (forall i :: 0 <= i < |st| && i != p ==> st'[i] == st[i])
    && st'[p] == st[p].(kids := st'[p].kids)
    && |st[p].kids| <= |st'[p].kids| && st'[p].kids[..|st[p].kids|] == st[p].kids
    && (forall j :: |st[p].kids| <= j < |st'[p].kids| ==> st'[p].kids[j] >= |st|)
    && Children(st', p)[|st[p].kids|..] == ts
  }

  /** `st'` is `st` with its last record turned into a setting with value `v`. */
  ghost predicate Fills(st: Store, st': Store, v: Value) {
    && Ordered(st) && Ordered(st')
    && 0 < |st| <= |st'|
    && (forall i :: 0 <= i < |st| - 1 ==> st'[i] == st[i])
    && st'[|st| - 1].parent == st[|st| - 1].parent
    && Abs(st', |st| - 1) == Tree(st[|st| - 1].name, v)
  }

  lemma ExtendsNothing(st: Store, p: Id)
    requires Ordered(st) && 0 <= p < |st|
    ensures Extends(st, st, p, [])
  {
  }

  lemma ExtendsChildren(st: Store, st': Store, p: Id, ts: seq<Tree>)
    requires Extends(st, st', p, ts)
    ensures Children(st', p) == Children(st, p) + ts
  {
    assert KidsIn(st, p) && KidsIn(st', p);
    forall j | 0 <= j < |st[p].kids|
      ensures Abs(st', st[p].kids[j]) == Abs(st, st[p].kids[j])
    {
      AbsFrame(st, st', st[p].kids[j]);
    }
    var k := |st[p].kids|;
    assert Children(st', p)[..k] == Children(st, p);
    assert Children(st', p) == Children(st', p)[..k] + Children(st', p)[k..];
  }

  lemma ExtendsTwice(st: Store, m: Store, st': Store, p: Id, ts: seq<Tree>, us: seq<Tree>)
    requires Extends(st, m, p, ts) && Extends(m, st', p, us)
    ensures Extends(st, st', p, ts + us)
  {
    ExtendsChildren(m, st', p, us);
    var k, l := |st[p].kids|, |m[p].kids|;
    assert st'[p].kids[..k] == st'[p].kids[..l][..k];
    forall j | k <= j < |st'[p].kids|
      ensures st'[p].kids[j] >= |st|
    {
      if j < l {
        assert st'[p].kids[j] == st'[p].kids[..l][j] == m[p].kids[j];
      }
    }
    assert Children(st', p)[k..] == Children(m, p)[k..] + us;
  }

  /** Creating a setting and filling it extends the parent by one tree. */
  lemma CreateThenFill(st: Store, st': Store, p: Id, name: Option<string>, t: SettingType, v: Value)
    requires Ordered(st) && 0 <= p < |st| && Fills(Create(st, p, name, t), st', v)
    ensures Extends(st, st', p, [Tree(name, v)])
  {
    CreatedAt(st, p, name, t);
    FilledBelow(st, Create(st, p, name, t), st', p, v);
  }

  lemma CreatedAt(st: Store, p: Id, name: Option<string>, t: SettingType)
    requires 0 <= p < |st|
    ensures var m := Create(st, p, name, t);
            && m[p] == st[p].(kids := st[p].kids + [|st|]) && m[|st|].name == name
            && forall i :: 0 <= i < |st| && i != p ==> m[i] == st[i]
  {
  }

  lemma FilledBelow(st: Store, m: Store, st': Store, p: Id, v: Value)
    requires Ordered(st) && 0 <= p < |st| && |m| == |st| + 1 && Fills(m, st', v)
    requires m[p] == st[p].(kids := st[p].kids + [|st|]) && forall i :: 0 <= i < |st| && i != p ==> m[i] == st[i]
    ensures Extends(st, st', p, [Tree(m[|st|].name, v)])
  {
    var k := |st[p].kids|;
    assert st'[p] == m[p] && KidsIn(st', p);
    assert Children(st', p)[k..] == [Abs(st', |st|)];
  }

  /** Filling the last record and then extending it is filling it with the larger aggregate. */
  lemma ExtendLast(st: Store, st': Store, ts: seq<Tree>)
    requires 0 < |st| && Extends(st, st', |st| - 1, ts) && st[|st| - 1].kids == []
    requires IsAggregate(st[|st| - 1].stype)
    ensures Fills(st, st', match st[|st| - 1].stype case TypeGroup => VGroup(ts)
                                                  case TypeArray => VArray(ts) case _ => VList(ts))
  {
    var s := |st| - 1;
    assert Children(st', s) == Children(st', s)[0..];
    assert KidsIn(st', s);
    assert AbsKids(st', s, st'[s].kids) == Children(st', s);
  }

  lemma FillsLater(st: Store, m: Store, st': Store, v: Value)
    requires Fills(m, st', v) && Ordered(st) && |st| == |m|
    requires forall i :: 0 <= i < |st| - 1 ==> m[i] == st[i]
    requires m[|st| - 1].parent == st[|st| - 1].parent && m[|st| - 1].name == st[|st| - 1].name
    ensures Fills(st, st', v)
  {
  }
}
