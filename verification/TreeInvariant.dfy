/**
 The invariant of a tree of settings, and the operations that keep it.

 Parent links and child lists agree, the children of a group have valid and different names,
 those of an array or list have none, and nothing that was freed can be reached.
 */
module TreeInvariant {
  import opened Options
  import opened Settings

  predicate Live(st: Store, i: Id) {
    0 <= i < |st| && !st[i].freed
  }

  predicate Distinct(kids: seq<Id>) {
    forall i, j :: 0 <= i < j < |kids| ==> kids[i] != kids[j]
  }

  /** The names below a setting of type `t`. */
  predicate KidNames(st: Store, t: SettingType, kids: seq<Id>)
    requires forall j :: 0 <= j < |kids| ==> 0 <= kids[j] < |st|
  {
    if t == TypeGroup then
      && (forall j :: 0 <= j < |kids| ==> st[kids[j]].name.Some? && ValidName(st[kids[j]].name.value))
      && (forall i, j :: 0 <= i < j < |kids| ==> st[kids[i]].name != st[kids[j]].name)
    else if IsAggregate(t) then
      forall j :: 0 <= j < |kids| ==> st[kids[j]].name == None
    else kids == []
  }

  /** The children of a live setting are live, different, and point back to it. */
  predicate KidsOk(st: Store, i: Id)
    requires 0 <= i < |st|
  {
    && (forall j :: 0 <= j < |st[i].kids| ==> Live(st, st[i].kids[j]) && st[st[i].kids[j]].parent == i)
    && Distinct(st[i].kids)
    && KidNames(st, st[i].stype, st[i].kids)
  }

  /** A live setting is the root, or a child of its parent. */
  predicate ParentOk(st: Store, i: Id)
    requires 0 <= i < |st|
  {
    if i == 0 then st[0].parent == NULL && st[0].stype == TypeGroup && st[0].name == None
    else 0 <= st[i].parent < i && Live(st, st[i].parent) && i in st[st[i].parent].kids
  }

  predicate NodeOk(st: Store, i: Id) {
    Live(st, i) ==> KidsOk(st, i) && ParentOk(st, i)
  }

  ghost predicate WellFormed(st: Store) {
    Ordered(st) && Live(st, 0) && forall i {:trigger NodeOk(st, i)} :: NodeOk(st, i)
  }

  // ----- adding

  lemma CreateKeeps(st: Store, p: Id, name: Option<string>, t: SettingType)
    requires WellFormed(st) && Live(st, p) && IsAggregate(st[p].stype)
    requires if st[p].stype == TypeGroup
             then name.Some? && ValidName(name.value) && GetMember(st, p, name.value) == NULL
             else name == None
    ensures WellFormed(Create(st, p, name, t))
  {
    var r := Create(st, p, name, t);
    NewNameIsDistinct(st, p, name);
    forall i
      ensures NodeOk(r, i)
    {
      assert NodeOk(st, i) && NodeOk(st, p);
      if i == p {
        CreateInParent(st, p, name, t);
      } else if 0 <= i < |st| && Live(st, i) {
        CreateElsewhere(st, p, name, t, i);
      }
    }
  }

  lemma NewNameIsDistinct(st: Store, p: Id, name: Option<string>)
    requires WellFormed(st) && Live(st, p) && IsAggregate(st[p].stype)
    requires st[p].stype == TypeGroup ==> name.Some? && ValidName(name.value) && GetMember(st, p, name.value) == NULL
    ensures st[p].stype == TypeGroup ==> forall j :: 0 <= j < |st[p].kids| ==> st[st[p].kids[j]].name != name
  {
    assert NodeOk(st, p) && KidsIn(st, p);
    if st[p].stype == TypeGroup {
      forall j | 0 <= j < |st[p].kids|
        ensures st[st[p].kids[j]].name != name
      {
        assert st[st[p].kids[j]].name.Some?;
      }
    }
  }

  lemma CreateInParent(st: Store, p: Id, name: Option<string>, t: SettingType)
    requires WellFormed(st) && Live(st, p) && IsAggregate(st[p].stype) && NodeOk(st, p)
    requires if st[p].stype == TypeGroup
             then name.Some? && ValidName(name.value) && forall j :: 0 <= j < |st[p].kids| ==> st[st[p].kids[j]].name != name
             else name == None
    ensures NodeOk(Create(st, p, name, t), p)
  {
    assert KidsIn(st, p);
  }

  lemma CreateElsewhere(st: Store, p: Id, name: Option<string>, t: SettingType, i: Id)
    requires WellFormed(st) && Live(st, p) && Live(st, i) && i != p && NodeOk(st, i)
    ensures NodeOk(Create(st, p, name, t), i)
  {
    assert KidsIn(st, i);
  }

  // ----- overwriting a setting

  /** A new value for a setting: the links, the name and the kind of its children stay. */
  predicate SameShape(s: Setting, s': Setting) {
    && s'.kids == s.kids && s'.name == s.name && s'.parent == s.parent && s'.freed == s.freed
    && (s'.stype == s.stype || (s.kids == [] && s.stype != TypeGroup))
  }

  lemma UpdateKeeps(st: Store, i: Id, s: Setting)
    requires WellFormed(st) && Live(st, i) && SameShape(st[i], s) && Typed(s)
    ensures WellFormed(Update(st, i, s))
  {
    forall j
      ensures NodeOk(Update(st, i, s), j)
    {
      assert NodeOk(st, j) && NodeOk(st, i);
      if Live(st, j) {
        UpdateNode(st, i, s, j);
      }
    }
  }

  lemma UpdateNode(st: Store, i: Id, s: Setting, j: Id)
    requires WellFormed(st) && Live(st, i) && SameShape(st[i], s) && Typed(s) && Live(st, j) && NodeOk(st, j)
    ensures NodeOk(Update(st, i, s), j)
  {
    assert KidsIn(st, j);
    var r := Update(st, i, s);
    assert r[j].kids == st[j].kids && r[j].parent == st[j].parent;
    forall c | c in st[j].kids
      ensures Live(r, c) && r[c].parent == j && r[c].name == st[c].name
    {
    }
  }

  // ----- removing and freeing

  /** Setting `c` is `k` or below it. */
  ghost predicate Under(st: Store, k: Id, c: Id)
    decreases c
  {
    c == k || (0 <= c < |st| && 0 <= st[c].parent < c && Under(st, k, st[c].parent))
  }

  /** The store after the subtree at `k` has been freed. */
  ghost function Freed(st: Store, k: Id): (r: Store)
    ensures |r| == |st|
    ensures forall c :: 0 <= c < |st| ==> r[c] == if Under(st, k, c) then st[c].(freed := true) else st[c]
  {
    seq(|st|, c requires 0 <= c < |st| => if Under(st, k, c) then st[c].(freed := true) else st[c])
  }

  function Without<T>(s: seq<T>, k: int): (r: seq<T>)
    requires 0 <= k < |s|
    ensures |r| == |s| - 1
    ensures forall j :: 0 <= j < |r| ==> r[j] == s[if j < k then j else j + 1]
  {
    s[..k] + s[k + 1..]
  }

  /** The store after the child at position `k` of `p` has been taken out and freed. */
  ghost function Removed(st: Store, p: Id, k: int): (r: Store)
    requires 0 <= p < |st| && 0 <= k < |st[p].kids|
    ensures |r| == |st|
  {
    Freed(st[p := st[p].(kids := Without(st[p].kids, k))], st[p].kids[k])
  }

  lemma {:induction false} UnderSame(st: Store, st': Store, k: Id, c: Id)
    requires |st| == |st'| && forall i :: 0 <= i < |st| ==> st'[i].parent == st[i].parent
    ensures Under(st, k, c) == Under(st', k, c)
    decreases c
  {
    if c != k && 0 <= c < |st| && 0 <= st[c].parent < c {
      UnderSame(st, st', k, st[c].parent);
    }
  }

  /** What is below a setting was created after it. */
  lemma {:induction false} UnderIsLater(st: Store, k: Id, c: Id)
    requires Under(st, k, c)
    ensures k <= c
    decreases c
  {
    if c != k {
      UnderIsLater(st, k, st[c].parent);
    }
  }

  lemma RemoveKeeps(st: Store, p: Id, k: int)
    requires WellFormed(st) && Live(st, p) && 0 <= k < |st[p].kids|
    ensures WellFormed(Removed(st, p, k))
  {
    var x := st[p].kids[k];
    var r := Removed(st, p, k);
    assert NodeOk(st, p) && KidsIn(st, p);
    forall i
      ensures NodeOk(r, i) && (0 <= i < |r| ==> KidsIn(r, i) && Typed(r[i]))
    {
      assert NodeOk(st, i);
      if 0 <= i < |st| {
        assert KidsIn(st, i);
        RemovedRecord(st, p, k, i);
        if Live(r, i) {
          RemovedNode(st, p, k, i);
        }
      }
    }
    RemovedRecord(st, p, k, 0);
    if Under(st, x, 0) {
      UnderIsLater(st, x, 0);
    }
  }

  /** One record of the store after a removal. */
  lemma RemovedRecord(st: Store, p: Id, k: int, i: Id)
    requires 0 <= p < |st| && 0 <= k < |st[p].kids| && 0 <= i < |st|
    ensures var r := Removed(st, p, k);
            && r[i].name == st[i].name && r[i].stype == st[i].stype && r[i].parent == st[i].parent
            && r[i].data == st[i].data && r[i].format == st[i].format
            && r[i].kids == (if i == p then Without(st[p].kids, k) else st[i].kids)
            && (r[i].freed <==> st[i].freed || Under(st, st[p].kids[k], i))
  {
    UnderSame(st, st[p := st[p].(kids := Without(st[p].kids, k))], st[p].kids[k], i);
  }

  /** A live setting whose parent is not under the removed one is not under it either, and conversely. */
  lemma RemovedNode(st: Store, p: Id, k: int, i: Id)
    requires WellFormed(st) && Live(st, p) && 0 <= k < |st[p].kids| && Live(Removed(st, p, k), i)
    ensures NodeOk(Removed(st, p, k), i)
  {
    RemovedRecord(st, p, k, i);
    assert NodeOk(st, i);
    RemovedKids(st, p, k, i);
    if i != 0 {
      RemovedParent(st, p, k, i);
    }
  }

  lemma RemovedKids(st: Store, p: Id, k: int, i: Id)
    requires WellFormed(st) && Live(st, p) && 0 <= k < |st[p].kids| && Live(Removed(st, p, k), i) && Live(st, i)
    ensures KidsOk(Removed(st, p, k), i)
  {
    var r := Removed(st, p, k);
    RemovedRecord(st, p, k, i);
    assert NodeOk(st, i) && KidsIn(st, i);
    forall j | 0 <= j < |r[i].kids|
      ensures var c := r[i].kids[j]; 0 <= c < |st| && Live(r, c) && r[c].parent == i && r[c].name == st[c].name
    {
      RemovedKid(st, p, k, i, j);
    }
  }

  lemma RemovedKid(st: Store, p: Id, k: int, i: Id, j: int)
    requires WellFormed(st) && Live(st, p) && 0 <= k < |st[p].kids| && Live(Removed(st, p, k), i) && Live(st, i)
    requires 0 <= j < |Removed(st, p, k)[i].kids|
    ensures var r := Removed(st, p, k);
            var c := r[i].kids[j];
            0 <= c < |st| && Live(r, c) && r[c].parent == i && r[c].name == st[c].name
  {
    var c := Removed(st, p, k)[i].kids[j];
    RemovedRecord(st, p, k, i);
    assert NodeOk(st, i) && KidsIn(st, i) && NodeOk(st, p);
    assert c in st[i].kids;
    RemovedRecord(st, p, k, c);
  }

  lemma RemovedParent(st: Store, p: Id, k: int, i: Id)
    requires WellFormed(st) && Live(st, p) && 0 <= k < |st[p].kids| && Live(Removed(st, p, k), i) && i != 0
    ensures var q := st[i].parent; Live(Removed(st, p, k), q) && i in Removed(st, p, k)[q].kids
  {
    var x, q := st[p].kids[k], st[i].parent;
    assert NodeOk(st, i);
    RemovedRecord(st, p, k, i);
    RemovedRecord(st, p, k, q);
    if q == p {
      var j :| 0 <= j < |st[p].kids| && st[p].kids[j] == i;
      assert j != k;
      assert Without(st[p].kids, k)[if j < k then j else j - 1] == i;
    }
  }
}
