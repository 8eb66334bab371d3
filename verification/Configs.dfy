/**
 A configuration and the operations of the library on it, as methods that change its settings
 in place.
 */
module Configs {
  import opened Options
  import opened Settings
  import opened Actions
  import opened TreeInvariant
  import opened Operations
  import opened Trees
  import opened TreeEffects

  // ----- names

  /** `__config_validate_name`. */
  method ValidateName(name: string) returns (ok: bool)
    ensures ok == ValidName(name)
  {
    if name == [] || !IsNameStart(name[0]) {
      return false;
    }
    var p := 1;
    while p < |name|
      invariant 1 <= p <= |name| && forall i :: 1 <= i < p ==> IsNameChar(name[i])
    {
      if !IsNameChar(name[p]) {
        return false;
      }
      p := p + 1;
    }
    ok := true;
  }

  lemma SegmentStep(s: string)
    requires s != [] && !IsPathToken(s[0])
    ensures Segment(s) != [] && Segment(s)[0] == s[0] && Segment(s)[1..] == Segment(s[1..])
    ensures Segment(s) == [s[0]] + Segment(s[1..])
  {
  }

  /** `__config_name_compare`: the order of the two segments, 0 when they are the same. */
  method NameCompare(a: string, b: string) returns (r: int)
    ensures r == 0 <==> SameName(a, b)
    ensures -1 <= r <= 1
  {
    var p := 0;
    assert a[0..] == a && b[0..] == b;
    while true
      invariant p <= |a| && p <= |b|
      invariant Segment(a) == Segment(b) <==> Segment(a[p..]) == Segment(b[p..])
      decreases |a| - p
    {
      var pd := p == |a| || IsPathToken(a[p]);
      var qd := p == |b| || IsPathToken(b[p]);
      if pd && qd {
        return 0;
      } else if pd {
        return -1;
      } else if qd {
        return 1;
      }
      SegmentStep(a[p..]);
      SegmentStep(b[p..]);
      if a[p] < b[p] {
        return -1;
      } else if a[p] > b[p] {
        return 1;
      }
      assert a[p..][1..] == a[p + 1..] && b[p..][1..] == b[p + 1..];
      p := p + 1;
    }
  }

  // ----- the subtree of a setting that is being destroyed

  /** The live settings below `i` are linked both ways. */
  ghost predicate Coherent(st: Store, i: Id) {
    && Ordered(st) && Live(st, i)
    && forall c {:trigger CoherentAt(st, i, c)} :: CoherentAt(st, i, c)
  }

  ghost predicate CoherentAt(st: Store, i: Id, c: Id) {
    Live(st, c) && Under(st, i, c) ==>
      && KidsOk(st, c)
      && (c != i ==> 0 <= st[c].parent < c && Live(st, st[c].parent) && c in st[st[c].parent].kids)
  }

  lemma {:induction false} UnderKid(st: Store, i: Id, k: Id, c: Id)
    requires 0 <= k < |st| && st[k].parent == i && 0 <= i < k && Under(st, k, c)
    ensures Under(st, i, c)
    decreases c
  {
    if c != k {
      UnderKid(st, i, k, st[c].parent);
    }
  }

  /** A live setting below `i` is below one of its children. */
  lemma {:induction false} UnderSomeKid(st: Store, i: Id, c: Id)
    requires Coherent(st, i) && Live(st, c) && Under(st, i, c) && c != i
    ensures exists k :: k in st[i].kids && Under(st, k, c)
    decreases c
  {
    assert CoherentAt(st, i, c);
    if st[c].parent == i {
      assert Under(st, c, c);
    } else {
      UnderSomeKid(st, i, st[c].parent);
    }
  }

  /** The subtrees of two children are disjoint. */
  lemma {:induction false} SubtreesDisjoint(st: Store, i: Id, a: Id, b: Id, c: Id)
    requires 0 <= i < a < |st| && i < b < |st| && st[a].parent == i && st[b].parent == i && a != b
    ensures !(Under(st, a, c) && Under(st, b, c))
    decreases c
  {
    if Under(st, a, c) && Under(st, b, c) {
      if c == a {
        UnderIsLater(st, b, i);
      } else if c == b {
        UnderIsLater(st, a, i);
      } else {
        SubtreesDisjoint(st, i, a, b, st[c].parent);
      }
    }
  }

  /** The store after the subtrees of the children `ks` have been freed. */
  ghost predicate FreedBelow(st: Store, r: Store, ks: seq<Id>) {
    && |r| == |st|
    && forall c :: 0 <= c < |st| ==>
         r[c] == if exists k :: k in ks && Under(st, k, c) then st[c].(freed := true) else st[c]
  }

  lemma UnderInFreed(st: Store, r: Store, ks: seq<Id>, k: Id, c: Id)
    requires FreedBelow(st, r, ks)
    ensures Under(r, k, c) == Under(st, k, c)
  {
    UnderSame(st, r, k, c);
  }

  lemma KidStays(st: Store, r: Store, i: Id, j: int)
    requires Coherent(st, i) && 0 <= j < |st[i].kids| && FreedBelow(st, r, st[i].kids[..j])
    ensures forall c :: 0 <= c < |st| && Under(st, st[i].kids[j], c) ==> r[c] == st[c]
  {
    var k := st[i].kids[j];
    assert CoherentAt(st, i, i) && KidsIn(st, i);
    forall c | 0 <= c < |st| && Under(st, k, c)
      ensures r[c] == st[c]
    {
      forall a | a in st[i].kids[..j]
        ensures !Under(st, a, c)
      {
        SubtreesDisjoint(st, i, a, k, c);
      }
    }
  }

  /** With some of its siblings freed, the subtree of a child is still there. */
  lemma KidStaysCoherent(st: Store, r: Store, i: Id, j: int)
    requires Coherent(st, i) && 0 <= j < |st[i].kids| && FreedBelow(st, r, st[i].kids[..j])
    ensures Coherent(r, st[i].kids[j])
  {
    var k := st[i].kids[j];
    KidStays(st, r, i, j);
    assert CoherentAt(st, i, i) && KidsIn(st, i);
    assert forall c :: 0 <= c < |st| ==> KidsIn(st, c) && Typed(st[c]);
    assert forall c :: 0 <= c < |r| ==> KidsIn(r, c) && Typed(r[c]);
    assert Under(st, k, k);
    forall c
      ensures CoherentAt(r, k, c)
    {
      if Live(r, c) && Under(r, k, c) {
        KidStaysCoherentAt(st, r, i, j, c);
      }
    }
  }

  lemma KidStaysCoherentAt(st: Store, r: Store, i: Id, j: int, c: Id)
    requires Coherent(st, i) && 0 <= j < |st[i].kids| && FreedBelow(st, r, st[i].kids[..j])
    requires var k := st[i].kids[j];
             (forall c :: 0 <= c < |st| && Under(st, k, c) ==> r[c] == st[c]) && Live(r, c) && Under(r, k, c)
    ensures CoherentAt(r, st[i].kids[j], c)
  {
    var k := st[i].kids[j];
    assert CoherentAt(st, i, i) && KidsIn(st, i);
    UnderInFreed(st, r, st[i].kids[..j], k, c);
    UnderKid(st, i, k, c);
    assert CoherentAt(st, i, c) && KidsIn(st, c);
    KidsOkUnchanged(st, r, k, c);
    UnderIsLater(st, k, c);
    if c != k {
      var q := st[c].parent;
      assert 0 <= q < c && Live(st, q) && c in st[q].kids;
      assert Under(st, k, q) && r[q] == st[q] && r[c] == st[c];
    }
  }

  lemma KidsOkUnchanged(st: Store, r: Store, k: Id, c: Id)
    requires |st| == |r| && 0 <= c < |st| && KidsIn(st, c) && KidsOk(st, c) && Under(st, k, c)
    requires forall c :: 0 <= c < |st| && Under(st, k, c) ==> r[c] == st[c]
    ensures KidsOk(r, c)
  {
    forall m | 0 <= m < |st[c].kids|
      ensures r[st[c].kids[m]] == st[st[c].kids[m]]
    {
      assert Under(st, k, st[c].kids[m]);
    }
  }

  /** Freeing all children and then the setting itself frees exactly its subtree. */
  lemma AllKidsFreed(st: Store, r: Store, i: Id)
    requires Coherent(st, i) && FreedBelow(st, r, st[i].kids)
    ensures r[i := r[i].(freed := true)] == Freed(st, i)
  {
    assert CoherentAt(st, i, i) && KidsIn(st, i);
    var last := r[i := r[i].(freed := true)];
    forall c | 0 <= c < |st|
      ensures last[c] == Freed(st, i)[c]
    {
      if c == i {
        forall k | k in st[i].kids && Under(st, k, i)
          ensures false
        {
          UnderIsLater(st, k, i);
        }
      } else {
        forall k | k in st[i].kids && Under(st, k, c)
          ensures Under(st, i, c)
        {
          UnderKid(st, i, k, c);
        }
        if Live(st, c) && Under(st, i, c) {
          UnderSomeKid(st, i, c);
        }
      }
    }
  }

  /** The root group alone is a tree. */
  lemma InitialIsWellFormed()
    ensures WellFormed(INITIAL_STORE)
  {
  }

  /** After it has been unlinked, a child can be destroyed. */
  lemma TakenOutIsCoherent(st: Store, p: Id, k: int)
    requires WellFormed(st) && Live(st, p) && 0 <= k < |st[p].kids|
    ensures Coherent(st[p := st[p].(kids := Without(st[p].kids, k))], st[p].kids[k])
  {
    var x, m := st[p].kids[k], st[p := st[p].(kids := Without(st[p].kids, k))];
    assert NodeOk(st, p) && KidsIn(st, p);
    forall c | 0 <= c < |st|
      ensures KidsIn(m, c) && Typed(m[c])
    {
      assert KidsIn(st, c) && Typed(st[c]);
    }
    forall c
      ensures CoherentAt(m, x, c)
    {
      TakenOutIsCoherentAt(st, m, p, k, c);
    }
  }

  lemma TakenOutIsCoherentAt(st: Store, m: Store, p: Id, k: int, c: Id)
    requires WellFormed(st) && Live(st, p) && 0 <= k < |st[p].kids| && m == st[p := st[p].(kids := Without(st[p].kids, k))]
    ensures CoherentAt(m, st[p].kids[k], c)
  {
    var x := st[p].kids[k];
    assert NodeOk(st, p) && KidsIn(st, p);
    if Live(m, c) && Under(m, x, c) {
      UnderSame(st, m, x, c);
      UnderIsLater(st, x, c);
      assert NodeOk(st, c) && KidsIn(st, c);
      if c != x {
        UnderIsLater(st, x, st[c].parent);
      }
    }
  }

  lemma OneMoreFreed(st: Store, m: Store, r: Store, ks: seq<Id>, k: Id)
    requires FreedBelow(st, m, ks) && r == Freed(m, k)
    ensures FreedBelow(st, r, ks + [k])
  {
    forall c | 0 <= c < |st|
      ensures r[c] == if exists a :: a in ks + [k] && Under(st, a, c) then st[c].(freed := true) else st[c]
    {
      UnderInFreed(st, m, ks, k, c);
      if Under(st, k, c) {
        assert k in ks + [k];
      }
      if a :| a in ks && Under(st, a, c) {
        assert a in ks + [k];
      }
    }
  }

  // ----- members by name

  /** The child at position `k` has the name, up to the first path token. */
  predicate HasName(st: Store, p: Id, name: string, k: int)
    requires Ordered(st) && 0 <= p < |st|
  {
    assert KidsIn(st, p);
    0 <= k < |st[p].kids| && st[st[p].kids[k]].name.Some? && SameName(name, st[st[p].kids[k]].name.value)
  }

  /** No two members of a group have the same name. */
  lemma OneHasName(st: Store, p: Id, name: string)
    requires WellFormed(st) && Live(st, p) && st[p].stype == TypeGroup
    ensures forall i, j :: HasName(st, p, name, i) && HasName(st, p, name, j) ==> i == j
  {
    assert NodeOk(st, p) && KidsIn(st, p);
    forall i | HasName(st, p, name, i)
      ensures Segment(name) == st[st[p].kids[i]].name.value
    {
      SegmentOfName(st[st[p].kids[i]].name.value);
    }
  }

  /** The children of `p` but the one at `k` are still there, under their names. */
  predicate KidsKept(st: Store, r: Store, p: Id, k: int)
    requires Ordered(st) && 0 <= p < |st| && 0 <= k < |st[p].kids|
  {
    assert KidsIn(st, p);
    && |r| == |st| && Ordered(r)
    && r[p].kids == st[p].kids[..k] + st[p].kids[k + 1..]
    && forall i :: 0 <= i < |st[p].kids| ==> r[st[p].kids[i]].name == st[st[p].kids[i]].name
  }

  lemma TakingOutKeeps(st: Store, r: Store, p: Id, k: int)
    requires Ordered(st) && 0 <= p < |st| && 0 <= k < |st[p].kids| && TookOut(st, r, p, k)
    ensures KidsKept(st, r, p, k)
  {
    assert KidsIn(st, p);
  }

  lemma KeptHasName(st: Store, r: Store, p: Id, name: string, k: int, j: int)
    requires Ordered(st) && 0 <= p < |st| && 0 <= k < |st[p].kids| && KidsKept(st, r, p, k) && HasName(r, p, name, j)
    ensures HasName(st, p, name, if j < k then j else j + 1)
  {
    assert KidsIn(st, p) && KidsIn(r, p);
    assert r[p].kids[j] == st[p].kids[if j < k then j else j + 1];
  }

  lemma OthersStay(st: Store, r: Store, p: Id, name: string, k: int)
    requires WellFormed(st) && Live(st, p) && st[p].stype == TypeGroup && HasName(st, p, name, k) && TookOut(st, r, p, k)
    ensures forall j :: !HasName(r, p, name, j)
  {
    OneHasName(st, p, name);
    TakingOutKeeps(st, r, p, k);
    forall j | HasName(r, p, name, j)
      ensures false
    {
      KeptHasName(st, r, p, name, k, j);
    }
  }

  class Config {
    var store: Store

    ghost predicate Valid()
      reads this
    {
      WellFormed(store)
    }

    /** `config_init`: the root, an empty group without a name and a parent. */
    constructor ()
      ensures Valid() && store == INITIAL_STORE
      ensures |store| == 1 && IsNew(store[0], None, TypeGroup, -1)
    {
      store := INITIAL_STORE;
      InitialIsWellFormed();
    }

    /** `__config_list_search`. */
    method ListSearch(kids: seq<Id>, name: string) returns (k: int)
      requires forall j :: 0 <= j < |kids| ==> 0 <= kids[j] < |store|
      ensures k == SearchFrom(store, kids, name, 0)
    {
      var i := 0;
      while i < |kids|
        invariant i <= |kids| && SearchFrom(store, kids, name, 0) == SearchFrom(store, kids, name, i)
      {
        if store[kids[i]].name.Some? {
          var r := NameCompare(name, store[kids[i]].name.value);
          if r == 0 {
            return i;
          }
        }
        i := i + 1;
      }
      k := -1;
    }

    /** `config_setting_get_member`. */
    method Member(i: Id, name: string) returns (r: Id)
      requires Valid() && Live(store, i)
      ensures r == GetMember(store, i, name)
    {
      assert KidsIn(store, i);
      if store[i].stype != TypeGroup {
        return NULL;
      }
      var k := ListSearch(store[i].kids, name);
      r := if k < 0 then NULL else store[i].kids[k];
    }

    /** `config_setting_create`: only an aggregate can have children. */
    method CreateSetting(parent: Id, name: Option<string>, t: SettingType) returns (r: Id)
      requires 0 <= parent < |store|
      modifies this
      ensures if IsAggregate(old(store)[parent].stype)
              then r == |old(store)| && store == Create(old(store), parent, name, t)
              else r == NULL && store == old(store)
    {
      if !IsAggregate(store[parent].stype) {
        return NULL;
      }
      r := |store|;
      var setting := Setting(name, t, FORMAT_DEFAULT, Zero(t), [], parent, false);
      store := store + [setting];
      store := store[parent := store[parent].(kids := store[parent].kids + [r])];
    }

    /** `config_setting_add`. */
    method Add(parent: Id, name: Option<string>, t: SettingType) returns (r: Id)
      requires Valid() && Live(store, parent) && (store[parent].stype == TypeGroup ==> name.Some?)
      modifies this
      ensures Valid()
      ensures match Settings.Add(old(store), parent, name, t)
              case None => r == NULL && store == old(store)
              case Some(st) => r == |old(store)| && store == st
      ensures r != NULL <==> MayAdd(old(store), parent, name)
      ensures r != NULL ==>
                && r == |old(store)| && PutIn(old(store), store, parent, store[r])
                && IsNew(store[r], if old(store)[parent].stype == TypeGroup then name else None, t, parent)
    {
      AddKeeps(store, parent, name, t);
      AddWhenItMay(store, parent, name, t);
      var n := if store[parent].stype in {TypeArray, TypeList} then None else name;
      if n.Some? {
        var ok := ValidateName(n.value);
        if !ok {
          return NULL;
        }
        var taken := Member(parent, n.value);
        if taken != NULL {
          return NULL;
        }
      }
      r := CreateSetting(parent, n, t);
    }

    /** `__config_setting_destroy`, with `__config_list_destroy`: every setting is freed once. */
    method Destroy(i: Id)
      requires Coherent(store, i)
      modifies this
      ensures store == Freed(old(store), i)
      decreases |store| - i
    {
      ghost var st := store;
      assert CoherentAt(st, i, i) && KidsIn(st, i);
      var kids := store[i].kids;
      for j := 0 to |kids|
        invariant FreedBelow(st, store, kids[..j])
      {
        KidStaysCoherent(st, store, i, j);
        ghost var m := store;
        Destroy(kids[j]);
        OneMoreFreed(st, m, store, kids[..j], kids[j]);
        assert kids[..j] + [kids[j]] == kids[..j + 1];
      }
      assert kids[..|kids|] == kids;
      AllKidsFreed(st, store, i);
      store := store[i := store[i].(freed := true)];
    }

    /** `__config_list_remove` and the destruction of what was removed. */
    method TakeOut(parent: Id, k: int)
      requires Valid() && Live(store, parent) && 0 <= k < |store[parent].kids|
      modifies this
      ensures Valid() && store == Removed(old(store), parent, k) && TookOut(old(store), store, parent, k)
    {
      RemovedTakesOut(store, parent, k);
      RemoveKeeps(store, parent, k);
      TakenOutIsCoherent(store, parent, k);
      var removed := store[parent].kids[k];
      store := store[parent := store[parent].(kids := Without(store[parent].kids, k))];
      Destroy(removed);
    }

    /** `config_setting_remove`. */
    method Remove(parent: Id, name: string) returns (ok: bool)
      requires Valid() && Live(store, parent)
      modifies this
      ensures Valid()
      ensures match Operations.Remove(old(store), parent, name)
              case None => !ok && store == old(store)
              case Some(st) => ok && store == st
      ensures ok <==> old(store)[parent].stype == TypeGroup && exists k :: HasName(old(store), parent, name, k)
      ensures ok ==> exists k :: HasName(old(store), parent, name, k) && TookOut(old(store), store, parent, k)
      ensures ok ==> forall k :: !HasName(store, parent, name, k)
    {
      assert KidsIn(store, parent);
      if store[parent].stype != TypeGroup {
        return false;
      }
      var k := ListSearch(store[parent].kids, name);
      if k < 0 {
        return false;
      }
      assert HasName(store, parent, name, k);
      TakeOut(parent, k);
      OthersStay(old(store), store, parent, name, k);
      ok := true;
    }

    /** `config_setting_remove_elem`. */
    method RemoveElem(parent: Id, idx: int) returns (ok: bool)
      requires Valid() && Live(store, parent)
      modifies this
      ensures Valid()
      ensures match Operations.RemoveElem(old(store), parent, idx)
              case None => !ok && store == old(store)
              case Some(st) => ok && store == st
      ensures ok <==> old(store)[parent].stype in {TypeGroup, TypeArray, TypeList} && 0 <= idx < |old(store)[parent].kids|
      ensures ok ==> TookOut(old(store), store, parent, idx)
    {
      if !IsAggregate(store[parent].stype) || idx < 0 || idx >= |store[parent].kids| {
        return false;
      }
      TakeOut(parent, idx);
      ok := true;
    }

    /** `config_setting_set_int` and its four siblings. */
    method Set(i: Id, v: Scalar) returns (ok: bool)
      requires Valid() && Live(store, i)
      modifies this
      ensures Valid()
      ensures match SetScalar(old(store), i, v)
              case None => !ok && store == old(store)
              case Some(st) => ok && store == st
      ensures ok <==> Takes(old(store)[i].stype, v)
      ensures ok ==> Changed(old(store), store, i) && Holds(store[i], old(store)[i].stype, v) && store[i].format == old(store)[i].format
    {
      SetWhenItTakes(store, i, v);
      SetScalarKeeps(store, i, v);
      assert KidsIn(store, i) && Typed(store[i]);
      var r := Assign(store[i], v);
      if r == None {
        return false;
      }
      store := store[i := r.value];
      ok := true;
    }

    /** The element that is to be set: a new one for a negative index, with the type of the value. */
    method Element(vector: Id, idx: int, v: Scalar) returns (r: Id)
      requires Valid() && Live(store, vector)
      modifies this
      ensures Valid()
      ensures r == NULL ==> store == old(store)
      ensures r == NULL <==>
                var st := old(store);
                || st[vector].stype !in {TypeArray, TypeList}
                || if idx < 0 then !CheckType(st, vector, TypeOf(v)) else GetElem(st, vector, idx) == NULL
      ensures r != NULL ==>
                && Live(store, r)
                && if idx < 0 then r == |old(store)| && store == Create(old(store), vector, None, TypeOf(v))
                   else r == GetElem(old(store), vector, idx) && store == old(store)
    {
      LiveIsTyped(store, vector);
      if store[vector].stype !in {TypeArray, TypeList} {
        return NULL;
      }
      if idx < 0 {
        if store[vector].kids != [] && store[vector].stype != TypeList && store[store[vector].kids[0]].stype != TypeOf(v) {
          return NULL;
        }
        CreateKeeps(store, vector, None, TypeOf(v));
        r := CreateSetting(vector, None, TypeOf(v));
      } else {
        r := GetElem(store, vector, idx);
      }
    }

    /** `config_setting_set_int_elem` and its four siblings. */
    method SetElem(vector: Id, idx: int, v: Scalar) returns (r: Id)
      requires Valid() && Live(store, vector)
      modifies this
      ensures Valid()
      ensures match Operations.SetElem(old(store), vector, idx, v)
              case None => r == NULL && store == old(store)
              case Some(st) => store == st && r == if idx < 0 then |old(store)| else GetElem(old(store), vector, idx)
      ensures r != NULL <==> TakesElem(old(store), vector, idx, v)
      ensures r != NULL ==> SetsElem(old(store), store, vector, idx, v) && r == if idx < 0 then |old(store)| else old(store)[vector].kids[idx]
    {
      SetElemEffect(store, vector, idx, v);
      SetElemKeeps(store, vector, idx, v);
      r := Element(vector, idx, v);
      if r == NULL {
        return;
      }
      var ok := Set(r, v);
      if !ok {
        return NULL;
      }
    }

    /** `config_setting_set_format`: integers have a format, one of two. */
    method SetFormat(i: Id, format: int) returns (ok: bool)
      requires Valid() && Live(store, i)
      modifies this
      ensures Valid() && store == old(store)[i := Settings.SetFormat(old(store)[i], format)]
      ensures ok <==> old(store)[i].stype in {TypeInt, TypeInt64} && format in {0, 1}
      ensures !ok ==> store == old(store)
      ensures ok ==> Changed(old(store), store, i) && store[i] == old(store)[i].(format := format)
    {
      LiveIsTyped(store, i);
      UpdateKeeps(store, i, Settings.SetFormat(store[i], format));
      ok := store[i].stype in {TypeInt, TypeInt64} && format in {FORMAT_DEFAULT, FORMAT_HEX};
      if ok {
        store := store[i := store[i].(format := format)];
      }
    }

    /** `config_setting_index`. */
    method Index(i: Id) returns (k: int)
      requires Valid() && Live(store, i)
      ensures i == 0 ==> k == -1
      ensures i != 0 ==>
                var p := store[i].parent; 0 <= p < |store| && 0 <= k < |store[p].kids| && store[p].kids[k] == i
    {
      assert NodeOk(store, i);
      if store[i].parent == NULL {
        return -1;
      }
      var kids := store[store[i].parent].kids;
      for j := 0 to |kids|
        invariant i in kids[j..]
      {
        if kids[j] == i {
          return j;
        }
      }
      assert false;
    }
  }
}
