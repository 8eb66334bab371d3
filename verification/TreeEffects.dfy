/**
 What an operation does to the tree, said of the records and the children before and after it.
 */
module TreeEffects {
  import opened Options
  import opened Settings
  import opened Trees
  import opened TreeInvariant
  import opened Operations

  // ----- taking out a child

  /**
   The child at position `k` of `p` is gone and the others keep their order; exactly the records
   below it are freed, and everything else is as it was.
   */
  ghost predicate TookOut(st: Store, r: Store, p: Id, k: int)
    requires Ordered(st) && 0 <= p < |st| && 0 <= k < |st[p].kids|
  {
    && |r| == |st| && Ordered(r)
    && r[p] == st[p].(kids := st[p].kids[..k] + st[p].kids[k + 1..])
    && (forall c :: 0 <= c < |st| && c != p ==>
          r[c] == if Under(st, st[p].kids[k], c) then st[c].(freed := true) else st[c])
    && Children(r, p) == Children(st, p)[..k] + Children(st, p)[k + 1..]
  }

  /** Freeing does not show in a tree. */
  lemma {:induction false} AbsIgnoresFreed(st: Store, r: Store, i: Id)
    requires Ordered(st) && Ordered(r) && 0 <= i < |st| == |r|
    requires forall j :: i <= j < |st| ==> r[j] == st[j].(freed := r[j].freed)
    ensures Abs(r, i) == Abs(st, i)
    decreases |st| - i
  {
    assert KidsIn(st, i) && KidsIn(r, i);
    forall j | 0 <= j < |st[i].kids|
      ensures Abs(r, st[i].kids[j]) == Abs(st, st[i].kids[j])
    {
      AbsIgnoresFreed(st, r, st[i].kids[j]);
    }
    assert AbsKids(r, i, r[i].kids) == AbsKids(st, i, st[i].kids);
  }

  lemma RemovedRecords(st: Store, p: Id, k: int)
    requires WellFormed(st) && Live(st, p) && 0 <= k < |st[p].kids|
    ensures var r := Removed(st, p, k);
            && r[p] == st[p].(kids := st[p].kids[..k] + st[p].kids[k + 1..])
            && forall c :: 0 <= c < |st| && c != p ==>
                 r[c] == if Under(st, st[p].kids[k], c) then st[c].(freed := true) else st[c]
  {
    var x, m := st[p].kids[k], st[p := st[p].(kids := Without(st[p].kids, k))];
    assert KidsIn(st, p);
    if Under(st, x, p) {
      UnderIsLater(st, x, p);
    }
    forall c
      ensures Under(m, x, c) == Under(st, x, c)
    {
      UnderSame(st, m, x, c);
    }
  }

  lemma RemovedTakesOut(st: Store, p: Id, k: int)
    requires WellFormed(st) && Live(st, p) && 0 <= k < |st[p].kids|
    ensures TookOut(st, Removed(st, p, k), p, k)
  {
    var r := Removed(st, p, k);
    RemoveKeeps(st, p, k);
    RemovedRecords(st, p, k);
    assert KidsIn(st, p) && KidsIn(r, p);
    forall j | 0 <= j < |st[p].kids|
      ensures Abs(r, st[p].kids[j]) == Abs(st, st[p].kids[j])
    {
      AbsIgnoresFreed(st, r, st[p].kids[j]);
    }
    assert forall j :: 0 <= j < |r[p].kids| ==> Children(r, p)[j] == Children(st, p)[if j < k then j else j + 1];
    assert Children(r, p) == Children(st, p)[..k] + Children(st, p)[k + 1..];
  }

  lemma OthersAreNamed(st: Store, p: Id, k: int, i: int)
    requires WellFormed(st) && Live(st, p) && st[p].stype == TypeGroup && 0 <= k < |st[p].kids| && 0 <= i < |st[p].kids| && i != k
    ensures KidsIn(st, p) && st[st[p].kids[i]].name != st[st[p].kids[k]].name
  {
    assert NodeOk(st, p) && KidsIn(st, p);
  }

  /** No child has this name any more. */
  lemma NameIsGone(st: Store, r: Store, p: Id, k: int)
    requires WellFormed(st) && Live(st, p) && st[p].stype == TypeGroup && 0 <= k < |st[p].kids| && TookOut(st, r, p, k)
    ensures KidsIn(r, p) && forall j :: 0 <= j < |r[p].kids| ==> r[r[p].kids[j]].name != st[st[p].kids[k]].name
  {
    assert KidsIn(st, p) && KidsIn(r, p);
    forall j | 0 <= j < |r[p].kids|
      ensures r[r[p].kids[j]].name != st[st[p].kids[k]].name
    {
      var i := if j < k then j else j + 1;
      assert r[p].kids[j] == st[p].kids[i];
      OthersAreNamed(st, p, k, i);
    }
  }

  // ----- adding a child

  /** A new setting `s` is the last record and the last child of `p`; nothing else has changed. */
  ghost predicate PutIn(st: Store, r: Store, p: Id, s: Setting)
    requires Ordered(st) && 0 <= p < |st|
  {
    && |r| == |st| + 1 && Ordered(r)
    && r[p] == st[p].(kids := st[p].kids + [|st|])
    && (forall c :: 0 <= c < |st| && c != p ==> r[c] == st[c])
    && r[|st|] == s
    && Children(r, p) == Children(st, p) + [Abs(r, |st|)]
  }

  /** A setting that has just been created: its value is zero. */
  predicate IsNew(s: Setting, name: Option<string>, t: SettingType, p: Id) {
    && s.name == name && s.stype == t && s.format == 0 && s.kids == [] && s.parent == p && !s.freed
    && (t == TypeInt ==> s.data == SInt(0))
    && (t == TypeInt64 ==> s.data == SInt64(0))
    && (t == TypeFloat ==> s.data == SFloat("0"))
    && (t == TypeString ==> s.data == SString(None))
    && (t == TypeBool ==> s.data == SBool(0))
  }

  lemma GrownByOne(st: Store, r: Store, p: Id, s: Setting)
    requires Ordered(st) && 0 <= p < |st| && |r| == |st| + 1 && Ordered(r) && r[|st|] == s
    requires r[p] == st[p].(kids := st[p].kids + [|st|]) && forall c :: 0 <= c < |st| && c != p ==> r[c] == st[c]
    ensures PutIn(st, r, p, s)
  {
    assert KidsIn(st, p) && KidsIn(r, p);
    forall j | 0 <= j < |st[p].kids|
      ensures Abs(r, st[p].kids[j]) == Abs(st, st[p].kids[j])
    {
      AbsFrame(st, r, st[p].kids[j]);
    }
    assert Children(r, p) == Children(st, p) + [Abs(r, |st|)];
  }

  lemma CreatedPutsIn(st: Store, p: Id, name: Option<string>, t: SettingType)
    requires Ordered(st) && 0 <= p < |st|
    ensures var r := Create(st, p, name, t); PutIn(st, r, p, r[|st|]) && IsNew(r[|st|], name, t, p)
  {
    var r := Create(st, p, name, t);
    GrownByOne(st, r, p, r[|st|]);
  }

  /** A setting can be added to an aggregate, to a group under a valid name that no member has. */
  predicate MayAdd(st: Store, p: Id, name: Option<string>)
    requires Ordered(st) && 0 <= p < |st| && (st[p].stype == TypeGroup ==> name.Some?)
  {
    assert KidsIn(st, p);
    && st[p].stype in {TypeGroup, TypeArray, TypeList}
    && (st[p].stype == TypeGroup ==>
          ValidName(name.value) && forall j :: 0 <= j < |st[p].kids| ==> st[st[p].kids[j]].name != name)
  }

  lemma AddWhenItMay(st: Store, p: Id, name: Option<string>, t: SettingType)
    requires WellFormed(st) && Live(st, p) && (st[p].stype == TypeGroup ==> name.Some?)
    ensures var r := Add(st, p, name, t);
            && (r.Some? <==> MayAdd(st, p, name))
            && (r.Some? ==> PutIn(st, r.value, p, r.value[|st|]) &&
                            IsNew(r.value[|st|], if st[p].stype == TypeGroup then name else None, t, p))
  {
    assert NodeOk(st, p) && KidsIn(st, p);
    if st[p].stype == TypeGroup && ValidName(name.value) {
      MemberIsNamed(st, p, name.value);
    }
    if IsAggregate(st[p].stype) {
      CreatedPutsIn(st, p, if st[p].stype == TypeGroup then name else None, t);
    }
  }

  // ----- finding a child

  /** The member with a valid name is the child that has it; there is none when no child does. */
  lemma MemberIsNamed(st: Store, p: Id, name: string)
    requires WellFormed(st) && Live(st, p) && ValidName(name)
    ensures var r := GetMember(st, p, name);
            && (r != NULL ==> r in st[p].kids && st[r].name == Some(name))
            && (r == NULL <==> st[p].stype != TypeGroup ||
                               (KidsIn(st, p) && forall j :: 0 <= j < |st[p].kids| ==> st[st[p].kids[j]].name != Some(name)))
  {
    assert NodeOk(st, p) && KidsIn(st, p);
    SegmentOfName(name);
    if st[p].stype == TypeGroup {
      forall j | 0 <= j < |st[p].kids|
        ensures SameName(name, st[st[p].kids[j]].name.value) <==> st[st[p].kids[j]].name == Some(name)
      {
        SegmentOfName(st[st[p].kids[j]].name.value);
      }
    }
  }

  // ----- changing a value

  /** Only the record of `i` has changed, and not in what links it to others. */
  ghost predicate Changed(st: Store, r: Store, i: Id) {
    && 0 <= i < |st| == |r|
    && (forall c :: 0 <= c < |st| && c != i ==> r[c] == st[c])
    && r[i].name == st[i].name && r[i].kids == st[i].kids && r[i].parent == st[i].parent && r[i].freed == st[i].freed
  }

  /** What a setter leaves of the value it is given: a number that does not fit an `int` becomes 0. */
  predicate Holds(s: Setting, was: SettingType, v: Scalar) {
    if was == TypeInt && v.SInt64? then
      s.stype == TypeInt && s.data == SInt(if -0x8000_0000 <= v.llval <= 0x7FFF_FFFF then v.llval else 0)
    else s.data == v && OfType(s.stype, v)
  }

  predicate OfType(t: SettingType, v: Scalar) {
    match v
    case SInt(_) => t == TypeInt
    case SInt64(_) => t == TypeInt64
    case SFloat(_) => t == TypeFloat
    case SString(_) => t == TypeString
    case SBool(_) => t == TypeBool
  }

  /** A setting takes a value of its own type, without a type any, and an `int` also a 64-bit integer. */
  predicate Takes(t: SettingType, v: Scalar) {
    t == TypeNone || OfType(t, v) || (t == TypeInt && v.SInt64?)
  }

  lemma SetWhenItTakes(st: Store, i: Id, v: Scalar)
    requires Ordered(st) && 0 <= i < |st|
    ensures var r := SetScalar(st, i, v);
            && (r.Some? <==> Takes(st[i].stype, v))
            && (r.Some? ==> Changed(st, r.value, i) && Holds(r.value[i], st[i].stype, v) && r.value[i].format == st[i].format)
  {
  }

  /** An element is appended if it has the type of the first one or the vector is a list; otherwise it must take the value. */
  predicate TakesElem(st: Store, vector: Id, idx: int, v: Scalar)
    requires Ordered(st) && 0 <= vector < |st|
  {
    assert KidsIn(st, vector);
    var kids := st[vector].kids;
    && st[vector].stype in {TypeArray, TypeList}
    && if idx < 0 then kids == [] || st[vector].stype == TypeList || OfType(st[kids[0]].stype, v)
       else idx < |kids| && Takes(st[kids[idx]].stype, v)
  }

  /** A negative index appends an element, any other sets the one at its place. */
  ghost predicate SetsElem(st: Store, r: Store, vector: Id, idx: int, v: Scalar)
    requires Ordered(st) && 0 <= vector < |st| && idx < |st[vector].kids|
  {
    if idx < 0 then
      && PutIn(st, r, vector, Last(r))
      && Holds(Last(r), TypeNone, v) && Last(r).name == None && Last(r).parent == vector
    else
      var e := st[vector].kids[idx];
      Changed(st, r, e) && Holds(r[e], st[e].stype, v) && r[e].format == st[e].format
  }

  function Last(r: Store): Setting {
    if r == [] then Setting(None, TypeNone, 0, SInt(0), [], NULL, false) else r[|r| - 1]
  }

  /** The scalar setters of elements: which element is set, and when. */
  lemma SetElemEffect(st: Store, vector: Id, idx: int, v: Scalar)
    requires WellFormed(st) && Live(st, vector)
    ensures var r := SetElem(st, vector, idx, v);
            && (r.Some? <==> TakesElem(st, vector, idx, v))
            && (r.Some? ==> SetsElem(st, r.value, vector, idx, v))
  {
    LiveIsTyped(st, vector);
    var r := SetElem(st, vector, idx, v);
    if idx >= 0 {
      var e := GetElem(st, vector, idx);
      if e != NULL {
        SetWhenItTakes(st, e, v);
      }
    } else if r.Some? {
      GrownByOne(st, r.value, vector, r.value[|st|]);
    }
  }

  // ----- names

  /** A letter, by its code. */
  predicate IsLetterCode(c: int) {
    65 <= c <= 90 || 97 <= c <= 122
  }

  /** A name begins with a letter or a star, and goes on with letters, digits, stars, underscores and hyphens. */
  lemma NameCharacters(name: string)
    ensures ValidName(name) <==>
              && name != [] && (IsLetterCode(name[0] as int) || name[0] == '*')
              && forall i :: 1 <= i < |name| ==>
                   IsLetterCode(name[i] as int) || 48 <= name[i] as int <= 57 || name[i] in "*_-"
  {
    forall i | 0 <= i < |name|
      ensures IsNameStart(name[i]) <==> IsLetterCode(name[i] as int) || name[i] == '*'
      ensures IsNameChar(name[i]) <==> IsLetterCode(name[i] as int) || 48 <= name[i] as int <= 57 || name[i] in "*_-"
    {
    }
  }

  /** The steps of a path are separated by colons, dots and slashes. */
  lemma Separators(c: char)
    ensures IsPathToken(c) <==> c == ':' || c == '.' || c == '/'
  {
  }
}
