/**
 The semantic actions compute the meaning of a derivation, and abort exactly when a group
 repeats a name or an array mixes types.
 */
module Evaluation {
  import opened Options
  import opened Tokens
  import opened Grammar
  import opened LrDriver
  import opened Settings
  import opened Trees
  import opened Actions
  import opened Meaning

  // ----- the actions of a rule, child by child

  lemma EvalOne<S>(act: SemAction<S>, n: int, kids: seq<PTree>, below: Token, sem: S)
    requires |kids| == 1
    ensures Eval(act, Node(n, kids), below, sem) ==
            match Eval(act, kids[0], below, sem)
            case None => None
            case Some(m) => act(n, Val(kids[0]), m)
  {
    match Eval(act, kids[0], below, sem)
    case None =>
    case Some(m) => assert EvalKids(act, kids[1..], Val(kids[0]), m) == Some(m);
  }

  lemma EvalTwo<S>(act: SemAction<S>, n: int, kids: seq<PTree>, below: Token, sem: S)
    requires |kids| == 2
    ensures Eval(act, Node(n, kids), below, sem) ==
            match Eval(act, kids[0], below, sem)
            case None => None
            case Some(m) =>
              match Eval(act, kids[1], Val(kids[0]), m)
              case None => None
              case Some(m') => act(n, Val(kids[1]), m')
  {
    match Eval(act, kids[0], below, sem)
    case None =>
    case Some(m) => EvalOne(act, n, kids[1..], Val(kids[0]), m);
  }

  lemma EvalThree<S>(act: SemAction<S>, n: int, kids: seq<PTree>, below: Token, sem: S)
    requires |kids| == 3
    ensures Eval(act, Node(n, kids), below, sem) ==
            match Eval(act, kids[0], below, sem)
            case None => None
            case Some(m) => Eval(act, Node(n, kids[1..]), Val(kids[0]), m)
  {
  }

  /** An aggregate: its opening action, its contents and its closing action. */
  lemma EvalBracket<S>(act: SemAction<S>, n: int, mark: int, kids: seq<PTree>, below: Token, sem: S)
    requires |kids| == 4 && kids[0].Leaf? && kids[1] == Node(mark, []) && kids[3].Leaf?
    ensures Eval(act, Node(n, kids), below, sem) ==
            match act(mark, Val(kids[0]), sem)
            case None => None
            case Some(m) =>
              match Eval(act, kids[2], TokGarbage, m)
              case None => None
              case Some(m') => act(n, Val(kids[3]), m')
  {
    assert EvalKids(act, kids, below, sem) == EvalKids(act, kids[1..], Val(kids[0]), sem);
    assert Eval(act, kids[1], Val(kids[0]), sem) == act(kids[1].rule, Val(kids[0]), sem);
    assert kids[1..][1..] == kids[2..];
    match act(mark, Val(kids[0]), sem)
    case None =>
    case Some(m) => EvalTwo(act, n, kids[2..], TokGarbage, m);
  }

  /** A setting: the action after its name, then its value and its terminator. */
  lemma EvalNamed<S>(act: SemAction<S>, kids: seq<PTree>, below: Token, sem: S)
    requires |kids| == 5 && kids[0].Leaf? && kids[1] == Node(11, []) && kids[2].Leaf?
    ensures Eval(act, Node(12, kids), below, sem) ==
            match act(11, Val(kids[0]), sem)
            case None => None
            case Some(m) => Eval(act, Node(12, kids[3..]), Val(kids[2]), m)
  {
    assert EvalKids(act, kids, below, sem) == EvalKids(act, kids[1..], Val(kids[0]), sem);
    assert Eval(act, kids[1], Val(kids[0]), sem) == act(kids[1].rule, Val(kids[0]), sem);
    assert kids[1..][1..] == kids[2..] && kids[2..][1..] == kids[3..];
    match act(11, Val(kids[0]), sem)
    case None =>
    case Some(m) =>
      assert EvalKids(act, kids[2..], TokGarbage, m) == EvalKids(act, kids[3..], Val(kids[2]), m);
  }

  // ----- the rules of the grammar, with their actions

  const UNIT_RULES: set<int> := {3, 4, 7, 17, 18, 19, 20, 30, 33, 34, 37}

  /** A rule with one symbol and no action. */
  lemma EvalUnit(t: PTree, below: Token, c: Ctx)
    requires t.Node? && t.rule in UNIT_RULES && |t.kids| == 1
    ensures Eval(Action, t, below, c) == Eval(Action, t.kids[0], below, c)
  {
    assert t == Node(t.rule, t.kids);
    EvalOne(Action, t.rule, t.kids, below, c);
  }

  /** Rules 31 and 35: an element after a comma. */
  lemma EvalMore(t: PTree, below: Token, c: Ctx)
    requires t.Node? && t.rule in {31, 35} && |t.kids| == 3 && t.kids[1].Leaf?
    ensures Eval(Action, t, below, c) ==
            match Eval(Action, t.kids[0], below, c)
            case None => None
            case Some(m) => Eval(Action, t.kids[2], Val(t.kids[1]), m)
  {
    assert t == Node(t.rule, t.kids);
    EvalThree(Action, t.rule, t.kids, below, c);
    match Eval(Action, t.kids[0], below, c)
    case None =>
    case Some(m) => EvalTwo(Action, t.rule, t.kids[1..], Val(t.kids[0]), m);
  }

  /** Rule 5: one more setting. */
  lemma EvalMoreSettings(t: PTree, below: Token, c: Ctx)
    requires t.Node? && t.rule == 5 && |t.kids| == 2
    ensures Eval(Action, t, below, c) ==
            match Eval(Action, t.kids[0], below, c)
            case None => None
            case Some(m) => Eval(Action, t.kids[1], Val(t.kids[0]), m)
  {
    assert t == Node(5, t.kids);
    EvalTwo(Action, 5, t.kids, below, c);
  }

  /** Rule 12: a name and its value. */
  lemma EvalNameAndValue(t: PTree, below: Token, c: Ctx)
    requires IsSetting(t)
    ensures Eval(Action, t, below, c) ==
            match NewSetting(c, TextOf(t.kids[0].tok))
            case None => None
            case Some(m) => Eval(Action, t.kids[3], Val(t.kids[2]), m)
  {
    assert t == Node(12, t.kids);
    EvalNamed(Action, t.kids, below, c);
    match NewSetting(c, TextOf(t.kids[0].tok))
    case None =>
    case Some(m) =>
      EvalTwo(Action, 12, t.kids[3..], Val(t.kids[2]), m);
      match Eval(Action, t.kids[3], Val(t.kids[2]), m)
      case None =>
      case Some(m') => EvalTerminator(t.kids[4], Val(t.kids[3]), m');
  }

  lemma EvalTerminator(t: PTree, below: Token, c: Ctx)
    requires IsTerminator(t)
    ensures Eval(Action, t, below, c) == Some(c)
  {
    if t.rule == 9 {
      assert t == Node(9, t.kids);
      EvalOne(Action, 9, t.kids, below, c);
    } else if t.rule == 10 {
      assert t == Node(10, t.kids);
      EvalOne(Action, 10, t.kids, below, c);
    }
  }

  /** Rules 14, 16 and 39: an aggregate begins and ends. */
  lemma EvalOpenClose(t: PTree, n: int, mark: int, ty: SettingType, below: Token, c: Ctx)
    requires IsBracket(t, n, mark)
    requires (n, mark, ty) in {(14, 13, TypeArray), (16, 15, TypeList), (39, 38, TypeGroup)}
    ensures Eval(Action, t, below, c) ==
            match Open(c, ty)
            case None => None
            case Some(m) =>
              match Eval(Action, t.kids[2], TokGarbage, m)
              case None => None
              case Some(m') => Close(m')
  {
    assert t == Node(n, t.kids);
    EvalBracket(Action, n, mark, t.kids, below, c);
  }

  // ----- one value

  /** Where a value is expected: in an array or list, or right after a new setting of a group. */
  ghost predicate Expecting(c: Ctx) {
    Sane(c) && c.str == None && (InVector(c) || Pending(c))
  }

  ghost predicate Pending(c: Ctx)
    requires Sane(c)
  {
    && c.st[c.parent].stype == TypeGroup
    && c.parent < c.setting == |c.st| - 1
    && c.st[c.setting].stype == TypeNone && c.st[c.setting].kids == []
    && c.st[c.setting].format == FORMAT_DEFAULT
    && c.st[c.setting].parent == c.parent
  }

  /** The value `v` has been put where it was expected, and nothing else has changed. */
  ghost predicate Delivers(c: Ctx, c': Ctx, v: Value)
    requires Sane(c)
  {
    && Sane(c') && c'.parent == c.parent && c'.str == None
    && if InVector(c) then Extends(c.st, c'.st, c.parent, [Tree(None, v)]) else Fills(c.st, c'.st, v)
  }

  predicate FormatFits(v: Scalar, format: int) {
    format == FORMAT_DEFAULT || (format == FORMAT_HEX && (v.SInt? || v.SInt64?))
  }

  /** `CheckType` on the store is the test on the tags of the children. */
  lemma CheckTypeOnTrees(st: Store, i: Id, v: Scalar)
    requires Ordered(st) && 0 <= i < |st| && st[i].stype == TypeArray
    ensures CheckType(st, i, TypeOf(v)) <==>
            Children(st, i) == [] || Tag(Children(st, i)[0].value) == TypeOf(v)
  {
    assert KidsIn(st, i);
    if st[i].kids != [] {
      assert KidsIn(st, st[i].kids[0]);
      assert Children(st, i)[0] == Abs(st, st[i].kids[0]);
    }
  }

  lemma SetValueInVector(c: Ctx, v: Scalar, format: int)
    requires Sane(c) && c.str == None && InVector(c) && FormatFits(v, format)
    ensures var r := SetValue(c, v, format);
            if c.st[c.parent].stype == TypeArray && !CheckType(c.st, c.parent, TypeOf(v)) then r == None
            else r.Some? && Delivers(c, r.value, VScalar(v, format))
  {
    match AppendElem(c.st, c.parent, v)
    case None =>
    case Some(st) => AppendedElem(c.st, st, c.parent, v, format);
  }

  lemma AppendedElem(st: Store, m: Store, p: Id, v: Scalar, format: int)
    requires Ordered(st) && 0 <= p < |st| && AppendElem(st, p, v) == Some(m) && FormatFits(v, format)
    ensures var st' := Update(m, |st|, SetFormat(m[|st|], format));
            Extends(st, st', p, [Tree(None, VScalar(v, format))])
  {
    var st' := Update(m, |st|, SetFormat(m[|st|], format));
    assert Fills(Create(st, p, None, TypeOf(v)), st', VScalar(v, format));
    CreateThenFill(st, st', p, None, TypeOf(v), VScalar(v, format));
  }

  lemma SetValueOfSetting(c: Ctx, v: Scalar, format: int)
    requires Sane(c) && c.str == None && Pending(c) && FormatFits(v, format)
    ensures var r := SetValue(c, v, format);
            r.Some? && Delivers(c, r.value, VScalar(v, format))
  {
  }

  /** The strings of a string value are collected one after the other. */
  lemma {:induction false} EvalString(t: PTree, below: Token, c: Ctx)
    requires IsString(t) && Sane(c)
    ensures Eval(Action, t, below, c) == Some(c.(str := Append(c.str, StringOf(t))))
    decreases t
  {
    if t.rule == 21 {
      assert t == Node(21, t.kids);
      EvalOne(Action, 21, t.kids, below, c);
    } else {
      assert t == Node(22, t.kids);
      EvalTwo(Action, 22, t.kids, below, c);
      EvalString(t.kids[0], below, c);
      var m := c.(str := Append(c.str, StringOf(t.kids[0])));
      var pre := match c.str case None => [] case Some(u) => u;
      assert pre + StringOf(t.kids[0]) + TextOf(t.kids[1].tok) == pre + StringOf(t);
    }
  }

  lemma EvalSimple(t: PTree, below: Token, c: Ctx)
    requires IsSimple(t) && Sane(c) && c.str == None
    ensures SimpleOf(t).VScalar? && FormatFits(SimpleOf(t).data, SimpleOf(t).format)
    ensures Eval(Action, t, below, c) == SetValue(c, SimpleOf(t).data, SimpleOf(t).format)
  {
    EvalOne(Action, t.rule, t.kids, below, c);
    if t.rule == 29 {
      EvalString(t.kids[0], below, c);
      assert Append(None, StringOf(t.kids[0])).value == StringOf(t.kids[0]);
      assert c.(str := Some(StringOf(t.kids[0]))).(str := None) == c;
    }
  }

  // ----- the contents of an aggregate

  /** If `ok`, the parent has been extended by `ts`; otherwise the parse has been aborted. */
  ghost predicate Grows(c: Ctx, r: Option<Ctx>, ts: seq<Tree>, ok: bool)
    requires Sane(c)
  {
    if ok then
      r.Some? && Sane(r.value) && r.value.parent == c.parent && r.value.str == None &&
      Extends(c.st, r.value.st, c.parent, ts)
    else r == None
  }

  lemma GrowsTwice(c: Ctx, r: Option<Ctx>, r': Option<Ctx>, us: seq<Tree>, vs: seq<Tree>, ok: bool, ok': bool)
    requires Sane(c) && Grows(c, r, us, ok)
    requires if ok then Grows(r.value, r', vs, ok') else r' == None
    ensures Grows(c, r', us + vs, ok && ok')
  {
    if ok && ok' {
      ExtendsTwice(c.st, r.value.st, r'.value.st, c.parent, us, vs);
    }
  }

  // ----- arrays

  ghost predicate ArrayGrows(c: Ctx, r: Option<Ctx>, ts: seq<Tree>)
    requires Sane(c)
  {
    Grows(c, r, ts, Homogeneous(Children(c.st, c.parent) + ts))
  }

  lemma ArrayGrowsByOne(c: Ctx, v: Scalar, format: int)
    requires Sane(c) && c.str == None && c.st[c.parent].stype == TypeArray && FormatFits(v, format)
    requires Homogeneous(Children(c.st, c.parent))
    ensures ArrayGrows(c, SetValue(c, v, format), [Tree(None, VScalar(v, format))])
  {
    SetValueInVector(c, v, format);
    CheckTypeOnTrees(c.st, c.parent, v);
    var acc, e := Children(c.st, c.parent), Tree(None, VScalar(v, format));
    assert (acc + [e])[|acc|] == e;
    assert forall i :: 0 <= i < |acc| ==> (acc + [e])[i] == acc[i];
  }

  lemma ArrayGrowsTwice(c: Ctx, r: Option<Ctx>, r': Option<Ctx>, us: seq<Tree>, e: Tree)
    requires Sane(c) && ArrayGrows(c, r, us)
    requires if r.Some? then ArrayGrows(r.value, r', [e]) else r' == None
    ensures ArrayGrows(c, r', us + [e])
  {
    var acc := Children(c.st, c.parent);
    assert forall i :: 0 <= i < |acc + us| ==> (acc + us)[i] == (acc + (us + [e]))[i];
    if r.Some? {
      ExtendsChildren(c.st, r.value.st, c.parent, us);
      assert acc + us + [e] == acc + (us + [e]);
      GrowsTwice(c, r, r', us, [e], true, Homogeneous(acc + us + [e]));
    }
  }

  lemma {:induction false} EvalSimples(t: PTree, below: Token, c: Ctx)
    requires IsSimples(t) && Sane(c) && c.str == None && c.st[c.parent].stype == TypeArray
    requires Homogeneous(Children(c.st, c.parent))
    ensures ArrayGrows(c, Eval(Action, t, below, c), SimplesOf(t))
    decreases t
  {
    if t.rule == 34 {
      EvalUnit(t, below, c);
      EvalSimple(t.kids[0], below, c);
      ArrayGrowsByOne(c, SimpleOf(t.kids[0]).data, SimpleOf(t.kids[0]).format);
    } else {
      EvalSimples(t.kids[0], below, c);
      EvalMoreSimples(t, below, c);
    }
  }

  lemma EvalMoreSimples(t: PTree, below: Token, c: Ctx)
    requires IsSimples(t) && t.rule == 35 && Sane(c) && c.str == None && c.st[c.parent].stype == TypeArray
    requires ArrayGrows(c, Eval(Action, t.kids[0], below, c), SimplesOf(t.kids[0]))
    ensures ArrayGrows(c, Eval(Action, t, below, c), SimplesOf(t))
  {
    var us, e := SimplesOf(t.kids[0]), Tree(None, SimpleOf(t.kids[2]));
    EvalMore(t, below, c);
    var r := Eval(Action, t.kids[0], below, c);
    if r.Some? {
      EvalSimpleInArray(t.kids[2], Val(t.kids[1]), c, r.value, us);
    }
    ArrayGrowsTwice(c, r, Eval(Action, t, below, c), us, e);
  }

  /** One more element, when `us` have been appended since `c0`. */
  lemma EvalSimpleInArray(t: PTree, below: Token, c0: Ctx, c: Ctx, us: seq<Tree>)
    requires IsSimple(t) && Sane(c0) && c0.st[c0.parent].stype == TypeArray && ArrayGrows(c0, Some(c), us)
    ensures ArrayGrows(c, Eval(Action, t, below, c), [Tree(None, SimpleOf(t))])
  {
    EvalSimple(t, below, c);
    ExtendsChildren(c0.st, c.st, c0.parent, us);
    ArrayGrowsByOne(c, SimpleOf(t).data, SimpleOf(t).format);
  }

  // ----- aggregates

  /** Where an aggregate may begin. */
  ghost predicate Opens(c: Ctx) {
    Expecting(c) && c.st[c.parent].stype != TypeArray
  }

  function AggregateOf(t: SettingType, ts: seq<Tree>): Value
    requires IsAggregate(t)
  {
    if t == TypeGroup then VGroup(ts) else if t == TypeArray then VArray(ts) else VList(ts)
  }

  /** An aggregate has begun: it is the last record, and it is empty. */
  ghost predicate Opened(c: Ctx, m: Ctx, t: SettingType)
    requires Sane(c)
  {
    && Sane(m) && m.str == None && m.parent == |m.st| - 1
    && m.st[m.parent].stype == t && m.st[m.parent].kids == [] && m.st[m.parent].parent == c.parent
    && (InVector(c) ==> m.st == Create(c.st, c.parent, None, t))
    && (!InVector(c) ==> |m.st| == |c.st| && m.st[m.parent].name == c.st[m.parent].name &&
                         c.st[m.parent].parent == c.parent &&
                         forall i :: 0 <= i < m.parent ==> m.st[i] == c.st[i])
  }

  lemma OpenAggregate(c: Ctx, t: SettingType)
    requires Opens(c) && IsAggregate(t)
    ensures var r := Open(c, t); r.Some? && Opened(c, r.value, t) && Children(r.value.st, r.value.parent) == []
  {
  }

  lemma CloseAggregate(c: Ctx, m: Ctx, m': Ctx, t: SettingType, ts: seq<Tree>)
    requires Opens(c) && IsAggregate(t) && Opened(c, m, t)
    requires Grows(m, Some(m'), ts, true)
    ensures var r := Close(m'); r.Some? && Delivers(c, r.value, AggregateOf(t, ts))
  {
    ExtendLast(m.st, m'.st, ts);
    if InVector(c) {
      CreateThenFill(c.st, m'.st, c.parent, None, t, AggregateOf(t, ts));
    } else {
      FillsLater(c.st, m.st, m'.st, AggregateOf(t, ts));
    }
  }

  /** If `ok`, the value has been delivered; otherwise the parse has been aborted. */
  ghost predicate Gives(c: Ctx, r: Option<Ctx>, v: Value, ok: bool)
    requires Sane(c)
  {
    if ok then r.Some? && Delivers(c, r.value, v) else r == None
  }

  lemma EvalAggregate(t: PTree, n: int, mark: int, ty: SettingType, ts: seq<Tree>, ok: bool, below: Token, c: Ctx)
    requires IsBracket(t, n, mark) && Opens(c)
    requires (n, mark, ty) in {(14, 13, TypeArray), (16, 15, TypeList), (39, 38, TypeGroup)}
    requires var r := Open(c, ty);
             r.Some? && Sane(r.value) ==> Grows(r.value, Eval(Action, t.kids[2], TokGarbage, r.value), ts, ok)
    ensures Gives(c, Eval(Action, t, below, c), AggregateOf(ty, ts), ok)
  {
    OpenAggregate(c, ty);
    var m := Open(c, ty).value;
    EvalOpenClose(t, n, mark, ty, below, c);
    if ok {
      CloseAggregate(c, m, Eval(Action, t.kids[2], TokGarbage, m).value, ty, ts);
    }
  }

  // ----- names

  /** A new name is refused exactly when it is not valid or a member has it already. */
  lemma NewSettingRefuses(c: Ctx, name: string, v: Value)
    requires Sane(c) && c.st[c.parent].stype == TypeGroup && NamesOk(Children(c.st, c.parent))
    ensures NewSetting(c, name) == None <==> !NamesOk(Children(c.st, c.parent) + [Tree(Some(name), v)])
  {
    var acc, e := Children(c.st, c.parent), Tree(Some(name), v);
    var kids := c.st[c.parent].kids;
    assert KidsIn(c.st, c.parent);
    assert forall i :: 0 <= i < |acc| ==> (acc + [e])[i] == acc[i] && c.st[kids[i]].name == acc[i].name;
    assert (acc + [e])[|acc|] == e;
    if ValidName(name) {
      SegmentOfName(name);
      var k := SearchFrom(c.st, kids, name, 0);
      forall i | 0 <= i < |acc|
        ensures SameName(name, acc[i].name.value) <==> name == acc[i].name.value
      {
        SegmentOfName(acc[i].name.value);
      }
      if k >= 0 {
        assert acc[k].name == e.name;
        assert (acc + [e])[k].name == (acc + [e])[|acc|].name;
      }
    }
  }

  /** After a new name the value of the setting is expected. */
  lemma NewSettingIsPending(c: Ctx, name: string)
    requires Sane(c) && c.str == None && c.st[c.parent].stype == TypeGroup && NewSetting(c, name).Some?
    ensures var m := NewSetting(c, name).value;
            Opens(m) && !InVector(m) && m.parent == c.parent && m.st == Create(c.st, c.parent, Some(name), TypeNone)
  {
  }

  // ----- the mutual recursion over values, lists and groups

  lemma {:induction false} EvalValue(t: PTree, below: Token, c: Ctx)
    requires IsValue(t) && Opens(c)
    ensures Gives(c, Eval(Action, t, below, c), ValueOf(t), Legal(ValueOf(t)))
    decreases t, 1
  {
    var k := t.kids[0];
    EvalUnit(t, below, c);
    match t.rule
    case 17 =>
      EvalSimple(k, below, c);
      if InVector(c) {
        SetValueInVector(c, SimpleOf(k).data, SimpleOf(k).format);
      } else {
        SetValueOfSetting(c, SimpleOf(k).data, SimpleOf(k).format);
      }
    case 18 =>
      EvalArray(k, below, c);
    case 19 =>
      EvalList(k, below, c);
    case 20 =>
      EvalGroup(k, below, c);
  }

  /** The contents of an array that has begun. */
  lemma EvalSimplesOpt(k: PTree, m: Ctx)
    requires IsSimplesOpt(k) && Sane(m) && m.str == None && m.st[m.parent].stype == TypeArray
    requires Children(m.st, m.parent) == []
    ensures Grows(m, Eval(Action, k, TokGarbage, m), SimplesOptOf(k), Homogeneous(SimplesOptOf(k)))
  {
    ExtendsNothing(m.st, m.parent);
    assert [] + SimplesOptOf(k) == SimplesOptOf(k);
    if k.rule == 37 {
      EvalUnit(k, TokGarbage, m);
      EvalSimples(k.kids[0], TokGarbage, m);
    }
  }

  lemma EvalArray(t: PTree, below: Token, c: Ctx)
    requires IsArray(t) && Opens(c)
    ensures Gives(c, Eval(Action, t, below, c), ArrayOf(t), Legal(ArrayOf(t)))
  {
    OpenAggregate(c, TypeArray);
    var m, k := Open(c, TypeArray).value, t.kids[2];
    EvalSimplesOpt(k, m);
    EvalAggregate(t, 14, 13, TypeArray, SimplesOptOf(k), Homogeneous(SimplesOptOf(k)), below, c);
  }

  lemma {:induction false} EvalList(t: PTree, below: Token, c: Ctx)
    requires IsList(t) && Opens(c)
    ensures Gives(c, Eval(Action, t, below, c), ListOf(t), Legal(ListOf(t)))
    decreases t, 0
  {
    OpenAggregate(c, TypeList);
    var m, k := Open(c, TypeList).value, t.kids[2];
    ExtendsNothing(m.st, m.parent);
    if k.rule == 33 {
      EvalUnit(k, TokGarbage, m);
      EvalValues(k.kids[0], TokGarbage, m);
    }
    EvalAggregate(t, 16, 15, TypeList, ValuesOptOf(k), AllLegal(ValuesOptOf(k)), below, c);
  }

  /** The contents of a group that has begun. */
  lemma {:induction false} EvalSettingsOpt(k: PTree, m: Ctx)
    requires IsSettingsOpt(k) && Sane(m) && m.str == None && m.st[m.parent].stype == TypeGroup
    requires Children(m.st, m.parent) == []
    ensures Grows(m, Eval(Action, k, TokGarbage, m), SettingsOptOf(k),
                  NamesOk(SettingsOptOf(k)) && AllLegal(SettingsOptOf(k)))
    decreases k, 2
  {
    ExtendsNothing(m.st, m.parent);
    assert [] + SettingsOptOf(k) == SettingsOptOf(k);
    if k.rule == 7 {
      EvalUnit(k, TokGarbage, m);
      EvalSettings(k.kids[0], TokGarbage, m);
    }
  }

  lemma {:induction false} EvalGroup(t: PTree, below: Token, c: Ctx)
    requires IsGroup(t) && Opens(c)
    ensures Gives(c, Eval(Action, t, below, c), GroupOf(t), Legal(GroupOf(t)))
    decreases t, 0
  {
    OpenAggregate(c, TypeGroup);
    var m, k := Open(c, TypeGroup).value, t.kids[2];
    EvalSettingsOpt(k, m);
    EvalAggregate(t, 39, 38, TypeGroup, SettingsOptOf(k),
                  NamesOk(SettingsOptOf(k)) && AllLegal(SettingsOptOf(k)), below, c);
  }

  lemma {:induction false} EvalValues(t: PTree, below: Token, c: Ctx)
    requires IsValues(t) && Sane(c) && c.str == None && c.st[c.parent].stype == TypeList
    ensures Grows(c, Eval(Action, t, below, c), ValuesOf(t), AllLegal(ValuesOf(t)))
    decreases t, 1
  {
    if t.rule == 30 {
      EvalUnit(t, below, c);
      EvalValue(t.kids[0], below, c);
    } else {
      var us, e := ValuesOf(t.kids[0]), Tree(None, ValueOf(t.kids[2]));
      EvalMore(t, below, c);
      EvalValues(t.kids[0], below, c);
      var r := Eval(Action, t.kids[0], below, c);
      if AllLegal(us) {
        EvalValue(t.kids[2], Val(t.kids[1]), r.value);
      }
      GrowsTwice(c, r, Eval(Action, t, below, c), us, [e], AllLegal(us), Legal(e.value));
    }
  }

  /** The condition for a group to take the settings `ts` after the ones it has. */
  predicate GroupTakes(acc: seq<Tree>, ts: seq<Tree>) {
    NamesOk(acc + ts) && AllLegal(ts)
  }

  lemma {:induction false} EvalSetting(t: PTree, below: Token, c: Ctx)
    requires IsSetting(t) && Sane(c) && c.str == None && c.st[c.parent].stype == TypeGroup
    requires NamesOk(Children(c.st, c.parent))
    ensures Grows(c, Eval(Action, t, below, c), [SettingOf(t)], GroupTakes(Children(c.st, c.parent), [SettingOf(t)]))
    decreases t, 0
  {
    var name := TextOf(t.kids[0].tok);
    EvalNameAndValue(t, below, c);
    NewSettingRefuses(c, name, ValueOf(t.kids[3]));
    OneSettingTaken(Children(c.st, c.parent), SettingOf(t));
    if NewSetting(c, name).Some? {
      var m := NewSetting(c, name).value;
      NewSettingIsPending(c, name);
      EvalValue(t.kids[3], Val(t.kids[2]), m);
      NamedIsGiven(c, name, m, Eval(Action, t.kids[3], Val(t.kids[2]), m), ValueOf(t.kids[3]), Legal(ValueOf(t.kids[3])));
    }
  }

  lemma OneSettingTaken(acc: seq<Tree>, e: Tree)
    ensures GroupTakes(acc, [e]) <==> NamesOk(acc + [e]) && Legal(e.value)
  {
    assert e in [e];
  }

  /** A new setting with its value is one more child. */
  lemma NamedIsGiven(c: Ctx, name: string, m: Ctx, r: Option<Ctx>, v: Value, ok: bool)
    requires Sane(c) && c.st[c.parent].stype == TypeGroup && Sane(m) && Gives(m, r, v, ok)
    requires !InVector(m) && m.parent == c.parent && m.st == Create(c.st, c.parent, Some(name), TypeNone)
    ensures Grows(c, r, [Tree(Some(name), v)], ok)
  {
    if ok {
      CreateThenFill(c.st, r.value.st, c.parent, Some(name), TypeNone, v);
    }
  }

  lemma {:induction false} EvalSettings(t: PTree, below: Token, c: Ctx)
    requires IsSettings(t) && Sane(c) && c.str == None && c.st[c.parent].stype == TypeGroup
    requires NamesOk(Children(c.st, c.parent))
    ensures Grows(c, Eval(Action, t, below, c), SettingsOf(t), GroupTakes(Children(c.st, c.parent), SettingsOf(t)))
    decreases t, 1
  {
    var acc := Children(c.st, c.parent);
    if t.rule == 4 {
      EvalUnit(t, below, c);
      EvalSetting(t.kids[0], below, c);
    } else {
      var us, e := SettingsOf(t.kids[0]), SettingOf(t.kids[1]);
      EvalMoreSettings(t, below, c);
      EvalSettings(t.kids[0], below, c);
      var r := Eval(Action, t.kids[0], below, c);
      if GroupTakes(acc, us) {
        ExtendsChildren(c.st, r.value.st, c.parent, us);
        EvalSetting(t.kids[1], Val(t.kids[0]), r.value);
      }
      GroupTakesMore(acc, us, e);
      GrowsTwice(c, r, Eval(Action, t, below, c), us, [e], GroupTakes(acc, us), GroupTakes(acc + us, [e]));
    }
  }

  lemma GroupTakesMore(acc: seq<Tree>, us: seq<Tree>, e: Tree)
    ensures GroupTakes(acc, us + [e]) <==> GroupTakes(acc, us) && GroupTakes(acc + us, [e])
  {
    assert acc + (us + [e]) == acc + us + [e];
    assert forall i :: 0 <= i < |acc + us| ==> (acc + us)[i] == (acc + us + [e])[i];
    assert e in [e] && e in us + [e];
  }
}
