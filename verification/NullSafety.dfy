/**
 Why the parser never dereferences a null `ctx->setting` or `ctx->parent`: the brackets on the
 state stack mirror the chain of parents, and where a value is being read into a group the
 setting that waits for it exists.
 */
module NullSafety {
  import opened Options
  import opened Tokens
  import opened Grammar
  import opened LrAutomaton
  import opened LrTables
  import opened Settings
  import opened Actions
  import opened TreeInvariant
  import opened Operations
  import Configs
  import opened ParseContexts

  /** The states entered after the marker of an opened array, list and group. */
  const IN_ARRAY := 25
  const IN_LIST := 26
  const IN_GROUP := 27

  predicate IsMarker(s: int) {
    s in {IN_ARRAY, IN_LIST, IN_GROUP}
  }

  function BracketType(s: int): SettingType {
    if s == IN_ARRAY then TypeArray else if s == IN_LIST then TypeList else TypeGroup
  }

  /** `p` is the innermost open aggregate, its parent the next one, and so on to the root. */
  ghost predicate Chain(st: Store, p: Id, ss: seq<int>)
    decreases |ss|
  {
    if ss == [] then p == ROOT
    else if IsMarker(Last(ss)) then
      Live(st, p) && p != ROOT && st[p].stype == BracketType(Last(ss)) && Chain(st, st[p].parent, ss[..|ss| - 1])
    else Chain(st, p, ss[..|ss| - 1])
  }

  /** The state `d` entries below the top; 0 when there is none. */
  function At(ss: seq<int>, d: nat): int {
    if d < |ss| then ss[|ss| - 1 - d] else 0
  }

  const AFTER_NAME := 5
  const AFTER_EQUALS := 8
  const AFTER_STRING := 22
  const MORE_STRING := 31

  /** A name has been read in a group, and its value not yet completely. */
  predicate Awaiting(ss: seq<int>) {
    || At(ss, 0) in {AFTER_NAME, AFTER_EQUALS}
    || ((9 <= At(ss, 0) <= 18 || At(ss, 0) == AFTER_STRING) && At(ss, 1) == AFTER_EQUALS)
    || (At(ss, 0) == MORE_STRING && At(ss, 1) == AFTER_STRING && At(ss, 2) == AFTER_EQUALS)
  }

  /** The parse context agrees with the state stack. */
  ghost predicate Agrees(ss: seq<int>, c: Ctx) {
    && WellFormed(c.st)
    && Chain(c.st, c.parent, ss)
    && (Awaiting(ss) ==> Untyped(c) && c.st[c.setting].parent == c.parent)
  }

  lemma {:induction false} ChainIsLive(st: Store, p: Id, ss: seq<int>)
    requires WellFormed(st) && Chain(st, p, ss)
    ensures Live(st, p)
    decreases |ss|
  {
    if ss != [] && !IsMarker(Last(ss)) {
      ChainIsLive(st, p, ss[..|ss| - 1]);
    }
  }

  /** A chain survives any change that leaves aggregates and their parents alone. */
  ghost predicate KeepsAggregates(st: Store, st': Store) {
    forall i :: Live(st, i) && IsAggregate(st[i].stype) ==>
      Live(st', i) && st'[i].stype == st[i].stype && st'[i].parent == st[i].parent
  }

  lemma {:induction false} ChainKept(st: Store, st': Store, p: Id, ss: seq<int>)
    requires KeepsAggregates(st, st') && Chain(st, p, ss)
    ensures Chain(st', p, ss)
    decreases |ss|
  {
    if ss != [] {
      ChainKept(st, st', if IsMarker(Last(ss)) then st[p].parent else p, ss[..|ss| - 1]);
    }
  }

  /** States that are not markers can be pushed and popped. */
  lemma {:induction false} ChainPop(st: Store, p: Id, ss: seq<int>, n: nat)
    requires n <= |ss| && forall i :: n <= i < |ss| ==> !IsMarker(ss[i])
    ensures Chain(st, p, ss) <==> Chain(st, p, ss[..n])
    decreases |ss|
  {
    if n < |ss| {
      ChainPop(st, p, ss[..|ss| - 1], n);
      assert ss[..|ss| - 1][..n] == ss[..n];
    } else {
      assert ss[..n] == ss;
    }
  }

  // ----- what can lie below a state

  lemma BelowValue(p: int, q: int)
    requires Edge(LIBCONFIG, p, q)
    ensures 9 <= q <= 15 || q == AFTER_STRING ==> p in {8, 25, 26, 40, 42}
    ensures 16 <= q <= 18 ==> p in {8, 26, 42}
    ensures q == MORE_STRING ==> p == AFTER_STRING
  {
  }

  lemma BelowComma(p: int, q: int)
    requires Edge(LIBCONFIG, p, q)
    ensures q == 40 ==> p == 33
    ensures q == 33 ==> p == IN_ARRAY
    ensures q == 42 ==> p == 36
    ensures q == 36 ==> p == IN_LIST
  {
  }

  /** Below a value is an equals sign, or the list or array that it is an element of. */
  lemma VectorBelow(st: Store, p: Id, ss: seq<int>)
    requires Linked(LIBCONFIG, ss) && Chain(st, p, ss) && Last(ss) in {25, 26, 40, 42}
    ensures Live(st, p) && st[p].stype == if Last(ss) in {25, 40} then TypeArray else TypeList
  {
    if Last(ss) in {40, 42} {
      var n := |ss|;
      assert Edge(LIBCONFIG, ss[n - 2], ss[n - 1]);
      BelowComma(ss[n - 2], ss[n - 1]);
      assert Edge(LIBCONFIG, ss[n - 3], ss[n - 2]);
      BelowComma(ss[n - 3], ss[n - 2]);
      ChainPop(st, p, ss, n - 2);
    }
  }

  /** The rule that is reduced dereferences nothing null. */
  lemma ReductionIsSafe(ss: seq<int>, c: Ctx)
    requires Linked(LIBCONFIG, ss) && Agrees(ss, c)
    ensures Safe(Default(Last(ss)), c)
  {
    ChainIsLive(c.st, c.parent, ss);
    var s := Last(ss);
    var n := Default(s);
    if OpensAggregate(n) || SetsValue(n) {
      ValueStates(s);
      var below := ss[|ss| - 2];
      assert Edge(LIBCONFIG, below, s);
      BelowValue(below, s);
      if below != AFTER_EQUALS {
        assert !IsMarker(s);
        VectorBelow(c.st, c.parent, ss[..|ss| - 1]);
      }
    }
  }

  lemma ValueStates(s: int)
    requires OpensAggregate(Default(s)) || SetsValue(Default(s))
    ensures 9 <= s <= 18 || s == AFTER_STRING
    ensures OpensAggregate(Default(s)) ==> 16 <= s <= 18
    ensures SetsValue(Default(s)) ==> 9 <= s <= 14 || s == AFTER_STRING
  {
  }

  // ----- what each action does to the chain

  lemma NewSettingEffect(c: Ctx, name: string)
    requires WellFormed(c.st) && Live(c.st, c.parent) && NewSetting(c, name).Some?
    ensures var m := NewSetting(c, name).value;
            && WellFormed(m.st) && KeepsAggregates(c.st, m.st) && m.parent == c.parent
            && Untyped(m) && m.st[m.setting].parent == m.parent
  {
    AddKeeps(c.st, c.parent, Some(name), TypeNone);
  }

  lemma OpenEffect(c: Ctx, t: SettingType)
    requires Safe(13, c) && IsAggregate(t) && Open(c, t).Some?
    requires c.st[c.parent].stype != TypeList ==> c.st[c.setting].parent == c.parent
    ensures var m := Open(c, t).value;
            && WellFormed(m.st) && KeepsAggregates(c.st, m.st)
            && Live(m.st, m.parent) && m.parent != ROOT && m.st[m.parent].stype == t && m.st[m.parent].parent == c.parent
  {
    if c.st[c.parent].stype == TypeList {
      AddKeeps(c.st, c.parent, None, t);
    } else {
      LiveIsTyped(c.st, c.setting);
      UpdateKeeps(c.st, c.setting, c.st[c.setting].(stype := t));
      assert NodeOk(c.st, ROOT);
    }
  }

  lemma SetValueEffect(c: Ctx, v: Scalar, format: int)
    requires Safe(23, c) && SetValue(c, v, format).Some?
    ensures var m := SetValue(c, v, format).value;
            WellFormed(m.st) && KeepsAggregates(c.st, m.st) && m.parent == c.parent
  {
    LiveIsTyped(c.st, c.parent);
    if InVector(c) {
      AppendElemKeeps(c.st, c.parent, v);
      var st := AppendElem(c.st, c.parent, v).value;
      UpdateKeeps(st, |c.st|, SetFormat(st[|c.st|], format));
    } else {
      LiveIsTyped(c.st, c.setting);
      AssignKeepsShape(c.st[c.setting], v);
      var s := Assign(c.st[c.setting], v).value;
      UpdateKeeps(c.st, c.setting, SetFormat(s, format));
    }
  }

  // ----- a move of the parser keeps the agreement

  lemma ShiftStates(s: int, k: Symbol)
    requires 0 <= k < YYNTOKENS && Trans(s, k) >= 0
    ensures var q := Trans(s, k);
            && !IsMarker(q)
            && (q == AFTER_EQUALS ==> s == AFTER_NAME)
            && (9 <= q <= 18 ==> s in {8, 25, 26, 40, 42})
            && (q == MORE_STRING ==> s == AFTER_STRING)
            && q !in {AFTER_NAME, AFTER_STRING}
  {
  }

  lemma ShiftAgrees(ss: seq<int>, c: Ctx, k: Symbol)
    requires Linked(LIBCONFIG, ss) && Agrees(ss, c) && 0 <= k < YYNTOKENS && Trans(Last(ss), k) >= 0
    ensures Agrees(ss + [Trans(Last(ss), k)], c)
  {
    var q := Trans(Last(ss), k);
    var next := ss + [q];
    ShiftStates(Last(ss), k);
    assert next[..|ss|] == ss;
    ChainPop(c.st, c.parent, next, |ss|);
    if Awaiting(next) {
      assert At(next, 1) == At(ss, 0) && At(next, 2) == At(ss, 1);
      assert Awaiting(ss);
    }
  }

  /** The symbols that the markers are entered over. */
  predicate IsMarkerSymbol(x: Symbol) {
    x in {31, 33, 42}
  }

  lemma MarkerSymbols(s: int)
    ensures IsMarker(s) <==> IsMarkerSymbol(YyStos(s))
    ensures YyStos(s) == 31 ==> s == IN_ARRAY
    ensures YyStos(s) == 33 ==> s == IN_LIST
    ensures YyStos(s) == 42 ==> s == IN_GROUP
  {
  }

  lemma MarkersInRules(n: int, i: nat)
    requires 2 <= n <= 39 && i < |Rhs(n)| && IsMarkerSymbol(Rhs(n)[i])
    ensures n in {14, 16, 39} && i == 1
  {
  }

  /** A reduction without markers keeps the chain. */
  lemma PlainReduction(ss: seq<int>, st: Store, p: Id, n: int, base: nat)
    requires 2 <= n <= 39 && n !in {14, 16, 39} && base + |Rhs(n)| == |ss| && Chain(st, p, ss)
    requires forall i :: 0 <= i < |Rhs(n)| ==> YyStos(ss[base + i]) == Rhs(n)[i]
    ensures Chain(st, p, ss[..base])
  {
    forall i | base <= i < |ss|
      ensures !IsMarker(ss[i])
    {
      MarkerSymbols(ss[i]);
      assert YyStos(ss[base + (i - base)]) == Rhs(n)[i - base];
      if IsMarkerSymbol(Rhs(n)[i - base]) {
        MarkersInRules(n, i - base);
      }
    }
    ChainPop(st, p, ss, base);
  }

  lemma ClosingSymbols(n: int)
    requires n in {14, 16, 39}
    ensures |Rhs(n)| == 4 && IsMarkerSymbol(Rhs(n)[1])
    ensures !IsMarkerSymbol(Rhs(n)[0]) && !IsMarkerSymbol(Rhs(n)[2]) && !IsMarkerSymbol(Rhs(n)[3])
  {
  }

  /** Closing an aggregate takes its marker off the stack and its link off the chain. */
  lemma ClosingReduction(ss: seq<int>, st: Store, p: Id, n: int, base: nat)
    requires n in {14, 16, 39} && base + 4 == |ss| && Chain(st, p, ss)
    requires |Rhs(n)| == 4 && forall i :: 0 <= i < 4 ==> YyStos(ss[base + i]) == Rhs(n)[i]
    ensures Live(st, p) && Chain(st, st[p].parent, ss[..base])
  {
    ClosingSymbols(n);
    MarkerSymbols(ss[base]);
    MarkerSymbols(ss[base + 1]);
    MarkerSymbols(ss[base + 2]);
    MarkerSymbols(ss[base + 3]);
    ChainPop(st, p, ss, base + 2);
    var open := ss[..base + 2];
    assert Last(open) == ss[base + 1] && open[..base + 1] == ss[..base + 1];
    ChainPop(st, st[p].parent, ss[..base + 1], base);
    assert ss[..base + 1][..base] == ss[..base];
  }

  lemma GotoStates(s: int, n: int)
    requires 2 <= n <= 39 && Trans(s, Lhs(n)) >= 0
    ensures var q := Trans(s, Lhs(n));
            && YyStos(q) == Lhs(n)
            && (IsMarker(q) <==> OpensAggregate(n))
            && (n == 13 ==> q == IN_ARRAY) && (n == 15 ==> q == IN_LIST) && (n == 38 ==> q == IN_GROUP)
            && (q == AFTER_NAME ==> n == 11)
            && (q == AFTER_STRING ==> n in {21, 22})
            && q !in {AFTER_EQUALS, MORE_STRING} && !(9 <= q <= 18)
  {
    assert LIBCONFIG.lhs(n) == Lhs(n);
    ReadsSymbolEvery(s, Lhs(n));
    assert ReadsSymbol(LIBCONFIG, s, Lhs(n));
  }

  /** Rule `n` is about to be reduced: its right-hand side lies on `base`, and its goto exists. */
  ghost predicate Reducing(ss: seq<int>, base: seq<int>, n: int) {
    && Linked(LIBCONFIG, ss) && 2 <= n <= 39 && Default(Last(ss)) == n
    && base != [] && |base| + |Rhs(n)| == |ss| && base == ss[..|base|]
    && (forall i :: 0 <= i < |Rhs(n)| ==> YyStos(ss[|base| + i]) == Rhs(n)[i])
    && Trans(Last(base), Lhs(n)) >= 0
  }

  lemma PushOnChain(st: Store, p: Id, base: seq<int>, q: int)
    requires Chain(st, p, base) && !IsMarker(q)
    ensures Chain(st, p, base + [q])
  {
    assert (base + [q])[..|base|] == base;
  }

  lemma OpeningAgrees(ss: seq<int>, base: seq<int>, n: int, c: Ctx, m: Ctx, t: SettingType)
    requires Reducing(ss, base, n) && Agrees(ss, c) && (n, t) in {(13, TypeArray), (15, TypeList), (38, TypeGroup)}
    requires Open(c, t) == Some(m)
    ensures Agrees(base + [Trans(Last(base), Lhs(n))], m)
  {
    GotoStates(Last(base), n);
    ReductionIsSafe(ss, c);
    assert |Rhs(n)| == 0 && base == ss;
    if c.st[c.parent].stype != TypeList {
      OpeningAwaits(ss, c);
    }
    OpenEffect(c, t);
    ChainKept(c.st, m.st, c.parent, ss);
    PushMarker(m.st, m.parent, base, Trans(Last(base), Lhs(n)));
  }

  lemma PushMarker(st: Store, p: Id, base: seq<int>, q: int)
    requires IsMarker(q) && Live(st, p) && p != ROOT && st[p].stype == BracketType(q) && Chain(st, st[p].parent, base)
    ensures Chain(st, p, base + [q]) && !Awaiting(base + [q])
  {
    assert (base + [q])[..|base|] == base;
  }

  /** Where an aggregate begins outside a list, a setting is waiting for it. */
  lemma OpeningAwaits(ss: seq<int>, c: Ctx)
    requires Linked(LIBCONFIG, ss) && Agrees(ss, c) && OpensAggregate(Default(Last(ss)))
    requires Live(c.st, c.parent) && c.st[c.parent].stype != TypeList
    ensures Awaiting(ss)
  {
    var s := Last(ss);
    ValueStates(s);
    var below := ss[|ss| - 2];
    assert Edge(LIBCONFIG, below, s);
    BelowValue(below, s);
    if below != AFTER_EQUALS {
      VectorBelow(c.st, c.parent, ss[..|ss| - 1]);
    }
  }

  lemma ClosingAgrees(ss: seq<int>, base: seq<int>, n: int, c: Ctx, m: Ctx)
    requires Reducing(ss, base, n) && Agrees(ss, c) && n in {14, 16, 39} && Close(c) == Some(m)
    ensures Agrees(base + [Trans(Last(base), Lhs(n))], m)
  {
    GotoStates(Last(base), n);
    ClosingSymbols(n);
    ClosingReduction(ss, c.st, c.parent, n, |base|);
    PushOnChain(m.st, m.parent, base, Trans(Last(base), Lhs(n)));
  }

  lemma NamingAgrees(ss: seq<int>, base: seq<int>, c: Ctx, m: Ctx, name: string)
    requires Reducing(ss, base, 11) && Agrees(ss, c) && NewSetting(c, name) == Some(m)
    ensures Agrees(base + [Trans(Last(base), Lhs(11))], m)
  {
    GotoStates(Last(base), 11);
    ChainIsLive(c.st, c.parent, ss);
    NewSettingEffect(c, name);
    ChainKept(c.st, m.st, c.parent, ss);
    assert base == ss;
    PushOnChain(m.st, m.parent, base, Trans(Last(base), Lhs(11)));
  }

  lemma ValueAgrees(ss: seq<int>, base: seq<int>, n: int, c: Ctx, m: Ctx, v: Scalar, format: int)
    requires Reducing(ss, base, n) && Agrees(ss, c) && SetsValue(n) && SetValue(c, v, format) == Some(m)
    ensures Agrees(base + [Trans(Last(base), Lhs(n))], m)
  {
    GotoStates(Last(base), n);
    ReductionIsSafe(ss, c);
    SetValueEffect(c, v, format);
    ValueIsPushed(ss, base, n, c, m);
  }

  lemma ValueIsPushed(ss: seq<int>, base: seq<int>, n: int, c: Ctx, m: Ctx)
    requires Reducing(ss, base, n) && Agrees(ss, c) && SetsValue(n)
    requires WellFormed(m.st) && KeepsAggregates(c.st, m.st) && m.parent == c.parent
    ensures Agrees(base + [Trans(Last(base), Lhs(n))], m)
  {
    GotoStates(Last(base), n);
    PlainReduction(ss, c.st, c.parent, n, |base|);
    ChainKept(c.st, m.st, c.parent, base);
    PushOnChain(m.st, m.parent, base, Trans(Last(base), Lhs(n)));
  }

  /** The rules whose actions leave the tree and the setting alone. */
  lemma OtherAgrees(ss: seq<int>, base: seq<int>, n: int, c: Ctx, m: Ctx)
    requires Reducing(ss, base, n) && Agrees(ss, c) && m == c.(str := m.str)
    requires n !in {11, 14, 16, 39} && !OpensAggregate(n)
    ensures Agrees(base + [Trans(Last(base), Lhs(n))], m)
  {
    var q := Trans(Last(base), Lhs(n));
    GotoStates(Last(base), n);
    PlainReduction(ss, c.st, c.parent, n, |base|);
    PushOnChain(m.st, m.parent, base, q);
    if Awaiting(base + [q]) {
      StringAwaits(ss, base, n, q);
    }
  }

  lemma StringAwaits(ss: seq<int>, base: seq<int>, n: int, q: int)
    requires Reducing(ss, base, n) && q == Trans(Last(base), Lhs(n)) && Awaiting(base + [q]) && n != 11
    ensures Awaiting(ss)
  {
    GotoStates(Last(base), n);
    assert At(base + [q], 0) == q && At(base + [q], 1) == Last(base);
    assert n in {21, 22} && Last(base) == AFTER_EQUALS;
    if n == 21 {
      assert |Rhs(21)| == 1 && Last(ss) == 15 && At(ss, 1) == Last(base);
    } else {
      assert |Rhs(22)| == 2 && Last(ss) == MORE_STRING && At(ss, 2) == Last(base);
      assert YyStos(ss[|base|]) == Rhs(22)[0] == 35;
      assert At(ss, 1) == ss[|base|];
    }
  }

  /** A reduction keeps the agreement of the stack and the context. */
  lemma ReduceAgrees(ss: seq<int>, base: seq<int>, n: int, top: Token, c: Ctx, m: Ctx)
    requires Reducing(ss, base, n) && Agrees(ss, c) && Actions.Action(n, top, c) == Some(m)
    ensures Agrees(base + [Trans(Last(base), Lhs(n))], m)
  {
    if n == 11 {
      NamingAgrees(ss, base, c, m, TextOf(top));
    } else if n == 13 {
      OpeningAgrees(ss, base, 13, c, m, TypeArray);
    } else if n == 15 {
      OpeningAgrees(ss, base, 15, c, m, TypeList);
    } else if n == 38 {
      OpeningAgrees(ss, base, 38, c, m, TypeGroup);
    } else if n in {14, 16, 39} {
      ClosingAgrees(ss, base, n, c, m);
    } else if 23 <= n <= 28 {
      ValueAgrees(ss, base, n, c, m, ScalarOf(top).0, ScalarOf(top).1);
    } else if n == 29 {
      ValueAgrees(ss, base, 29, c.(str := None), m, SString(c.str), FORMAT_DEFAULT);
    } else {
      OtherAgrees(ss, base, n, c, m);
    }
  }

  /** The agreement holds at the start. */
  lemma StartAgrees()
    ensures Agrees([0], INITIAL)
  {
    Configs.InitialIsWellFormed();
    assert [0][..0] == [];
  }
}
