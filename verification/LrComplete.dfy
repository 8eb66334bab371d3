/**
 Completeness: the machine follows every derivation, so it decides the grammar exactly.
 */
module LrComplete {
  import opened Options
  import opened Tokens
  import opened Grammar
  import opened LrAutomaton
  import opened LrDriver

  // ----- the height that the state stack needs

  /** The most entries that parsing `t` puts above the current top of the state stack. */
  function Peak(t: PTree): (h: nat)
    ensures h >= 1
    decreases t, 0
  {
    match t
    case Leaf(_) => 1
    case Node(_, kids) => if kids == [] then 1 else PeakKids(kids)
  }

  function PeakKids(ts: seq<PTree>): (h: nat)
    ensures h >= |ts|
    decreases ts, 1
  {
    if ts == [] then 0
    else if Peak(ts[0]) >= 1 + PeakKids(ts[1..]) then Peak(ts[0])
    else 1 + PeakKids(ts[1..])
  }

  // ----- each child of a node is followed by a symbol that may follow it

  ghost predicate KidsFollow(kids: seq<PTree>, rest: seq<Token>) {
    kids != [] ==>
      InFollow(Root(kids[0]), Look(Yields(kids[1..]) + rest)) && KidsFollow(kids[1..], rest)
  }

  lemma {:induction false} KidsOfRuleFollow(n: int, kids: seq<PTree>, i: nat, rest: seq<Token>)
    requires Derivation(Node(n, kids)) && i <= |kids| && InFollow(Lhs(n), Look(rest))
    ensures KidsFollow(kids[i..], rest)
    decreases |kids| - i
  {
    if i < |kids| {
      KidsOfRuleFollow(n, kids, i + 1, rest);
      assert kids[i..][1..] == kids[i + 1..];
      NextOf(kids[i + 1..], Lhs(n), rest);
      RootsFrom(kids, i + 1);
      FollowClosed(n, i, Look(Yields(kids[i + 1..]) + rest));
    }
  }

  lemma {:induction false} RootsFrom(ts: seq<PTree>, i: nat)
    requires i <= |ts|
    ensures Roots(ts[i..]) == Roots(ts)[i..]
  {
  }

  // ----- following a derivation

  /** The stack after entering the symbols of rule `n` from position `d` on. */
  function Climb(a: Automaton, ss: seq<int>, n: int, d: nat): (r: seq<int>)
    requires Suits(a) && Linked(a, ss) && IsRule(n) && d <= |a.rhs(n)| && a.item(Last(ss), n, d)
    ensures Linked(a, r) && |r| == |ss| + |a.rhs(n)| - d && r[..|ss|] == ss
    ensures a.item(Last(r), n, |a.rhs(n)|)
    decreases |a.rhs(n)| - d
  {
    if d == |a.rhs(n)| then ss
    else
      assert Forward(a, Last(ss), n, d);
      assert OfGrammar(a, n);
      Climb(a, Push(a, ss, a.rhs(n)[d]), n, d + 1)
  }

  /** What the machine does with the yield of `t`, when the whole of it fits on the stack. */
  function AfterTree<S>(a: Automaton, act: SemAction<S>, limit: nat, ss: seq<int>, ts: seq<PTree>, t: PTree,
                        rest: seq<Token>, sem: S): Outcome<S>
    requires Suits(a) && Linked(a, ss) && |ts| + 1 == |ss| && Root(t) != END && a.trans(Last(ss), Root(t)) >= 0
  {
    match Eval(act, t, TopVal(ts, TokGarbage), sem)
    case None => Aborted
    case Some(m) => Run(a, act, limit, Push(a, ss, Root(t)), ts + [t], rest, m)
  }

  /** The same for the children of rule `n` from position `d` on. */
  function AfterKids<S>(a: Automaton, act: SemAction<S>, limit: nat, ss: seq<int>, ts: seq<PTree>,
                        n: int, d: nat, kids: seq<PTree>, rest: seq<Token>, sem: S): Outcome<S>
    requires Suits(a) && Linked(a, ss) && |ts| + 1 == |ss|
    requires IsRule(n) && d <= |a.rhs(n)| && a.item(Last(ss), n, d) && |kids| == |a.rhs(n)| - d
  {
    match EvalKids(act, kids, TopVal(ts, TokGarbage), sem)
    case None => Aborted
    case Some(m) => Run(a, act, limit, Climb(a, ss, n, d), ts + kids, rest, m)
  }

  /**
   Completeness. The machine reads the yield of a derivation and enters its root, after running
   the actions of the derivation; it fails if an action fails or the stack limit is hit.
   */
  lemma {:induction false} ConsumeTree<S>(a: Automaton, act: SemAction<S>, limit: nat, ss: seq<int>, ts: seq<PTree>,
                                          t: PTree, rest: seq<Token>, sem: S)
    requires Suits(a) && Linked(a, ss) && |ts| + 1 == |ss| && Derivation(t)
    requires Root(t) != END && a.trans(Last(ss), Root(t)) >= 0 && InFollow(Root(t), Look(rest))
    ensures |ss| + Peak(t) < limit ==>
              Run(a, act, limit, ss, ts, Yield(t) + rest, sem) == AfterTree(a, act, limit, ss, ts, t, rest, sem)
    ensures |ss| + Peak(t) >= limit ==> !Run(a, act, limit, ss, ts, Yield(t) + rest, sem).Accepted?
    decreases t, 1
  {
    match t
    case Leaf(tok) =>
      assert (Yield(t) + rest)[1..] == rest;
    case Node(n, kids) =>
      assert StartsRule(a, Last(ss), n) && OfGrammar(a, n);
      KidsOfRuleFollow(n, kids, 0, rest);
      assert kids[0..] == kids && a.rhs(n)[0..] == a.rhs(n);
      ConsumeKids(a, act, limit, ss, ts, n, 0, kids, rest, sem);
      match EvalKids(act, kids, TopVal(ts, TokGarbage), sem)
      case None =>
      case Some(m) =>
        if |ss| + PeakKids(kids) < limit {
          ReduceAfterKids(a, act, limit, ss, ts, n, kids, rest, m);
        }
  }

  lemma {:induction false} ConsumeKids<S>(a: Automaton, act: SemAction<S>, limit: nat, ss: seq<int>, ts: seq<PTree>,
                                          n: int, d: nat, kids: seq<PTree>, rest: seq<Token>, sem: S)
    requires Suits(a) && Linked(a, ss) && |ts| + 1 == |ss| && Derivations(kids) && KidsFollow(kids, rest)
    requires IsRule(n) && d <= |a.rhs(n)| && a.item(Last(ss), n, d) && Roots(kids) == a.rhs(n)[d..]
    ensures |ss| + PeakKids(kids) < limit ==>
              Run(a, act, limit, ss, ts, Yields(kids) + rest, sem) ==
              AfterKids(a, act, limit, ss, ts, n, d, kids, rest, sem)
    ensures kids != [] && |ss| + PeakKids(kids) >= limit ==>
              !Run(a, act, limit, ss, ts, Yields(kids) + rest, sem).Accepted?
    decreases kids, 0
  {
    if kids == [] {
      assert ts + kids == ts && Yields(kids) + rest == rest;
    } else {
      var t, more := kids[0], Yields(kids[1..]) + rest;
      assert Yields(kids) + rest == Yield(t) + more;
      FirstKid(a, ss, n, d, kids);
      ConsumeTree(a, act, limit, ss, ts, t, more, sem);
      match Eval(act, t, TopVal(ts, TokGarbage), sem)
      case None =>
      case Some(m) =>
        ConsumeKids(a, act, limit, Push(a, ss, Root(t)), ts + [t], n, d + 1, kids[1..], rest, m);
        AfterFirstKid(a, act, limit, ss, ts, n, d, kids, rest, sem, m);
        if kids[1..] == [] {
          assert more == rest;
        }
    }
  }

  /** The first of the remaining children can be entered, and the others after it. */
  lemma FirstKid(a: Automaton, ss: seq<int>, n: int, d: nat, kids: seq<PTree>)
    requires Suits(a) && Linked(a, ss) && kids != []
    requires IsRule(n) && d <= |a.rhs(n)| && a.item(Last(ss), n, d) && Roots(kids) == a.rhs(n)[d..]
    ensures d < |a.rhs(n)| && a.rhs(n)[d] == Root(kids[0]) && Root(kids[0]) != END
    ensures a.trans(Last(ss), Root(kids[0])) >= 0
    ensures a.item(Last(Push(a, ss, Root(kids[0]))), n, d + 1)
    ensures Roots(kids[1..]) == a.rhs(n)[d + 1..]
  {
    assert Forward(a, Last(ss), n, d) && OfGrammar(a, n);
    RootsFrom(kids, 1);
    assert a.rhs(n)[d..][1..] == a.rhs(n)[d + 1..];
  }

  lemma AfterFirstKid<S>(a: Automaton, act: SemAction<S>, limit: nat, ss: seq<int>, ts: seq<PTree>,
                         n: int, d: nat, kids: seq<PTree>, rest: seq<Token>, sem: S, m: S)
    requires Suits(a) && Linked(a, ss) && |ts| + 1 == |ss| && kids != []
    requires IsRule(n) && d < |a.rhs(n)| && a.item(Last(ss), n, d) && |kids| == |a.rhs(n)| - d
    requires a.rhs(n)[d] != END && a.trans(Last(ss), a.rhs(n)[d]) >= 0
    requires a.item(Last(Push(a, ss, a.rhs(n)[d])), n, d + 1)
    requires Eval(act, kids[0], TopVal(ts, TokGarbage), sem) == Some(m)
    ensures AfterKids(a, act, limit, ss, ts, n, d, kids, rest, sem) ==
            AfterKids(a, act, limit, Push(a, ss, a.rhs(n)[d]), ts + [kids[0]], n, d + 1, kids[1..], rest, m)
  {
    assert ts + kids == (ts + [kids[0]]) + kids[1..];
  }

  /** With all children of a rule on the stack, the machine reduces it. */
  lemma ReduceAfterKids<S>(a: Automaton, act: SemAction<S>, limit: nat, ss: seq<int>, ts: seq<PTree>,
                           n: int, kids: seq<PTree>, rest: seq<Token>, m: S)
    requires Suits(a) && Linked(a, ss) && |ts| + 1 == |ss| && IsRule(n) && |kids| == |a.rhs(n)|
    requires a.item(Last(ss), n, 0) && InFollow(a.lhs(n), Look(rest))
    requires a.lhs(n) != END && a.trans(Last(ss), a.lhs(n)) >= 0 && |ss| + |kids| < limit
    ensures Run(a, act, limit, Climb(a, ss, n, 0), ts + kids, rest, m) ==
            match act(n, TopVal(ts + kids, TokGarbage), m)
            case None => Aborted
            case Some(m') => Run(a, act, limit, Push(a, ss, a.lhs(n)), ts + [Node(n, kids)], rest, m')
  {
    var top := Climb(a, ss, n, 0);
    assert ReducesOnFollow(a, Last(top), n, Look(rest));
    assert Pop(a, top) == ss;
    assert (ts + kids)[..|ss| - 1] == ts && (ts + kids)[|ss| - 1..] == kids;
  }

  // ----- the machine decides the grammar

  /** The parser started on input `w`. */
  function Parse<S>(a: Automaton, act: SemAction<S>, limit: nat, w: seq<Token>, sem0: S): Outcome<S>
    requires Suits(a)
  {
    Run(a, act, limit, [0], [], w, sem0)
  }

  /**
   Any derivation of the input fixes the outcome of the parse: acceptance with the state that
   the actions of the derivation compute, if they all succeed and its height fits, and failure
   otherwise.
   */
  lemma ParseOfDerivation<S>(a: Automaton, act: SemAction<S>, limit: nat, w: seq<Token>, sem0: S, t: PTree)
    requires Suits(a) && Parses(t, w) && limit > 3
    ensures var o := Parse(a, act, limit, w, sem0);
            match Eval(act, t, TokGarbage, sem0)
            case Some(sem) => if 1 + Peak(t) < limit then o == Accepted(t, sem) else !o.Accepted?
            case None => !o.Accepted?
  {
    assert w + [] == w;
    ConsumeTree(a, act, limit, [0], [], t, [], sem0);
    assert [] + [t] == [t];
  }

  /**
   The parser accepts exactly the sentences of the grammar whose actions all succeed and whose
   derivation fits on the stack; and then it returns that derivation and its meaning.
   */
  lemma ParseDecides<S>(a: Automaton, act: SemAction<S>, limit: nat, w: seq<Token>, sem0: S)
    requires Suits(a) && limit > 3
    ensures Parse(a, act, limit, w, sem0).Accepted? <==>
            exists t :: Parses(t, w) && Eval(act, t, TokGarbage, sem0).Some? && 1 + Peak(t) < limit
    ensures var o := Parse(a, act, limit, w, sem0);
            o.Accepted? ==> Parses(o.tree, w) && Eval(act, o.tree, TokGarbage, sem0) == Some(o.sem)
  {
    RunIsSound(a, act, limit, [0], [], w, sem0, sem0);
    assert Yields([]) + w == w;
    forall t | Parses(t, w)
      ensures Eval(act, t, TokGarbage, sem0).Some? && 1 + Peak(t) < limit ==> Parse(a, act, limit, w, sem0).Accepted?
      ensures Parse(a, act, limit, w, sem0).Accepted? ==> 1 + Peak(t) < limit
    {
      ParseOfDerivation(a, act, limit, w, sem0, t);
    }
  }

  /** No sentence has two derivations: the grammar is unambiguous. */
  lemma Unambiguous(a: Automaton, w: seq<Token>, t: PTree, u: PTree)
    requires Suits(a) && Parses(t, w) && Parses(u, w)
    ensures t == u
  {
    var limit := 3 + Peak(t) + Peak(u);
    ParseOfDerivation(a, NoAction, limit, w, 0, t);
    ParseOfDerivation(a, NoAction, limit, w, 0, u);
    NoActionSucceeds(t, TokGarbage, 0);
    NoActionSucceeds(u, TokGarbage, 0);
  }

  const NoAction: SemAction<int> := (n: int, top: Token, sem: int) => Some(sem)

  lemma {:induction false} NoActionSucceeds(t: PTree, below: Token, sem: int)
    ensures Eval(NoAction, t, below, sem) == Some(sem)
    decreases t, 1
  {
    if t.Node? {
      NoActionsSucceed(t.kids, below, sem);
    }
  }

  lemma {:induction false} NoActionsSucceed(ts: seq<PTree>, below: Token, sem: int)
    ensures EvalKids(NoAction, ts, below, sem) == Some(sem)
    decreases ts, 0
  {
    if ts != [] {
      NoActionSucceeds(ts[0], below, sem);
      NoActionsSucceed(ts[1..], Val(ts[0]), sem);
    }
  }
}
