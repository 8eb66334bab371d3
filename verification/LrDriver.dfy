/**
 The parser as a machine over a state stack, and the proof that what it accepts was derived.

 The machine is parametric in the semantic action that accompanies a reduction, in the
 semantic state the actions work on, and in the stack limit. Its value stack holds the
 derivation trees built so far; the value the C parser keeps is their `Val`.
 */
module LrDriver {
  import opened Options
  import opened Tokens
  import opened Grammar
  import opened LrAutomaton

  /** The action of a rule sees the value on top of the value stack; None is `YYABORT`. */
  type SemAction<!S> = (int, Token, S) -> Option<S>

  datatype Outcome<+S> = Accepted(tree: PTree, sem: S) | Aborted | Exhausted

  // ----- the semantic value of a tree and the meaning of its actions

  /** The semantic value of a symbol: `$$ = $1`; an empty right-hand side leaves garbage. */
  function Val(t: PTree): Token {
    match t
    case Leaf(tok) => tok
    case Node(_, kids) => if kids == [] then TokGarbage else Val(kids[0])
  }

  function TopVal(ts: seq<PTree>, below: Token): Token {
    if ts == [] then below else Val(Last(ts))
  }

  /** The actions of a derivation, in the order of a bottom-up walk. */
  function Eval<S>(act: SemAction<S>, t: PTree, below: Token, sem: S): Option<S>
    decreases t, 0
  {
    match t
    case Leaf(_) => Some(sem)
    case Node(n, kids) =>
      match EvalKids(act, kids, below, sem)
      case None => None
      case Some(m) => act(n, TopVal(kids, below), m)
  }

  function EvalKids<S>(act: SemAction<S>, ts: seq<PTree>, below: Token, sem: S): Option<S>
    decreases ts, 1
  {
    if ts == [] then Some(sem)
    else match Eval(act, ts[0], below, sem)
      case None => None
      case Some(m) => EvalKids(act, ts[1..], Val(ts[0]), m)
  }

  lemma {:induction false} EvalKidsAppend<S>(act: SemAction<S>, ts: seq<PTree>, us: seq<PTree>,
                                             below: Token, sem: S)
    ensures EvalKids(act, ts + us, below, sem) ==
            match EvalKids(act, ts, below, sem)
            case None => None
            case Some(m) => EvalKids(act, us, TopVal(ts, below), m)
    decreases |ts|
  {
    if ts == [] {
      assert ts + us == us;
    } else {
      assert (ts + us)[1..] == ts[1..] + us;
      match Eval(act, ts[0], below, sem)
      case None =>
      case Some(m) => EvalKidsAppend(act, ts[1..], us, Val(ts[0]), m);
    }
  }

  // ----- the machine

  /**
   The parser from state stack `ss`, with the trees `ts` on its value stack and `rest` unread.
   A state in which the next symbol is not shifted reduces by its default rule; a state
   without a default rule reports a syntax error.
   */
  function Run<S>(a: Automaton, act: SemAction<S>, limit: nat, ss: seq<int>, ts: seq<PTree>, rest: seq<Token>, sem: S): Outcome<S>
    requires Suits(a) && Linked(a, ss) && |ts| + 1 == |ss|
    decreases |rest|, a.rank(Last(ss))
  {
    var s := Last(ss);
    if |ss| >= limit then Exhausted
    else if a.trans(s, Look(rest)) >= 0 then
      if rest == [] then EnterFinal(a, limit, ss, ts, sem)
      else Run(a, act, limit, Push(a, ss, Kind(rest[0])), ts + [Leaf(rest[0])], rest[1..], sem)
    else if a.reduce(s) == 0 then Aborted
    else
      match act(a.reduce(s), TopVal(ts, TokGarbage), sem)
      case None => Aborted
      case Some(m) =>
        var base := Pop(a, ss);
        Run(a, act, limit, Push(a, base, a.lhs(a.reduce(s))),
            ts[..|base| - 1] + [Node(a.reduce(s), ts[|base| - 1..])], rest, m)
  }

  /** Shifting the end marker enters the final state, unless that push exhausts the stack. */
  function EnterFinal<S>(a: Automaton, limit: nat, ss: seq<int>, ts: seq<PTree>, sem: S): Outcome<S>
    requires Suits(a) && Linked(a, ss) && |ts| + 1 == |ss| && a.trans(Last(ss), END) >= 0
  {
    if |ss| + 1 >= limit then Exhausted else Accepted(Last(ts), sem)
  }

  // ----- whatever is accepted was derived by the grammar

  /** The trees on the value stack are derivations of the symbols that the states have read. */
  ghost predicate Forest(a: Automaton, ss: seq<int>, ts: seq<PTree>) {
    |ts| + 1 == |ss| && Derivations(ts) && forall i :: 0 <= i < |ts| ==> Root(ts[i]) == a.symbolOf(ss[i + 1])
  }

  lemma ForestShift(a: Automaton, ss: seq<int>, ts: seq<PTree>, tok: Token)
    requires Suits(a) && Linked(a, ss) && Forest(a, ss, ts) && a.trans(Last(ss), Kind(tok)) >= 0
    ensures Forest(a, Push(a, ss, Kind(tok)), ts + [Leaf(tok)])
  {
    assert ReadsSymbol(a, Last(ss), Kind(tok));
  }

  lemma {:induction false} RootsOf(ts: seq<PTree>, xs: seq<Symbol>)
    requires |ts| == |xs| && forall i :: 0 <= i < |ts| ==> Root(ts[i]) == xs[i]
    ensures Roots(ts) == xs
  {
  }

  lemma ForestReduce(a: Automaton, ss: seq<int>, ts: seq<PTree>)
    requires Suits(a) && Linked(a, ss) && Forest(a, ss, ts) && a.reduce(Last(ss)) != 0
    ensures var n, base := a.reduce(Last(ss)), Pop(a, ss);
            Forest(a, Push(a, base, a.lhs(n)), ts[..|base| - 1] + [Node(n, ts[|base| - 1..])])
  {
    var n, base := a.reduce(Last(ss)), Pop(a, ss);
    var kids := ts[|base| - 1..];
    assert ReadsSymbol(a, Last(base), a.lhs(n)) && OfGrammar(a, n);
    forall i | 0 <= i < |kids|
      ensures Root(kids[i]) == a.rhs(n)[i]
    {
      assert kids[i] == ts[|base| - 1 + i];
    }
    RootsOf(kids, a.rhs(n));
    assert Derivation(Node(n, kids));
  }

  /**
   Soundness. If the machine accepts, the tree it returns derives everything it has read, and
   the semantic state it returns is the one the actions of that tree compute.
   */
  lemma {:induction false} RunIsSound<S>(a: Automaton, act: SemAction<S>, limit: nat, ss: seq<int>, ts: seq<PTree>,
                                         rest: seq<Token>, sem: S, sem0: S)
    requires Suits(a) && Linked(a, ss) && Forest(a, ss, ts) && EvalKids(act, ts, TokGarbage, sem0) == Some(sem)
    ensures var o := Run(a, act, limit, ss, ts, rest, sem);
            o.Accepted? ==>
              Parses(o.tree, Yields(ts) + rest) && Eval(act, o.tree, TokGarbage, sem0) == Some(o.sem)
    decreases |rest|, a.rank(Last(ss)), 1
  {
    if |ss| >= limit {
    } else if a.trans(Last(ss), Look(rest)) >= 0 {
      if rest == [] {
        AcceptIsSound(a, act, ss, ts, sem, sem0);
        assert Yields(ts) + rest == Yields(ts);
      } else {
        ShiftIsSound(a, act, limit, ss, ts, rest, sem, sem0);
      }
    } else if a.reduce(Last(ss)) != 0 {
      ReduceIsSound(a, act, limit, ss, ts, rest, sem, sem0);
    }
  }

  lemma ShiftIsSound<S>(a: Automaton, act: SemAction<S>, limit: nat, ss: seq<int>, ts: seq<PTree>,
                        rest: seq<Token>, sem: S, sem0: S)
    requires Suits(a) && Linked(a, ss) && Forest(a, ss, ts) && EvalKids(act, ts, TokGarbage, sem0) == Some(sem)
    requires rest != [] && a.trans(Last(ss), Look(rest)) >= 0
    ensures var o := Run(a, act, limit, Push(a, ss, Kind(rest[0])), ts + [Leaf(rest[0])], rest[1..], sem);
            o.Accepted? ==>
              Parses(o.tree, Yields(ts) + rest) && Eval(act, o.tree, TokGarbage, sem0) == Some(o.sem)
    decreases |rest|, a.rank(Last(ss)), 0
  {
    ForestShift(a, ss, ts, rest[0]);
    ShiftKeepsMeaning(act, ts, rest, sem, sem0);
    RunIsSound(a, act, limit, Push(a, ss, Kind(rest[0])), ts + [Leaf(rest[0])], rest[1..], sem, sem0);
  }

  lemma ReduceIsSound<S>(a: Automaton, act: SemAction<S>, limit: nat, ss: seq<int>, ts: seq<PTree>,
                         rest: seq<Token>, sem: S, sem0: S)
    requires Suits(a) && Linked(a, ss) && Forest(a, ss, ts) && EvalKids(act, ts, TokGarbage, sem0) == Some(sem)
    requires a.reduce(Last(ss)) != 0
    ensures match act(a.reduce(Last(ss)), TopVal(ts, TokGarbage), sem)
            case None => true
            case Some(m) =>
              var n, base := a.reduce(Last(ss)), Pop(a, ss);
              var o := Run(a, act, limit, Push(a, base, a.lhs(n)),
                           ts[..|base| - 1] + [Node(n, ts[|base| - 1..])], rest, m);
              o.Accepted? ==>
                Parses(o.tree, Yields(ts) + rest) && Eval(act, o.tree, TokGarbage, sem0) == Some(o.sem)
    decreases |rest|, a.rank(Last(ss)), 0
  {
    match act(a.reduce(Last(ss)), TopVal(ts, TokGarbage), sem)
    case None =>
    case Some(m) =>
      var n, base := a.reduce(Last(ss)), Pop(a, ss);
      ReduceKeepsMeaning(act, ts, |base| - 1, n, sem, m, sem0);
      ForestReduce(a, ss, ts);
      RunIsSound(a, act, limit, Push(a, base, a.lhs(n)), ts[..|base| - 1] + [Node(n, ts[|base| - 1..])], rest, m, sem0);
  }

  lemma AcceptIsSound<S>(a: Automaton, act: SemAction<S>, ss: seq<int>, ts: seq<PTree>, sem: S, sem0: S)
    requires Suits(a) && Linked(a, ss) && Forest(a, ss, ts) && EvalKids(act, ts, TokGarbage, sem0) == Some(sem)
    requires a.trans(Last(ss), END) >= 0
    ensures |ts| == 1 && Parses(ts[0], Yields(ts)) && Eval(act, ts[0], TokGarbage, sem0) == Some(sem)
  {
    assert Edge(a, ss[|ss| - 2], Last(ss)) && EndsAfterConfiguration(a, ss[|ss| - 2], Last(ss));
    assert |ss| > 2 ==> Edge(a, ss[|ss| - 3], ss[|ss| - 2]);
    assert Yields(ts) == Yield(ts[0]) + Yields(ts[1..]);
    assert Yields(ts[1..]) == [];
  }

  /** Moving a token from the input to the value stack keeps the yield, and runs no action. */
  lemma ShiftKeepsMeaning<S>(act: SemAction<S>, ts: seq<PTree>, rest: seq<Token>, sem: S, sem0: S)
    requires rest != [] && EvalKids(act, ts, TokGarbage, sem0) == Some(sem)
    ensures Yields(ts + [Leaf(rest[0])]) + rest[1..] == Yields(ts) + rest
    ensures EvalKids(act, ts + [Leaf(rest[0])], TokGarbage, sem0) == Some(sem)
  {
    EvalKidsAppend(act, ts, [Leaf(rest[0])], TokGarbage, sem0);
    YieldsAppend(ts, [Leaf(rest[0])]);
    assert Yields([Leaf(rest[0])]) == [rest[0]];
    assert Yields(ts) + rest == Yields(ts) + [rest[0]] + rest[1..];
  }

  /** Replacing the right-hand side by its node keeps the yield, and runs one more action. */
  lemma ReduceKeepsMeaning<S>(act: SemAction<S>, ts: seq<PTree>, i: nat, n: int, sem: S, m: S, sem0: S)
    requires i <= |ts| && EvalKids(act, ts, TokGarbage, sem0) == Some(sem)
    requires act(n, TopVal(ts, TokGarbage), sem) == Some(m)
    ensures Yields(ts[..i] + [Node(n, ts[i..])]) == Yields(ts)
    ensures EvalKids(act, ts[..i] + [Node(n, ts[i..])], TokGarbage, sem0) == Some(m)
  {
    var kids, node := ts[i..], Node(n, ts[i..]);
    assert ts == ts[..i] + kids;
    YieldsAppend(ts[..i], kids);
    YieldsAppend(ts[..i], [node]);
    assert Yields([node]) == Yields(kids);
    EvalKidsAppend(act, ts[..i], kids, TokGarbage, sem0);
    EvalKidsAppend(act, ts[..i], [node], TokGarbage, sem0);
    var below := TopVal(ts[..i], TokGarbage);
    assert TopVal(kids, below) == TopVal(ts, TokGarbage);
  }
}
