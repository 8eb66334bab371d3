/**
 What an LR automaton has to satisfy for its parser to decide the grammar. The parser and the
 proofs about it are written for any automaton of this kind, so that they never look into
 the tables; `LrTables` shows that the tables of the generated parser encode one.
 */
module LrAutomaton {
  import opened Tokens
  import opened Grammar

  /**
   `lhs` and `rhs` give the rules of the grammar; `trans` gives the state entered over a symbol (negative: none), `reduce` the rule a state
   reduces by default (0: none), `symbolOf` the symbol a state is entered over, `rank` a bound on
   the reductions before the next shift. `item(s, n, d)` says that in state `s` the parser may
   have read the first `d` symbols of rule `n`. State 0 is the start state.
   */
  datatype Automaton = Automaton(
    lhs: int -> Symbol,
    rhs: int -> seq<Symbol>,
    trans: (int, Symbol) -> int,
    reduce: int -> int,
    symbolOf: int -> Symbol,
    rank: int -> nat,
    item: (int, int, nat) -> bool)

  predicate IsRule(n: int) {
    2 <= n <= 39
  }

  ghost predicate OfGrammar(a: Automaton, n: int) {
    IsRule(n) ==> a.lhs(n) == Lhs(n) && a.lhs(n) != END && a.rhs(n) == Rhs(n) && END !in a.rhs(n)
  }

  ghost predicate Forward(a: Automaton, s: int, n: int, d: nat) {
    IsRule(n) && d < |a.rhs(n)| && a.item(s, n, d) ==>
      a.trans(s, a.rhs(n)[d]) >= 0 && a.item(a.trans(s, a.rhs(n)[d]), n, d + 1)
  }

  ghost predicate Backward(a: Automaton, p: int, q: int, n: int, d: nat) {
    IsRule(n) && Edge(a, p, q) && a.item(q, n, d + 1) ==>
      a.item(p, n, d) && d < |a.rhs(n)| && a.symbolOf(q) == a.rhs(n)[d]
  }

  ghost predicate StartsRule(a: Automaton, s: int, n: int) {
    IsRule(n) ==> (a.item(s, n, 0) <==> a.trans(s, a.lhs(n)) >= 0)
  }

  ghost predicate StartState(a: Automaton, n: int, d: nat) {
    IsRule(n) && a.item(0, n, d) ==> d == 0
  }

  ghost predicate ReducesItem(a: Automaton, s: int) {
    a.reduce(s) != 0 ==> IsRule(a.reduce(s)) && a.item(s, a.reduce(s), |a.rhs(a.reduce(s))|)
  }

  ghost predicate ReducesOnFollow(a: Automaton, s: int, n: int, k: Symbol) {
    IsRule(n) && a.item(s, n, |a.rhs(n)|) && InFollow(a.lhs(n), k) ==> a.reduce(s) == n && a.trans(s, k) < 0
  }

  ghost predicate Progress(a: Automaton, p: int, s: int) {
    a.reduce(s) != 0 && a.trans(p, a.lhs(a.reduce(s))) >= 0 ==> a.rank(a.trans(p, a.lhs(a.reduce(s)))) < a.rank(s)
  }

  ghost predicate ReadsSymbol(a: Automaton, s: int, x: Symbol) {
    a.trans(s, x) >= 0 ==> a.symbolOf(a.trans(s, x)) == x && a.trans(s, x) != 0
  }

  ghost predicate EndsAfterConfiguration(a: Automaton, p: int, q: int) {
    Edge(a, p, q) && a.trans(q, END) >= 0 ==> p == 0 && a.symbolOf(q) == CONFIGURATION
  }

  ghost predicate Suits(a: Automaton) {
    && (forall n {:trigger OfGrammar(a, n)} :: OfGrammar(a, n))
    && (forall s, n, d: nat {:trigger Forward(a, s, n, d)} :: Forward(a, s, n, d))
    && (forall p, q, n, d: nat {:trigger Backward(a, p, q, n, d)} :: Backward(a, p, q, n, d))
    && (forall s, n {:trigger StartsRule(a, s, n)} :: StartsRule(a, s, n))
    && (forall n, d: nat {:trigger StartState(a, n, d)} :: StartState(a, n, d))
    && (forall s {:trigger ReducesItem(a, s)} :: ReducesItem(a, s))
    && (forall s, n, k {:trigger ReducesOnFollow(a, s, n, k)} :: ReducesOnFollow(a, s, n, k))
    && (forall p, s {:trigger Progress(a, p, s)} :: Progress(a, p, s))
    && (forall s, x {:trigger ReadsSymbol(a, s, x)} :: ReadsSymbol(a, s, x))
    && (forall p, q {:trigger EndsAfterConfiguration(a, p, q)} :: EndsAfterConfiguration(a, p, q))
    && a.trans(0, END) < 0
    && a.trans(0, CONFIGURATION) >= 0
    && a.trans(a.trans(0, CONFIGURATION), END) >= 0
  }

  // ----- state stacks

  function Last<T>(s: seq<T>): T
    requires s != []
  {
    s[|s| - 1]
  }

  /** `q` can lie on top of `p` in the state stack. */
  predicate Edge(a: Automaton, p: int, q: int) {
    q > 0 && a.symbolOf(q) != END && a.trans(p, a.symbolOf(q)) == q
  }

  /** The state stack is a path of the automaton from the start state. */
  predicate Linked(a: Automaton, ss: seq<int>) {
    ss != [] && ss[0] == 0 && forall i :: 0 < i < |ss| ==> Edge(a, ss[i - 1], ss[i])
  }

  /** The top of the stack reads the symbols `xs`. */
  predicate HandleOn(a: Automaton, ss: seq<int>, xs: seq<Symbol>) {
    |xs| < |ss| && forall i :: 0 <= i < |xs| ==> a.symbolOf(ss[|ss| - |xs| + i]) == xs[i]
  }

  /** An item of the top state has its symbols on the stack, above a state that can start the rule. */
  lemma {:induction false} ItemOnStack(a: Automaton, ss: seq<int>, n: int, d: nat)
    requires Suits(a) && Linked(a, ss) && IsRule(n) && d <= |a.rhs(n)| && a.item(Last(ss), n, d)
    ensures HandleOn(a, ss, a.rhs(n)[..d]) && a.item(ss[|ss| - 1 - d], n, 0)
    decreases d
  {
    if d > 0 {
      assert StartState(a, n, d);
      var p, q := ss[|ss| - 2], Last(ss);
      assert Edge(a, p, q) && Backward(a, p, q, n, d - 1);
      ItemOnStack(a, ss[..|ss| - 1], n, d - 1);
      assert a.rhs(n)[..d] == a.rhs(n)[..d - 1] + [a.rhs(n)[d - 1]];
    }
  }

  /** The stack after shifting or entering symbol `x`. */
  function Push(a: Automaton, ss: seq<int>, x: Symbol): (r: seq<int>)
    requires Suits(a) && Linked(a, ss) && x != END && a.trans(Last(ss), x) >= 0
    ensures Linked(a, r) && |r| == |ss| + 1
  {
    assert ReadsSymbol(a, Last(ss), x);
    ss + [a.trans(Last(ss), x)]
  }

  /** The stack without the right-hand side of the rule that the top state reduces. */
  function Pop(a: Automaton, ss: seq<int>): (r: seq<int>)
    requires Suits(a) && Linked(a, ss) && a.reduce(Last(ss)) != 0
    ensures Linked(a, r) && |r| == |ss| - |a.rhs(a.reduce(Last(ss)))| && r == ss[..|r|]
    ensures HandleOn(a, ss, a.rhs(a.reduce(Last(ss))))
    ensures IsRule(a.reduce(Last(ss))) && a.lhs(a.reduce(Last(ss))) != END
    ensures a.trans(Last(r), a.lhs(a.reduce(Last(ss)))) >= 0
    ensures a.rank(a.trans(Last(r), a.lhs(a.reduce(Last(ss))))) < a.rank(Last(ss))
  {
    var s := Last(ss);
    var n := a.reduce(s);
    assert ReducesItem(a, s);
    ItemOnStack(a, ss, n, |a.rhs(n)|);
    assert a.rhs(n)[..|a.rhs(n)|] == a.rhs(n);
    var r := ss[..|ss| - |a.rhs(n)|];
    assert StartsRule(a, Last(r), n);
    assert Progress(a, Last(r), s);
    assert OfGrammar(a, n);
    r
  }
}
