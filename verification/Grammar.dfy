/**
 The context-free grammar of a configuration file: rules 2 to 39 of the parser, numbered as
 the generated parser numbers them, and its derivation trees.

 Symbols 0 to 22 are terminals and 23 to 42 nonterminals, in the order of `yytname`; the
 nonterminals 29, 31, 33 and 42 are the empty markers of the mid-rule actions.
 */
module Grammar {
  import opened Tokens

  const CONFIGURATION: Symbol := 24

  /** The left-hand side of each rule. */
  function Lhs(n: int): Symbol {
    match n
    case 1 => 23
    case 2 => 24 case 3 => 24
    case 4 => 25 case 5 => 25
    case 6 => 26 case 7 => 26
    case 8 => 27 case 9 => 27 case 10 => 27
    case 11 => 29 case 12 => 28
    case 13 => 31 case 14 => 30
    case 15 => 33 case 16 => 32
    case 17 => 34 case 18 => 34 case 19 => 34 case 20 => 34
    case 21 => 35 case 22 => 35
    case 23 => 36 case 24 => 36 case 25 => 36 case 26 => 36 case 27 => 36 case 28 => 36 case 29 => 36
    case 30 => 37 case 31 => 37
    case 32 => 38 case 33 => 38
    case 34 => 39 case 35 => 39
    case 36 => 40 case 37 => 40
    case 38 => 42 case 39 => 41
    case _ => 0
  }

  /** The right-hand side of each rule. */
  function Rhs(n: int): seq<Symbol> {
    match n
    case 1 => [24, 0]
    case 3 => [25]
    case 4 => [28]
    case 5 => [25, 28]
    case 7 => [25]
    case 9 => [20]
    case 10 => [17]
    case 12 => [10, 29, 11, 34, 27]
    case 14 => [13, 31, 40, 14]
    case 16 => [15, 33, 38, 16]
    case 17 => [36]
    case 18 => [30]
    case 19 => [32]
    case 20 => [41]
    case 21 => [9]
    case 22 => [35, 9]
    case 23 => [3]
    case 24 => [4]
    case 25 => [6]
    case 26 => [5]
    case 27 => [7]
    case 28 => [8]
    case 29 => [35]
    case 30 => [34]
    case 31 => [37, 17, 34]
    case 33 => [37]
    case 34 => [36]
    case 35 => [39, 17, 36]
    case 37 => [39]
    case 39 => [18, 42, 26, 19]
    case _ => []
  }

  datatype PTree =
    | Leaf(tok: Token)
    | Node(rule: int, kids: seq<PTree>)

  function Root(t: PTree): Symbol {
    match t
    case Leaf(tok) => Kind(tok)
    case Node(n, _) => Lhs(n)
  }

  function Roots(ts: seq<PTree>): (xs: seq<Symbol>)
    ensures |xs| == |ts|
    ensures forall i :: 0 <= i < |ts| ==> xs[i] == Root(ts[i])
  {
    if ts == [] then [] else [Root(ts[0])] + Roots(ts[1..])
  }

  /** The tree applies one rule of the grammar at each inner node. */
  ghost predicate Derivation(t: PTree) {
    match t
    case Leaf(_) => true
    case Node(n, kids) =>
      2 <= n <= 39 && Roots(kids) == Rhs(n) && forall k | k in kids :: Derivation(k)
  }

  ghost predicate Derivations(ts: seq<PTree>) {
    forall k | k in ts :: Derivation(k)
  }

  function Yield(t: PTree): seq<Token>
    decreases t, 0
  {
    match t
    case Leaf(tok) => [tok]
    case Node(_, kids) => Yields(kids)
  }

  function Yields(ts: seq<PTree>): seq<Token>
    decreases ts, 1
  {
    if ts == [] then [] else Yield(ts[0]) + Yields(ts[1..])
  }

  /** `t` derives the whole token sequence `w` from the start symbol. */
  ghost predicate Parses(t: PTree, w: seq<Token>) {
    Derivation(t) && Root(t) == CONFIGURATION && Yield(t) == w
  }

  /** `w` is a sentence of the grammar. */
  ghost predicate Derives(w: seq<Token>) {
    exists t :: Parses(t, w)
  }

  lemma {:induction false} YieldsAppend(ts: seq<PTree>, us: seq<PTree>)
    ensures Yields(ts + us) == Yields(ts) + Yields(us)
  {
    if ts == [] {
      assert ts + us == us;
    } else {
      assert (ts + us)[1..] == ts[1..] + us;
      YieldsAppend(ts[1..], us);
    }
  }

  // ----- FIRST and FOLLOW, in the usual sense

  predicate Nullable(x: Symbol) {
    x in {24, 26, 27, 29, 31, 33, 38, 40, 42}
  }

  predicate InFirst(x: Symbol, k: Symbol) {
    if x < 23 then k == x
    else match x
      case 24 => k in {10}
      case 25 => k in {10}
      case 26 => k in {10}
      case 27 => k in {17, 20}
      case 28 => k in {10}
      case 30 => k in {13}
      case 32 => k in {15}
      case 34 => k in {3, 4, 5, 6, 7, 8, 9, 13, 15, 18}
      case 35 => k in {9}
      case 36 => k in {3, 4, 5, 6, 7, 8, 9}
      case 37 => k in {3, 4, 5, 6, 7, 8, 9, 13, 15, 18}
      case 38 => k in {3, 4, 5, 6, 7, 8, 9, 13, 15, 18}
      case 39 => k in {3, 4, 5, 6, 7, 8, 9}
      case 40 => k in {3, 4, 5, 6, 7, 8, 9}
      case 41 => k in {18}
      case _ => false
  }

  predicate InFollow(x: Symbol, k: Symbol) {
    if x < 23 then true
    else match x
      case 24 => k in {0}
      case 25 => k in {0, 10, 19}
      case 26 => k in {19}
      case 27 => k in {0, 10, 19}
      case 28 => k in {0, 10, 19}
      case 29 => k in {11}
      case 30 => k in {0, 10, 16, 17, 19, 20}
      case 31 => k in {3, 4, 5, 6, 7, 8, 9, 14}
      case 32 => k in {0, 10, 16, 17, 19, 20}
      case 33 => k in {3, 4, 5, 6, 7, 8, 9, 13, 15, 16, 18}
      case 34 => k in {0, 10, 16, 17, 19, 20}
      case 35 => k in {0, 9, 10, 14, 16, 17, 19, 20}
      case 36 => k in {0, 10, 14, 16, 17, 19, 20}
      case 37 => k in {16, 17}
      case 38 => k in {16}
      case 39 => k in {14, 17}
      case 40 => k in {14}
      case 41 => k in {0, 10, 16, 17, 19, 20}
      case 42 => k in {10, 19}
      case _ => false
  }

  /** `k` can come next when the symbols `xs` still have to be derived to complete an `a`. */
  predicate NextIn(xs: seq<Symbol>, a: Symbol, k: Symbol) {
    if xs == [] then InFollow(a, k)
    else InFirst(xs[0], k) || (Nullable(xs[0]) && NextIn(xs[1..], a, k))
  }

  /** The FIRST sets are closed under the rules. */
  lemma FirstClosed(n: int, k: Symbol)
    requires 2 <= n <= 39
    ensures Rhs(n) == [] ==> Nullable(Lhs(n))
    ensures Rhs(n) != [] && InFirst(Rhs(n)[0], k) ==> InFirst(Lhs(n), k)
    ensures Rhs(n) != [] && Nullable(Rhs(n)[0]) ==> |Rhs(n)| == 1 && Nullable(Lhs(n))
  {
  }

  /** The FOLLOW sets are closed under the rules: what may follow a rule follows its last symbol. */
  lemma FollowOfLast(n: int, k: Symbol)
    requires 2 <= n <= 39 && Rhs(n) != [] && InFollow(Lhs(n), k)
    ensures InFollow(Rhs(n)[|Rhs(n)| - 1], k)
  {
  }

  /** The FOLLOW sets are closed under the rules: what can start the rest of a rule follows a symbol. */
  lemma FollowOfInner(n: int, i: nat, k: Symbol)
    requires 2 <= n <= 39 && i + 1 < |Rhs(n)| && NextIn(Rhs(n)[i + 1..], Lhs(n), k)
    ensures InFollow(Rhs(n)[i], k)
  {
    assert n in {5, 12, 14, 16, 22, 31, 35, 39};
  }

  lemma FollowClosed(n: int, i: nat, k: Symbol)
    requires 2 <= n <= 39 && i < |Rhs(n)| && NextIn(Rhs(n)[i + 1..], Lhs(n), k)
    ensures InFollow(Rhs(n)[i], k)
  {
    if i + 1 == |Rhs(n)| {
      FollowOfLast(n, k);
    } else {
      FollowOfInner(n, i, k);
    }
  }

  /** A derivation tree begins with a token of its root's FIRST set, or is empty. */
  lemma {:induction false} FirstOf(t: PTree)
    requires Derivation(t)
    ensures Yield(t) == [] ==> Nullable(Root(t))
    ensures Yield(t) != [] ==> InFirst(Root(t), Kind(Yield(t)[0]))
    decreases t
  {
    match t
    case Leaf(_) =>
    case Node(n, kids) =>
      if kids == [] {
        FirstClosed(n, 0);
      } else {
        FirstOf(kids[0]);
        FirstOfNode(n, kids);
      }
  }

  lemma FirstOfNode(n: int, kids: seq<PTree>)
    requires Derivation(Node(n, kids)) && kids != []
    requires Yield(kids[0]) == [] ==> Nullable(Root(kids[0]))
    requires Yield(kids[0]) != [] ==> InFirst(Root(kids[0]), Kind(Yield(kids[0])[0]))
    ensures Yields(kids) == [] ==> Nullable(Lhs(n))
    ensures Yields(kids) != [] ==> InFirst(Lhs(n), Kind(Yields(kids)[0]))
  {
    FirstClosed(n, Look(Yield(kids[0])));
    if Yield(kids[0]) == [] {
      assert kids[1..] == [];
    }
  }

  /** What comes next when `kids` are still to be derived and `rest` follows the whole of `a`. */
  lemma {:induction false} NextOf(kids: seq<PTree>, a: Symbol, rest: seq<Token>)
    requires Derivations(kids) && InFollow(a, Look(rest))
    ensures NextIn(Roots(kids), a, Look(Yields(kids) + rest))
    decreases |kids|
  {
    if kids == [] {
      assert Yields(kids) + rest == rest;
    } else {
      FirstOf(kids[0]);
      NextOf(kids[1..], a, rest);
      assert Yields(kids) + rest == Yield(kids[0]) + (Yields(kids[1..]) + rest);
    }
  }
}
