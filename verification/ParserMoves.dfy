/**
 One move of the table-driven parser, as it reads the tables, follows one step of the machine.
 */
module ParserMoves {
  import opened Options
  import opened Tokens
  import opened Grammar
  import opened LrAutomaton
  import opened LrDriver
  import T = LrTables
  import opened Settings
  import opened Actions
  import opened ParseTheorem
  import opened ParseContexts
  import opened NullSafety

  /** The state stack, the trees of the value stack and the context belong together. */
  ghost predicate Good(ss: seq<int>, ts: seq<PTree>, c: Ctx) {
    && Suits(T.LIBCONFIG) && Linked(T.LIBCONFIG, ss) && |ts| + 1 == |ss|
    && (forall s | s in ss :: T.IsState(s))
    && Agrees(ss, c)
  }

  /** What the machine makes of the rest of the input. */
  ghost function Goal(ss: seq<int>, ts: seq<PTree>, rest: seq<Token>, c: Ctx): Outcome<Ctx> {
    if Suits(T.LIBCONFIG) && Linked(T.LIBCONFIG, ss) && |ts| + 1 == |ss|
    then Run(T.LIBCONFIG, Action, YYMAXDEPTH, ss, ts, rest, c) else Aborted
  }

  lemma StartIsGood()
    ensures Good([0], [], INITIAL)
    ensures forall w :: Goal([0], [], w, INITIAL) == YyParse(w)
  {
    T.LibconfigSuits();
    StartAgrees();
  }

  lemma ShiftMove(ss: seq<int>, ts: seq<PTree>, rest: seq<Token>, c: Ctx, q: int)
    requires Good(ss, ts, c) && |ss| < YYMAXDEPTH && rest != []
    requires T.TableAction(Last(ss), Look(rest)) == T.Shift(q)
    ensures Good(ss + [q], ts + [Leaf(rest[0])], c) && q != T.YYFINAL
    ensures Goal(ss, ts, rest, c) == Goal(ss + [q], ts + [Leaf(rest[0])], rest[1..], c)
  {
    var k := Kind(rest[0]);
    T.TableActionIsTrans(Last(ss), k);
    ShiftAgrees(ss, c, k);
    ShiftTargets(Last(ss), k);
    assert Push(T.LIBCONFIG, ss, k) == ss + [q];
  }

  lemma ShiftTargets(s: int, k: Symbol)
    requires T.Trans(s, k) >= 0
    ensures T.IsState(T.Trans(s, k)) && (T.Trans(s, k) == T.YYFINAL <==> k == END)
  {
  }

  lemma ErrorMove(ss: seq<int>, ts: seq<PTree>, rest: seq<Token>, c: Ctx)
    requires Good(ss, ts, c) && |ss| < YYMAXDEPTH && Last(ss) != T.YYFINAL
    requires T.TableAction(Last(ss), Look(rest)) == T.Error
    ensures Goal(ss, ts, rest, c) == Aborted
  {
    T.TableActionIsTrans(Last(ss), Look(rest));
  }

  lemma FinalMove(ss: seq<int>, ts: seq<PTree>, c: Ctx, q: int)
    requires Good(ss, ts, c) && |ss| < YYMAXDEPTH && T.TableAction(Last(ss), END) == T.Shift(q)
    ensures q == T.YYFINAL && ts != []
    ensures Goal(ss, ts, [], c) == if |ss| + 1 >= YYMAXDEPTH then Exhausted else Accepted(Last(ts), c)
  {
    T.TableActionIsTrans(Last(ss), END);
    ShiftTargets(Last(ss), END);
    FinalState(Last(ss));
  }

  lemma FinalState(s: int)
    requires T.Trans(s, END) >= 0
    ensures s == 2
  {
  }

  /** The stack without the right-hand side of rule `n`. */
  function Base(ss: seq<int>, n: int): seq<int>
    requires |Rhs(n)| < |ss|
  {
    ss[..|ss| - |Rhs(n)|]
  }

  /** A rule to reduce: its right-hand side is on the stack, and its action is safe. */
  lemma ReduceReady(ss: seq<int>, ts: seq<PTree>, rest: seq<Token>, c: Ctx, n: int)
    requires Good(ss, ts, c) && Last(ss) != T.YYFINAL && T.TableAction(Last(ss), Look(rest)) == T.Reduce(n)
    ensures n == T.LIBCONFIG.reduce(Last(ss)) && T.LIBCONFIG.trans(Last(ss), Look(rest)) < 0
    ensures 2 <= n <= 39 && |Rhs(n)| < |ss| && Base(ss, n) == Pop(T.LIBCONFIG, ss)
    ensures Reducing(ss, Base(ss, n), n) && Safe(n, c)
    ensures T.LIBCONFIG.lhs(n) == Lhs(n) && Lhs(n) != END
  {
    ReduceRule(Last(ss), Look(rest), n);
    var base := HandleIs(T.LIBCONFIG, ss, n);
    HandleReduces(ss, base, n);
    ReductionIsSafe(ss, c);
  }

  lemma ReduceRule(s: int, k: Symbol, n: int)
    requires T.IsState(s) && 0 <= k < T.YYNTOKENS && s != T.YYFINAL && T.TableAction(s, k) == T.Reduce(n)
    ensures n == T.Default(s) == T.LIBCONFIG.reduce(s) && n != 0
    ensures T.Trans(s, k) < 0 && T.LIBCONFIG.trans(s, k) < 0
  {
    T.TableActionIsTrans(s, k);
  }

  lemma HandleReduces(ss: seq<int>, base: seq<int>, n: int)
    requires Linked(T.LIBCONFIG, ss) && n == T.Default(Last(ss)) && 2 <= n <= 39
    requires base != [] && |base| + |Rhs(n)| == |ss| && base == ss[..|base|]
    requires forall i :: 0 <= i < |Rhs(n)| ==> T.LIBCONFIG.symbolOf(ss[|base| + i]) == Rhs(n)[i]
    requires T.LIBCONFIG.trans(Last(base), Lhs(n)) >= 0
    ensures Reducing(ss, base, n)
  {
    FieldsOf(n, Last(base), Lhs(n));
    HandleSymbols(ss, |base|, n);
  }

  /** The functions of the automaton are those of the tables. */
  lemma FieldsOf(n: int, s: int, x: Symbol)
    ensures T.LIBCONFIG.lhs(n) == Lhs(n) && T.LIBCONFIG.rhs(n) == Rhs(n)
    ensures T.LIBCONFIG.symbolOf(s) == T.YyStos(s) && T.LIBCONFIG.trans(s, x) == T.Trans(s, x)
  {
  }

  lemma HandleSymbols(ss: seq<int>, b: nat, n: int)
    requires b + |Rhs(n)| <= |ss|
    requires forall i :: 0 <= i < |Rhs(n)| ==> T.LIBCONFIG.symbolOf(ss[b + i]) == Rhs(n)[i]
    ensures forall i :: 0 <= i < |Rhs(n)| ==> T.YyStos(ss[b + i]) == Rhs(n)[i]
  {
    forall i | 0 <= i < |Rhs(n)|
      ensures T.YyStos(ss[b + i]) == Rhs(n)[i]
    {
      FieldsOf(n, ss[b + i], 0);
    }
  }

  lemma HandleIs(a: Automaton, ss: seq<int>, n: int) returns (base: seq<int>)
    requires Suits(a) && Linked(a, ss) && n == a.reduce(Last(ss)) != 0
    ensures IsRule(n) && a.lhs(n) == Lhs(n) && Lhs(n) != END && |Rhs(n)| < |ss|
    ensures base == Base(ss, n) == Pop(a, ss) && base != [] && |base| + |Rhs(n)| == |ss| && base == ss[..|base|]
    ensures forall i :: 0 <= i < |Rhs(n)| ==> a.symbolOf(ss[|base| + i]) == Rhs(n)[i]
    ensures a.trans(Last(base), Lhs(n)) >= 0
  {
    base := Pop(a, ss);
    assert OfGrammar(a, n);
  }

  /** The trees after a reduction. */
  function TreesAfter(ss: seq<int>, ts: seq<PTree>, n: int): seq<PTree>
    requires |ts| + 1 == |ss| && |Rhs(n)| < |ss|
  {
    ts[..|ts| - |Rhs(n)|] + [Node(n, ts[|ts| - |Rhs(n)|..])]
  }

  lemma ReduceMove(ss: seq<int>, ts: seq<PTree>, rest: seq<Token>, c: Ctx, n: int)
    requires Good(ss, ts, c) && |ss| < YYMAXDEPTH && Last(ss) != T.YYFINAL
    requires T.TableAction(Last(ss), Look(rest)) == T.Reduce(n)
    ensures 2 <= n <= 39 && |Rhs(n)| < |ss| && Safe(n, c) && Base(ss, n) != []
    ensures match Action(n, TopVal(ts, TokGarbage), c)
            case None => Goal(ss, ts, rest, c) == Aborted
            case Some(m) =>
              var next := Base(ss, n) + [T.TableGoto(Last(Base(ss, n)), Lhs(n))];
              && Good(next, TreesAfter(ss, ts, n), m) && Last(next) != T.YYFINAL
              && Goal(ss, ts, rest, c) == Goal(next, TreesAfter(ss, ts, n), rest, m)
              && T.Rank(Last(next)) < T.Rank(Last(ss))
  {
    ReduceReady(ss, ts, rest, c, n);
    match Action(n, TopVal(ts, TokGarbage), c)
    case None =>
    case Some(m) =>
      ReduceAgrees(ss, Base(ss, n), n, TopVal(ts, TokGarbage), c, m);
      GotoIsTrans(Last(Base(ss, n)), n);
      ReduceGoal(ss, ts, rest, c, n, m);
  }

  lemma GotoIsTrans(s: int, n: int)
    requires T.IsState(s) && 2 <= n <= 39 && T.Trans(s, Lhs(n)) >= 0
    ensures T.TableGoto(s, Lhs(n)) == T.Trans(s, Lhs(n))
    ensures T.IsState(T.Trans(s, Lhs(n))) && T.Trans(s, Lhs(n)) != T.YYFINAL
  {
    T.TableGotoIsTrans(s, Lhs(n));
    GotoStates(s, n);
  }

  lemma ReduceGoal(ss: seq<int>, ts: seq<PTree>, rest: seq<Token>, c: Ctx, n: int, m: Ctx)
    requires Good(ss, ts, c) && |ss| < YYMAXDEPTH && |Rhs(n)| < |ss|
    requires n == T.LIBCONFIG.reduce(Last(ss)) != 0 && T.LIBCONFIG.trans(Last(ss), Look(rest)) < 0
    requires Base(ss, n) == Pop(T.LIBCONFIG, ss) && T.LIBCONFIG.lhs(n) == Lhs(n)
    requires Action(n, TopVal(ts, TokGarbage), c) == Some(m)
    ensures var next := Push(T.LIBCONFIG, Base(ss, n), Lhs(n));
            && next == Base(ss, n) + [T.Trans(Last(Base(ss, n)), Lhs(n))]
            && Goal(ss, ts, rest, c) == Goal(next, TreesAfter(ss, ts, n), rest, m)
            && T.Rank(Last(next)) < T.Rank(Last(ss))
  {
  }
}
