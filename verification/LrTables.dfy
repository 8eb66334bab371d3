/**
 The compressed tables of the generated parser, entry by entry, and the automaton they encode.
 Every table function gives the value of the entry with the given index; indices that are not
 listed hold the default value.
 */
module LrTables {
  import opened Tokens
  import opened Grammar
  import opened LrAutomaton

  const YYPACT_NINF := -26
  const YYLAST := 35
  const YYNTOKENS := 23
  const YYNSTATES := 47
  const YYFINAL := 6
  const YYTERROR := 1

  /** `yypact`: where the row of a state starts in `YyTable`. */
  function YyPact(i: int): int {
    match i
    case 0 => -8 case 2 => 12 case 3 => -8 case 5 => 5 case 8 => 0 case 21 => -6 case 22 => 10 case 25 => 23
    case 26 => 0 case 27 => -8 case 33 => 3 case 34 => 7 case 36 => 6 case 37 => 8 case 38 => -8 case 39 => 14
    case 40 => 23 case 42 => 0
    case _ => -26
  }

  /** `yydefact`: the rule a state reduces by default; 0 is a syntax error. */
  function YyDefact(i: int): int {
    match i
    case 0 => 2 case 1 => 11 case 3 => 3 case 4 => 4 case 6 => 1 case 7 => 5 case 9 => 23 case 10 => 24
    case 11 => 26 case 12 => 25 case 13 => 27 case 14 => 28 case 15 => 21 case 16 => 13 case 17 => 15 case 18 => 38
    case 19 => 18 case 20 => 19 case 21 => 8 case 22 => 29 case 23 => 17 case 24 => 20 case 25 => 36 case 26 => 32
    case 27 => 6 case 28 => 10 case 29 => 9 case 30 => 12 case 31 => 22 case 32 => 34 case 33 => 37 case 35 => 30
    case 36 => 33 case 38 => 7 case 41 => 14 case 43 => 16 case 44 => 39 case 45 => 35 case 46 => 31
    case _ => 0
  }

  /** `yypgoto`: where the column of a nonterminal starts in `YyTable`. */
  function YyPgoto(i: int): int {
    match i
    case 2 => -5 case 5 => -3 case 11 => -25 case 13 => -15
    case _ => -26
  }

  /** `yydefgoto`: the state entered after a nonterminal by default. */
  function YyDefgoto(i: int): int {
    match i
    case 1 => 2 case 2 => 3 case 3 => 39 case 4 => 30 case 5 => 4 case 6 => 5 case 7 => 19 case 8 => 25
    case 9 => 20 case 10 => 26 case 11 => 21 case 12 => 22 case 13 => 23 case 14 => 36 case 15 => 37 case 16 => 33
    case 17 => 34 case 18 => 24 case 19 => 27
    case _ => -1
  }

  /** `yytable`: the state to enter. */
  function YyTable(i: int): int {
    match i
    case 0 => 7 case 1 => 35 case 2 => 1 case 3 => 9 case 4 => 10 case 5 => 11 case 6 => 12 case 7 => 13
    case 8 => 14 case 9 => 15 case 10 => 32 case 11 => 28 case 12 => 6 case 13 => 16 case 14 => 29 case 15 => 17
    case 16 => 8 case 17 => 46 case 18 => 18 case 19 => 31 case 20 => 40 case 21 => 41 case 22 => 38 case 23 => 42
    case 24 => 43 case 25 => 45 case 26 => 9 case 27 => 10 case 28 => 11 case 29 => 12 case 30 => 13 case 31 => 14
    case 32 => 15 case 33 => 44 case 35 => 7
    case _ => 0
  }

  /** `yycheck`: the symbol or state that an entry of `YyTable` belongs to. */
  function YyCheck(i: int): int {
    match i
    case 0 => 3 case 1 => 26 case 2 => 10 case 3 => 3 case 4 => 4 case 5 => 5 case 6 => 6 case 7 => 7
    case 8 => 8 case 9 => 9 case 10 => 25 case 11 => 17 case 12 => 0 case 13 => 13 case 14 => 20 case 15 => 15
    case 16 => 11 case 17 => 42 case 18 => 18 case 19 => 9 case 20 => 17 case 21 => 14 case 22 => 27 case 23 => 17
    case 24 => 16 case 25 => 40 case 26 => 3 case 27 => 4 case 28 => 5 case 29 => 6 case 30 => 7 case 31 => 8
    case 32 => 9 case 33 => 19 case 35 => 38
    case _ => -1
  }

  /** `yyr2`: the number of symbols a rule pops. */
  function YyR2(i: int): int {
    match i
    case 1 => 2 case 3 => 1 case 4 => 1 case 5 => 2 case 7 => 1 case 9 => 1 case 10 => 1 case 12 => 5
    case 14 => 4 case 16 => 4 case 17 => 1 case 18 => 1 case 19 => 1 case 20 => 1 case 21 => 1 case 22 => 2
    case 23 => 1 case 24 => 1 case 25 => 1 case 26 => 1 case 27 => 1 case 28 => 1 case 29 => 1 case 30 => 1
    case 31 => 3 case 33 => 1 case 34 => 1 case 35 => 3 case 37 => 1 case 39 => 4
    case _ => 0
  }

  /** `yystos`: the symbol that is read on entering a state. */
  function YyStos(i: int): int {
    match i
    case 1 => 10 case 2 => 24 case 3 => 25 case 4 => 28 case 5 => 29 case 7 => 28 case 8 => 11 case 9 => 3
    case 10 => 4 case 11 => 5 case 12 => 6 case 13 => 7 case 14 => 8 case 15 => 9 case 16 => 13 case 17 => 15
    case 18 => 18 case 19 => 30 case 20 => 32 case 21 => 34 case 22 => 35 case 23 => 36 case 24 => 41 case 25 => 31
    case 26 => 33 case 27 => 42 case 28 => 17 case 29 => 20 case 30 => 27 case 31 => 9 case 32 => 36 case 33 => 39
    case 34 => 40 case 35 => 34 case 36 => 37 case 37 => 38 case 38 => 25 case 39 => 26 case 40 => 17 case 41 => 14
    case 42 => 17 case 43 => 16 case 44 => 19 case 45 => 36 case 46 => 34
    case _ => 0
  }

  datatype Action = Shift(s: int) | Reduce(n: int) | Error

  /** What `yybackup` and `yydefault` decide in state `s` on symbol `t`. */
  function TableAction(s: int, t: Symbol): Action {
    var n := YyPact(s) + t;
    if YyPact(s) != YYPACT_NINF && 0 <= n <= YYLAST && YyCheck(n) == t then
      if YyTable(n) <= 0 then Reduce(-YyTable(n)) else Shift(YyTable(n))
    else if YyDefact(s) == 0 then Error
    else Reduce(YyDefact(s))
  }

  /** The state entered in `s` after a reduction to the nonterminal `a`. */
  function TableGoto(s: int, a: Symbol): int {
    var g := YyPgoto(a - YYNTOKENS) + s;
    if 0 <= g <= YYLAST && YyCheck(g) == s then YyTable(g) else YyDefgoto(a - YYNTOKENS)
  }

  /** The error loop at `yyerrlab1` would shift the error token in state `s`. */
  predicate ShiftsErrorToken(s: int) {
    var n := YyPact(s) + YYTERROR;
    YyPact(s) != YYPACT_NINF && 0 <= n <= YYLAST && YyCheck(n) == YYTERROR && 0 < YyTable(n)
  }

  /** The automaton: the state entered from `s` over symbol `x`, or -1 when there is none. */
  function Trans(s: int, x: Symbol): int {
    match x
    case 0 => if s == 2 then 6 else -1
    case 3 => if s in {8, 25, 26, 40, 42} then 9 else -1
    case 4 => if s in {8, 25, 26, 40, 42} then 10 else -1
    case 5 => if s in {8, 25, 26, 40, 42} then 11 else -1
    case 6 => if s in {8, 25, 26, 40, 42} then 12 else -1
    case 7 => if s in {8, 25, 26, 40, 42} then 13 else -1
    case 8 => if s in {8, 25, 26, 40, 42} then 14 else -1
    case 9 => if s in {8, 25, 26, 40, 42} then 15 else if s == 22 then 31 else -1
    case 10 => if s in {0, 3, 27, 38} then 1 else -1
    case 11 => if s == 5 then 8 else -1
    case 13 => if s in {8, 26, 42} then 16 else -1
    case 14 => if s == 34 then 41 else -1
    case 15 => if s in {8, 26, 42} then 17 else -1
    case 16 => if s == 37 then 43 else -1
    case 17 => if s == 21 then 28 else if s == 33 then 40 else if s == 36 then 42 else -1
    case 18 => if s in {8, 26, 42} then 18 else -1
    case 19 => if s == 39 then 44 else -1
    case 20 => if s == 21 then 29 else -1
    case 24 => if s == 0 then 2 else -1
    case 25 => if s == 0 then 3 else if s == 27 then 38 else -1
    case 26 => if s == 27 then 39 else -1
    case 27 => if s == 21 then 30 else -1
    case 28 => if s in {0, 27} then 4 else if s in {3, 38} then 7 else -1
    case 29 => if s == 1 then 5 else -1
    case 30 => if s in {8, 26, 42} then 19 else -1
    case 31 => if s == 16 then 25 else -1
    case 32 => if s in {8, 26, 42} then 20 else -1
    case 33 => if s == 17 then 26 else -1
    case 34 => if s == 8 then 21 else if s == 26 then 35 else if s == 42 then 46 else -1
    case 35 => if s in {8, 25, 26, 40, 42} then 22 else -1
    case 36 => if s in {8, 26, 42} then 23 else if s == 25 then 32 else if s == 40 then 45 else -1
    case 37 => if s == 26 then 36 else -1
    case 38 => if s == 26 then 37 else -1
    case 39 => if s == 25 then 33 else -1
    case 40 => if s == 25 then 34 else -1
    case 41 => if s in {8, 26, 42} then 24 else -1
    case 42 => if s == 18 then 27 else -1
    case _ => -1
  }

  predicate IsState(s: int) {
    0 <= s < YYNSTATES
  }

  /** The reductions that can still happen in state `s` before the next token is shifted. */
  function Rank(s: int): nat {
    if s in {2, 5, 6, 8, 34, 37, 39, 40, 42} then 0
    else if s in {4, 7, 16, 17, 18, 32, 35, 45, 46} then 2
    else if s in {30} then 3
    else if s in {21, 28, 29} then 4
    else if s in {19, 20, 23, 24} then 5
    else if s in {9, 10, 11, 12, 13, 14, 22, 41, 43, 44} then 6
    else if s in {15, 31} then 7
    else 1
  }

  // ----- the tables encode the automaton

  ghost predicate RowAgrees(s: int, t: Symbol) {
    TableAction(s, t) ==
    if Trans(s, t) >= 0 then Shift(Trans(s, t))
    else if YyDefact(s) == 0 then Error else Reduce(YyDefact(s))
  }

  lemma RowsAtStart(s: int, t: Symbol)
    requires s in {0, 3, 5} && 0 <= t < YYNTOKENS
    ensures RowAgrees(s, t)
  {
    match s { case 0 => case 3 => case 5 => }
  }

  lemma RowsAfterValue(s: int, t: Symbol)
    requires s in {21, 22, 27} && 0 <= t < YYNTOKENS
    ensures RowAgrees(s, t)
  {
    match s { case 21 => case 22 => case 27 => }
  }

  lemma RowsInsideVector(s: int, t: Symbol)
    requires s in {33, 34, 36} && 0 <= t < YYNTOKENS
    ensures RowAgrees(s, t)
  {
    match s { case 33 => case 34 => case 36 => }
  }

  lemma RowsBeforeClosing(s: int, t: Symbol)
    requires s in {37, 38} && 0 <= t < YYNTOKENS
    ensures RowAgrees(s, t)
  {
    match s { case 37 => case 38 => }
  }

  lemma RowsAtEnd(s: int, t: Symbol)
    requires s in {2} && 0 <= t < YYNTOKENS
    ensures RowAgrees(s, t)
  {
    match s { case 2 => }
  }

  lemma RowsAtGroupEnd(s: int, t: Symbol)
    requires s in {39} && 0 <= t < YYNTOKENS
    ensures RowAgrees(s, t)
  {
    match t {
      case 0 => case 1 => case 2 => case 3 => case 4 => case 5 => case 6 => case 7 =>
      case 8 => case 9 => case 10 => case 11 => case 12 => case 13 => case 14 => case 15 =>
      case 16 => case 17 => case 18 => case 19 => case 20 => case 21 => case 22 =>
    }
  }

  lemma RowsAfterEquals(s: int, t: Symbol)
    requires s in {8} && 0 <= t < YYNTOKENS
    ensures RowAgrees(s, t)
  {
    match t {
      case 0 => case 1 => case 2 => case 3 => case 4 => case 5 => case 6 => case 7 =>
      case 8 => case 9 => case 10 => case 11 => case 12 => case 13 => case 14 => case 15 =>
      case 16 => case 17 => case 18 => case 19 => case 20 => case 21 => case 22 =>
    }
  }

  lemma RowsInsideArray(s: int, t: Symbol)
    requires s in {25} && 0 <= t < YYNTOKENS
    ensures RowAgrees(s, t)
  {
    match t {
      case 0 => case 1 => case 2 => case 3 => case 4 => case 5 => case 6 => case 7 =>
      case 8 => case 9 => case 10 => case 11 => case 12 => case 13 => case 14 => case 15 =>
      case 16 => case 17 => case 18 => case 19 => case 20 => case 21 => case 22 =>
    }
  }

  lemma RowsInsideList(s: int, t: Symbol)
    requires s in {26} && 0 <= t < YYNTOKENS
    ensures RowAgrees(s, t)
  {
    match t {
      case 0 => case 1 => case 2 => case 3 => case 4 => case 5 => case 6 => case 7 =>
      case 8 => case 9 => case 10 => case 11 => case 12 => case 13 => case 14 => case 15 =>
      case 16 => case 17 => case 18 => case 19 => case 20 => case 21 => case 22 =>
    }
  }

  lemma RowsAfterArrayComma(s: int, t: Symbol)
    requires s in {40} && 0 <= t < YYNTOKENS
    ensures RowAgrees(s, t)
  {
    match t {
      case 0 => case 1 => case 2 => case 3 => case 4 => case 5 => case 6 => case 7 =>
      case 8 => case 9 => case 10 => case 11 => case 12 => case 13 => case 14 => case 15 =>
      case 16 => case 17 => case 18 => case 19 => case 20 => case 21 => case 22 =>
    }
  }

  lemma RowsAfterListComma(s: int, t: Symbol)
    requires s in {42} && 0 <= t < YYNTOKENS
    ensures RowAgrees(s, t)
  {
    match t {
      case 0 => case 1 => case 2 => case 3 => case 4 => case 5 => case 6 => case 7 =>
      case 8 => case 9 => case 10 => case 11 => case 12 => case 13 => case 14 => case 15 =>
      case 16 => case 17 => case 18 => case 19 => case 20 => case 21 => case 22 =>
    }
  }

  /** Reading the compressed tables in a state gives the move of the automaton. */
  lemma TableActionIsTrans(s: int, t: Symbol)
    requires IsState(s) && 0 <= t < YYNTOKENS
    ensures Trans(s, t) >= 0 ==> TableAction(s, t) == Shift(Trans(s, t))
    ensures Trans(s, t) < 0 && YyDefact(s) == 0 ==> TableAction(s, t) == Error
    ensures Trans(s, t) < 0 && YyDefact(s) != 0 ==> TableAction(s, t) == Reduce(YyDefact(s))
  {
    if YyPact(s) == YYPACT_NINF {
    }
    else if s in {0, 3, 5} { RowsAtStart(s, t); }
    else if s in {21, 22, 27} { RowsAfterValue(s, t); }
    else if s in {33, 34, 36} { RowsInsideVector(s, t); }
    else if s in {37, 38} { RowsBeforeClosing(s, t); }
    else if s in {2} { RowsAtEnd(s, t); }
    else if s in {39} { RowsAtGroupEnd(s, t); }
    else if s in {8} { RowsAfterEquals(s, t); }
    else if s in {25} { RowsInsideArray(s, t); }
    else if s in {26} { RowsInsideList(s, t); }
    else if s in {40} { RowsAfterArrayComma(s, t); }
    else if s in {42} { RowsAfterListComma(s, t); }
  }

  /** After a reduction the compressed tables lead to the state of the automaton. */
  lemma TableGotoIsTrans(s: int, a: Symbol)
    requires IsState(s) && YYNTOKENS <= a < 43 && Trans(s, a) >= 0
    ensures TableGoto(s, a) == Trans(s, a)
  {
  }

  /** No state accepts the error token, so error recovery can only pop. */
  lemma NoErrorToken(s: int)
    ensures !ShiftsErrorToken(s)
  {
  }

  lemma RuleLength(n: int)
    requires 1 <= n <= 39
    ensures YyR2(n) == |Rhs(n)|
  {
  }

  // ----- the automaton has the items of an LR automaton for the grammar

  /** The kernel items: in state `s` the first `d >= 1` symbols of rule `n` have been read. */
  predicate Kernel(s: int, n: int, d: nat) {
    match n
    case 3 => d == 1 && s == 3
    case 4 => d == 1 && s == 4
    case 5 => (d == 1 && s in {3, 38}) || (d == 2 && s == 7)
    case 7 => d == 1 && s == 38
    case 9 => d == 1 && s == 29
    case 10 => d == 1 && s == 28
    case 12 => (d == 1 && s == 1) || (d == 2 && s == 5) || (d == 3 && s == 8) || (d == 4 && s == 21) || (d == 5 && s == 30)
    case 14 => (d == 1 && s == 16) || (d == 2 && s == 25) || (d == 3 && s == 34) || (d == 4 && s == 41)
    case 16 => (d == 1 && s == 17) || (d == 2 && s == 26) || (d == 3 && s == 37) || (d == 4 && s == 43)
    case 17 => d == 1 && s == 23
    case 18 => d == 1 && s == 19
    case 19 => d == 1 && s == 20
    case 20 => d == 1 && s == 24
    case 21 => d == 1 && s == 15
    case 22 => (d == 1 && s == 22) || (d == 2 && s == 31)
    case 23 => d == 1 && s == 9
    case 24 => d == 1 && s == 10
    case 25 => d == 1 && s == 12
    case 26 => d == 1 && s == 11
    case 27 => d == 1 && s == 13
    case 28 => d == 1 && s == 14
    case 29 => d == 1 && s == 22
    case 30 => d == 1 && s == 35
    case 31 => (d == 1 && s == 36) || (d == 2 && s == 42) || (d == 3 && s == 46)
    case 33 => d == 1 && s == 36
    case 34 => d == 1 && s == 32
    case 35 => (d == 1 && s == 33) || (d == 2 && s == 40) || (d == 3 && s == 45)
    case 37 => d == 1 && s == 33
    case 39 => (d == 1 && s == 18) || (d == 2 && s == 27) || (d == 3 && s == 39) || (d == 4 && s == 44)
    case _ => false
  }

  /** An unread rule is possible wherever its left-hand side can be entered. */
  predicate Item(s: int, n: int, d: nat) {
    if d == 0 then Trans(s, Lhs(n)) >= 0 else Kernel(s, n, d)
  }

  /** The rule a state reduces by default; the final state accepts instead. */
  function Default(s: int): int {
    if s == YYFINAL then 0 else YyDefact(s)
  }

  const LIBCONFIG: Automaton := Automaton(
    n => Lhs(n), n => Rhs(n), (s, x) => Trans(s, x), s => Default(s), s => YyStos(s),
    s => Rank(s), (s: int, n: int, d: nat) => Item(s, n, d))

  lemma ForwardSettingLists(s: int, n: int, d: nat)
    requires n in {2, 3, 4, 5}
    ensures Forward(LIBCONFIG, s, n, d)
  {
    match n { case 2 => case 3 => case 4 => case 5 => }
  }

  lemma ForwardSettingListOptionals(s: int, n: int, d: nat)
    requires n in {6, 7}
    ensures Forward(LIBCONFIG, s, n, d)
  {
    match n { case 6 => case 7 => }
  }

  lemma ForwardTerminators(s: int, n: int, d: nat)
    requires n in {8, 9, 10}
    ensures Forward(LIBCONFIG, s, n, d)
  {
    match n { case 8 => case 9 => case 10 => }
  }

  lemma ForwardMarkers(s: int, n: int, d: nat)
    requires n in {11, 13, 15, 38}
    ensures Forward(LIBCONFIG, s, n, d)
  {
    match n { case 11 => case 13 => case 15 => case 38 => }
  }

  lemma ForwardSettings(s: int, n: int, d: nat)
    requires n == 12
    ensures Forward(LIBCONFIG, s, n, d)
  {
  }

  lemma ForwardArrays(s: int, n: int, d: nat)
    requires n == 14
    ensures Forward(LIBCONFIG, s, n, d)
  {
  }

  lemma ForwardLists(s: int, n: int, d: nat)
    requires n == 16
    ensures Forward(LIBCONFIG, s, n, d)
  {
  }

  lemma ForwardGroups(s: int, n: int, d: nat)
    requires n == 39
    ensures Forward(LIBCONFIG, s, n, d)
  {
  }

  lemma ForwardValues(s: int, n: int, d: nat)
    requires n in {17, 18}
    ensures Forward(LIBCONFIG, s, n, d)
  {
    match n { case 17 => case 18 => }
  }

  lemma ForwardAggregates(s: int, n: int, d: nat)
    requires n in {19, 20}
    ensures Forward(LIBCONFIG, s, n, d)
  {
    match n { case 19 => case 20 => }
  }

  lemma ForwardStrings(s: int, n: int, d: nat)
    requires n in {21, 22}
    ensures Forward(LIBCONFIG, s, n, d)
  {
    match n { case 21 => case 22 => }
  }

  lemma ForwardIntegers(s: int, n: int, d: nat)
    requires n in {23, 24, 25}
    ensures Forward(LIBCONFIG, s, n, d)
  {
    match n { case 23 => case 24 => case 25 => }
  }

  lemma ForwardHexadecimals(s: int, n: int, d: nat)
    requires n in {26, 27}
    ensures Forward(LIBCONFIG, s, n, d)
  {
    match n { case 26 => case 27 => }
  }

  lemma ForwardScalars(s: int, n: int, d: nat)
    requires n in {28, 29}
    ensures Forward(LIBCONFIG, s, n, d)
  {
    match n { case 28 => case 29 => }
  }

  lemma ForwardValueLists(s: int, n: int, d: nat)
    requires n in {30, 31}
    ensures Forward(LIBCONFIG, s, n, d)
  {
    match n { case 30 => case 31 => }
  }

  lemma ForwardValueListOptionals(s: int, n: int, d: nat)
    requires n in {32, 33}
    ensures Forward(LIBCONFIG, s, n, d)
  {
    match n { case 32 => case 33 => }
  }

  lemma ForwardSimpleValueLists(s: int, n: int, d: nat)
    requires n in {34, 35}
    ensures Forward(LIBCONFIG, s, n, d)
  {
    match n { case 34 => case 35 => }
  }

  lemma ForwardSimpleValueListOptionals(s: int, n: int, d: nat)
    requires n in {36, 37}
    ensures Forward(LIBCONFIG, s, n, d)
  {
    match n { case 36 => case 37 => }
  }

  lemma ForwardEvery(s: int, n: int, d: nat)
    ensures Forward(LIBCONFIG, s, n, d)
  {
    if n in {2, 3, 4, 5} { ForwardSettingLists(s, n, d); }
    else if n in {6, 7} { ForwardSettingListOptionals(s, n, d); }
    else if n in {8, 9, 10} { ForwardTerminators(s, n, d); }
    else if n in {11, 13, 15, 38} { ForwardMarkers(s, n, d); }
    else if n == 12 { ForwardSettings(s, n, d); }
    else if n == 14 { ForwardArrays(s, n, d); }
    else if n == 16 { ForwardLists(s, n, d); }
    else if n == 39 { ForwardGroups(s, n, d); }
    else if n in {17, 18} { ForwardValues(s, n, d); }
    else if n in {19, 20} { ForwardAggregates(s, n, d); }
    else if n in {21, 22} { ForwardStrings(s, n, d); }
    else if n in {23, 24, 25} { ForwardIntegers(s, n, d); }
    else if n in {26, 27} { ForwardHexadecimals(s, n, d); }
    else if n in {28, 29} { ForwardScalars(s, n, d); }
    else if n in {30, 31} { ForwardValueLists(s, n, d); }
    else if n in {32, 33} { ForwardValueListOptionals(s, n, d); }
    else if n in {34, 35} { ForwardSimpleValueLists(s, n, d); }
    else if n in {36, 37} { ForwardSimpleValueListOptionals(s, n, d); }
  }

  lemma BackwardSettingLists(p: int, q: int, n: int, d: nat)
    requires n in {2, 3, 4, 5}
    ensures Backward(LIBCONFIG, p, q, n, d)
  {
    match n { case 2 => case 3 => case 4 => case 5 => }
  }

  lemma BackwardOptionals(p: int, q: int, n: int, d: nat)
    requires n in {6, 7, 8, 9, 10}
    ensures Backward(LIBCONFIG, p, q, n, d)
  {
    match n { case 6 => case 7 => case 8 => case 9 => case 10 => }
  }

  lemma BackwardMarkers(p: int, q: int, n: int, d: nat)
    requires n in {11, 13, 15, 38}
    ensures Backward(LIBCONFIG, p, q, n, d)
  {
    match n { case 11 => case 13 => case 15 => case 38 => }
  }

  lemma BackwardSettings(p: int, q: int, n: int, d: nat)
    requires n == 12
    ensures Backward(LIBCONFIG, p, q, n, d)
  {
  }

  lemma BackwardArrays(p: int, q: int, n: int, d: nat)
    requires n == 14
    ensures Backward(LIBCONFIG, p, q, n, d)
  {
  }

  lemma BackwardLists(p: int, q: int, n: int, d: nat)
    requires n == 16
    ensures Backward(LIBCONFIG, p, q, n, d)
  {
  }

  lemma BackwardGroups(p: int, q: int, n: int, d: nat)
    requires n == 39
    ensures Backward(LIBCONFIG, p, q, n, d)
  {
  }

  lemma BackwardValues(p: int, q: int, n: int, d: nat)
    requires n in {17, 18, 19, 20}
    ensures Backward(LIBCONFIG, p, q, n, d)
  {
    match n { case 17 => case 18 => case 19 => case 20 => }
  }

  lemma BackwardStrings(p: int, q: int, n: int, d: nat)
    requires n in {21, 22}
    ensures Backward(LIBCONFIG, p, q, n, d)
  {
    match n { case 21 => case 22 => }
  }

  lemma BackwardIntegers(p: int, q: int, n: int, d: nat)
    requires n in {23, 24, 25}
    ensures Backward(LIBCONFIG, p, q, n, d)
  {
    match n { case 23 => case 24 => case 25 => }
  }

  lemma BackwardScalars(p: int, q: int, n: int, d: nat)
    requires n in {26, 27, 28, 29}
    ensures Backward(LIBCONFIG, p, q, n, d)
  {
    match n { case 26 => case 27 => case 28 => case 29 => }
  }

  lemma BackwardValueLists(p: int, q: int, n: int, d: nat)
    requires n in {30, 31}
    ensures Backward(LIBCONFIG, p, q, n, d)
  {
    match n { case 30 => case 31 => }
  }

  lemma BackwardValueListOptionals(p: int, q: int, n: int, d: nat)
    requires n in {32, 33}
    ensures Backward(LIBCONFIG, p, q, n, d)
  {
    match n { case 32 => case 33 => }
  }

  lemma BackwardSimpleValueLists(p: int, q: int, n: int, d: nat)
    requires n in {34, 35}
    ensures Backward(LIBCONFIG, p, q, n, d)
  {
    match n { case 34 => case 35 => }
  }

  lemma BackwardSimpleValueListOptionals(p: int, q: int, n: int, d: nat)
    requires n in {36, 37}
    ensures Backward(LIBCONFIG, p, q, n, d)
  {
    match n { case 36 => case 37 => }
  }

  lemma BackwardEvery(p: int, q: int, n: int, d: nat)
    ensures Backward(LIBCONFIG, p, q, n, d)
  {
    if n in {2, 3, 4, 5} { BackwardSettingLists(p, q, n, d); }
    else if n in {6, 7, 8, 9, 10} { BackwardOptionals(p, q, n, d); }
    else if n in {11, 13, 15, 38} { BackwardMarkers(p, q, n, d); }
    else if n == 12 { BackwardSettings(p, q, n, d); }
    else if n == 14 { BackwardArrays(p, q, n, d); }
    else if n == 16 { BackwardLists(p, q, n, d); }
    else if n == 39 { BackwardGroups(p, q, n, d); }
    else if n in {17, 18, 19, 20} { BackwardValues(p, q, n, d); }
    else if n in {21, 22} { BackwardStrings(p, q, n, d); }
    else if n in {23, 24, 25} { BackwardIntegers(p, q, n, d); }
    else if n in {26, 27, 28, 29} { BackwardScalars(p, q, n, d); }
    else if n in {30, 31} { BackwardValueLists(p, q, n, d); }
    else if n in {32, 33} { BackwardValueListOptionals(p, q, n, d); }
    else if n in {34, 35} { BackwardSimpleValueLists(p, q, n, d); }
    else if n in {36, 37} { BackwardSimpleValueListOptionals(p, q, n, d); }
  }

  lemma CompletedSettings(s: int, n: int, k: Symbol)
    requires n in {2, 3, 4, 5}
    ensures ReducesOnFollow(LIBCONFIG, s, n, k)
  {
    match n { case 2 => case 3 => case 4 => case 5 => }
  }

  lemma CompletedOptionals(s: int, n: int, k: Symbol)
    requires n in {6, 7, 8, 9, 10}
    ensures ReducesOnFollow(LIBCONFIG, s, n, k)
  {
    match n { case 6 => case 7 => case 8 => case 9 => case 10 => }
  }

  lemma CompletedMarkers(s: int, n: int, k: Symbol)
    requires n in {11, 13}
    ensures ReducesOnFollow(LIBCONFIG, s, n, k)
  {
    match n { case 11 => case 13 => }
  }

  lemma CompletedMoreMarkers(s: int, n: int, k: Symbol)
    requires n in {15, 38}
    ensures ReducesOnFollow(LIBCONFIG, s, n, k)
  {
    match n { case 15 => case 38 => }
  }

  lemma CompletedBrackets(s: int, n: int, k: Symbol)
    requires n in {12, 14, 16, 39}
    ensures ReducesOnFollow(LIBCONFIG, s, n, k)
  {
    match n { case 12 => case 14 => case 16 => case 39 => }
  }

  lemma CompletedValues(s: int, n: int, k: Symbol)
    requires n in {17, 18, 19, 20, 21, 22}
    ensures ReducesOnFollow(LIBCONFIG, s, n, k)
  {
    match n { case 17 => case 18 => case 19 => case 20 => case 21 => case 22 => }
  }

  lemma CompletedScalars(s: int, n: int, k: Symbol)
    requires n in {23, 24, 25, 26, 27, 28, 29}
    ensures ReducesOnFollow(LIBCONFIG, s, n, k)
  {
    match n { case 23 => case 24 => case 25 => case 26 => case 27 => case 28 => case 29 => }
  }

  lemma CompletedValueLists(s: int, n: int, k: Symbol)
    requires n in {30, 31}
    ensures ReducesOnFollow(LIBCONFIG, s, n, k)
  {
    match n { case 30 => case 31 => }
  }

  lemma CompletedOptionalValueLists(s: int, n: int, k: Symbol)
    requires n in {32, 33}
    ensures ReducesOnFollow(LIBCONFIG, s, n, k)
  {
    match n { case 32 => case 33 => }
  }

  lemma CompletedSimpleValueLists(s: int, n: int, k: Symbol)
    requires n in {34, 35}
    ensures ReducesOnFollow(LIBCONFIG, s, n, k)
  {
    match n { case 34 => case 35 => }
  }

  lemma CompletedOptionalSimpleValueLists(s: int, n: int, k: Symbol)
    requires n in {36, 37}
    ensures ReducesOnFollow(LIBCONFIG, s, n, k)
  {
    match n { case 36 => case 37 => }
  }

  lemma CompletedEvery(s: int, n: int, k: Symbol)
    ensures ReducesOnFollow(LIBCONFIG, s, n, k)
  {
    if n in {2, 3, 4, 5} { CompletedSettings(s, n, k); }
    else if n in {6, 7, 8, 9, 10} { CompletedOptionals(s, n, k); }
    else if n in {11, 13} { CompletedMarkers(s, n, k); }
    else if n in {15, 38} { CompletedMoreMarkers(s, n, k); }
    else if n in {12, 14, 16, 39} { CompletedBrackets(s, n, k); }
    else if n in {17, 18, 19, 20, 21, 22} { CompletedValues(s, n, k); }
    else if n in {23, 24, 25, 26, 27, 28, 29} { CompletedScalars(s, n, k); }
    else if n in {30, 31} { CompletedValueLists(s, n, k); }
    else if n in {32, 33} { CompletedOptionalValueLists(s, n, k); }
    else if n in {34, 35} { CompletedSimpleValueLists(s, n, k); }
    else if n in {36, 37} { CompletedOptionalSimpleValueLists(s, n, k); }
  }

  lemma ProgressOfSettings(p: int, s: int)
    requires s in {0, 1, 3, 4, 7}
    ensures Progress(LIBCONFIG, p, s)
  {
    match s { case 0 => case 1 => case 3 => case 4 => case 7 => }
  }

  lemma ProgressOfScalars(p: int, s: int)
    requires s in {9, 10, 11, 12, 13}
    ensures Progress(LIBCONFIG, p, s)
  {
    match s { case 9 => case 10 => case 11 => case 12 => case 13 => }
  }

  lemma ProgressOfBrackets(p: int, s: int)
    requires s in {14, 15, 16, 17, 18}
    ensures Progress(LIBCONFIG, p, s)
  {
    match s { case 14 => case 15 => case 16 => case 17 => case 18 => }
  }

  lemma ProgressOfValues(p: int, s: int)
    requires s in {19, 20, 21, 22, 23}
    ensures Progress(LIBCONFIG, p, s)
  {
    match s { case 19 => case 20 => case 21 => case 22 => case 23 => }
  }

  lemma ProgressOfMarkers(p: int, s: int)
    requires s in {24, 25, 26, 27, 28}
    ensures Progress(LIBCONFIG, p, s)
  {
    match s { case 24 => case 25 => case 26 => case 27 => case 28 => }
  }

  lemma ProgressOfTerminators(p: int, s: int)
    requires s in {29, 30, 31, 32, 33}
    ensures Progress(LIBCONFIG, p, s)
  {
    match s { case 29 => case 30 => case 31 => case 32 => case 33 => }
  }

  lemma ProgressOfLists(p: int, s: int)
    requires s in {35, 36, 38, 41, 43}
    ensures Progress(LIBCONFIG, p, s)
  {
    match s { case 35 => case 36 => case 38 => case 41 => case 43 => }
  }

  lemma ProgressOfClosings(p: int, s: int)
    requires s in {44, 45, 46}
    ensures Progress(LIBCONFIG, p, s)
  {
    match s { case 44 => case 45 => case 46 => }
  }

  lemma ProgressEvery(p: int, s: int)
    ensures Progress(LIBCONFIG, p, s)
  {
    if s in {0, 1, 3, 4, 7} { ProgressOfSettings(p, s); }
    else if s in {9, 10, 11, 12, 13} { ProgressOfScalars(p, s); }
    else if s in {14, 15, 16, 17, 18} { ProgressOfBrackets(p, s); }
    else if s in {19, 20, 21, 22, 23} { ProgressOfValues(p, s); }
    else if s in {24, 25, 26, 27, 28} { ProgressOfMarkers(p, s); }
    else if s in {29, 30, 31, 32, 33} { ProgressOfTerminators(p, s); }
    else if s in {35, 36, 38, 41, 43} { ProgressOfLists(p, s); }
    else if s in {44, 45, 46} { ProgressOfClosings(p, s); }
  }

  lemma ReadsSymbolEvery(s: int, x: Symbol)
    ensures ReadsSymbol(LIBCONFIG, s, x)
  {
  }

  lemma ReducesItemEvery(s: int)
    ensures ReducesItem(LIBCONFIG, s)
  {
  }

  lemma OtherConditions(p: int, q: int, n: int, d: nat)
    ensures OfGrammar(LIBCONFIG, n)
    ensures StartsRule(LIBCONFIG, p, n)
    ensures StartState(LIBCONFIG, n, d)
    ensures EndsAfterConfiguration(LIBCONFIG, p, q)
  {
  }

  /** The automaton of the generated parser suits the grammar. */
  lemma LibconfigSuits()
    ensures Suits(LIBCONFIG)
  {
    AlwaysForward();
    AlwaysBackward();
    AlwaysCompleted();
    AlwaysReduces();
    AlwaysOther();
  }

  lemma AlwaysForward()
    ensures forall s, n, d: nat {:trigger Forward(LIBCONFIG, s, n, d)} :: Forward(LIBCONFIG, s, n, d)
  {
    forall s, n, d: nat ensures Forward(LIBCONFIG, s, n, d) { ForwardEvery(s, n, d); }
  }

  lemma AlwaysBackward()
    ensures forall p, q, n, d: nat {:trigger Backward(LIBCONFIG, p, q, n, d)} :: Backward(LIBCONFIG, p, q, n, d)
  {
    forall p, q, n, d: nat ensures Backward(LIBCONFIG, p, q, n, d) { BackwardEvery(p, q, n, d); }
  }

  lemma AlwaysCompleted()
    ensures forall s, n, k {:trigger ReducesOnFollow(LIBCONFIG, s, n, k)} :: ReducesOnFollow(LIBCONFIG, s, n, k)
  {
    forall s, n, k ensures ReducesOnFollow(LIBCONFIG, s, n, k) { CompletedEvery(s, n, k); }
  }

  lemma AlwaysReduces()
    ensures forall p, s {:trigger Progress(LIBCONFIG, p, s)} :: Progress(LIBCONFIG, p, s)
    ensures forall s, x {:trigger ReadsSymbol(LIBCONFIG, s, x)} :: ReadsSymbol(LIBCONFIG, s, x)
    ensures forall s {:trigger ReducesItem(LIBCONFIG, s)} :: ReducesItem(LIBCONFIG, s)
  {
    forall p, s ensures Progress(LIBCONFIG, p, s) { ProgressEvery(p, s); }
    forall s, x ensures ReadsSymbol(LIBCONFIG, s, x) { ReadsSymbolEvery(s, x); }
    forall s ensures ReducesItem(LIBCONFIG, s) { ReducesItemEvery(s); }
  }

  lemma AlwaysOther()
    ensures forall n {:trigger OfGrammar(LIBCONFIG, n)} :: OfGrammar(LIBCONFIG, n)
    ensures forall s, n {:trigger StartsRule(LIBCONFIG, s, n)} :: StartsRule(LIBCONFIG, s, n)
    ensures forall n, d: nat {:trigger StartState(LIBCONFIG, n, d)} :: StartState(LIBCONFIG, n, d)
    ensures forall p, q {:trigger EndsAfterConfiguration(LIBCONFIG, p, q)} :: EndsAfterConfiguration(LIBCONFIG, p, q)
  {
    forall n ensures OfGrammar(LIBCONFIG, n) { OtherConditions(0, 0, n, 0); }
    forall s, n ensures StartsRule(LIBCONFIG, s, n) { OtherConditions(s, 0, n, 0); }
    forall n, d: nat ensures StartState(LIBCONFIG, n, d) { OtherConditions(0, 0, n, d); }
    forall p, q ensures EndsAfterConfiguration(LIBCONFIG, p, q) { OtherConditions(p, q, 0, 0); }
  }
}
