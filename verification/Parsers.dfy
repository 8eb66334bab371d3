/**
 `libconfig_yyparse`: the table-driven loop over the state stack and the value stack.
 */
module Parsers {
  import opened Options
  import opened Tokens
  import opened Grammar
  import opened LrAutomaton
  import opened LrDriver
  import T = LrTables
  import opened Lexing
  import opened Settings
  import opened Actions
  import opened ParseTheorem
  import opened TreeInvariant
  import opened ParseContexts
  import opened NullSafety
  import opened ParserMoves
  import opened Scanners

  const YYINITDEPTH := 200

  /** `yychar`: no token read yet, the end of the input, or a token with its value. */
  datatype Lookahead = Empty | Eof | Have(tok: Token)

  /** What is unread: the lookahead and what the scanner still has to deliver. */
  function Unread(yychar: Lookahead, more: seq<Token>): seq<Token> {
    match yychar
    case Have(t) => [t] + more
    case _ => more
  }

  /** The arrays hold the states and the values of the trees. */
  ghost predicate Holds(yyss: array<int>, yyvs: array<Token>, yyssp: nat, ss: seq<int>, ts: seq<PTree>)
    reads yyss, yyvs
  {
    && yyss.Length == yyvs.Length && yyssp < yyss.Length
    && yyss[..yyssp + 1] == ss
    && |ts| <= yyssp
    && yyvs[0] == TokGarbage
    && forall i :: 0 <= i < |ts| ==> yyvs[i + 1] == Val(ts[i])
  }

  /** Twice the size, but no more than the limit. */
  method Grow(yyss: array<int>, yyvs: array<Token>) returns (ss: array<int>, vs: array<Token>)
    requires 0 < yyss.Length == yyvs.Length < YYMAXDEPTH
    ensures fresh(ss) && fresh(vs) && yyss.Length < ss.Length == vs.Length <= YYMAXDEPTH
    ensures ss[..yyss.Length] == yyss[..] && vs[..yyvs.Length] == yyvs[..]
  {
    var size := 2 * yyss.Length;
    if YYMAXDEPTH < size {
      size := YYMAXDEPTH;
    }
    ss := new int[size](_ => 0);
    vs := new Token[size](_ => TokGarbage);
    for i := 0 to yyss.Length
      invariant ss[..i] == yyss[..i] && vs[..i] == yyvs[..i]
    {
      ss[i], vs[i] := yyss[i], yyvs[i];
    }
  }

  /** The end of the input was reached with all included files closed. */
  ghost predicate AtEnd(yychar: Lookahead, scanner: Scanner)
    reads scanner, scanner.ctx
  {
    yychar == Eof ==> scanner.Ended()
  }

  /**
   `yyerrlab1`: looks for a state that takes the error token, popping the others. There is none,
   so the whole stack is popped and the parse aborts.
   */
  method Recover(yyss: array<int>, yyssp0: nat) returns (yyssp: nat, aborted: bool)
    requires yyssp0 < yyss.Length
    ensures yyssp == 0 && aborted
  {
    yyssp := yyssp0;
    while true
      invariant yyssp < yyss.Length
      decreases yyssp
    {
      var yystate := yyss[yyssp];
      T.NoErrorToken(yystate);
      var yyn := T.YyPact(yystate);
      if yyn != T.YYPACT_NINF {
        yyn := yyn + T.YYTERROR;
        if 0 <= yyn <= T.YYLAST && T.YyCheck(yyn) == T.YYTERROR && 0 < T.YyTable(yyn) {
          return yyssp, false;
        }
      }
      if yyssp == 0 {
        return 0, true;
      }
      yyssp := yyssp - 1;
    }
  }

  /** `yyreduce`: the action, then the right-hand side is replaced by the left-hand side. */
  method Reduce(yyss: array<int>, yyvs: array<Token>, yyssp0: nat, n: int, ctx: ParseContext,
                ghost ss: seq<int>, ghost ts: seq<PTree>, ghost rest: seq<Token>)
    returns (yyssp: nat, ok: bool, ghost next: seq<int>)
    requires Holds(yyss, yyvs, yyssp0, ss, ts) && |ts| == yyssp0 && yyssp0 + 1 < yyss.Length
    requires Good(ss, ts, ctx.Value()) && |ss| < YYMAXDEPTH && Last(ss) != T.YYFINAL
    requires T.TableAction(Last(ss), Look(rest)) == T.Reduce(n)
    modifies yyss, yyvs, ctx, ctx.config
    ensures ctx.config.Valid()
    ensures !ok ==> Goal(ss, ts, rest, old(ctx.Value())) == Aborted
    ensures ok ==>
              && |Rhs(n)| < |ss| && Holds(yyss, yyvs, yyssp, next, TreesAfter(ss, ts, n))
              && |TreesAfter(ss, ts, n)| == yyssp
              && Good(next, TreesAfter(ss, ts, n), ctx.Value()) && Last(next) != T.YYFINAL
              && Goal(next, TreesAfter(ss, ts, n), rest, ctx.Value()) == Goal(ss, ts, rest, old(ctx.Value()))
              && T.Rank(Last(next)) < T.Rank(Last(ss))
  {
    ReduceMove(ss, ts, rest, ctx.Value(), n);
    TopOfStack(yyss, yyvs, yyssp0, ss, ts);
    ok := ctx.Act(n, yyvs[yyssp0]);
    yyssp, next := yyssp0, ss;
    if ok {
      yyssp, next := Replace(yyss, yyvs, yyssp0, n, ss, ts);
    }
  }

  lemma TopOfStack(yyss: array<int>, yyvs: array<Token>, yyssp: nat, ss: seq<int>, ts: seq<PTree>)
    requires Holds(yyss, yyvs, yyssp, ss, ts) && |ts| == yyssp
    ensures yyvs[yyssp] == TopVal(ts, TokGarbage)
  {
  }

  /** The value of a reduced tree is that of its first child, and garbage if it has none. */
  lemma ReducedValues(yyvs: array<Token>, ss: seq<int>, ts: seq<PTree>, n: int)
    requires |ts| + 1 == |ss| && |Rhs(n)| < |ss| && |ts| < yyvs.Length
    requires forall i :: 0 <= i < |ts| ==> yyvs[i + 1] == Val(ts[i])
    ensures var k := |ts| - |Rhs(n)|;
            && |TreesAfter(ss, ts, n)| == k + 1
            && Val(TreesAfter(ss, ts, n)[k]) == (if |Rhs(n)| == 0 then TokGarbage else yyvs[k + 1])
            && forall i :: 0 <= i < k ==> yyvs[i + 1] == Val(TreesAfter(ss, ts, n)[i])
  {
  }

  /** `YYPOPSTACK`, then the value and the state of the left-hand side are pushed. */
  method Replace(yyss: array<int>, yyvs: array<Token>, yyssp0: nat, n: int, ghost ss: seq<int>, ghost ts: seq<PTree>)
    returns (yyssp: nat, ghost next: seq<int>)
    requires Holds(yyss, yyvs, yyssp0, ss, ts) && |ts| == yyssp0 && yyssp0 + 1 < yyss.Length
    requires 1 <= n <= 39 && |Rhs(n)| < |ss|
    modifies yyss, yyvs
    ensures next == Base(ss, n) + [T.TableGoto(Last(Base(ss, n)), Lhs(n))]
    ensures Holds(yyss, yyvs, yyssp, next, TreesAfter(ss, ts, n)) && |TreesAfter(ss, ts, n)| == yyssp
  {
    T.RuleLength(n);
    ReducedValues(yyvs, ss, ts, n);
    var yylen := T.YyR2(n);
    var yyval := if yylen == 0 then TokGarbage else yyvs[yyssp0 + 1 - yylen];
    yyssp := yyssp0 - yylen;
    assert yyss[yyssp] == ss[yyssp] == Last(Base(ss, n));
    var state := T.TableGoto(yyss[yyssp], Lhs(n));
    yyssp := yyssp + 1;
    yyvs[yyssp] := yyval;
    yyss[yyssp] := state;
    next := Base(ss, n) + [state];
  }

  /** Pushing a shifted token. */
  method PushToken(yyss: array<int>, yyvs: array<Token>, yyssp0: nat, q: int, yylval: Token,
                   ghost ss: seq<int>, ghost ts: seq<PTree>)
    returns (yyssp: nat)
    requires Holds(yyss, yyvs, yyssp0, ss, ts) && |ts| == yyssp0 && yyssp0 + 1 < yyss.Length
    modifies yyss, yyvs
    ensures Holds(yyss, yyvs, yyssp, ss + [q], ts + [Leaf(yylval)]) && |ts| + 1 == yyssp
  {
    yyssp := yyssp0 + 1;
    yyvs[yyssp] := yylval;
    yyss[yyssp] := q;
    assert yyss[..yyssp + 1] == ss + [q];
  }

  /** The parser is on its way to the outcome `goal`. */
  ghost predicate OnCourse(ss: seq<int>, ts: seq<PTree>, rest: seq<Token>, c: Ctx, goal: Outcome<Ctx>) {
    && ss != []
    && if Last(ss) == T.YYFINAL
       then ts != [] && rest == [] && WellFormed(c.st) && goal == if |ss| >= YYMAXDEPTH then Exhausted else Accepted(Last(ts), c)
       else Good(ss, ts, c) && goal == Goal(ss, ts, rest, c)
  }

  /** The trees below the final state are those below the state that read the end. */
  predicate Heights(ss: seq<int>, ts: seq<PTree>) {
    ss != [] && |ss| == |ts| + if Last(ss) == T.YYFINAL then 2 else 1
  }

  function TreesOnShift(ts: seq<PTree>, rest: seq<Token>): seq<PTree> {
    if rest == [] then ts else ts + [Leaf(rest[0])]
  }

  lemma ShiftStaysOnCourse(ss: seq<int>, ts: seq<PTree>, rest: seq<Token>, c: Ctx, q: int)
    requires Good(ss, ts, c) && |ss| < YYMAXDEPTH && T.TableAction(Last(ss), Look(rest)) == T.Shift(q)
    ensures OnCourse(ss + [q], TreesOnShift(ts, rest), if rest == [] then [] else rest[1..], c, Goal(ss, ts, rest, c))
    ensures rest == [] <==> q == T.YYFINAL
  {
    if rest == [] {
      FinalMove(ss, ts, c, q);
    } else {
      ShiftMove(ss, ts, rest, c, q);
    }
  }

  /** A shift, of a token or of the end of the input. */
  method Shift(yyss: array<int>, yyvs: array<Token>, yyssp0: nat, q: int, yychar: Lookahead,
               ghost ss: seq<int>, ghost ts: seq<PTree>, ghost rest: seq<Token>)
    returns (yyssp: nat)
    requires Holds(yyss, yyvs, yyssp0, ss, ts) && |ts| == yyssp0 && yyssp0 + 1 < yyss.Length
    requires match yychar case Empty => false case Eof => rest == [] case Have(t) => rest != [] && rest[0] == t
    modifies yyss, yyvs
    ensures Holds(yyss, yyvs, yyssp, ss + [q], TreesOnShift(ts, rest))
  {
    var yylval := if yychar.Have? then yychar.tok else TokGarbage;
    yyssp := PushToken(yyss, yyvs, yyssp0, q, yylval, ss, ts);
    assert forall i :: 0 <= i < |ts| ==> (ts + [Leaf(yylval)])[i] == ts[i];
  }

  function AfterShift(act: T.Action, rest: seq<Token>): seq<Token> {
    if act.Shift? && rest != [] then rest[1..] else rest
  }

  /** The move that the tables have decided; not `ok` when it aborts the parse. */
  method Perform(act: T.Action, yychar: Lookahead, ctx: ParseContext, yyss: array<int>, yyvs: array<Token>, yyssp0: nat,
                 ghost ss: seq<int>, ghost ts: seq<PTree>, ghost rest: seq<Token>, ghost goal: Outcome<Ctx>)
    returns (yyssp: nat, ok: bool, ghost ss': seq<int>, ghost ts': seq<PTree>)
    requires Holds(yyss, yyvs, yyssp0, ss, ts) && |ts| == yyssp0 && yyssp0 + 1 < yyss.Length <= YYMAXDEPTH
    requires Good(ss, ts, ctx.Value()) && Last(ss) != T.YYFINAL && goal == Goal(ss, ts, rest, ctx.Value())
    requires act == T.TableAction(Last(ss), Look(rest))
    requires act.Shift? ==> match yychar case Empty => false case Eof => rest == [] case Have(t) => rest != [] && rest[0] == t
    modifies ctx, ctx.config, yyss, yyvs
    ensures ctx.config.Valid()
    ensures !ok ==> goal == Aborted
    ensures ok ==> Holds(yyss, yyvs, yyssp, ss', ts') && Heights(ss', ts')
    ensures ok ==> OnCourse(ss', ts', AfterShift(act, rest), ctx.Value(), goal)
    ensures ok ==> if act.Shift? then rest == [] <==> Last(ss') == T.YYFINAL
                   else Last(ss') != T.YYFINAL && T.Rank(Last(ss')) < T.Rank(Last(ss))
  {
    yyssp, ok, ss', ts' := yyssp0, true, ss, ts;
    match act
    case Error =>
      ErrorMove(ss, ts, rest, ctx.Value());
      var aborted;
      yyssp, aborted := Recover(yyss, yyssp0);
      ok := !aborted;
    case Reduce(n) =>
      yyssp, ok, ss' := Reduce(yyss, yyvs, yyssp0, n, ctx, ss, ts, rest);
      if ok {
        ts' := TreesAfter(ss, ts, n);
      }
    case Shift(q) =>
      ShiftStaysOnCourse(ss, ts, rest, ctx.Value(), q);
      yyssp := Shift(yyss, yyvs, yyssp0, q, yychar, ss, ts, rest);
      ss', ts' := ss + [q], TreesOnShift(ts, rest);
  }

  /** What the parser returns for an outcome. */
  function ResultOf(o: Outcome<Ctx>): int {
    match o
    case Accepted(_, _) => 0
    case Aborted => 1
    case Exhausted => 2
  }

  // ----- the loop sees the machine only through the values of a course

  /**
   The way to an outcome: `on(ss, ts, rest, c)` says that the parser is on it, `table` gives the
   action of the tables, and every move lowers what is `left`, lexicographically.
   */
  datatype Course = Course(
    goal: Outcome<Ctx>,
    on: (seq<int>, seq<PTree>, seq<Token>, Ctx) -> bool,
    table: (int, seq<Token>) -> T.Action,
    left: (seq<int>, seq<Token>) -> (nat, nat))

  ghost predicate Means(course: Course, ss: seq<int>, ts: seq<PTree>, rest: seq<Token>, c: Ctx) {
    course.on(ss, ts, rest, c) == OnCourse(ss, ts, rest, c, course.goal)
  }

  ghost predicate LooksUp(course: Course, s: int, rest: seq<Token>) {
    course.table(s, rest) == T.TableAction(s, Look(rest))
  }

  /** What is unread, then the reductions before the next shift, then the final state. */
  function Left(ss: seq<int>, rest: seq<Token>): (nat, nat) {
    (|rest|, if ss == [] || Last(ss) == T.YYFINAL then 0 else 1 + T.Rank(Last(ss)))
  }

  ghost predicate Measures(course: Course, ss: seq<int>, rest: seq<Token>) {
    course.left(ss, rest) == Left(ss, rest)
  }

  ghost predicate Smaller(course: Course, ss': seq<int>, rest': seq<Token>, ss: seq<int>, rest: seq<Token>) {
    var l', l := course.left(ss', rest'), course.left(ss, rest);
    l'.0 < l.0 || (l'.0 == l.0 && l'.1 < l.1)
  }

  ghost predicate IsCourse(course: Course) {
    && (forall ss, ts, rest, c {:trigger Means(course, ss, ts, rest, c)} :: Means(course, ss, ts, rest, c))
    && (forall s, rest {:trigger LooksUp(course, s, rest)} :: LooksUp(course, s, rest))
    && (forall ss, rest {:trigger Measures(course, ss, rest)} :: Measures(course, ss, rest))
  }

  lemma Begin(w: seq<Token>) returns (course: Course)
    ensures course.goal == YyParse(w) && IsCourse(course) && course.on([0], [], w, INITIAL)
  {
    StartIsGood();
    var goal := YyParse(w);
    course := Course(goal, (ss: seq<int>, ts: seq<PTree>, rest: seq<Token>, c: Ctx) => OnCourse(ss, ts, rest, c, goal),
                     (s: int, rest: seq<Token>) => T.TableAction(s, Look(rest)), (ss: seq<int>, rest: seq<Token>) => Left(ss, rest));
  }

  /** At the limit of the stack the outcome is exhaustion; in the final state, acceptance. */
  lemma End(course: Course, ss: seq<int>, ts: seq<PTree>, rest: seq<Token>, c: Ctx)
    requires IsCourse(course) && course.on(ss, ts, rest, c) && ss != []
    ensures WellFormed(c.st)
    ensures |ss| >= YYMAXDEPTH ==> course.goal == Exhausted
    ensures |ss| < YYMAXDEPTH && Last(ss) == T.YYFINAL ==> course.goal.Accepted? && course.goal.sem == c
  {
    assert Means(course, ss, ts, rest, c);
  }

  /** A move keeps the course. */
  method KeepCourse(act: T.Action, yychar: Lookahead, ctx: ParseContext, yyss: array<int>, yyvs: array<Token>, yyssp0: nat,
                    ghost ss: seq<int>, ghost ts: seq<PTree>, ghost rest: seq<Token>, ghost course: Course)
    returns (yyssp: nat, ok: bool, ghost ss': seq<int>, ghost ts': seq<PTree>)
    requires Holds(yyss, yyvs, yyssp0, ss, ts) && Heights(ss, ts) && yyssp0 + 1 < yyss.Length <= YYMAXDEPTH
    requires IsCourse(course) && course.on(ss, ts, rest, ctx.Value()) && Last(ss) != T.YYFINAL
    requires act == course.table(Last(ss), rest)
    requires act.Shift? ==> match yychar case Empty => false case Eof => rest == [] case Have(t) => rest != [] && rest[0] == t
    modifies ctx, ctx.config, yyss, yyvs
    ensures ctx.config.Valid()
    ensures !ok ==> course.goal == Aborted
    ensures ok ==> Holds(yyss, yyvs, yyssp, ss', ts') && Heights(ss', ts')
    ensures ok ==> course.on(ss', ts', AfterShift(act, rest), ctx.Value())
    ensures ok ==> (Last(ss') == T.YYFINAL <==> act.Shift? && rest == [])
    ensures ok ==> Smaller(course, ss', AfterShift(act, rest), ss, rest)
  {
    assert Means(course, ss, ts, rest, ctx.Value()) && LooksUp(course, Last(ss), rest);
    yyssp, ok, ss', ts' := Perform(act, yychar, ctx, yyss, yyvs, yyssp0, ss, ts, rest, course.goal);
    if ok {
      assert Means(course, ss', ts', AfterShift(act, rest), ctx.Value());
      assert Measures(course, ss', AfterShift(act, rest)) && Measures(course, ss, rest);
    }
  }

  /** The scanner and the parser's own objects are apart. */
  ghost predicate Apart(scanner: Scanner, ctx: ParseContext, yyss: array<int>, yyvs: array<Token>)
    reads scanner
  {
    ctx !in scanner.Repr && ctx.config !in scanner.Repr && yyss !in scanner.Repr && yyvs !in scanner.Repr
  }

  /** `yydefault`. */
  method DefaultMove(state: int, ghost course: Course, ghost rest: seq<Token>) returns (act: T.Action)
    requires IsCourse(course)
    ensures act == if T.YyDefact(state) == 0 then T.Error else T.Reduce(T.YyDefact(state))
    ensures T.YyPact(state) == T.YYPACT_NINF ==> act == course.table(state, rest)
  {
    var yyn := T.YyDefact(state);
    act := if yyn == 0 then T.Error else T.Reduce(yyn);
    assert LooksUp(course, state, rest);
  }

  /** The part of `yybackup` that looks the token up in the compressed tables. */
  method LookUp(state: int, yychar: Lookahead, ghost course: Course, ghost rest: seq<Token>) returns (act: T.Action)
    requires T.YyPact(state) != T.YYPACT_NINF && IsCourse(course)
    requires match yychar case Empty => false case Eof => rest == [] case Have(t) => rest != [] && rest[0] == t
    ensures act == course.table(state, rest)
  {
    var yytoken := if yychar == Eof then END else Kind(yychar.tok);
    var yyn := T.YyPact(state) + yytoken;
    if yyn < 0 || T.YYLAST < yyn || T.YyCheck(yyn) != yytoken {
      act := DefaultMove(state, course, rest);
    } else {
      yyn := T.YyTable(yyn);
      act := if yyn <= 0 then T.Reduce(-yyn) else T.Shift(yyn);
    }
    assert LooksUp(course, state, rest);
  }

  /** The lookahead, read when there is none yet. */
  method Fetch(scanner: Scanner, yychar0: Lookahead) returns (yychar: Lookahead)
    requires scanner.Ready() && AtEnd(yychar0, scanner)
    modifies scanner.Repr
    ensures scanner.Ready() && fresh(scanner.Repr - old(scanner.Repr))
    ensures yychar != Empty && AtEnd(yychar, scanner)
    ensures Unread(yychar, scanner.rest.toks) == Unread(yychar0, old(scanner.rest.toks))
    ensures yychar0 != Empty ==> yychar == yychar0 && scanner.rest == old(scanner.rest)
  {
    yychar := yychar0;
    if yychar == Empty {
      var t := scanner.Yylex();
      yychar := if t == None then Eof else Have(t.value);
    }
  }

  /** `yybackup`: the next move, reading a token only when the state needs one. */
  method Decide(scanner: Scanner, state: int, yychar0: Lookahead, ghost course: Course)
    returns (act: T.Action, yychar: Lookahead)
    requires scanner.Ready() && AtEnd(yychar0, scanner) && IsCourse(course)
    modifies scanner.Repr
    ensures scanner.Ready() && fresh(scanner.Repr - old(scanner.Repr)) && AtEnd(yychar, scanner)
    ensures Unread(yychar, scanner.rest.toks) == Unread(yychar0, old(scanner.rest.toks))
    ensures act == course.table(state, Unread(yychar, scanner.rest.toks))
    ensures act.Shift? ==> yychar != Empty
    ensures T.YyPact(state) == T.YYPACT_NINF || yychar0 != Empty ==> yychar == yychar0 && scanner.rest == old(scanner.rest)
  {
    yychar := yychar0;
    if T.YyPact(state) == T.YYPACT_NINF {
      act := DefaultMove(state, course, Unread(yychar, scanner.rest.toks));
      return;
    }
    yychar := Fetch(scanner, yychar0);
    act := LookUp(state, yychar, course, Unread(yychar, scanner.rest.toks));
  }

  lemma TopState(yyss: array<int>, yyvs: array<Token>, yyssp: nat, ss: seq<int>, ts: seq<PTree>)
    requires Holds(yyss, yyvs, yyssp, ss, ts)
    ensures yyss[yyssp] == Last(ss)
  {
    assert yyss[..yyssp + 1][yyssp] == yyss[yyssp];
  }

  /** Between two moves: the arrays hold the stacks, and the parser is on its course. */
  ghost predicate Stands(scanner: Scanner, ctx: ParseContext, yyss: array<int>, yyvs: array<Token>, yyssp: nat,
                         yychar: Lookahead, ss: seq<int>, ts: seq<PTree>, course: Course)
    reads scanner, scanner.Repr, scanner.ctx, ctx, ctx.config, yyss, yyvs
  {
    && scanner.Ready() && AtEnd(yychar, scanner) && Apart(scanner, ctx, yyss, yyvs)
    && Holds(yyss, yyvs, yyssp, ss, ts) && Heights(ss, ts) && 0 < yyss.Length <= YYMAXDEPTH
    && IsCourse(course) && course.on(ss, ts, Unread(yychar, scanner.rest.toks), ctx.Value())
    && (Last(ss) == T.YYFINAL ==> scanner.Ended())
  }

  /** `Decide` leaves the stacks and the parse context alone. */
  method DecideNext(scanner: Scanner, ctx: ParseContext, yyss: array<int>, yyvs: array<Token>, yyssp: nat,
                    yychar0: Lookahead, ghost ss: seq<int>, ghost ts: seq<PTree>, ghost course: Course)
    returns (act: T.Action, yychar: Lookahead)
    requires Stands(scanner, ctx, yyss, yyvs, yyssp, yychar0, ss, ts, course) && Last(ss) != T.YYFINAL
    modifies scanner.Repr
    ensures Stands(scanner, ctx, yyss, yyvs, yyssp, yychar, ss, ts, course) && fresh(scanner.Repr - old(scanner.Repr))
    ensures Unread(yychar, scanner.rest.toks) == Unread(yychar0, old(scanner.rest.toks))
    ensures act == course.table(Last(ss), Unread(yychar, scanner.rest.toks))
    ensures act.Shift? ==> yychar != Empty
  {
    TopState(yyss, yyvs, yyssp, ss, ts);
    act, yychar := Decide(scanner, yyss[yyssp], yychar0, course);
  }

  /** A move leaves the scanner alone. */
  method PerformNext(scanner: Scanner, act: T.Action, yychar0: Lookahead, ctx: ParseContext,
                     yyss: array<int>, yyvs: array<Token>, yyssp0: nat,
                     ghost ss: seq<int>, ghost ts: seq<PTree>, ghost course: Course)
    returns (yyssp: nat, yychar: Lookahead, ok: bool, ghost ss': seq<int>, ghost ts': seq<PTree>)
    requires Stands(scanner, ctx, yyss, yyvs, yyssp0, yychar0, ss, ts, course)
    requires yyssp0 + 1 < yyss.Length && Last(ss) != T.YYFINAL
    requires act == course.table(Last(ss), Unread(yychar0, scanner.rest.toks))
    requires act.Shift? ==> yychar0 != Empty
    modifies ctx, ctx.config, yyss, yyvs
    ensures scanner.Ready() && scanner.Repr == old(scanner.Repr) && scanner.rest == old(scanner.rest)
    ensures ctx.config.Valid()
    ensures !ok ==> course.goal == Aborted
    ensures ok ==>
              && Stands(scanner, ctx, yyss, yyvs, yyssp, yychar, ss', ts', course)
              && Smaller(course, ss', Unread(yychar, scanner.rest.toks), ss, Unread(yychar0, scanner.rest.toks))
  {
    yyssp, ok, ss', ts' :=
      KeepCourse(act, yychar0, ctx, yyss, yyvs, yyssp0, ss, ts, Unread(yychar0, scanner.rest.toks), course);
    yychar := if act.Shift? then Empty else yychar0;
    assert Unread(yychar, scanner.rest.toks) == AfterShift(act, Unread(yychar0, scanner.rest.toks));
  }

  /** The same, with what is left of the way. */
  ghost predicate Going(scanner: Scanner, ctx: ParseContext, yyss: array<int>, yyvs: array<Token>, yyssp: nat,
                        yychar: Lookahead, ss: seq<int>, ts: seq<PTree>, left: (nat, nat), course: Course)
    reads scanner, scanner.Repr, scanner.ctx, ctx, ctx.config, yyss, yyvs
  {
    && Stands(scanner, ctx, yyss, yyvs, yyssp, yychar, ss, ts, course)
    && left == course.left(ss, Unread(yychar, scanner.rest.toks))
  }

  /** What follows `yysetstate`: `yybackup` and the move it decides. */
  method Advance(scanner: Scanner, ctx: ParseContext, yyss: array<int>, yyvs: array<Token>, yyssp0: nat,
                 yychar0: Lookahead, ghost ss: seq<int>, ghost ts: seq<PTree>, ghost left: (nat, nat), ghost course: Course)
    returns (yyssp: nat, yychar: Lookahead, ok: bool, ghost ss': seq<int>, ghost ts': seq<PTree>, ghost left': (nat, nat))
    requires Going(scanner, ctx, yyss, yyvs, yyssp0, yychar0, ss, ts, left, course)
    requires yyssp0 + 1 < yyss.Length && Last(ss) != T.YYFINAL
    modifies scanner.Repr, ctx, ctx.config, yyss, yyvs
    ensures scanner.Ready() && fresh(scanner.Repr - old(scanner.Repr))
    ensures ctx.config.Valid()
    ensures !ok ==> course.goal == Aborted
    ensures ok ==>
              && Going(scanner, ctx, yyss, yyvs, yyssp, yychar, ss', ts', left', course)
              && (left'.0 < left.0 || (left'.0 == left.0 && left'.1 < left.1))
  {
    var act;
    act, yychar := DecideNext(scanner, ctx, yyss, yyvs, yyssp0, yychar0, ss, ts, course);
    yyssp, yychar, ok, ss', ts' := PerformNext(scanner, act, yychar, ctx, yyss, yyvs, yyssp0, ss, ts, course);
    left' := if ok then course.left(ss', Unread(yychar, scanner.rest.toks)) else left;
  }

  /**
   `yysetstate`: the stack grows when the state that was pushed last is at its end; the final
   state accepts. `verdict` is negative while the parse goes on.
   */
  method SetState(yyss0: array<int>, yyvs0: array<Token>, yyssp: nat, ctx: ParseContext,
                  ghost ss: seq<int>, ghost ts: seq<PTree>, ghost rest: seq<Token>, ghost course: Course)
    returns (verdict: int, yyss: array<int>, yyvs: array<Token>)
    requires Holds(yyss0, yyvs0, yyssp, ss, ts) && Heights(ss, ts) && 0 < yyss0.Length <= YYMAXDEPTH
    requires IsCourse(course) && course.on(ss, ts, rest, ctx.Value())
    ensures ctx.config.Valid()
    ensures verdict >= 0 ==> verdict == ResultOf(course.goal) && (verdict == 0 ==> course.goal.sem == ctx.Value() && Last(ss) == T.YYFINAL)
    ensures verdict < 0 ==> yyssp + 1 < yyss.Length <= YYMAXDEPTH && Last(ss) != T.YYFINAL
    ensures verdict == 2 <==> yyssp + 1 == YYMAXDEPTH
    ensures verdict == 0 <==> yyssp + 1 < YYMAXDEPTH && Last(ss) == T.YYFINAL
    ensures Holds(yyss, yyvs, yyssp, ss, ts) && yyss.Length <= YYMAXDEPTH
    ensures (yyss == yyss0 || fresh(yyss)) && (yyvs == yyvs0 || fresh(yyvs))
  {
    yyss, yyvs := yyss0, yyvs0;
    End(course, ss, ts, rest, ctx.Value());
    if yyss.Length - 1 <= yyssp {
      if YYMAXDEPTH <= yyss.Length {
        return 2, yyss, yyvs;
      }
      yyss, yyvs := Grow(yyss, yyvs);
    }
    verdict := if yyss[yyssp] == T.YYFINAL then 0 else -1;
  }

  /** New arrays are apart from the scanner. */
  method SetNext(scanner: Scanner, ctx: ParseContext, yyss0: array<int>, yyvs0: array<Token>, yyssp: nat,
                 ghost yychar: Lookahead, ghost ss: seq<int>, ghost ts: seq<PTree>, ghost course: Course)
    returns (verdict: int, yyss: array<int>, yyvs: array<Token>)
    requires Stands(scanner, ctx, yyss0, yyvs0, yyssp, yychar, ss, ts, course)
    ensures Stands(scanner, ctx, yyss, yyvs, yyssp, yychar, ss, ts, course)
    ensures (yyss == yyss0 || fresh(yyss)) && (yyvs == yyvs0 || fresh(yyvs)) && ctx.config.Valid()
    ensures verdict >= 0 ==> verdict == ResultOf(course.goal) && (verdict == 0 ==> course.goal.sem == ctx.Value() && Last(ss) == T.YYFINAL)
    ensures verdict < 0 ==> yyssp + 1 < yyss.Length && Last(ss) != T.YYFINAL
  {
    verdict, yyss, yyvs := SetState(yyss0, yyvs0, yyssp, ctx, ss, ts, Unread(yychar, scanner.rest.toks), course);
  }

  /** One round of the loop. */
  method Round(scanner: Scanner, ctx: ParseContext, yyss0: array<int>, yyvs0: array<Token>, yyssp0: nat,
               yychar0: Lookahead, ghost ss: seq<int>, ghost ts: seq<PTree>, ghost left: (nat, nat), ghost course: Course)
    returns (verdict: int, yyss: array<int>, yyvs: array<Token>, yyssp: nat, yychar: Lookahead,
             ghost ss': seq<int>, ghost ts': seq<PTree>, ghost left': (nat, nat))
    requires Going(scanner, ctx, yyss0, yyvs0, yyssp0, yychar0, ss, ts, left, course)
    modifies scanner.Repr, ctx, ctx.config, yyss0, yyvs0
    ensures scanner.Ready() && fresh(scanner.Repr - old(scanner.Repr))
    ensures (yyss == yyss0 || fresh(yyss)) && (yyvs == yyvs0 || fresh(yyvs))
    ensures verdict >= 0 ==>
              verdict == ResultOf(course.goal) && (verdict == 0 ==> course.goal.sem == ctx.Value() && scanner.Ended())
    ensures ctx.config.Valid()
    ensures verdict < 0 ==>
              && Going(scanner, ctx, yyss, yyvs, yyssp, yychar, ss', ts', left', course)
              && (left'.0 < left.0 || (left'.0 == left.0 && left'.1 < left.1))
  {
    verdict, yyss, yyvs :=
      SetNext(scanner, ctx, yyss0, yyvs0, yyssp0, yychar0, ss, ts, course);
    yyssp, yychar, ss', ts', left' := yyssp0, yychar0, ss, ts, left;
    if verdict < 0 {
      var ok;
      yyssp, yychar, ok, ss', ts', left' := Advance(scanner, ctx, yyss, yyvs, yyssp0, yychar0, ss, ts, left, course);
      if !ok {
        verdict := 1;
      }
    }
  }

  method NewStacks() returns (yyss: array<int>, yyvs: array<Token>)
    ensures fresh(yyss) && fresh(yyvs) && yyss.Length == YYINITDEPTH && Holds(yyss, yyvs, 0, [0], [])
  {
    yyss := new int[YYINITDEPTH](_ => 0);
    yyvs := new Token[YYINITDEPTH](_ => TokGarbage);
    assert yyss[..1] == [0];
  }

  /** The parser before its first round. */
  method Start(scanner: Scanner, ctx: ParseContext, ghost course: Course)
    returns (yyss: array<int>, yyvs: array<Token>, ghost left: (nat, nat))
    requires scanner.Ready() && ctx !in scanner.Repr && ctx.config !in scanner.Repr
    requires IsCourse(course) && course.on([0], [], scanner.rest.toks, ctx.Value())
    ensures fresh(yyss) && fresh(yyvs) && Going(scanner, ctx, yyss, yyvs, 0, Empty, [0], [], left, course)
  {
    yyss, yyvs := NewStacks();
    left := course.left([0], scanner.rest.toks);
  }

  /** The loop of `libconfig_yyparse`. */
  method Loop(scanner: Scanner, ctx: ParseContext, ghost course: Course) returns (result: int)
    requires scanner.Ready() && ctx !in scanner.Repr && ctx.config !in scanner.Repr
    requires IsCourse(course) && course.on([0], [], scanner.rest.toks, ctx.Value())
    modifies scanner.Repr, ctx, ctx.config
    ensures scanner.Ready() && fresh(scanner.Repr - old(scanner.Repr))
    ensures result == ResultOf(course.goal) && ctx.config.Valid()
    ensures result == 0 ==> course.goal.sem == ctx.Value() && scanner.Ended()
  {
    ghost var ss, ts, left := [0], [], (0, 0);
    var yyssp: nat, yychar := 0, Empty;
    var yyss, yyvs;
    yyss, yyvs, left := Start(scanner, ctx, course);
    while true
      invariant Going(scanner, ctx, yyss, yyvs, yyssp, yychar, ss, ts, left, course)
      invariant fresh(scanner.Repr - old(scanner.Repr)) && fresh(yyss) && fresh(yyvs)
      decreases left.0, left.1
    {
      ghost var mid := scanner.Repr;
      result, yyss, yyvs, yyssp, yychar, ss, ts, left :=
        Round(scanner, ctx, yyss, yyvs, yyssp, yychar, ss, ts, left, course);
      StillFresh(old(scanner.Repr), mid, scanner.Repr);
      if result >= 0 {
        return;
      }
    }
  }

  /**
   `libconfig_yyparse`. It returns what the machine decides about all that the scanner delivers;
   when it accepts, the context is the one of the accepted parse and no included file is open.
   */
  method Yyparse(scanner: Scanner, ctx: ParseContext) returns (result: int)
    requires scanner.Ready() && ctx !in scanner.Repr && ctx.config !in scanner.Repr && ctx.Value() == INITIAL
    modifies scanner.Repr, ctx, ctx.config
    ensures scanner.Ready() && fresh(scanner.Repr - old(scanner.Repr))
    ensures result == ResultOf(YyParse(old(scanner.rest).toks)) && ctx.config.Valid()
    ensures result == 0 ==> ctx.Value() == YyParse(old(scanner.rest).toks).sem && scanner.Ended()
  {
    ghost var course := Begin(scanner.rest.toks);
    result := Loop(scanner, ctx, course);
  }
}
