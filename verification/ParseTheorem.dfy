/**
 The parser as a whole: which token sequences it accepts, and which tree it builds from them.
 */
module ParseTheorem {
  import opened Options
  import opened Tokens
  import opened Grammar
  import opened LrAutomaton
  import opened LrDriver
  import opened LrComplete
  import LrTables
  import opened Settings
  import opened Trees
  import opened Actions
  import opened Meaning
  import opened Evaluation

  // ----- a derivation has the shape of its nonterminal

  /** One step: the rules of each nonterminal, and derivations for the symbols of the rule. */
  lemma Expand(t: PTree)
    requires Derivation(t)
    ensures t.Leaf? <==> Root(t) < 23
    ensures t.Node? ==> |t.kids| == |Rhs(t.rule)|
    ensures t.Node? ==> forall i :: 0 <= i < |t.kids| ==> Derivation(t.kids[i]) && Root(t.kids[i]) == Rhs(t.rule)[i]
    ensures t.Node? ==> forall i :: 0 <= i < |t.kids| && Rhs(t.rule)[i] < 23 ==> t.kids[i].Leaf?
  {
    if t.Node? {
      assert |Roots(t.kids)| == |t.kids|;
    }
  }

  lemma {:induction false} StringShape(t: PTree)
    requires Derivation(t) && Root(t) == 35
    ensures IsString(t)
    decreases t
  {
    Expand(t);
    if t.rule == 22 {
      StringShape(t.kids[0]);
    }
  }

  lemma SimpleShape(t: PTree)
    requires Derivation(t) && Root(t) == 36
    ensures IsSimple(t)
  {
    Expand(t);
    if t.rule == 29 {
      StringShape(t.kids[0]);
    }
  }

  lemma {:induction false} SimplesShape(t: PTree)
    requires Derivation(t) && Root(t) == 39
    ensures IsSimples(t)
    decreases t
  {
    Expand(t);
    if t.rule == 34 {
      SimpleShape(t.kids[0]);
    } else {
      SimplesShape(t.kids[0]);
      SimpleShape(t.kids[2]);
    }
  }

  /** The empty nonterminals are the markers of the mid-rule actions. */
  lemma MarkerShape(t: PTree, n: int)
    requires Derivation(t) && (Root(t), n) in {(29, 11), (31, 13), (33, 15), (42, 38)}
    ensures IsEmpty(t, n)
  {
    Expand(t);
  }

  lemma BracketShape(t: PTree, n: int, mark: int)
    requires Derivation(t) && t.Node? && t.rule == n && (n, mark) in {(14, 13), (16, 15), (39, 38)}
    ensures IsBracket(t, n, mark)
  {
    Expand(t);
    MarkerShape(t.kids[1], mark);
  }

  lemma ArrayShape(t: PTree)
    requires Derivation(t) && Root(t) == 30
    ensures IsArray(t)
  {
    Expand(t);
    BracketShape(t, 14, 13);
    var k := t.kids[2];
    Expand(k);
    if k.rule == 37 {
      SimplesShape(k.kids[0]);
    }
  }

  lemma TerminatorShape(t: PTree)
    requires Derivation(t) && Root(t) == 27
    ensures IsTerminator(t)
  {
    Expand(t);
  }

  lemma {:induction false} ValueShape(t: PTree)
    requires Derivation(t) && Root(t) == 34
    ensures IsValue(t)
    decreases t, 1
  {
    Expand(t);
    var k := t.kids[0];
    if t.rule == 17 {
      SimpleShape(k);
    } else if t.rule == 18 {
      ArrayShape(k);
    } else if t.rule == 19 {
      ListShape(k);
    } else {
      GroupShape(k);
    }
  }

  lemma {:induction false} ListShape(t: PTree)
    requires Derivation(t) && Root(t) == 32
    ensures IsList(t)
    decreases t, 0
  {
    Expand(t);
    BracketShape(t, 16, 15);
    var k := t.kids[2];
    Expand(k);
    if k.rule == 33 {
      ValuesShape(k.kids[0]);
    }
  }

  lemma {:induction false} GroupShape(t: PTree)
    requires Derivation(t) && Root(t) == 41
    ensures IsGroup(t)
    decreases t, 0
  {
    Expand(t);
    BracketShape(t, 39, 38);
    var k := t.kids[2];
    Expand(k);
    if k.rule == 7 {
      SettingsShape(k.kids[0]);
    }
  }

  lemma {:induction false} ValuesShape(t: PTree)
    requires Derivation(t) && Root(t) == 37
    ensures IsValues(t)
    decreases t, 2
  {
    Expand(t);
    if t.rule == 30 {
      ValueShape(t.kids[0]);
    } else {
      ValuesShape(t.kids[0]);
      ValueShape(t.kids[2]);
    }
  }

  lemma {:induction false} SettingShape(t: PTree)
    requires Derivation(t) && Root(t) == 28
    ensures IsSetting(t)
    decreases t, 2
  {
    Expand(t);
    MarkerShape(t.kids[1], 11);
    ValueShape(t.kids[3]);
    TerminatorShape(t.kids[4]);
  }

  lemma {:induction false} SettingsShape(t: PTree)
    requires Derivation(t) && Root(t) == 25
    ensures IsSettings(t)
    decreases t, 3
  {
    Expand(t);
    if t.rule == 4 {
      SettingShape(t.kids[0]);
    } else {
      SettingsShape(t.kids[0]);
      SettingShape(t.kids[1]);
    }
  }

  lemma ConfigurationShape(t: PTree)
    requires Derivation(t) && Root(t) == CONFIGURATION
    ensures IsConfiguration(t)
  {
    Expand(t);
    if t.rule == 3 {
      SettingsShape(t.kids[0]);
    }
  }

  // ----- the whole configuration

  /** The actions of a whole derivation build its tree, or abort if that tree is not legal. */
  lemma EvalConfiguration(t: PTree)
    requires Derivation(t) && Root(t) == CONFIGURATION
    ensures IsConfiguration(t)
    ensures var r := Eval(Action, t, TokGarbage, INITIAL);
            if Legal(ConfigurationOf(t).value)
            then r.Some? && Sane(r.value) && r.value.parent == ROOT && Abs(r.value.st, ROOT) == ConfigurationOf(t)
            else r == None
  {
    ConfigurationShape(t);
    assert Children(INITIAL_STORE, ROOT) == [];
    if t.rule == 2 {
      assert Eval(Action, t, TokGarbage, INITIAL) == Some(INITIAL);
    } else {
      EvalUnit(t, TokGarbage, INITIAL);
      EvalSettings(t.kids[0], TokGarbage, INITIAL);
      assert [] + SettingsOf(t.kids[0]) == SettingsOf(t.kids[0]);
      var r := Eval(Action, t.kids[0], TokGarbage, INITIAL);
      if r.Some? {
        ExtendsChildren(INITIAL_STORE, r.value.st, ROOT, SettingsOf(t.kids[0]));
      }
    }
  }

  const YYMAXDEPTH := 10000

  /** `libconfig_yyparse` on a token sequence. */
  function YyParse(w: seq<Token>): Outcome<Ctx> {
    LrTables.LibconfigSuits();
    Parse(LrTables.LIBCONFIG, Action, YYMAXDEPTH, w, INITIAL)
  }

  /** The derivation `t` of `w` fits on the stack and its tree is legal. */
  ghost predicate Accepts(w: seq<Token>, t: PTree) {
    Parses(t, w) && IsConfiguration(t) && Legal(ConfigurationOf(t).value) && 1 + Peak(t) < YYMAXDEPTH
  }

  /**
   The parser returns 0 exactly when the input is in the grammar, no group repeats a name, no
   array mixes types and the stack limit is not hit; the tree is then the meaning of the input.
   */
  lemma YyParseMeaning(w: seq<Token>)
    ensures YyParse(w).Accepted? <==> exists t :: Accepts(w, t)
    ensures YyParse(w).Accepted? ==>
              var o := YyParse(w);
              Accepts(w, o.tree) && Sane(o.sem) && o.sem.parent == ROOT &&
              Abs(o.sem.st, ROOT) == ConfigurationOf(o.tree)
  {
    LrTables.LibconfigSuits();
    ParseDecides(LrTables.LIBCONFIG, Action, YYMAXDEPTH, w, INITIAL);
    forall t | Parses(t, w)
      ensures Accepts(w, t) <==> Eval(Action, t, TokGarbage, INITIAL).Some? && 1 + Peak(t) < YYMAXDEPTH
    {
      EvalConfiguration(t);
    }
    if YyParse(w).Accepted? {
      var t := YyParse(w).tree;
      EvalConfiguration(t);
      ParseOfDerivation(LrTables.LIBCONFIG, Action, YYMAXDEPTH, w, INITIAL, t);
    }
  }

  /** Any derivation of the input decides the outcome and gives the tree. */
  lemma YyParseOfDerivation(w: seq<Token>, t: PTree)
    requires Accepts(w, t)
    ensures var o := YyParse(w);
            o.Accepted? && Sane(o.sem) && Abs(o.sem.st, ROOT) == ConfigurationOf(t)
  {
    LrTables.LibconfigSuits();
    EvalConfiguration(t);
    ParseOfDerivation(LrTables.LIBCONFIG, Action, YYMAXDEPTH, w, INITIAL, t);
  }

  // ----- no setting is left without a type

  /** Every setting has a type; elements have no name and members have one; arrays hold scalars. */
  predicate Complete(v: Value) {
    match v
    case VNone => false
    case VScalar(_, _) => true
    case VArray(es) => forall e | e in es :: e.name == None && e.value.VScalar?
    case VList(es) => forall e | e in es :: e.name == None && Complete(e.value)
    case VGroup(ms) => forall m | m in ms :: m.name.Some? && Complete(m.value)
  }

  lemma {:induction false} SimplesAreComplete(t: PTree)
    requires IsSimples(t)
    ensures Complete(VArray(SimplesOf(t)))
    decreases t
  {
    if t.rule == 35 {
      SimplesAreComplete(t.kids[0]);
    }
  }

  lemma {:induction false} ValueIsComplete(t: PTree)
    requires IsValue(t)
    ensures Complete(ValueOf(t))
    decreases t, 1
  {
    if t.rule == 18 {
      ArrayIsComplete(t.kids[0]);
    } else if t.rule == 19 {
      ListIsComplete(t.kids[0]);
    } else if t.rule == 20 {
      GroupIsComplete(t.kids[0]);
    }
  }

  lemma ArrayIsComplete(t: PTree)
    requires IsArray(t)
    ensures Complete(ArrayOf(t))
  {
    if t.kids[2].rule == 37 {
      SimplesAreComplete(t.kids[2].kids[0]);
    }
  }

  lemma {:induction false} ListIsComplete(t: PTree)
    requires IsList(t)
    ensures Complete(ListOf(t))
    decreases t, 0
  {
    if t.kids[2].rule == 33 {
      ValuesAreComplete(t.kids[2].kids[0]);
    }
  }

  lemma {:induction false} GroupIsComplete(t: PTree)
    requires IsGroup(t)
    ensures Complete(GroupOf(t))
    decreases t, 0
  {
    if t.kids[2].rule == 7 {
      SettingsAreComplete(t.kids[2].kids[0]);
    }
  }

  lemma {:induction false} ValuesAreComplete(t: PTree)
    requires IsValues(t)
    ensures Complete(VList(ValuesOf(t)))
    decreases t, 2
  {
    if t.rule == 30 {
      ValueIsComplete(t.kids[0]);
    } else {
      ValuesAreComplete(t.kids[0]);
      ValueIsComplete(t.kids[2]);
    }
  }

  lemma {:induction false} SettingsAreComplete(t: PTree)
    requires IsSettings(t)
    ensures Complete(VGroup(SettingsOf(t)))
    decreases t, 2
  {
    if t.rule == 4 {
      ValueIsComplete(t.kids[0].kids[3]);
    } else {
      SettingsAreComplete(t.kids[0]);
      ValueIsComplete(t.kids[1].kids[3]);
    }
  }

  /** A tree that the parser has built has no setting of type none, at any depth. */
  lemma ParsedTreeIsComplete(w: seq<Token>)
    ensures YyParse(w).Accepted? ==>
              Sane(YyParse(w).sem) && Complete(Abs(YyParse(w).sem.st, ROOT).value)
  {
    YyParseMeaning(w);
    if YyParse(w).Accepted? {
      var t := YyParse(w).tree;
      if t.rule != 2 {
        SettingsAreComplete(t.kids[0]);
      }
    }
  }
}
