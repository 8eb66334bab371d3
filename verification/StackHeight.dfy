/**
 How high the parser's stack grows: it depends on the nesting of aggregates only, not on the
 number of settings or elements.
 */
module StackHeight {
  import opened Options
  import opened Tokens
  import opened Grammar
  import opened LrDriver
  import opened LrComplete
  import opened Settings
  import opened Trees
  import opened Actions
  import opened Meaning
  import opened ParseTheorem

  /** The nesting depth of aggregates in a value. */
  function Depth(v: Value): nat {
    match v
    case VGroup(ms) => 1 + MaxDepth(ms)
    case VArray(es) => 1
    case VList(es) => 1 + MaxDepth(es)
    case _ => 0
  }

  function TreeDepth(t: Tree): nat {
    Depth(t.value)
  }

  function MaxDepth(ts: seq<Tree>): nat {
    if ts == [] then 0
    else if TreeDepth(ts[0]) >= MaxDepth(ts[1..]) then TreeDepth(ts[0])
    else MaxDepth(ts[1..])
  }

  lemma {:induction false} MaxDepthAppend(ts: seq<Tree>, e: Tree)
    ensures MaxDepth(ts + [e]) >= MaxDepth(ts) && MaxDepth(ts + [e]) >= Depth(e.value)
  {
    if ts == [] {
      assert ts + [e] == [e] && [e][1..] == [];
    } else {
      assert (ts + [e])[1..] == ts[1..] + [e];
      MaxDepthAppend(ts[1..], e);
    }
  }

  // ----- the height of each rule

  lemma PeakOne(kids: seq<PTree>)
    requires |kids| == 1
    ensures PeakKids(kids) <= Peak(kids[0])
  {
    assert kids[1..] == [];
  }

  lemma PeakTwo(kids: seq<PTree>, h: nat)
    requires |kids| == 2 && Peak(kids[0]) <= h && 1 + Peak(kids[1]) <= h
    ensures PeakKids(kids) <= h
  {
    PeakOne(kids[1..]);
  }

  lemma PeakThree(kids: seq<PTree>, h: nat)
    requires |kids| == 3 && Peak(kids[0]) <= h && 1 + Peak(kids[1]) <= h && 2 + Peak(kids[2]) <= h
    ensures PeakKids(kids) <= h
  {
    PeakTwo(kids[1..], h - 1);
  }

  lemma PeakFour(kids: seq<PTree>, h: nat)
    requires |kids| == 4 && Peak(kids[0]) <= h && 1 + Peak(kids[1]) <= h && 2 + Peak(kids[2]) <= h && 3 + Peak(kids[3]) <= h
    ensures PeakKids(kids) <= h
  {
    PeakThree(kids[1..], h - 1);
  }

  lemma {:induction false} StringPeak(t: PTree)
    requires IsString(t)
    ensures Peak(t) <= 2
    decreases t
  {
    if t.rule == 21 {
      PeakOne(t.kids);
    } else {
      StringPeak(t.kids[0]);
      PeakTwo(t.kids, 2);
    }
  }

  lemma SimplePeak(t: PTree)
    requires IsSimple(t)
    ensures Peak(t) <= 2
  {
    PeakOne(t.kids);
    if t.rule == 29 {
      StringPeak(t.kids[0]);
    }
  }

  lemma {:induction false} SimplesPeak(t: PTree)
    requires IsSimples(t)
    ensures Peak(t) <= 4
    decreases t
  {
    if t.rule == 34 {
      SimplePeak(t.kids[0]);
      PeakOne(t.kids);
    } else {
      SimplesPeak(t.kids[0]);
      SimplePeak(t.kids[2]);
      PeakThree(t.kids, 4);
    }
  }

  /** An aggregate is two entries higher than its contents. */
  lemma BracketPeak(t: PTree, n: int, mark: int, h: nat)
    requires IsBracket(t, n, mark) && Peak(t.kids[2]) <= h && h >= 2
    ensures Peak(t) <= 2 + h
  {
    PeakFour(t.kids, 2 + h);
  }

  lemma ArrayPeak(t: PTree)
    requires IsArray(t)
    ensures Peak(t) <= 6
  {
    var k := t.kids[2];
    if k.rule == 37 {
      SimplesPeak(k.kids[0]);
      PeakOne(k.kids);
    }
    BracketPeak(t, 14, 13, 4);
  }

  /** Six entries for each level of nesting. */
  lemma {:induction false} ValuePeak(t: PTree)
    requires IsValue(t)
    ensures Peak(t) <= 6 * Depth(ValueOf(t)) + 2
    decreases t, 1
  {
    PeakOne(t.kids);
    match t.rule
    case 17 => SimplePeak(t.kids[0]);
    case 18 => ArrayPeak(t.kids[0]);
    case 19 => ListPeak(t.kids[0]);
    case 20 => GroupPeak(t.kids[0]);
  }

  lemma {:induction false} ListPeak(t: PTree)
    requires IsList(t)
    ensures Peak(t) <= 6 * Depth(ListOf(t)) + 2
    decreases t, 0
  {
    var k := t.kids[2];
    if k.rule == 33 {
      ValuesPeak(k.kids[0]);
      PeakOne(k.kids);
    }
    BracketPeak(t, 16, 15, 6 * MaxDepth(ValuesOptOf(k)) + 4);
  }

  lemma {:induction false} GroupPeak(t: PTree)
    requires IsGroup(t)
    ensures Peak(t) <= 6 * Depth(GroupOf(t)) + 2
    decreases t, 0
  {
    var k := t.kids[2];
    if k.rule == 7 {
      SettingsPeak(k.kids[0]);
      PeakOne(k.kids);
    }
    BracketPeak(t, 39, 38, 6 * MaxDepth(SettingsOptOf(k)) + 6);
  }

  lemma {:induction false} ValuesPeak(t: PTree)
    requires IsValues(t)
    ensures Peak(t) <= 6 * MaxDepth(ValuesOf(t)) + 4
    decreases t, 2
  {
    if t.rule == 30 {
      ValuePeak(t.kids[0]);
      PeakOne(t.kids);
      MaxDepthAppend([], Tree(None, ValueOf(t.kids[0])));
    } else {
      ValuesPeak(t.kids[0]);
      ValuePeak(t.kids[2]);
      MaxDepthAppend(ValuesOf(t.kids[0]), Tree(None, ValueOf(t.kids[2])));
      PeakThree(t.kids, 6 * MaxDepth(ValuesOf(t)) + 4);
    }
  }

  lemma {:induction false} SettingPeak(t: PTree)
    requires IsSetting(t)
    ensures Peak(t) <= 6 * Depth(SettingOf(t).value) + 5
    decreases t, 2
  {
    ValuePeak(t.kids[3]);
    if t.kids[4].rule != 8 {
      PeakOne(t.kids[4].kids);
    }
    var h := 6 * Depth(SettingOf(t).value) + 5;
    PeakFour(t.kids[1..], h - 1);
    assert Peak(t.kids[0]) == 1;
  }

  lemma {:induction false} SettingsPeak(t: PTree)
    requires IsSettings(t)
    ensures Peak(t) <= 6 * MaxDepth(SettingsOf(t)) + 6
    decreases t, 3
  {
    if t.rule == 4 {
      SettingPeak(t.kids[0]);
      PeakOne(t.kids);
      MaxDepthAppend([], SettingOf(t.kids[0]));
    } else {
      SettingsPeak(t.kids[0]);
      SettingPeak(t.kids[1]);
      MaxDepthAppend(SettingsOf(t.kids[0]), SettingOf(t.kids[1]));
      PeakTwo(t.kids, 6 * MaxDepth(SettingsOf(t)) + 6);
    }
  }

  /** The height of the state stack is at most six times the nesting depth, plus a constant. */
  lemma ConfigurationPeak(t: PTree)
    requires IsConfiguration(t)
    ensures Peak(t) <= 6 * Depth(ConfigurationOf(t).value)
  {
    if t.rule == 3 {
      SettingsPeak(t.kids[0]);
      PeakOne(t.kids);
    }
  }

  /** Input nested up to 1666 aggregates deep, the root counted, is never refused for lack of stack. */
  lemma ShallowInputIsAccepted(w: seq<Token>, t: PTree)
    requires Parses(t, w) && IsConfiguration(t) && Legal(ConfigurationOf(t).value)
    requires Depth(ConfigurationOf(t).value) <= 1666
    ensures var o := YyParse(w);
            o.Accepted? && Sane(o.sem) && Abs(o.sem.st, ROOT) == ConfigurationOf(t)
  {
    ConfigurationPeak(t);
    YyParseOfDerivation(w, t);
  }
}
