/**
 Looking settings up by path, and the paths that lead to them.
 */
module Lookups {
  import opened Sequences
  import opened Options
  import opened Settings
  import opened Lexemes
  import opened Numerals
  import opened Actions
  import opened TreeInvariant
  import opened Operations
  import opened Configs

  function SkipTokens(p: string): (r: string)
    ensures |r| <= |p| && (r != [] ==> !IsPathToken(r[0]))
  {
    if p != [] && IsPathToken(p[0]) then SkipTokens(p[1..]) else p
  }

  function SkipSegment(p: string): (r: string)
    ensures |r| <= |p| && (r != [] ==> IsPathToken(r[0]))
    ensures p != [] && !IsPathToken(p[0]) ==> |r| < |p|
  {
    if p == [] || IsPathToken(p[0]) then p else SkipSegment(p[1..])
  }

  predicate IsSpace(c: char) {
    c in " \t\n\r" || c == FORM_FEED || c == 0x0B as char
  }

  function SkipSpaces(s: string): string {
    if s != [] && IsSpace(s[0]) then SkipSpaces(s[1..]) else s
  }

  /** `atoi` of the front of a string: white space, a sign and digits. */
  function AtoiOf(s: string): int {
    var t := SkipSpaces(s);
    var u := DropSign(t);
    var n := Number(u[..Span(u)], Decimal);
    Wrap32(Clamp64(if t != [] && t[0] == '-' then 0 - n else n))
  }

  /** The setting that the path `p` leads to from setting `i`; NULL when it leads nowhere. */
  function Find(st: Store, i: Id, p: string): (r: Id)
    requires Ordered(st) && 0 <= i < |st|
    ensures r == NULL || i <= r < |st|
    decreases |p|
  {
    var q := SkipTokens(p);
    if q == [] then i
    else
      var at := if q[0] == '[' then q[1..] else q;
      var found := if q[0] == '[' then GetElem(st, i, AtoiOf(at)) else GetMember(st, i, q);
      assert KidsIn(st, i);
      if found == NULL then (if at == [] then i else NULL) else Find(st, found, SkipSegment(at))
  }

  /** `config_setting_lookup`. */
  method Lookup(config: Config, i: Id, path: string) returns (r: Id)
    requires config.Valid() && Live(config.store, i)
    ensures r == Find(config.store, i, path)
    ensures r == NULL || Live(config.store, r)
  {
    var setting, p := i, 0;
    assert path[0..] == path;
    while true
      invariant 0 <= p <= |path| && Live(config.store, setting)
      invariant Find(config.store, i, path) == Find(config.store, setting, path[p..])
      decreases |path| - p
    {
      p := AfterTokens(path, p);
      if p == |path| {
        return setting;
      }
      var found;
      found, p := Descend(config, setting, path, p);
      if found == NULL {
        return if p < |path| then NULL else setting;
      }
      setting := found;
      p := AfterSegment(path, p);
    }
  }

  /** One step of the walk: the child that the front of the path names, and where its key begins. */
  method Descend(config: Config, i: Id, path: string, p0: nat) returns (found: Id, p: nat)
    requires config.Valid() && Live(config.store, i) && p0 < |path|
    ensures p == if path[p0] == '[' then p0 + 1 else p0
    ensures found == if path[p0] == '[' then GetElem(config.store, i, AtoiOf(path[p0..][1..]))
                     else GetMember(config.store, i, path[p0..])
    ensures found == NULL || Live(config.store, found)
    ensures path[p..] == if path[p0] == '[' then path[p0..][1..] else path[p0..]
  {
    assert NodeOk(config.store, i) && KidsIn(config.store, i);
    p := p0;
    if path[p] == '[' {
      p := p + 1;
      assert path[p0..][1..] == path[p..];
      found := GetElem(config.store, i, AtoiOf(path[p..]));
    } else {
      found := config.Member(i, path[p..]);
    }
    if found != NULL {
      FoundIsLive(config.store, i, found);
    }
  }

  lemma FoundIsLive(st: Store, i: Id, found: Id)
    requires WellFormed(st) && Live(st, i) && found in st[i].kids
    ensures Live(st, found)
  {
    assert NodeOk(st, i);
  }

  /** The loop over path tokens. */
  method AfterTokens(path: string, p0: nat) returns (p: nat)
    requires p0 <= |path|
    ensures p0 <= p <= |path| && path[p..] == SkipTokens(path[p0..])
  {
    p := p0;
    while p < |path| && IsPathToken(path[p])
      invariant p0 <= p <= |path| && SkipTokens(path[p..]) == SkipTokens(path[p0..])
    {
      assert path[p..][1..] == path[p + 1..];
      p := p + 1;
    }
  }

  /** The loop to the next path token. */
  method AfterSegment(path: string, p0: nat) returns (p: nat)
    requires p0 <= |path|
    ensures p0 <= p <= |path| && path[p..] == SkipSegment(path[p0..])
  {
    p := p0;
    while p < |path| && !IsPathToken(path[p])
      invariant p0 <= p <= |path| && SkipSegment(path[p..]) == SkipSegment(path[p0..])
    {
      assert path[p..][1..] == path[p + 1..];
      p := p + 1;
    }
  }

  // ----- the path of a setting

  /** The position of a setting among the children of its parent. */
  ghost function IndexOf(st: Store, i: Id): (k: nat)
    requires WellFormed(st) && Live(st, i) && i != ROOT
    ensures var q := st[i].parent; 0 <= q < i && k < |st[q].kids| && st[q].kids[k] == i
  {
    assert NodeOk(st, i);
    var k: nat :| k < |st[st[i].parent].kids| && st[st[i].parent].kids[k] == i;
    k
  }

  /** The last component of the path of a setting: its name, or its index in brackets. */
  ghost function Component(st: Store, i: Id): string
    requires WellFormed(st) && Live(st, i) && i != ROOT
  {
    assert NodeOk(st, i);
    if st[st[i].parent].stype == TypeGroup then match st[i].name case Some(s) => s case None => []
    else "[" + WriteInt(IndexOf(st, i)) + "]"
  }

  /** The names and indices from the root down, separated by `sep`. */
  ghost function PathOf(st: Store, i: Id, sep: char): string
    requires WellFormed(st) && Live(st, i)
    decreases i
  {
    if i == ROOT then ""
    else
      assert NodeOk(st, i);
      var q := st[i].parent;
      if q == ROOT then Component(st, i) else PathOf(st, q, sep) + [sep] + Component(st, i)
  }

  /** The number of children fits the `int` that indices are. */
  predicate ShortLists(st: Store) {
    forall i :: 0 <= i < |st| ==> |st[i].kids| <= INT32_MAX
  }

  predicate StartsNext(rest: string) {
    rest == [] || IsPathToken(rest[0])
  }

  lemma {:induction false} SegmentOf(name: string, rest: string)
    requires StartsNext(rest) && forall i :: 0 <= i < |name| ==> !IsPathToken(name[i])
    ensures Segment(name + rest) == name && SkipSegment(name + rest) == rest
    decreases |name|
  {
    if name == [] {
      assert name + rest == rest;
    } else {
      assert (name + rest)[1..] == name[1..] + rest;
      SegmentOf(name[1..], rest);
    }
  }

  lemma NameFinds(st: Store, i: Id, rest: string)
    requires WellFormed(st) && Live(st, i) && i != ROOT && StartsNext(rest)
    requires var q := st[i].parent; 0 <= q < |st| && st[q].stype == TypeGroup
    ensures var c := Component(st, i); c != [] && c[0] != '[' && !IsPathToken(c[0])
    ensures GetMember(st, st[i].parent, Component(st, i) + rest) == i
    ensures SkipSegment(Component(st, i) + rest) == rest
  {
    var q, k := st[i].parent, IndexOf(st, i);
    assert NodeOk(st, i) && NodeOk(st, q) && KidsIn(st, q);
    var name := st[i].name.value;
    assert ValidName(st[st[q].kids[k]].name.value);
    SegmentOf(name, rest);
    SegmentOfName(name);
    assert SameName(name + rest, name);
    var j := SearchFrom(st, st[q].kids, name + rest, 0);
    assert j >= 0;
    SegmentOfName(st[st[q].kids[j]].name.value);
    assert j == k;
  }

  lemma {:induction false} SpanBefore(w: string, rest: string)
    requires (forall i :: 0 <= i < |w| ==> IsDigit(w[i])) && rest != [] && !IsDigit(rest[0])
    ensures Span(w + rest) == |w|
    decreases |w|
  {
    if w == [] {
      assert w + rest == rest;
    } else {
      assert (w + rest)[1..] == w[1..] + rest;
      SpanBefore(w[1..], rest);
    }
  }

  /** `atoi` reads the index in front of a bracket. */
  lemma AtoiOfIndex(k: nat, rest: string)
    requires k <= INT32_MAX
    ensures AtoiOf(WriteInt(k) + "]" + rest) == k
  {
    var w, tail := WriteInt(k), "]" + rest;
    var s := w + "]" + rest;
    assert s == w + tail && IsDigit(s[0]) && s[0] == w[0];
    SpanBefore(w, tail);
    assert s[..|w|] == w;
    NumberOfDigits(k, Decimal);
  }

  lemma IndexFinds(st: Store, i: Id, rest: string)
    requires WellFormed(st) && Live(st, i) && i != ROOT && StartsNext(rest) && ShortLists(st)
    requires var q := st[i].parent; 0 <= q < |st| && st[q].stype != TypeGroup
    ensures var c := Component(st, i); c != [] && c[0] == '['
    ensures var at := (Component(st, i) + rest)[1..];
            GetElem(st, st[i].parent, AtoiOf(at)) == i && SkipSegment(at) == rest
  {
    var q, k := st[i].parent, IndexOf(st, i);
    assert NodeOk(st, i) && NodeOk(st, q);
    AfterBracket(k, rest);
    AtoiOfIndex(k, rest);
    IndexSegment(k, rest);
  }

  lemma AfterBracket(k: nat, rest: string)
    ensures ("[" + WriteInt(k) + "]" + rest)[1..] == WriteInt(k) + "]" + rest
  {
  }

  lemma IndexSegment(k: nat, rest: string)
    requires StartsNext(rest)
    ensures SkipSegment(WriteInt(k) + "]" + rest) == rest
  {
    SegmentOf(WriteInt(k) + "]", rest);
  }

  /** One component leads from the parent to the setting. */
  lemma ComponentLeads(st: Store, i: Id, lead: string, rest: string)
    requires WellFormed(st) && Live(st, i) && i != ROOT && StartsNext(rest) && ShortLists(st)
    requires lead == [] || (|lead| == 1 && IsPathToken(lead[0]))
    ensures 0 <= st[i].parent < |st| && Find(st, st[i].parent, lead + (Component(st, i) + rest)) == Find(st, i, rest)
  {
    assert NodeOk(st, i);
    var q, c := st[i].parent, Component(st, i);
    if st[q].stype == TypeGroup {
      NameFinds(st, i, rest);
    } else {
      IndexFinds(st, i, rest);
    }
    var p := c + rest;
    assert p[0] == c[0];
    if lead == [] {
      assert lead + p == p;
    } else {
      assert (lead + p)[1..] == p;
    }
    assert SkipTokens(lead + p) == p;
  }

  /** The path of a setting leads to it, and whatever follows is looked up from there. */
  lemma {:induction false} PathLeads(st: Store, i: Id, sep: char, rest: string)
    requires WellFormed(st) && Live(st, i) && IsPathToken(sep) && StartsNext(rest) && ShortLists(st)
    ensures Find(st, ROOT, PathOf(st, i, sep) + rest) == Find(st, i, rest)
    decreases i
  {
    if i == ROOT {
      assert "" + rest == rest;
    } else {
      assert NodeOk(st, i);
      var q, c := st[i].parent, Component(st, i);
      if q == ROOT {
        ComponentLeads(st, i, [], rest);
        assert [] + (c + rest) == c + rest;
      } else {
        ComponentLeads(st, i, [sep], rest);
        PathLeads(st, q, sep, [sep] + (c + rest));
        Associates(PathOf(st, q, sep), [sep], c, rest);
      }
    }
  }

  /** Looking up the path of a setting from the root returns exactly that setting. */
  lemma LookupInvertsPath(st: Store, i: Id, sep: char)
    requires WellFormed(st) && Live(st, i) && IsPathToken(sep) && ShortLists(st)
    ensures Find(st, ROOT, PathOf(st, i, sep)) == i
  {
    PathLeads(st, i, sep, "");
    assert PathOf(st, i, sep) + "" == PathOf(st, i, sep);
  }

  /** Different settings have different paths. */
  lemma PathsDiffer(st: Store, i: Id, j: Id, sep: char)
    requires WellFormed(st) && Live(st, i) && Live(st, j) && i != j && IsPathToken(sep) && ShortLists(st)
    ensures PathOf(st, i, sep) != PathOf(st, j, sep)
  {
    LookupInvertsPath(st, i, sep);
    LookupInvertsPath(st, j, sep);
  }
}
