/**
 Which paths the library answers although they name no setting. A strict lookup demands an index
 in every bracket; the two are compared on all paths.
 */
module StrictLookups {
  import opened Options
  import opened Words
  import opened Settings
  import opened Lexemes
  import opened Numerals
  import opened TreeInvariant
  import opened TreeEffects
  import opened Operations
  import opened Lookups

  // ----- the strict lookup

  /** The number at the front of a bracket, after blanks and with its sign; None when there is no digit. */
  function IndexAt(at: string): Option<int> {
    var t := SkipSpaces(at);
    var u := DropSign(t);
    var n := Number(u[..Span(u)], Decimal);
    if Span(u) == 0 then None else Some(if t[0] == '-' then 0 - n else n)
  }

  /** The bracket holds an index: there is a number, and it is an `int`. */
  predicate Indexed(at: string) {
    IndexAt(at).Some? && IsInt32(IndexAt(at).value)
  }

  /** The first step of a path, without the bracket that opens it. */
  function Key(p: string): (at: string)
    requires SkipTokens(p) != []
    ensures |at| <= |p| && (SkipTokens(p)[0] == '[' ==> |at| < |p|)
  {
    var q := SkipTokens(p);
    if q[0] == '[' then q[1..] else q
  }

  /** What follows the first step of a path. */
  function Later(p: string): (r: string)
    requires SkipTokens(p) != []
    ensures |r| < |p| && (r != [] ==> IsPathToken(r[0]))
  {
    SkipSegment(Key(p))
  }

  /** The lookup that answers NULL at a bracket without an index, as at any step without a setting. */
  function FindStrict(st: Store, i: Id, p: string): (r: Id)
    requires Ordered(st) && 0 <= i < |st|
    ensures r == NULL || i <= r < |st|
    decreases |p|
  {
    var q := SkipTokens(p);
    if q == [] then i
    else
      var found := if q[0] != '[' then GetMember(st, i, q)
                   else if Indexed(Key(p)) then GetElem(st, i, IndexAt(Key(p)).value) else NULL;
      assert KidsIn(st, i);
      if found == NULL then NULL else FindStrict(st, found, Later(p))
  }

  /** The path begins with a bracket whose text is not `ok`. */
  predicate BeginsStray(p: string, ok: string -> bool) {
    var q := SkipTokens(p);
    q != [] && q[0] == '[' && !ok(Key(p))
  }

  /** The text behind every bracket of the path is `ok`. */
  predicate AllBrackets(p: string, ok: string -> bool)
    decreases |p|
  {
    SkipTokens(p) == [] || (!BeginsStray(p, ok) && AllBrackets(Later(p), ok))
  }

  /** The position of the first bracket whose text is not `ok`. */
  function FirstBracket(p: string, ok: string -> bool): (k: nat)
    requires !AllBrackets(p, ok)
    ensures k < |p| && p[k] == '['
    decreases |p|
  {
    if BeginsStray(p, ok) then
      TokensAreFront(p);
      |p| - |SkipTokens(p)|
    else
      LaterIsEnd(p);
      AtEnd(p, Later(p), FirstBracket(Later(p), ok));
      |p| - |Later(p)| + FirstBracket(Later(p), ok)
  }

  /** Every bracket of the path holds an index. */
  predicate AllIndexed(p: string) {
    AllBrackets(p, Indexed)
  }

  /** The position of the first bracket without an index. */
  function FirstStray(p: string): (k: nat)
    requires !AllIndexed(p)
    ensures k < |p| && p[k] == '['
  {
    FirstBracket(p, Indexed)
  }

  /** What the library answers at a setting for a bracket with `at` behind it. */
  function Guess(st: Store, j: Id, at: string): (r: Id)
    requires Ordered(st) && 0 <= j < |st|
  {
    assert KidsIn(st, j);
    var found := GetElem(st, j, AtoiOf(at));
    if found != NULL then Find(st, found, SkipSegment(at)) else if at == [] then j else NULL
  }

  // ----- `atoi` and the index

  /** `atoi` reads an index as it is, and 0 where there is no digit. */
  lemma AtoiIsIndex(at: string)
    ensures AtoiOf(at) == match IndexAt(at) case Some(v) => Wrap32(Clamp64(v)) case None => 0
    ensures Indexed(at) ==> AtoiOf(at) == IndexAt(at).value
  {
    var u := DropSign(SkipSpaces(at));
    if Span(u) == 0 {
      assert Number(u[..0], Decimal) == 0;
    } else if Indexed(at) {
      WrapOfInt(IndexAt(at).value);
    }
  }

  lemma WrapOfInt(v: int)
    requires IsInt32(v)
    ensures Wrap32(Clamp64(v)) == v
  {
  }

  // ----- parts of a path

  /** The path ends where a step begins. */
  predicate EndsNext(p: string) {
    p == [] || IsPathToken(p[|p| - 1])
  }

  predicate IsEnd(p: string, r: string) {
    |r| <= |p| && r == p[|p| - |r|..]
  }

  lemma {:induction false} TokensAreFront(p: string)
    ensures IsEnd(p, SkipTokens(p)) && EndsNext(p[..|p| - |SkipTokens(p)|])
  {
    var k := |p| - |SkipTokens(p)|;
    if p != [] && IsPathToken(p[0]) {
      TokensAreFront(p[1..]);
      assert p[1..][k - 1..] == p[k..];
      assert k > 1 ==> p[..k][k - 1] == p[1..][..k - 1][k - 2];
    }
  }

  lemma {:induction false} SegmentIsFront(p: string)
    ensures IsEnd(p, SkipSegment(p))
  {
    if p != [] && !IsPathToken(p[0]) {
      SegmentIsFront(p[1..]);
      EndOfEnd(p, p[1..], SkipSegment(p));
    }
  }

  lemma EndOfEnd(p: string, q: string, r: string)
    requires IsEnd(p, q) && IsEnd(q, r)
    ensures IsEnd(p, r)
  {
    assert q[|q| - |r|..] == p[|p| - |r|..];
  }

  lemma LaterIsEnd(p: string)
    requires SkipTokens(p) != []
    ensures IsEnd(p, Later(p))
  {
    var q := SkipTokens(p);
    TokensAreFront(p);
    SegmentIsFront(Key(p));
    EndOfEnd(q, Key(p), Later(p));
    EndOfEnd(p, q, Later(p));
  }

  /** Position `k` of the end of a path, as a position of the path. */
  lemma AtEnd(p: string, r: string, k: nat)
    requires IsEnd(p, r) && k < |r|
    ensures var d := |p| - |r|; p[d + k] == r[k] && p[d + k + 1..] == r[k + 1..]
    ensures k > 0 && EndsNext(r[..k]) ==> EndsNext(p[..|p| - |r| + k])
  {
    var d := |p| - |r|;
    assert p[d + k + 1..] == r[k + 1..];
    if k > 0 {
      assert p[..d + k][d + k - 1] == r[..k][k - 1];
    }
  }

  lemma {:induction false} TokensBefore(f: string, rest: string)
    requires EndsNext(f)
    ensures EndsNext(SkipTokens(f))
    ensures SkipTokens(f + rest) == if SkipTokens(f) == [] then SkipTokens(rest) else SkipTokens(f) + rest
  {
    if f == [] {
      assert f + rest == rest;
    } else if IsPathToken(f[0]) {
      assert (f + rest)[1..] == f[1..] + rest;
      TokensBefore(f[1..], rest);
    }
  }

  lemma {:induction false} SegmentBefore(f: string, rest: string)
    requires f != [] && EndsNext(f)
    ensures Segment(f + rest) == Segment(f)
    ensures SkipSegment(f) != [] && EndsNext(SkipSegment(f)) && SkipSegment(f + rest) == SkipSegment(f) + rest
  {
    if !IsPathToken(f[0]) {
      assert (f + rest)[1..] == f[1..] + rest;
      SegmentBefore(f[1..], rest);
    }
  }

  lemma {:induction false} SpacesBefore(f: string, rest: string)
    requires f != [] && EndsNext(f)
    ensures SkipSpaces(f) != [] && EndsNext(SkipSpaces(f)) && SkipSpaces(f + rest) == SkipSpaces(f) + rest
  {
    if IsSpace(f[0]) {
      assert (f + rest)[1..] == f[1..] + rest;
      SpacesBefore(f[1..], rest);
    }
  }

  lemma {:induction false} DigitsBefore(f: string, rest: string)
    requires f != [] && EndsNext(f)
    ensures Span(f + rest) == Span(f)
  {
    if IsDigit(f[0]) {
      assert (f + rest)[1..] == f[1..] + rest;
      DigitsBefore(f[1..], rest);
    }
  }

  /** The number in a bracket ends before the next step. */
  lemma NumberBefore(f: string, rest: string)
    requires f != [] && EndsNext(f)
    ensures AtoiOf(f + rest) == AtoiOf(f) && IndexAt(f + rest) == IndexAt(f)
  {
    SpacesBefore(f, rest);
    var t := SkipSpaces(f);
    var u := DropSign(t);
    assert DropSign(t + rest) == u + rest;
    DigitsBefore(u, rest);
    assert (u + rest)[..Span(u)] == u[..Span(u)];
  }

  lemma {:induction false} SearchBySegment(st: Store, kids: seq<Id>, a: string, b: string, i: nat)
    requires i <= |kids| && forall j :: 0 <= j < |kids| ==> 0 <= kids[j] < |st|
    requires Segment(a) == Segment(b)
    ensures SearchFrom(st, kids, a, i) == SearchFrom(st, kids, b, i)
    decreases |kids| - i
  {
    if i < |kids| {
      SearchBySegment(st, kids, a, b, i + 1);
    }
  }

  /** Looking up a path in two parts. */
  lemma {:induction false} FindInParts(st: Store, i: Id, f: string, rest: string)
    requires Ordered(st) && 0 <= i < |st| && EndsNext(f)
    ensures var j := Find(st, i, f); Find(st, i, f + rest) == if j == NULL then NULL else Find(st, j, rest)
    decreases |f|
  {
    TokensBefore(f, rest);
    var q := SkipTokens(f);
    assert KidsIn(st, i);
    if q != [] {
      var at := if q[0] == '[' then q[1..] else q;
      assert (q + rest)[1..] == q[1..] + rest;
      SegmentBefore(at, rest);
      NumberBefore(at, rest);
      SearchBySegment(st, st[i].kids, q + rest, q, 0);
      var found := if q[0] == '[' then GetElem(st, i, AtoiOf(at)) else GetMember(st, i, q);
      if found != NULL {
        FindInParts(st, found, SkipSegment(at), rest);
      }
    }
  }

  // ----- where the two lookups differ

  /** Where every bracket holds an index, they do not. */
  lemma {:induction false} IndexedPathsAgree(st: Store, i: Id, p: string)
    requires Ordered(st) && 0 <= i < |st| && AllIndexed(p)
    ensures Find(st, i, p) == FindStrict(st, i, p)
    decreases |p|
  {
    var q := SkipTokens(p);
    assert KidsIn(st, i);
    if q != [] {
      AtoiIsIndex(Key(p));
      assert q[0] == '[' ==> Key(p) != [];
      var found := if q[0] == '[' then GetElem(st, i, AtoiOf(Key(p))) else GetMember(st, i, q);
      if found != NULL {
        IndexedPathsAgree(st, found, Later(p));
      }
    }
  }

  lemma {:induction false} StrayIsNull(st: Store, i: Id, p: string)
    requires Ordered(st) && 0 <= i < |st| && !AllIndexed(p)
    ensures FindStrict(st, i, p) == NULL
    decreases |p|
  {
    assert KidsIn(st, i);
    if !BeginsStray(p, Indexed) {
      var q := SkipTokens(p);
      var found := if q[0] != '[' then GetMember(st, i, q) else GetElem(st, i, IndexAt(Key(p)).value);
      if found != NULL {
        StrayIsNull(st, found, Later(p));
      }
    }
  }

  /** The first such bracket begins a step. */
  lemma {:induction false} StrayBeginsStep(p: string, ok: string -> bool)
    requires !AllBrackets(p, ok)
    ensures var k := FirstBracket(p, ok); EndsNext(p[..k]) && !ok(p[k + 1..])
    decreases |p|
  {
    if BeginsStray(p, ok) {
      TokensAreFront(p);
      AtEnd(p, SkipTokens(p), 0);
    } else {
      LaterIsEnd(p);
      StrayBeginsStep(Later(p), ok);
      AtEnd(p, Later(p), FirstBracket(Later(p), ok));
    }
  }

  /**
   The lookup of the library against the strict one, on every path. If every bracket holds an
   index they agree. Otherwise the strict one gives NULL, and the library goes on from what is
   before the first bracket without an index, with what `atoi` makes of it: element 0 where
   there is no number, and the setting itself when nothing follows and there is no element.
   */
  lemma FindIsStrictIff(st: Store, i: Id, p: string)
    requires Ordered(st) && 0 <= i < |st|
    ensures AllIndexed(p) ==> Find(st, i, p) == FindStrict(st, i, p)
    ensures !AllIndexed(p) ==>
              var k := FirstStray(p);
              var j := Find(st, i, p[..k]);
              && FindStrict(st, i, p) == NULL
              && Find(st, i, p) == (if j == NULL then NULL else Guess(st, j, p[k + 1..]))
              && (Find(st, i, p) == FindStrict(st, i, p) <==> j == NULL || Guess(st, j, p[k + 1..]) == NULL)
  {
    if AllIndexed(p) {
      IndexedPathsAgree(st, i, p);
    } else {
      StrayIsNull(st, i, p);
      StrayIsGuessed(st, i, p);
    }
  }

  lemma StrayIsGuessed(st: Store, i: Id, p: string)
    requires Ordered(st) && 0 <= i < |st| && !AllIndexed(p)
    ensures var k := FirstStray(p);
            var j := Find(st, i, p[..k]);
            Find(st, i, p) == if j == NULL then NULL else Guess(st, j, p[k + 1..])
  {
    StrayBeginsStep(p, Indexed);
    FindAtBracket(st, i, p, FirstStray(p));
  }

  /** The library at a bracket that begins a step. */
  lemma FindAtBracket(st: Store, i: Id, p: string, k: nat)
    requires Ordered(st) && 0 <= i < |st| && k < |p| && p[k] == '[' && EndsNext(p[..k])
    ensures var j := Find(st, i, p[..k]); Find(st, i, p) == if j == NULL then NULL else Guess(st, j, p[k + 1..])
  {
    FindInParts(st, i, p[..k], p[k..]);
    assert p[..k] + p[k..] == p;
    assert p[k..] == "[" + p[k + 1..];
    var j := Find(st, i, p[..k]);
    if j != NULL {
      GuessIsFind(st, j, p[k + 1..]);
    }
  }

  lemma GuessIsFind(st: Store, j: Id, at: string)
    requires Ordered(st) && 0 <= j < |st|
    ensures Find(st, j, "[" + at) == Guess(st, j, at)
  {
    assert ("[" + at)[1..] == at;
  }

  /**
   A setting is answered for a path with a bracket that holds no number exactly when what is
   before it leads to an aggregate with an element from which the rest can be looked up, or to
   any setting when the bracket ends the path.
   */
  lemma NoNumberFinds(st: Store, j: Id, at: string)
    requires Ordered(st) && 0 <= j < |st| && IndexAt(at) == None
    ensures var first := GetElem(st, j, 0);
            Guess(st, j, at) == if first != NULL then Find(st, first, SkipSegment(at)) else if at == [] then j else NULL
  {
    AtoiIsIndex(at);
  }

  /** A path that ends in one bracket without an index, which `atoi` reads as 0. */
  lemma FirstIsAnswered(st: Store, j: Id, at: string)
    requires Ordered(st) && 0 <= j < |st| && !Indexed(at) && AtoiOf(at) == 0
    requires GetElem(st, j, 0) != NULL && SkipTokens(SkipSegment(at)) == []
    ensures Find(st, j, "[" + at) == GetElem(st, j, 0) && FindStrict(st, j, "[" + at) == NULL
  {
    GuessIsFind(st, j, at);
    assert ("[" + at)[1..] == at;
    assert BeginsStray("[" + at, Indexed);
    StrayIsNull(st, j, "[" + at);
  }

  /** A numeral in brackets is a number, of any size. */
  lemma NumeralIsRead(k: nat)
    ensures IndexAt(WriteInt(k) + "]") == Some(k)
  {
    var w := WriteInt(k);
    var at := w + "]";
    assert IsDigit(at[0]) && at[0] == w[0];
    SpanBefore(w, "]");
    assert at[..|w|] == w;
    NumberOfDigits(k, Decimal);
  }

  lemma TooLargeIsZero(at: string)
    requires at == WriteInt(TWO32) + "]"
    ensures !Indexed(at) && AtoiOf(at) == 0 && SkipSegment(at) == []
  {
    NumeralIsRead(TWO32);
    AtoiIsIndex(at);
    IndexSegment(TWO32, []);
    assert at + [] == at;
  }

  /** Paths that name no setting and are answered all the same, in a group whose one array has one element. */
  lemma StrayPathsAreAnswered()
    ensures var st := OneArray();
            && Ordered(st) && |st| == 3
            && forall at :: at in ["", "x]", ".", WriteInt(TWO32) + "]"] ==>
                 Find(st, 1, "[" + at) == 2 && FindStrict(st, 1, "[" + at) == NULL
  {
    var st := OneArray();
    OneArrayIsWellFormed();
    forall at | at in ["", "x]", ".", WriteInt(TWO32) + "]"]
      ensures Find(st, 1, "[" + at) == 2 && FindStrict(st, 1, "[" + at) == NULL
    {
      AtoiIsIndex(at);
      if at == WriteInt(TWO32) + "]" {
        TooLargeIsZero(at);
      } else {
        NoNumbers();
      }
      FirstIsAnswered(st, 1, at);
    }
  }

  lemma NoNumbers()
    ensures IndexAt("") == IndexAt("x]") == IndexAt(".") == None
    ensures SkipSegment("") == SkipSegment("x]") == "" && SkipSegment(".") == "."
    ensures SkipTokens("") == SkipTokens(".") == ""
  {
    assert SkipSegment("]") == "" && SkipTokens("") == "";
    assert "x]"[1..] == "]" && "]"[1..] == "" && "."[1..] == "";
  }

  // ----- paths that lead nowhere

  /** What `isspace` is true of. */
  lemma SpaceCharacters(c: char)
    ensures IsSpace(c) <==> c as int == 32 || 9 <= c as int <= 13
  {
  }

  /** A path that begins with a name leads nowhere when no member has that name. */
  lemma MissingMember(st: Store, i: Id, name: string, rest: string)
    requires WellFormed(st) && Live(st, i) && ValidName(name) && StartsNext(rest)
    requires KidsIn(st, i)
    requires st[i].stype == TypeGroup ==> forall j :: 0 <= j < |st[i].kids| ==> st[st[i].kids[j]].name != Some(name)
    ensures Find(st, i, name + rest) == NULL
  {
    MemberIsNamed(st, i, name);
    SegmentOf(name, rest);
    SegmentOfName(name);
    assert KidsIn(st, i);
    SearchBySegment(st, st[i].kids, name, name + rest, 0);
    assert (name + rest)[0] == name[0];
    assert SkipTokens(name + rest) == name + rest;
  }

  /** A path that begins with an index leads nowhere when there is no such child. */
  lemma MissingElement(st: Store, i: Id, k: nat, rest: string)
    requires Ordered(st) && 0 <= i < |st| && k <= INT32_MAX && StartsNext(rest)
    requires !IsAggregate(st[i].stype) || k >= |st[i].kids|
    ensures Find(st, i, "[" + WriteInt(k) + "]" + rest) == NULL
  {
    var p := "[" + WriteInt(k) + "]" + rest;
    AfterBracket(k, rest);
    AtoiOfIndex(k, rest);
    assert SkipTokens(p) == p;
  }
}
