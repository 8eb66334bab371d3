/**
 The scanner as it runs: one token at a time, with the include stack. What it still has to
 deliver is always the expansion of the current text followed by those of the saved texts.
 */
module Scanners {
  import opened Options
  import opened Tokens
  import opened Matching
  import Numerals
  import opened Patterns
  import opened Lexing
  import opened StringBuffers
  import opened Resources
  import opened ScanContexts

  // ----- the match loop

  /** The first rule that accepts `w`, or 0. */
  method FirstRule(u: Rules, sc: Condition, bol: bool, w: string) returns (r: nat)
    ensures r <= NRULES && forall q :: 1 <= q <= NRULES && (r == 0 || q < r) ==> !u.matches(sc, bol, q, w)
    ensures r > 0 ==> u.matches(sc, bol, r, w)
  {
    r := 1;
    while r <= NRULES
      invariant 1 <= r <= NRULES + 1 && forall q :: 1 <= q < r ==> !u.matches(sc, bol, q, w)
    {
      if u.matches(sc, bol, r, w) {
        return;
      }
      r := r + 1;
    }
    r := 0;
  }

  /** Reads on and remembers the last accepting position, which is the match that is taken. */
  method MatchLoop(u: Rules, sc: Condition, bol: bool, s: string) returns (n: nat, r: nat)
    requires Defaults(u) && s != []
    ensures (n, r) == u.best(sc, bol, s)
  {
    n, r := 0, 0;
    var k := 0;
    while k < |s|
      invariant n <= k <= |s| && r <= NRULES && (r == 0 <==> n == 0)
      invariant r > 0 ==> u.matches(sc, bol, r, s[..n]) && forall q :: 1 <= q < r ==> !u.matches(sc, bol, q, s[..n])
      invariant forall j, q :: n < j <= k && 1 <= q <= NRULES ==> !u.matches(sc, bol, q, s[..j])
    {
      k := k + 1;
      var q := FirstRule(u, sc, bol, s[..k]);
      if q > 0 {
        n, r := k, q;
      }
    }
    assert s[..1] == [s[0]] && u.matches(sc, bol, NRULES, s[..1]);
    BestIs(u, sc, bol, s, n, r);
  }

  // ----- what is still to be scanned

  /** The buffer after `k` characters. */
  function Advance(b: Buffer, k: nat): Buffer
    requires 1 <= k <= |b.rest|
  {
    b.(rest := b.rest[k..], bol := b.rest[k - 1] == '\n')
  }

  /** The scan of the current buffer and then of the saved ones, from the innermost out. */
  function Pending(u: Rules, f: Files, saved: seq<Buffer>, cur: Buffer, sc: Condition, buf: string): Scanned
    requires Defaults(u) && |saved| <= MAX_INCLUDE_DEPTH
    decreases |saved|
  {
    var inner := Scan(u, f, |saved|, cur.rest, cur.bol, sc, buf);
    if saved == [] then inner
    else Then(inner, Pending(u, f, saved[..|saved| - 1], saved[|saved| - 1], inner.sc, inner.buf))
  }

  /** What one match delivers comes in front of what is pending after it. */
  lemma PendingStep(u: Rules, f: Files, saved: seq<Buffer>, cur: Buffer, sc: Condition, buf: string, m: (nat, nat))
    requires Defaults(u) && |saved| <= MAX_INCLUDE_DEPTH && cur.rest != [] && m == u.best(sc, cur.bol, cur.rest)
    ensures 1 <= Taken(m) <= |cur.rest|
    ensures var a := AfterMatch(u, f, |saved|, m.1, cur.rest[..Taken(m)], sc, buf);
            Pending(u, f, saved, cur, sc, buf) == Then(a, Pending(u, f, saved, Advance(cur, Taken(m)), a.sc, a.buf))
  {
    ScanStep(u, f, |saved|, cur.rest, cur.bol, sc, buf);
    var w, next := cur.rest[..Taken(m)], Advance(cur, Taken(m));
    var a := AfterMatch(u, f, |saved|, m.1, w, sc, buf);
    var inner := Scan(u, f, |saved|, next.rest, next.bol, a.sc, a.buf);
    assert next.bol == (w[|w| - 1] == '\n');
    if saved != [] {
      ThenThen(a, inner, Pending(u, f, saved[..|saved| - 1], saved[|saved| - 1], inner.sc, inner.buf));
    }
  }

  lemma ThenThen(a: Scanned, b: Scanned, s: Scanned)
    ensures Then(Then(a, b), s) == Then(a, Then(b, s))
  {
  }

  /** The characters left in the text at level `i` of the include stack, plus one; 0 above the stack. */
  function Left(saved: seq<Buffer>, cur: Buffer, i: nat): nat {
    if i < |saved| then 1 + |saved[i].rest| else if i == |saved| then 1 + |cur.rest| else 0
  }

  /** One of the three ways in which a step of the scanner makes progress. */
  predicate Progresses(saved: seq<Buffer>, cur: Buffer, saved': seq<Buffer>, cur': Buffer) {
    || (saved' == saved && |cur'.rest| < |cur.rest|)
    || (|saved'| == |saved| + 1 && saved'[..|saved|] == saved && |saved'[|saved|].rest| < |cur.rest|)
    || (saved == saved' + [cur'])
  }

  /** The measure of the scanner's loop, outermost text first. */
  ghost function Levels(saved: seq<Buffer>, cur: Buffer): (l: seq<nat>)
    ensures |l| == 11
  {
    seq(11, i requires 0 <= i < 11 => Left(saved, cur, i))
  }

  /** `l` is lexicographically below `k`, and differs first at position `d`. */
  ghost predicate Below(l: seq<nat>, k: seq<nat>, d: nat) {
    |l| == |k| == 11 && d < 11 && l[d] < k[d] && forall i :: 0 <= i < d ==> l[i] == k[i]
  }

  /** The order that `decreases` puts on measures. */
  ghost predicate Lower(l: seq<nat>, k: seq<nat>) {
    |l| == |k| == 11 && (l[0] < k[0] || (l[0] == k[0] && (l[1] < k[1] || (l[1] == k[1] && (l[2] < k[2] || (l[2] == k[2] && (l[3] < k[3] || (l[3] == k[3] && (l[4] < k[4] || (l[4] == k[4] && (l[5] < k[5] || (l[5] == k[5] && (l[6] < k[6] || (l[6] == k[6] && (l[7] < k[7] || (l[7] == k[7] && (l[8] < k[8] || (l[8] == k[8] && (l[9] < k[9] || (l[9] == k[9] && (l[10] < k[10])))))))))))))))))))))
  }

  lemma BelowIsLower(l: seq<nat>, k: seq<nat>, d: nat)
    requires Below(l, k, d)
    ensures Lower(l, k)
  {
  }

  lemma ProgressIsBelow(saved: seq<Buffer>, cur: Buffer, saved': seq<Buffer>, cur': Buffer) returns (d: nat)
    requires Progresses(saved, cur, saved', cur') && |saved| <= 10 && |saved'| <= 10
    ensures Below(Levels(saved', cur'), Levels(saved, cur), d)
  {
    d := |saved|;
    if |saved'| == |saved| + 1 {
      assert forall i :: 0 <= i < |saved| ==> saved'[i] == saved'[..|saved|][i];
    }
  }

  /** A match other than the end of an include directive. */
  lemma PendingMatch(u: Rules, f: Files, saved: seq<Buffer>, cur: Buffer, sc: Condition, buf: string, m: (nat, nat))
    requires Defaults(u) && |saved| <= MAX_INCLUDE_DEPTH && cur.rest != []
    requires m == u.best(sc, cur.bol, cur.rest) && m.1 != INCLUDE_RULE
    ensures 1 <= Taken(m) <= |cur.rest|
    ensures var w := cur.rest[..Taken(m)];
            Pending(u, f, saved, cur, sc, buf) ==
            Prepend(OneOrNone(u.token(m.1, w, buf)),
                    Pending(u, f, saved, Advance(cur, Taken(m)), u.next(m.1, sc), BufferAfter(u, m.1, w, buf)))
  {
    PendingStep(u, f, saved, cur, sc, buf, m);
    var a := AfterMatch(u, f, |saved|, m.1, cur.rest[..Taken(m)], sc, buf);
    PrependIsThen(a, Pending(u, f, saved, Advance(cur, Taken(m)), a.sc, a.buf));
  }

  function BufferAfter(u: Rules, r: nat, w: string, buf: string): string {
    if r == STRING_RULE then "" else buf + u.appended(r, w)
  }

  /** The end of an include directive that succeeds: the file comes next, then the saved text. */
  lemma PendingInclude(u: Rules, f: Files, saved: seq<Buffer>, cur: Buffer, sc: Condition, buf: string,
                       m: (nat, nat), id: nat)
    requires Defaults(u) && |saved| < MAX_INCLUDE_DEPTH && cur.rest != []
    requires m == u.best(sc, cur.bol, cur.rest) && m.1 == INCLUDE_RULE && PathOf(f, buf) in f.contents
    ensures 1 <= Taken(m) <= |cur.rest|
    ensures Pending(u, f, saved, cur, sc, buf) ==
            Enter(PathOf(f, buf), Pending(u, f, saved + [Advance(cur, Taken(m))],
                                          Buffer(id, f.contents[PathOf(f, buf)], true), Condition.INITIAL, ""))
  {
    PendingStep(u, f, saved, cur, sc, buf, m);
    var next := Advance(cur, Taken(m));
    var inner := Scan(u, f, |saved| + 1, f.contents[PathOf(f, buf)], true, Condition.INITIAL, "");
    assert (saved + [next])[..|saved|] == saved;
    EnterThen(PathOf(f, buf), inner, Pending(u, f, saved, next, inner.sc, inner.buf));
  }

  lemma EnterThen(path: string, inner: Scanned, s: Scanned)
    ensures Then(Enter(path, inner), s) == Enter(path, Then(inner, s))
  {
  }

  /** An include directive that fails, in terms of tokens and files. */
  lemma FailureOutlook(u: Rules, f: Files, saved: seq<Buffer>, cur: Buffer, sc: Condition, buf: string, m: (nat, nat))
    requires Defaults(u) && |saved| <= MAX_INCLUDE_DEPTH && cur.rest != []
    requires m == u.best(sc, cur.bol, cur.rest) && m.1 == INCLUDE_RULE
    requires |saved| == MAX_INCLUDE_DEPTH || PathOf(f, buf) !in f.contents
    ensures 1 <= Taken(m) <= |cur.rest|
    ensures var p := Pending(u, f, saved, cur, sc, buf);
            var q := Pending(u, f, saved, Advance(cur, Taken(m)), sc, if |saved| == MAX_INCLUDE_DEPTH then buf else "");
            p.toks == [TokError] + q.toks && p.files == q.files
  {
    PendingStep(u, f, saved, cur, sc, buf, m);
  }

  /** One that succeeds. */
  lemma EntryOutlook(u: Rules, f: Files, saved: seq<Buffer>, cur: Buffer, sc: Condition, buf: string,
                     m: (nat, nat), id: nat, entered: seq<string>)
    requires Defaults(u) && |saved| < MAX_INCLUDE_DEPTH && cur.rest != []
    requires m == u.best(sc, cur.bol, cur.rest) && m.1 == INCLUDE_RULE && PathOf(f, buf) in f.contents
    ensures 1 <= Taken(m) <= |cur.rest|
    ensures var p := Pending(u, f, saved, cur, sc, buf);
            var q := Pending(u, f, saved + [Advance(cur, Taken(m))],
                             Buffer(id, f.contents[PathOf(f, buf)], true), Condition.INITIAL, "");
            p.toks == q.toks && entered + p.files == entered + [PathOf(f, buf)] + q.files
  {
    PendingInclude(u, f, saved, cur, sc, buf, m, id);
    var next := Advance(cur, Taken(m));
    var q := Pending(u, f, saved + [next], Buffer(id, f.contents[PathOf(f, buf)], true), Condition.INITIAL, "");
    EnteredOneMore(entered, PathOf(f, buf), q.files);
  }

  lemma EnteredOneMore(entered: seq<string>, path: string, files: seq<string>)
    ensures (entered + [path]) + files == entered + ([path] + files)
  {
  }

  /** The end of an included text. */
  lemma PendingEnd(u: Rules, f: Files, saved: seq<Buffer>, cur: Buffer, sc: Condition, buf: string)
    requires Defaults(u) && |saved| <= MAX_INCLUDE_DEPTH && cur.rest == []
    ensures Pending(u, f, saved, cur, sc, buf) ==
            if saved == [] then Scanned([], sc, buf, [])
            else Pending(u, f, saved[..|saved| - 1], saved[|saved| - 1], sc, buf)
  {
    if saved != [] {
      var outer := Pending(u, f, saved[..|saved| - 1], saved[|saved| - 1], sc, buf);
      assert [] + outer.toks == outer.toks && [] + outer.files == outer.files;
    }
  }

  /** The scan of a text that nothing includes. */
  lemma Whole(u: Rules, f: Files, text: string) returns (all: Scanned)
    requires Defaults(u)
    ensures all == Pending(u, f, [], Buffer(0, text, true), Condition.INITIAL, "")
    ensures all == Scan(u, f, 0, text, true, Condition.INITIAL, "")
    ensures [] + all.files == all.files
  {
    all := Scan(u, f, 0, text, true, Condition.INITIAL, "");
  }

  // ----- the scanner object

  /** What rules append never holds a NUL, and only the rule for strings looks at the buffer. */
  ghost predicate AppendsText(u: Rules) {
    && (forall r, w {:trigger u.appended(r, w)} :: '\0' !in u.appended(r, w))
    && (forall r, w, b {:trigger u.token(r, w, b)} :: r != STRING_RULE ==> u.token(r, w, b) == u.token(r, w, ""))
  }

  lemma FlexAppendsText()
    ensures AppendsText(FLEX)
  {
    forall r, w
      ensures '\0' !in FLEX.appended(r, w)
    {
      CStringHasNoNul(w);
      if r == 13 && |w| == 4 {
        CStringHasNoNul([(16 * (Numerals.ValueOf(w[2]) % 16) + Numerals.ValueOf(w[3]) % 16) as char]);
      }
    }
  }

  /** What is new in a footprint stays new. */
  twostate lemma StillFresh(base: set<object>, new mid: set<object>, new now: set<object>)
    requires fresh(mid - base) && fresh(now - mid)
    ensures fresh(now - base)
  {
  }

  class Scanner {
    const u: Rules
    const ctx: ScanContext
    var cur: Buffer
    var sc: Condition
    var bufferCount: nat
    ghost const total: seq<string>
    ghost var rest: Scanned
    ghost var levels: seq<nat>
    ghost var Repr: set<object>

    ghost function Footprint(): set<object>
      reads this, ctx, ctx.str
    {
      {this} + ctx.Repr()
    }

    ghost predicate Valid()
      reads this, ctx, ctx.buffers, ctx.streams, ctx.names, ctx.str, ctx.str.Repr()
    {
      && Defaults(u) && AppendsText(u)
      && this !in ctx.Repr()
      && ctx.Valid()
      && ctx.usage.current == Some(cur.id)
      && ctx.usage.bufferCount == bufferCount
    }

    /** What is still to be scanned. */
    ghost function Rest(): Scanned
      requires Valid()
      reads this, ctx, ctx.buffers, ctx.streams, ctx.names, ctx.str, ctx.str.Repr()
    {
      Pending(u, ctx.files, ctx.Saved(), cur, sc, ctx.str.Contents())
    }

    /**
     The scanner between two rounds of its loop: the ghost fields are up to date, and the files
     entered so far and those still to be entered are all files of the expansion.
     */
    ghost predicate Ready()
      reads this, Repr
    {
      && this in Repr && ctx in Repr && ctx.str in Repr && Footprint() <= Repr
      && Valid() && rest == Rest() && levels == Levels(ctx.Saved(), cur)
      && ctx.entered + rest.files == total
    }

    /** All texts are at their end. */
    ghost predicate Ended()
      reads this, ctx
    {
      rest.toks == [] && rest.files == [] && ctx.depth == 0
    }

    /** `scanctx_init`, `yylex_init_extra` and `yy_scan_string`. */
    constructor (u: Rules, files: Files, text: string)
      requires Defaults(u) && AppendsText(u)
      ensures Ready() && fresh(Repr) && this.u == u && ctx.files == files
      ensures rest == Scan(u, files, 0, text, true, Condition.INITIAL, "") && total == rest.files
    {
      this.u := u;
      ctx := new ScanContext(files);
      cur, sc, bufferCount := Buffer(0, text, true), Condition.INITIAL, 1;
      ghost var all := Whole(u, files, text);
      rest, total, levels := all, all.files, [];
      new;
      assert ctx.Saved() == [] && Rest() == all;
      Sync({});
    }

    /** Only the string buffer takes new memory. */
    twostate lemma FootprintGrows()
      requires fresh(ctx.str.Repr() - old(ctx.str.Repr()))
      ensures fresh(Footprint() - old(Footprint()))
    {
    }

    /** What the action of rule `r` does to the collected string; the string a token takes. */
    method Collect(r: nat, w: string) returns (s: string)
      requires ctx.Valid() && AppendsText(u)
      modifies ctx.str.Repr()
      ensures ctx.Valid() && fresh(ctx.str.Repr() - old(ctx.str.Repr()))
      ensures ctx.str.Contents() == BufferAfter(u, r, w, old(ctx.str.Contents()))
      ensures u.token(r, w, s) == u.token(r, w, old(ctx.str.Contents()))
    {
      s := "";
      assert r != STRING_RULE ==> u.token(r, w, ctx.str.Contents()) == u.token(r, w, "");
      if r == STRING_RULE {
        s := ctx.TakeString();
      } else if u.appended(r, w) != [] {
        CStringOfText(u.appended(r, w));
        ctx.AppendString(u.appended(r, w));
      }
    }

    /** The text of the match is read, and the start condition is the one after its rule. */
    method Consume(m: (nat, nat))
      requires Valid() && 1 <= Taken(m) <= |cur.rest|
      modifies this`cur, this`sc
      ensures Valid() && cur == Advance(old(cur), Taken(m)) && sc == u.next(m.1, old(sc))
    {
      cur, sc := Advance(cur, Taken(m)), u.next(m.1, sc);
    }

    /** The action of a match other than the end of an include directive. */
    method Act(m: (nat, nat)) returns (t: Option<Token>)
      requires Valid() && cur.rest != [] && m == u.best(sc, cur.bol, cur.rest) && m.1 != INCLUDE_RULE
      modifies this, ctx.str.Repr()
      ensures Valid() && fresh(ctx.str.Repr() - old(ctx.str.Repr()))
      ensures old(Rest()) == Prepend(OneOrNone(t), Rest())
      ensures |cur.rest| < |old(cur.rest)|
    {
      PendingMatch(u, ctx.files, ctx.Saved(), cur, sc, ctx.str.Contents(), m);
      var w := cur.rest[..Taken(m)];
      Consume(m);
      var s := Collect(m.1, w);
      t := u.token(m.1, w, s);
    }

    /** The action at the end of an include directive of which `k` characters are the last match. */
    method Include(k: nat) returns (failed: bool)
      requires Valid() && 1 <= k <= |cur.rest|
      modifies this, ctx, ctx.buffers, ctx.streams, ctx.names, ctx.str
      ensures Valid() && fresh(Footprint() - old(Footprint()))
      ensures failed <==> old(ctx.depth) == MAX_INCLUDE_DEPTH || PathOf(ctx.files, old(ctx.str.Contents())) !in ctx.files.contents
      ensures failed ==>
                && ctx.Saved() == old(ctx.Saved()) && cur == Advance(old(cur), k) && sc == old(sc)
                && ctx.str.Contents() == if old(ctx.depth) == MAX_INCLUDE_DEPTH then old(ctx.str.Contents()) else ""
      ensures !failed ==>
                && ctx.Saved() == old(ctx.Saved()) + [Advance(old(cur), k)]
                && cur == Buffer(cur.id, ctx.files.contents[PathOf(ctx.files, old(ctx.str.Contents()))], true)
                && sc == Condition.INITIAL && ctx.str.Contents() == ""
      ensures old(ctx.log) <= ctx.log
      ensures ctx.entered == if failed then old(ctx.entered)
                             else old(ctx.entered) + [PathOf(ctx.files, old(ctx.str.Contents()))]
    {
      cur := Advance(cur, k);
      var r := ctx.PushInclude(cur);
      failed := r.Failed?;
      if r.Stream? {
        StartText(r.text);
      }
    }

    /** `yy_create_buffer` and the start condition of a new text. */
    method StartText(text: string)
      requires Defaults(u) && AppendsText(u) && this !in ctx.Repr() && ctx.Valid()
      requires ctx.usage.current == None && ctx.usage.bufferCount == bufferCount
      modifies this`cur, this`sc, this`bufferCount, ctx`log, ctx`usage, ctx`entered
      ensures Valid() && cur == Buffer(cur.id, text, true) && sc == Condition.INITIAL
      ensures old(ctx.log) <= ctx.log && ctx.entered == old(ctx.entered)
    {
      ctx.Create(bufferCount);
      cur, bufferCount := Buffer(bufferCount, text, true), bufferCount + 1;
      sc := Condition.INITIAL;
    }

    /** The end-of-file action: back to the saved text, unless there is none. */
    method EndOfText() returns (more: bool)
      requires Valid()
      modifies this, ctx
      ensures Valid() && fresh(Footprint() - old(Footprint()))
      ensures sc == old(sc) && ctx.str.Contents() == old(ctx.str.Contents())
      ensures old(ctx.log) <= ctx.log && ctx.entered == old(ctx.entered)
      ensures more ==> old(ctx.Saved()) == ctx.Saved() + [cur]
      ensures !more ==> ctx.depth == old(ctx.depth) == 0 && cur == old(cur)
    {
      var b := ctx.Resume(cur.id);
      more := b.Some?;
      if more {
        cur := b.value;
      }
    }

    /** One round of the scanner's loop; `done` when it leaves the loop. */
    method Step() returns (done: bool, t: Option<Token>)
      requires Valid()
      modifies Footprint()
      ensures Valid() && fresh(Footprint() - old(Footprint()))
      ensures old(Rest()).toks == OneOrNone(t) + Rest().toks
      ensures old(ctx.log) <= ctx.log && ctx.entered + Rest().files == old(ctx.entered + Rest().files)
      ensures done && t == None ==> Rest().toks == [] && Rest().files == [] && ctx.depth == 0
      ensures !done ==> t == None && Progresses(old(ctx.Saved()), old(cur), ctx.Saved(), cur)
    {
      if cur.rest == [] {
        t := None;
        done := EndStep();
      } else {
        done, t := MatchStep();
      }
    }

    /** A match and its action. */
    method MatchStep() returns (done: bool, t: Option<Token>)
      requires Valid() && cur.rest != []
      modifies Footprint()
      ensures Valid() && fresh(Footprint() - old(Footprint()))
      ensures old(Rest()).toks == OneOrNone(t) + Rest().toks
      ensures old(ctx.log) <= ctx.log && ctx.entered + Rest().files == old(ctx.entered + Rest().files)
      ensures done <==> t.Some?
      ensures !done ==> Progresses(old(ctx.Saved()), old(cur), ctx.Saved(), cur)
    {
      var n, r := MatchLoop(u, sc, cur.bol, cur.rest);
      if r == INCLUDE_RULE {
        done, t := IncludeStep((n, r));
      } else {
        done, t := ActStep((n, r));
      }
    }

    method ActStep(m: (nat, nat)) returns (done: bool, t: Option<Token>)
      requires Valid() && cur.rest != [] && m == u.best(sc, cur.bol, cur.rest) && m.1 != INCLUDE_RULE
      modifies Footprint()
      ensures Valid() && fresh(Footprint() - old(Footprint()))
      ensures old(Rest()).toks == OneOrNone(t) + Rest().toks
      ensures old(ctx.log) <= ctx.log && ctx.entered + Rest().files == old(ctx.entered + Rest().files)
      ensures done <==> t.Some?
      ensures !done ==> Progresses(old(ctx.Saved()), old(cur), ctx.Saved(), cur)
    {
      t := Act(m);
      FootprintGrows();
      done := t.Some?;
    }

    method EndStep() returns (done: bool)
      requires Valid() && cur.rest == []
      modifies this, ctx
      ensures Valid() && fresh(Footprint() - old(Footprint()))
      ensures old(Rest()).toks == Rest().toks
      ensures old(ctx.log) <= ctx.log && ctx.entered + Rest().files == old(ctx.entered + Rest().files)
      ensures done ==> Rest().toks == [] && Rest().files == [] && ctx.depth == 0
      ensures !done ==> Progresses(old(ctx.Saved()), old(cur), ctx.Saved(), cur)
    {
      PendingEnd(u, ctx.files, ctx.Saved(), cur, sc, ctx.str.Contents());
      var more := EndOfText();
      done := !more;
    }

    method IncludeStep(m: (nat, nat)) returns (done: bool, t: Option<Token>)
      requires Valid() && cur.rest != [] && m == u.best(sc, cur.bol, cur.rest) && m.1 == INCLUDE_RULE
      modifies Footprint()
      ensures Valid() && fresh(Footprint() - old(Footprint()))
      ensures old(Rest()).toks == OneOrNone(t) + Rest().toks
      ensures old(ctx.log) <= ctx.log && ctx.entered + Rest().files == old(ctx.entered + Rest().files)
      ensures done <==> t == Some(TokError)
      ensures !done ==> t == None && Progresses(old(ctx.Saved()), old(cur), ctx.Saved(), cur)
    {
      ghost var saved, was, buf, entered := ctx.Saved(), cur, ctx.str.Contents(), ctx.entered;
      done := Include(Taken(m));
      t := if done then Some(TokError) else None;
      if done {
        FailureOutlook(u, ctx.files, saved, was, old(sc), buf, m);
      } else {
        EntryOutlook(u, ctx.files, saved, was, old(sc), buf, m, cur.id, entered);
      }
    }

    /** Brings the ghost fields up to date. */
    ghost method Sync(repr: set<object>)
      requires Valid() && ctx.entered + Rest().files == total
      modifies this`rest, this`levels, this`Repr
      ensures Ready() && rest == Rest() && levels == Levels(ctx.Saved(), cur) && Repr == repr + Footprint()
      ensures Footprint() == old(Footprint()) && Rest() == old(Rest()) && cur == old(cur)
    {
      rest, levels := Rest(), Levels(ctx.Saved(), cur);
      Repr := repr + Footprint();
    }

    /** One round of the loop, with the ghost fields. */
    method Round() returns (done: bool, t: Option<Token>)
      requires Ready()
      modifies Repr
      ensures Ready() && fresh(Repr - old(Repr))
      ensures old(rest).toks == OneOrNone(t) + rest.toks && old(ctx.log) <= ctx.log
      ensures done && t == None ==> Ended()
      ensures !done ==> t == None && Lower(levels, old(levels))
    {
      ghost var saved, was, repr := ctx.Saved(), cur, Repr;
      done, t := Step();
      if !done {
        ghost var d := ProgressIsBelow(saved, was, ctx.Saved(), cur);
        BelowIsLower(Levels(ctx.Saved(), cur), Levels(saved, was), d);
      }
      Sync(repr);
    }

    /** `libconfig_yylex`: the next token; None at the end of the input. */
    method Yylex() returns (t: Option<Token>)
      requires Ready()
      modifies Repr
      ensures Ready() && fresh(Repr - old(Repr))
      ensures old(rest).toks == OneOrNone(t) + rest.toks && old(ctx.log) <= ctx.log
      ensures t == None ==> Ended()
    {
      ghost var start := rest.toks;
      var done := false;
      t := None;
      while !done
        invariant Ready() && fresh(Repr - old(Repr))
        invariant start == OneOrNone(t) + rest.toks && old(ctx.log) <= ctx.log
        invariant |levels| == 11 && (!done ==> t == None)
        invariant done && t == None ==> Ended()
        decreases !done, levels[0], levels[1], levels[2], levels[3], levels[4], levels[5],
                  levels[6], levels[7], levels[8], levels[9], levels[10]
      {
        done, t := Round();
      }
    }

    /**
     The end of `__config_read`: after a failure the include stack is unwound. The log goes on to
     where everything is given back, and its openings are those of the files that the expansion
     enters, or of the first of them.
     */
    method Finish(failed: bool)
      requires Ready() && (!failed ==> Ended())
      modifies Repr
      ensures AllReturned(ctx.log) && old(ctx.log) <= ctx.log && Starts(ctx.log) && ctx.depth == 0
      ensures Paths(ctx.log) <= total && (!failed ==> Paths(ctx.log) == total)
    {
      if failed {
        var more := true;
        while more
          invariant ctx.Valid() && ctx.usage.current == Some(cur.id)
          invariant old(ctx.log) <= ctx.log && ctx.entered == old(ctx.entered)
          invariant !more ==> ctx.depth == 0
          decreases more, ctx.depth
        {
          more := ctx.Unwind();
        }
      }
      ctx.Cleanup(cur.id);
    }
  }
}
