/**
 How a flex scanner chooses a rule: the longest match wins, and among the rules that match the
 same text the first one. The rules are a parameter, so that proofs about scanning do not
 look into the patterns.
 */
module Matching {
  import opened Options
  import opened Tokens

  /** The start conditions. */
  datatype Condition = INITIAL | COMMENT | STRING | INCLUDE

  /** The number of rules; the last is the default rule, which matches any character. */
  const NRULES := 42

  /**
   `matches(sc, bol, r, w)`: rule `r` matches the text `w`, at the beginning of a line or not;
   `best(sc, bol, s)`: the length and the rule of the match that is taken at the front of `s`;
   `appended(r, w)`: what its action appends to the string buffer; `next(r, sc)`: the start
   condition after it; `token(r, w, buf)`: the token it returns, if any.
   */
  datatype Rules = Rules(
    matches: (Condition, bool, nat, string) -> bool,
    best: (Condition, bool, string) -> (nat, nat),
    appended: (nat, string) -> string,
    next: (nat, Condition) -> Condition,
    token: (nat, string, string) -> Option<Token>)

  /** The default rule matches, and the longest match is taken. */
  ghost predicate Defaults(u: Rules) {
    && (forall sc, bol, w {:trigger u.matches(sc, bol, NRULES, w)} :: |w| == 1 ==> u.matches(sc, bol, NRULES, w))
    && (forall sc, bol, s {:trigger u.best(sc, bol, s)} :: s != [] ==> 1 <= u.best(sc, bol, s).0 <= |s|)
    && (forall sc, bol, s {:trigger TakesBest(u, sc, bol, s)} :: TakesBest(u, sc, bol, s))
  }

  ghost predicate TakesBest(u: Rules, sc: Condition, bol: bool, s: string) {
    s != [] ==>
      var m := u.best(sc, bol, s);
      && 1 <= m.0 <= |s| && 1 <= m.1 <= NRULES && u.matches(sc, bol, m.1, s[..m.0])
      && (forall k, q :: m.0 < k <= |s| && 1 <= q <= NRULES ==> !u.matches(sc, bol, q, s[..k]))
      && (forall q :: 1 <= q < m.1 ==> !u.matches(sc, bol, q, s[..m.0]))
  }

  type Relation = (Condition, bool, nat, string) -> bool

  ghost predicate Total(p: Relation) {
    forall sc, bol, w {:trigger p(sc, bol, NRULES, w)} :: |w| == 1 ==> p(sc, bol, NRULES, w)
  }

  predicate AnyMatch(p: Relation, sc: Condition, bol: bool, w: string) {
    exists r :: 1 <= r <= NRULES && p(sc, bol, r, w)
  }

  /** The length of the longest match that is at most `n`. */
  function LongestUpTo(p: Relation, sc: Condition, bol: bool, s: string, n: nat): (m: nat)
    requires Total(p) && 1 <= n <= |s|
    ensures 1 <= m <= n && AnyMatch(p, sc, bol, s[..m])
    ensures forall k :: m < k <= n ==> !AnyMatch(p, sc, bol, s[..k])
  {
    assert p(sc, bol, NRULES, s[..1]);
    if AnyMatch(p, sc, bol, s[..n]) then n
    else
      LongestUpTo(p, sc, bol, s, n - 1)
  }

  /** The first rule from `r` on that matches `w`. */
  function FirstFrom(p: Relation, sc: Condition, bol: bool, w: string, r: nat): (q: nat)
    requires 1 <= r <= NRULES && exists q :: r <= q <= NRULES && p(sc, bol, q, w)
    ensures r <= q <= NRULES && p(sc, bol, q, w)
    ensures forall k :: r <= k < q ==> !p(sc, bol, k, w)
    decreases NRULES - r
  {
    if p(sc, bol, r, w) then r else FirstFrom(p, sc, bol, w, r + 1)
  }

  /** The match that the scanner takes: its length and its rule. */
  function Best(p: Relation, sc: Condition, bol: bool, s: string): (m: (nat, nat))
    requires Total(p) && s != []
    ensures 1 <= m.0 <= |s| && 1 <= m.1 <= NRULES && p(sc, bol, m.1, s[..m.0])
    ensures forall k, q :: m.0 < k <= |s| && 1 <= q <= NRULES ==> !p(sc, bol, q, s[..k])
    ensures forall q :: 1 <= q < m.1 ==> !p(sc, bol, q, s[..m.0])
  {
    var n := LongestUpTo(p, sc, bol, s, |s|);
    assert exists r :: 1 <= r <= NRULES && p(sc, bol, r, s[..n]);
    assert forall k, q :: n < k <= |s| && 1 <= q <= NRULES && p(sc, bol, q, s[..k]) ==> AnyMatch(p, sc, bol, s[..k]);
    (n, FirstFrom(p, sc, bol, s[..n], 1))
  }

  /** A match that nothing longer beats and no earlier rule shares is the one taken. */
  lemma BestIs(u: Rules, sc: Condition, bol: bool, s: string, n: nat, r: nat)
    requires Defaults(u) && 1 <= n <= |s| && 1 <= r <= NRULES && u.matches(sc, bol, r, s[..n])
    requires forall k, q :: n < k <= |s| && 1 <= q <= NRULES ==> !u.matches(sc, bol, q, s[..k])
    requires forall q :: 1 <= q < r ==> !u.matches(sc, bol, q, s[..n])
    ensures u.best(sc, bol, s) == (n, r)
  {
    assert TakesBest(u, sc, bol, s);
    var m := u.best(sc, bol, s);
    assert m.0 == n;
  }
}
