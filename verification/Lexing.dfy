/**
 The token stream of a configuration text, with included files expanded in place.
 */
module Lexing {
  import opened Options
  import opened Tokens
  import opened Matching

  const MAX_INCLUDE_DEPTH := 10

  /** The rule that ends a string, the one that ends an include path, and the line comment. */
  const STRING_RULE := 15
  const INCLUDE_RULE := 20
  const COMMENT_RULE := 40

  /** The files that can be opened, by path, and the include directory of the configuration. */
  datatype Files = Files(dir: Option<string>, contents: map<string, string>)

  function PathOf(f: Files, name: string): string {
    match f.dir
    case None => name
    case Some(dir) => dir + "/" + name
  }

  /**
   What has been scanned: the tokens, the start condition and string buffer left behind, and the
   paths of the files that were entered, in order.
   */
  datatype Scanned = Scanned(toks: seq<Token>, sc: Condition, buf: string, files: seq<string>)

  function Prepend(ts: seq<Token>, s: Scanned): Scanned {
    s.(toks := ts + s.toks)
  }

  function Enter(path: string, s: Scanned): Scanned {
    s.(files := [path] + s.files)
  }

  /** The scan of a text and then that of another, which ends as `s` does. */
  function Then(first: Scanned, s: Scanned): Scanned {
    s.(toks := first.toks + s.toks, files := first.files + s.files)
  }

  function OneOrNone(t: Option<Token>): seq<Token> {
    match t
    case None => []
    case Some(tok) => [tok]
  }

  /** The text that a match takes from the input: a line comment leaves the line end. */
  function Taken(m: (nat, nat)): nat {
    if m.1 == COMMENT_RULE && m.0 >= 2 then m.0 - 1 else m.0
  }

  /**
   The scan of a whole text, from start condition `sc` and string buffer `buf`, at the
   beginning of a line or not, inside `depth` including files. The text of an included file is
   scanned in place; its start condition and string buffer carry over to the text after it.
   */
  function Scan(u: Rules, f: Files, depth: nat, s: string, bol: bool, sc: Condition, buf: string): Scanned
    requires Defaults(u) && depth <= MAX_INCLUDE_DEPTH
    decreases MAX_INCLUDE_DEPTH - depth, |s|
  {
    if s == [] then Scanned([], sc, buf, [])
    else
      var m := u.best(sc, bol, s);
      var w, rest := s[..Taken(m)], s[Taken(m)..];
      var bol' := w[|w| - 1] == '\n';
      if m.1 == INCLUDE_RULE then
        if depth == MAX_INCLUDE_DEPTH then Prepend([TokError], Scan(u, f, depth, rest, bol', sc, buf))
        else if PathOf(f, buf) in f.contents then
          var inner := Scan(u, f, depth + 1, f.contents[PathOf(f, buf)], true, INITIAL, "");
          Then(Enter(PathOf(f, buf), inner), Scan(u, f, depth, rest, bol', inner.sc, inner.buf))
        else Prepend([TokError], Scan(u, f, depth, rest, bol', sc, ""))
      else
        Prepend(OneOrNone(u.token(m.1, w, buf)),
                Scan(u, f, depth, rest, bol', u.next(m.1, sc),
                     if m.1 == STRING_RULE then "" else buf + u.appended(m.1, w)))
  }

  // ----- one match at a time

  /** What one match with the text `w` delivers and leaves behind; an included file is part of it. */
  function AfterMatch(u: Rules, f: Files, depth: nat, r: nat, w: string, sc: Condition, buf: string): Scanned
    requires Defaults(u) && depth <= MAX_INCLUDE_DEPTH
  {
    if r == INCLUDE_RULE then
      if depth == MAX_INCLUDE_DEPTH then Scanned([TokError], sc, buf, [])
      else if PathOf(f, buf) in f.contents then
        Enter(PathOf(f, buf), Scan(u, f, depth + 1, f.contents[PathOf(f, buf)], true, INITIAL, ""))
      else Scanned([TokError], sc, "", [])
    else Scanned(OneOrNone(u.token(r, w, buf)), u.next(r, sc), if r == STRING_RULE then "" else buf + u.appended(r, w), [])
  }

  lemma PrependIsThen(a: Scanned, s: Scanned)
    ensures a.files == [] ==> Prepend(a.toks, s) == Then(a, s)
  {
  }

  lemma ScanStep(u: Rules, f: Files, depth: nat, s: string, bol: bool, sc: Condition, buf: string)
    requires Defaults(u) && depth <= MAX_INCLUDE_DEPTH && s != []
    ensures var m := u.best(sc, bol, s);
            && 1 <= Taken(m) <= |s|
            && var w, rest := s[..Taken(m)], s[Taken(m)..];
               var a := AfterMatch(u, f, depth, m.1, w, sc, buf);
               Scan(u, f, depth, s, bol, sc, buf) == Then(a, Scan(u, f, depth, rest, w[|w| - 1] == '\n', a.sc, a.buf))
  {
    var m := u.best(sc, bol, s);
    var w, rest := s[..Taken(m)], s[Taken(m)..];
    var a := AfterMatch(u, f, depth, m.1, w, sc, buf);
    PrependIsThen(a, Scan(u, f, depth, rest, w[|w| - 1] == '\n', a.sc, a.buf));
  }

  // ----- scanning without include directives

  /** A scan from a text, the line start flag, a start condition and a string buffer. */
  type Scanning = (string, bool, Condition, string) -> Scanned

  ghost predicate StepsAt(u: Rules, g: Scanning, s: string, bol: bool, sc: Condition, buf: string)
    requires Defaults(u)
  {
    if s == [] then g(s, bol, sc, buf) == Scanned([], sc, buf, [])
    else
      var m := u.best(sc, bol, s);
      var w, rest := s[..Taken(m)], s[Taken(m)..];
      m.1 != INCLUDE_RULE ==>
        g(s, bol, sc, buf) ==
        Prepend(OneOrNone(u.token(m.1, w, buf)),
                g(rest, w[|w| - 1] == '\n', u.next(m.1, sc),
                  if m.1 == STRING_RULE then "" else buf + u.appended(m.1, w)))
  }

  ghost predicate IsScan(u: Rules, g: Scanning) {
    && Defaults(u)
    && forall s, bol, sc, buf {:trigger StepsAt(u, g, s, bol, sc, buf)} :: StepsAt(u, g, s, bol, sc, buf)
  }

  function ScanAt(u: Rules, f: Files, depth: nat): Scanning
    requires Defaults(u) && depth <= MAX_INCLUDE_DEPTH
  {
    (s: string, bol: bool, sc: Condition, buf: string) => Scan(u, f, depth, s, bol, sc, buf)
  }

  lemma ScanIsScan(u: Rules, f: Files, depth: nat)
    requires Defaults(u) && depth <= MAX_INCLUDE_DEPTH
    ensures IsScan(u, ScanAt(u, f, depth))
  {
  }
}
