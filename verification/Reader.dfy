/**
 Reading a configuration: `__config_read` from a string, with its scanner, its parser and the
 unwinding at the end.
 */
module Reader {
  import opened Options
  import opened Tokens
  import opened LrDriver
  import M = Matching
  import opened Patterns
  import opened Lexing
  import opened Resources
  import opened Settings
  import opened Trees
  import opened Actions
  import opened Meaning
  import opened ParseTheorem
  import opened TreeInvariant
  import opened Configs
  import opened ParseContexts
  import opened Scanners
  import opened Parsers
  import opened WriterSpec
  import opened Writer
  import opened TreeTokens
  import opened UnparseYield
  import opened UnparseMeaning
  import opened UnparseHeight
  import opened RoundTrip

  /** The tokens of a text with its included files. */
  function TokensOf(files: Files, text: string): seq<Token> {
    FlexIsFlex();
    Scan(FLEX, files, 0, text, true, M.INITIAL, "").toks
  }

  /** The files that the text includes, directly or not, as often as it includes them. */
  function FilesOf(files: Files, text: string): seq<string> {
    FlexIsFlex();
    Scan(FLEX, files, 0, text, true, M.INITIAL, "").files
  }

  /** Everything in the log was given back, and its openings are those of the files, or of the first of them. */
  ghost predicate Conserves(log: Log, paths: seq<string>, all: bool) {
    && AllReturned(log) && Starts(log)
    && Paths(log) <= paths && (all ==> Paths(log) == paths)
  }

  /** The tokens `w` are accepted, and `tree` is what they mean. */
  ghost predicate Reads(w: seq<Token>, tree: Tree) {
    exists t :: Accepts(w, t) && ConfigurationOf(t) == tree
  }

  lemma ResultMeans(w: seq<Token>)
    ensures ResultOf(YyParse(w)) == 0 <==> exists t :: Accepts(w, t)
    ensures ResultOf(YyParse(w)) == 0 ==> var c := YyParse(w).sem; Sane(c) && Reads(w, Abs(c.st, ROOT))
  {
    YyParseMeaning(w);
    if YyParse(w).Accepted? {
      assert Accepts(w, YyParse(w).tree);
    }
  }

  /** Scanning, parsing and unwinding. */
  method ReadTokens(ctx: ParseContext, files: Files, text: string) returns (r: int, ghost log: Log)
    requires ctx.Value() == INITIAL
    modifies ctx, ctx.config
    ensures ctx.config.Valid() && r == ResultOf(YyParse(TokensOf(files, text)))
    ensures r == 0 ==> ctx.Value() == YyParse(TokensOf(files, text)).sem
    ensures Conserves(log, FilesOf(files, text), r == 0)
  {
    FlexIsFlex();
    FlexAppendsText();
    var scanner := new Scanner(FLEX, files, text);
    r := Yyparse(scanner, ctx);
    scanner.Finish(r != 0);
    log := scanner.ctx.log;
  }

  /**
   `config_read_string`. It succeeds exactly when the tokens of the text are accepted; the tree
   is then their meaning. Either way the tree invariant holds, and every stream and buffer has
   been given back exactly once; on success the streams are those of the included files, in order.
   */
  method ConfigRead(config: Config, files: Files, text: string) returns (ok: bool, ghost log: Log)
    modifies config
    ensures config.Valid()
    ensures ok <==> exists t :: Accepts(TokensOf(files, text), t)
    ensures ok ==> Reads(TokensOf(files, text), Abs(config.store, ROOT))
    ensures Conserves(log, FilesOf(files, text), ok)
  {
    ResultMeans(TokensOf(files, text));
    config.store := INITIAL_STORE;
    var ctx := new ParseContext(config);
    var r;
    r, log := ReadTokens(ctx, files, text);
    ok := r == 0;
  }

  lemma ReadsIsUnique(w: seq<Token>, tree: Tree)
    requires Reads(w, tree)
    ensures YyParse(w).Accepted? && Sane(YyParse(w).sem) && tree == Abs(YyParse(w).sem.st, ROOT)
  {
    var t :| Accepts(w, t) && ConfigurationOf(t) == tree;
    YyParseOfDerivation(w, t);
  }

  /** Whether a written tree is read back, and as what. */
  lemma ReadsBack(y: Style, files: Files, ms: seq<Tree>, tree: Tree)
    requires Printable(VGroup(ms))
    ensures var w := TokensOf(files, ConfigText(y, Tree(None, VGroup(ms))));
            && ((exists t :: Accepts(w, t)) <==> NoReserved(VGroup(ms)) && 1 + NeedMembers(ms) < 10000)
            && (Reads(w, tree) ==> tree == Tree(None, Norm(y, VGroup(ms))))
  {
    var w := TokensOf(files, ConfigText(y, Tree(None, VGroup(ms))));
    WrittenConfigurationReadsBack(y, files, ms);
    assert WriteThenRead(y, files, ms) == YyParse(w);
    YyParseMeaning(w);
    if Reads(w, tree) {
      ReadsIsUnique(w, tree);
    }
  }

  lemma RootIsGroup(st: Store)
    requires WellFormed(st)
    ensures Abs(st, ROOT) == Tree(None, VGroup(Children(st, ROOT)))
  {
    assert NodeOk(st, ROOT);
  }

  /**
   `config_write` and `config_read` one after the other: the second configuration becomes the
   first, up to what the text cannot tell apart, unless a name is reserved or the nesting too
   deep for the parser's stack.
   */
  method WriteAndRead(config: Config, second: Config, y: Style, files: Files) returns (ok: bool)
    requires config.Valid() && config != second && Printable(VGroup(Children(config.store, ROOT)))
    modifies second
    ensures second.Valid() && config.store == old(config.store)
    ensures var ms := Children(config.store, ROOT);
            && (ok <==> NoReserved(VGroup(ms)) && 1 + NeedMembers(ms) < 10000)
            && (ok ==> Abs(second.store, ROOT) == Tree(None, Norm(y, VGroup(ms))))
  {
    RootIsGroup(config.store);
    var text := ConfigWrite(config.store, y);
    ghost var log;
    ok, log := ConfigRead(second, files, text);
    ReadsBack(y, files, Children(config.store, ROOT), Abs(second.store, ROOT));
  }
}
