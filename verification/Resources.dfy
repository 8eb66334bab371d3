/**
 The streams and flex buffers that reading a configuration opens and gives back, as a log of
 events and the discipline that every log keeps.
 */
module Resources {
  import opened Options

  /**
   `fopen` of a path and `fclose` of a stream; a flex buffer is created, saved when an included file
   takes over, resumed afterwards, deleted at the end of its text, or discarded while it is
   still saved when a failed parse unwinds the include stack.
   */
  datatype Event =
    | Opened(id: nat, path: string) | Closed(id: nat)
    | Created(id: nat) | Saved(id: nat) | Resumed(id: nat) | Deleted(id: nat) | Discarded(id: nat)

  type Log = seq<Event>

  /** The open streams and the saved buffers, innermost last, and the buffer being scanned. */
  datatype Usage = Usage(streams: seq<nat>, saved: seq<nat>, current: Option<nat>, streamCount: nat, bufferCount: nat)

  const UNUSED := Usage([], [], None, 0, 0)

  predicate EndsIn(s: seq<nat>, x: nat) {
    s != [] && s[|s| - 1] == x
  }

  /** The effect of an event; None when it breaks the discipline. */
  function Step(x: Usage, e: Event): Option<Usage> {
    match e
    case Opened(s, _) =>
      if s == x.streamCount then Some(x.(streams := x.streams + [s], streamCount := s + 1)) else None
    case Closed(s) =>
      if EndsIn(x.streams, s) then Some(x.(streams := x.streams[..|x.streams| - 1])) else None
    case Created(b) =>
      if b == x.bufferCount && x.current == None then Some(x.(current := Some(b), bufferCount := b + 1)) else None
    case Saved(b) =>
      if x.current == Some(b) then Some(x.(saved := x.saved + [b], current := None)) else None
    case Resumed(b) =>
      if EndsIn(x.saved, b) && x.current == None
      then Some(x.(saved := x.saved[..|x.saved| - 1], current := Some(b))) else None
    case Deleted(b) =>
      if x.current == Some(b) then Some(x.(current := None)) else None
    case Discarded(b) =>
      if EndsIn(x.saved, b) then Some(x.(saved := x.saved[..|x.saved| - 1])) else None
  }

  /** What is in use after a log. */
  function After(log: Log): Option<Usage> {
    if log == [] then Some(UNUSED)
    else match After(log[..|log| - 1])
      case None => None
      case Some(x) => Step(x, log[|log| - 1])
  }

  lemma AfterOneMore(log: Log, e: Event)
    ensures After(log + [e]) == match After(log) case None => None case Some(x) => Step(x, e)
  {
    assert (log + [e])[..|log|] == log;
  }

  /** Nothing is left open. */
  predicate AllReturned(log: Log) {
    match After(log)
    case None => false
    case Some(x) => x.streams == [] && x.saved == [] && x.current == None
  }

  /** The log begins with the first buffer. */
  predicate Starts(log: Log) {
    [Created(0)] <= log
  }

  function Times(b: bool): nat {
    if b then 1 else 0
  }

  function Count<T(==)>(s: seq<T>, x: T): nat {
    if s == [] then 0 else Count(s[..|s| - 1], x) + Times(s[|s| - 1] == x)
  }

  /** How often the stream `i` was opened. */
  function Openings(log: Log, i: nat): nat {
    if log == [] then 0
    else Openings(log[..|log| - 1], i) + Times(log[|log| - 1].Opened? && log[|log| - 1].id == i)
  }

  /** The paths that were opened, in order. */
  function Paths(log: Log): seq<string> {
    if log == [] then []
    else Paths(log[..|log| - 1]) + if log[|log| - 1].Opened? then [log[|log| - 1].path] else []
  }

  lemma PathsOneMore(log: Log, e: Event)
    ensures Paths(log + [e]) == Paths(log) + if e.Opened? then [e.path] else []
    ensures forall i :: Openings(log + [e], i) == Openings(log, i) + Times(e.Opened? && e.id == i)
  {
    assert (log + [e])[..|log|] == log;
  }

  lemma CountOneMore<T>(s: seq<T>, c: T, x: T)
    ensures Count(s + [c], x) == Count(s, x) + Times(c == x)
  {
    assert (s + [c])[..|s|] == s;
  }

  // ----- the balance of one stream or buffer

  ghost predicate StreamBalance(log: Log, x: Usage, i: nat) {
    && Openings(log, i) == Count(log, Closed(i)) + Count(x.streams, i)
    && Openings(log, i) == Times(i < x.streamCount)
  }

  ghost predicate SavedBalance(log: Log, x: Usage, i: nat) {
    Count(log, Saved(i)) == Count(log, Resumed(i)) + Count(log, Discarded(i)) + Count(x.saved, i)
  }

  ghost predicate BufferBalance(log: Log, x: Usage, i: nat) {
    && Count(log, Created(i)) == Count(log, Deleted(i)) + Count(log, Discarded(i))
                                 + Times(x.current == Some(i)) + Count(x.saved, i)
    && Count(log, Created(i)) == Times(i < x.bufferCount)
  }

  lemma StreamStep(log: Log, x: Usage, e: Event, i: nat)
    requires StreamBalance(log, x, i) && Step(x, e).Some?
    ensures StreamBalance(log + [e], Step(x, e).value, i)
  {
    PathsOneMore(log, e);
    CountOneMore(log, e, Closed(i));
    if e.Opened? {
      CountOneMore(x.streams, e.id, i);
    }
  }

  lemma SavedStep(log: Log, x: Usage, e: Event, i: nat)
    requires SavedBalance(log, x, i) && Step(x, e).Some?
    ensures SavedBalance(log + [e], Step(x, e).value, i)
  {
    CountOneMore(log, e, Saved(i));
    CountOneMore(log, e, Resumed(i));
    CountOneMore(log, e, Discarded(i));
    if e.Saved? {
      CountOneMore(x.saved, e.id, i);
    }
  }

  lemma BufferStep(log: Log, x: Usage, e: Event, i: nat)
    requires BufferBalance(log, x, i) && Step(x, e).Some?
    ensures BufferBalance(log + [e], Step(x, e).value, i)
  {
    CountOneMore(log, e, Created(i));
    CountOneMore(log, e, Deleted(i));
    CountOneMore(log, e, Discarded(i));
    BufferInUse(x, e, i);
  }

  /** How many buffers `i` are current or saved after an event. */
  lemma BufferInUse(x: Usage, e: Event, i: nat)
    requires Step(x, e).Some?
    ensures var y := Step(x, e).value;
            && Times(e == Created(i)) + Times(x.current == Some(i)) + Count(x.saved, i) ==
               Times(e == Deleted(i)) + Times(e == Discarded(i)) + Times(y.current == Some(i)) + Count(y.saved, i)
            && Times(i < y.bufferCount) == Times(i < x.bufferCount) + Times(e == Created(i))
  {
    if e.Saved? {
      CountOneMore(x.saved, e.id, i);
    }
  }

  lemma {:induction false} EveryLogBalances(log: Log, i: nat)
    requires After(log).Some?
    ensures var x := After(log).value; StreamBalance(log, x, i) && SavedBalance(log, x, i) && BufferBalance(log, x, i)
  {
    if log != [] {
      var n := |log| - 1;
      EveryLogBalances(log[..n], i);
      assert log == log[..n] + [log[n]];
      StreamStep(log[..n], After(log[..n]).value, log[n], i);
      SavedStep(log[..n], After(log[..n]).value, log[n], i);
      BufferStep(log[..n], After(log[..n]).value, log[n], i);
    }
  }

  /**
   Resources are conserved: when all is returned, each opened stream was closed exactly once,
   each created buffer was deleted or discarded exactly once, and each save of a buffer was
   undone exactly once.
   */
  lemma ReturnedExactlyOnce(log: Log, i: nat)
    requires AllReturned(log)
    ensures Count(log, Closed(i)) == Openings(log, i) <= 1
    ensures Count(log, Deleted(i)) + Count(log, Discarded(i)) == Count(log, Created(i)) <= 1
    ensures Count(log, Resumed(i)) + Count(log, Discarded(i)) == Count(log, Saved(i))
  {
    EveryLogBalances(log, i);
  }
}
