/**
 The scan context: the include stack, the list of file names and the string being collected.
 */
module ScanContexts {
  import opened Options
  import opened Patterns
  import opened Lexing
  import opened StringBuffers
  import opened Resources

  /** A flex buffer: the text still to be scanned, and whether it is at the beginning of a line. */
  datatype Buffer = Buffer(id: nat, rest: string, bol: bool)

  /** The two reasons for which an include directive fails. */
  datatype IncludeError = TooDeep | CannotOpen

  datatype Included = Stream(text: string) | Failed(error: IncludeError)

  function Ids(bs: seq<Buffer>): (s: seq<nat>)
    ensures |s| == |bs| && forall i :: 0 <= i < |bs| ==> s[i] == bs[i].id
  {
    seq(|bs|, i requires 0 <= i < |bs| => bs[i].id)
  }

  class ScanContext {
    const files: Files
    const buffers: array<Buffer>
    const streams: array<nat>
    const names: array<string>
    const str: StrBuf
    var depth: nat
    var fileNames: seq<string>
    var streamCount: nat
    ghost var log: Log
    ghost var entered: seq<string>
    ghost var usage: Usage

    ghost function Repr(): set<object>
      reads this, str
    {
      {this, buffers, streams, names} + str.Repr()
    }

    ghost predicate Valid()
      reads this, buffers, streams, names, str, str.Repr()
    {
      && StackValid() && NamesValid()
      && this !in str.Repr() && buffers !in str.Repr() && streams !in str.Repr() && names !in str.Repr()
      && str.Valid()
    }

    /** File names are kept once, those of the open files among them. */
    ghost predicate NamesValid()
      reads this, names
    {
      && names.Length == MAX_INCLUDE_DEPTH && depth <= MAX_INCLUDE_DEPTH
      && (forall i, j :: 0 <= i < j < |fileNames| ==> fileNames[i] != fileNames[j])
      && (forall i :: 0 <= i < depth ==> names[i] in fileNames)
    }

    /** The arrays hold exactly what is in use according to the log. */
    ghost predicate StackValid()
      reads this, buffers, streams
    {
      && buffers.Length == streams.Length == MAX_INCLUDE_DEPTH
      && depth <= MAX_INCLUDE_DEPTH
      && After(log) == Some(usage) && entered == Paths(log) && Starts(log)
      && usage.streams == streams[..depth]
      && usage.saved == Ids(buffers[..depth])
      && usage.streamCount == streamCount
    }

    /** The saved buffers, innermost last. */
    ghost function Saved(): seq<Buffer>
      requires depth <= buffers.Length
      reads this, buffers
    {
      buffers[..depth]
    }

    /** `scanctx_init` and the creation of the buffer for the text. */
    constructor (files: Files)
      ensures Valid() && fresh(Repr()) && this.files == files
      ensures depth == 0 && str.Contents() == [] && fileNames == []
      ensures usage == UNUSED.(current := Some(0), bufferCount := 1) && entered == []
    {
      this.files := files;
      buffers := new Buffer[MAX_INCLUDE_DEPTH](_ => Buffer(0, "", false));
      streams := new nat[MAX_INCLUDE_DEPTH](_ => 0);
      names := new string[MAX_INCLUDE_DEPTH](_ => "");
      str := new StrBuf();
      depth, fileNames, streamCount := 0, [], 0;
      log, usage, entered := [Created(0)], UNUSED.(current := Some(0), bufferCount := 1), [];
      new;
      AfterOneMore([], Created(0));
      PathsOneMore([], Created(0));
      assert [] + [Created(0)] == log;
    }

    /** `__scanctx_add_filename`: each name is kept once. */
    method AddFileName(name: string) returns (r: string)
      requires forall i, j :: 0 <= i < j < |fileNames| ==> fileNames[i] != fileNames[j]
      modifies this`fileNames
      ensures r == name
      ensures fileNames == if name in old(fileNames) then old(fileNames) else old(fileNames) + [name]
    {
      var i := 0;
      while i < |fileNames|
        invariant i <= |fileNames| && name !in fileNames[..i]
      {
        if fileNames[i] == name {
          return fileNames[i];
        }
        i := i + 1;
      }
      fileNames := fileNames + [name];
      r := name;
    }

    /** A step of the log. */
    ghost method Record(e: Event)
      requires After(log) == Some(usage) && entered == Paths(log) && Step(usage, e).Some?
      modifies this`log, this`usage, this`entered
      ensures log == old(log) + [e]
      ensures After(log) == Some(usage) && usage == Step(old(usage), e).value
      ensures entered == Paths(log) == old(entered) + if e.Opened? then [e.path] else []
    {
      AfterOneMore(log, e);
      PathsOneMore(log, e);
      log, usage, entered := log + [e], Step(usage, e).value, entered + if e.Opened? then [e.path] else [];
    }

    /** `scanctx_take_string`. */
    method TakeString() returns (s: string)
      requires Valid()
      modifies str
      ensures Valid() && fresh(str.Repr() - old(str.Repr()))
      ensures s == old(str.Contents()) && str.Contents() == []
    {
      s := str.Take();
    }

    /** `scanctx_append_string`. */
    method AppendString(s: string)
      requires Valid()
      modifies str.Repr()
      ensures Valid() && fresh(str.Repr() - old(str.Repr()))
      ensures str.Contents() == old(str.Contents()) + CString(s)
    {
      str.Append(s);
    }

    /** The stack after one more include from `buffer`. */
    ghost function WithInclude(buffer: Buffer): Usage
      reads this
    {
      usage.(streams := usage.streams + [streamCount], saved := usage.saved + [buffer.id],
             current := None, streamCount := streamCount + 1)
    }

    method SaveBuffer(buffer: Buffer, ghost path: string)
      requires StackValid() && usage.current == Some(buffer.id) && depth < MAX_INCLUDE_DEPTH
      modifies this`log, this`usage, this`entered, this`streamCount, this`depth, buffers, streams
      ensures StackValid() && depth == old(depth) + 1 && Saved() == old(Saved()) + [buffer]
      ensures usage == old(WithInclude(buffer)) && old(log) <= log && entered == old(entered) + [path]
    {
      Record(Opened(streamCount, path));
      Record(Event.Saved(buffer.id));
      streams[depth] := streamCount;
      streamCount := streamCount + 1;
      buffers[depth] := buffer;
      depth := depth + 1;
      assert streams[..depth] == old(streams[..depth]) + [old(streamCount)];
      assert buffers[..depth] == old(buffers[..depth]) + [buffer];
    }

    /** The name of the file that is entered. */
    method KeepName(file: string)
      requires NamesValid() && depth < MAX_INCLUDE_DEPTH
      modifies this`fileNames, names
      ensures NamesValid() && names[depth] == file && file in fileNames
    {
      var name := AddFileName(file);
      names[depth] := name;
    }

    /** The part of `scanctx_push_include` after a successful `fopen`. */
    method EnterFile(buffer: Buffer, file: string, ghost path: string)
      requires StackValid() && NamesValid() && usage.current == Some(buffer.id) && depth < MAX_INCLUDE_DEPTH
      modifies this, buffers, streams, names
      ensures StackValid() && NamesValid() && depth == old(depth) + 1 && Saved() == old(Saved()) + [buffer]
      ensures names[old(depth)] == file
      ensures usage == old(WithInclude(buffer)) && old(log) <= log && entered == old(entered) + [path]
    {
      KeepName(file);
      SaveBuffer(buffer, path);
    }

    /**
     `scanctx_push_include`: opens the file whose name has been collected and saves the current
     buffer. At the depth limit nothing changes; when the file cannot be opened its name is
     gone from the string buffer all the same.
     */
    method PushInclude(buffer: Buffer) returns (r: Included)
      requires Valid() && usage.current == Some(buffer.id)
      modifies this, buffers, streams, names, str
      ensures Valid() && fresh(Repr() - old(Repr()))
      ensures r == var name := old(str.Contents());
                   var path := if files.dir == None then name else files.dir.value + "/" + name;
                   if old(depth) == 10 then Failed(TooDeep)
                   else if path in files.contents then Stream(files.contents[path])
                   else Failed(CannotOpen)
      ensures str.Contents() == if r == Failed(TooDeep) then old(str.Contents()) else []
      ensures old(log) <= log
      ensures r.Failed? ==> Saved() == old(Saved()) && usage == old(usage) && fileNames == old(fileNames) && log == old(log)
      ensures r.Stream? ==>
                && Saved() == old(Saved()) + [buffer] && names[old(depth)] == old(str.Contents())
                && usage == old(WithInclude(buffer))
                && entered == old(entered) + [PathOf(files, old(str.Contents()))]
    {
      if depth == MAX_INCLUDE_DEPTH {
        return Failed(TooDeep);
      }
      var file := TakeString();
      var path := PathOf(files, file);
      if path !in files.contents {
        return Failed(CannotOpen);
      }
      EnterFile(buffer, file, path);
      r := Stream(files.contents[path]);
    }

    /** `scanctx_pop_include`: closes the innermost stream and returns the buffer saved with it. */
    method PopInclude() returns (buffer: Option<Buffer>)
      requires Valid()
      modifies this
      ensures After(log) == Some(usage) && fileNames == old(fileNames) && streamCount == old(streamCount)
      ensures old(log) <= log && entered == Paths(log) == old(entered)
      ensures old(depth) == 0 ==> buffer == None && log == old(log) && depth == 0
      ensures old(depth) > 0 ==>
                && depth == old(depth) - 1
                && buffer == Some(buffers[depth])
                && usage == old(usage).(streams := streams[..depth])
    {
      if depth == 0 {
        return None;
      }
      depth := depth - 1;
      Record(Closed(streams[depth]));
      buffer := Some(buffers[depth]);
    }

    /** A new flex buffer becomes the current one. */
    ghost method Create(id: nat)
      requires Valid() && usage.current == None && usage.bufferCount == id
      modifies this`log, this`usage, this`entered
      ensures Valid() && usage == old(usage).(current := Some(id), bufferCount := id + 1)
      ensures old(log) <= log && entered == old(entered)
    {
      Record(Created(id));
    }

    /**
     The flex side of the end-of-file action: the current buffer is deleted and the one saved
     last resumed.
     */
    method Resume(current: nat) returns (buffer: Option<Buffer>)
      requires Valid() && usage.current == Some(current)
      modifies this
      ensures Valid() && usage.bufferCount == old(usage).bufferCount && old(log) <= log && entered == old(entered)
      ensures buffer == None ==> old(depth) == 0 && depth == 0 && usage == old(usage)
      ensures buffer.Some? ==> old(Saved()) == Saved() + [buffer.value] && usage.current == Some(buffer.value.id)
    {
      buffer := PopInclude();
      if buffer.Some? {
        Record(Deleted(current));
        Record(Resumed(buffer.value.id));
        assert old(Saved()) == Saved() + [buffer.value];
      }
    }

    /** One step of the unwinding after a failed parse: a stream is closed and a saved buffer deleted. */
    method Unwind() returns (more: bool)
      requires Valid()
      modifies this
      ensures Valid() && usage.current == old(usage.current) && old(log) <= log && entered == old(entered)
      ensures more <==> old(depth) > 0
      ensures depth == if more then old(depth) - 1 else 0
    {
      var buffer := PopInclude();
      more := buffer.Some?;
      if more {
        Record(Discarded(buffer.value.id));
        assert old(Saved()) == Saved() + [buffer.value];
      }
    }

    /**
     `libconfig_yylex_destroy` deletes the current buffer. The loop of `scanctx_cleanup` over the
     streams up to `depth` has nothing to close.
     */
    method Cleanup(current: nat)
      requires Valid() && depth == 0 && usage.current == Some(current)
      modifies this`log, this`usage, this`entered
      ensures AllReturned(log) && log == old(log) + [Deleted(current)]
      ensures entered == Paths(log) == old(entered)
    {
      Record(Deleted(current));
    }
  }
}
