/**
 * CGIStream, the PHP stream wrapper around the stdout pipe of a CGI process.
 * It buffers the whole CGI output, turns it into an HTTP response once the
 * process has finished, and then serves the rendered response chunk by chunk.
 */
module CgiStreamWrapper {
  import opened Wrappers
  import opened CgiResponse

  /** The value of `$this->cur_state`; `Code()` is the PHP constant. */
  datatype State = Buffering | Buffered | Eof
  {
    function Code(): nat
    {
      match this
      case Buffering => 0
      case Buffered => 1
      case Eof => 2
    }
  }

  /** What PHP's `fread` and `stream_read` return: a string, or `false`. */
  datatype ReadResult = Str(bytes: string) | False
  {
    /** The bytes a caller receives from this result. */
    function Delivered(): string
    {
      if Str? then bytes else ""
    }
  }

  function Min(a: int, b: int): int
  {
    if a <= b then a else b
  }

  /**
   * An operating-system handle the wrapper owns: the CGI process or one of
   * its pipes. What can be done with it lies outside this model.
   */
  class Resource
  {
    constructor ()
    {
    }
  }

  /** The `data://` stream that holds the rendered response, with its read cursor. */
  class DataStream
  {
    var data: string
    var pos: nat

    ghost predicate Valid()
      reads this
    {
      pos <= |data|
    }

    /** fopen('data://text/plain,', 'r+b'), fwrite of `contents`, fseek to 0. */
    constructor (contents: string)
      ensures Valid() && data == contents && pos == 0
    {
      data := contents;
      pos := 0;
    }

    /** fread($this, $count): up to `count` bytes from the cursor on. */
    method Read(count: nat) returns (res: string)
      requires Valid()
      modifies this
      ensures Valid() && data == old(data)
      ensures pos == Min(old(pos) + count, |data|)
      ensures res == data[old(pos)..pos]
    {
      var end := Min(pos + count, |data|);
      res := data[pos..end];
      pos := end;
    }

    /** feof($this): the cursor has reached the end of the data. */
    predicate AtEof(): (r: bool)
      reads this
      ensures Valid() ==> (r <==> data[pos..] == "")
    {
      pos == |data|
    }
  }

  class CGIStream
  {
    var buffer: string
    var bufferStream: DataStream?
    var curState: State
    var proc: Resource?
    var stream: Resource?
    var inStream: Resource?
    var server: Option<Server>

    /**
     * The wrapper is open on a pipe and a server. While buffering there is no
     * rendered stream; afterwards there is one, holding the rendering of the
     * finalized buffer, and its cursor is at the end exactly in state Eof.
     */
    ghost predicate Valid()
      reads this, bufferStream
    {
      && stream != null
      && server.Some?
      && (curState == Buffering <==> bufferStream == null)
      && (bufferStream != null ==>
            && bufferStream.Valid()
            && bufferStream.data == Rendered()
            && (curState == Eof <==> bufferStream.AtEof()))
    }

    /** The rendered response for what has been buffered so far. */
    ghost function Rendered(): string
      reads this
      requires server.Some?
    {
      server.value.render(Finalize(buffer, server.value.parseHeaders))
    }

    /** Everything `StreamRead` has handed to the HTTP server so far. */
    ghost function Delivered(): string
      reads this, bufferStream
      requires Valid()
    {
      if bufferStream == null then "" else bufferStream.data[..bufferStream.pos]
    }

    /** The object with buffer '', cur_state BUFFERING and no handles yet. */
    constructor ()
      ensures curState == Buffering && buffer == "" && bufferStream == null
      ensures proc == null && stream == null && inStream == null && server.None?
    {
      buffer := "";
      bufferStream := null;
      curState := Buffering;
      proc, stream, inStream := null, null, null;
      server := None;
    }

    /**
     * stream_open: takes the process, its two pipes and the server from the
     * `cgi` options of the stream context, here passed in directly.
     */
    method StreamOpen(proc: Resource?, stream: Resource?, inStream: Resource?, server: Option<Server>)
      returns (ok: bool)
      modifies this
      ensures ok
      ensures this.proc == proc && this.stream == stream && this.inStream == inStream && this.server == server
      ensures buffer == old(buffer) && bufferStream == old(bufferStream) && curState == old(curState)
      ensures old(curState) == Buffering && old(bufferStream) == null ==>
                (Valid() <==> stream != null && server.Some?)
    {
      this.proc := proc;
      this.stream := stream;
      this.inStream := inStream;
      this.server := server;
      ok := true;
    }

    /**
     * stream_cast: the handle `stream_select` should watch, the CGI pipe while
     * buffering and the rendered response afterwards.
     */
    function StreamCast(): (r: object?)
      reads this, bufferStream
      ensures Valid() ==> r != null && (r == stream <==> curState == Buffering)
      ensures Valid() && curState != Buffering ==> r == bufferStream && bufferStream.data == Rendered()
    {
      if curState == Buffering then stream else bufferStream
    }

    /**
     * stream_eof: the end is reached exactly when the response has been
     * rendered and every byte of it has been handed out.
     */
    predicate StreamEof(): (r: bool)
      reads this, bufferStream
      ensures Valid() ==> (r <==> curState != Buffering && Delivered() == Rendered())
    {
      curState == Eof
    }

    /**
     * stream_read($count). `rawRead` is what fread on the CGI pipe returns and
     * `rawEof` what feof on the pipe reports after that read; both are only
     * consulted while buffering.
     */
    method StreamRead(count: nat, rawRead: ReadResult, rawEof: bool) returns (res: ReadResult)
      requires Valid() && count > 0
      modifies this, bufferStream
      ensures Valid()
      ensures proc == old(proc) && stream == old(stream) && inStream == old(inStream) && server == old(server)
      // what is handed out continues what was handed out before, in order
      ensures Delivered() == old(Delivered()) + res.Delivered()
      // the state only moves forward
      ensures old(curState).Code() <= curState.Code()
      ensures old(curState) == Buffering && rawRead.Str? && !rawEof ==>
                && res == Str("")
                && curState == Buffering
                && buffer == old(buffer) + rawRead.bytes
      ensures old(curState) == Buffering && (rawRead.False? || rawEof) ==>
                && buffer == old(buffer) + rawRead.Delivered()
                && fresh(bufferStream)
                && res == Str(Rendered()[..Min(count, |Rendered()|)])
                && (curState == Eof <==> count >= |Rendered()|)
      ensures old(curState) == Buffered ==>
                && buffer == old(buffer)
                && bufferStream == old(bufferStream)
                && bufferStream.pos == Min(old(bufferStream.pos) + count, |Rendered()|)
                && bufferStream.pos > old(bufferStream.pos)
                && res == Str(Rendered()[old(bufferStream.pos)..bufferStream.pos])
      ensures old(curState) == Eof ==>
                && res == False
                && curState == Eof
                && buffer == old(buffer)
                && bufferStream == old(bufferStream)
                && bufferStream.pos == old(bufferStream.pos)
    {
      if curState == Buffering {
        if rawRead.Str? {
          buffer := buffer + rawRead.bytes;
          if !rawEof {
            return Str("");
          }
        }
        var response := Finalize(buffer, server.value.parseHeaders);
        curState := Buffered;
        bufferStream := new DataStream(server.value.render(response));
      }
      if curState == Buffered {
        var chunk := bufferStream.Read(count);
        if bufferStream.AtEof() {
          curState := Eof;
        }
        return Str(chunk);
      }
      return False;
    }

    /**
     * stream_close: the process and the pipes are released and every field
     * is cleared. PHP treats the null left in `$this->buffer` as '' wherever
     * it is used as a string, so it is '' here.
     */
    method StreamClose()
      modifies this
      ensures proc == null && stream == null && inStream == null && bufferStream == null
      ensures buffer == "" && server.None? && curState == old(curState)
    {
      proc := null;
      stream := null;
      inStream := null;
      bufferStream := null;
      buffer := "";
      server := None;
    }
  }
}
