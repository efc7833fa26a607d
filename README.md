# CGIStream in Dafny

`CGIStream` (`cgistream.php`) is the PHP stream wrapper through which the HTTP
server reads the output of a CGI process. The server watches it with
`stream_select`. While the CGI process runs, the wrapper collects the
process's stdout in a buffer and hands back empty reads. When the pipe reports
end of file (or a read fails), the wrapper finalizes the buffered output:

- it finds the first blank line (`"\r\n\r\n"`);
- it parses the header block before that line;
- it turns the CGI `Status` pseudo-header into the HTTP status code (section
  6.3.3 of RFC 3875), with 200 as the default, and drops that header;
- if there is no blank line it builds a 502 "Invalid Response from CGI
  process" instead.

The rendered response is written into a `data://` stream. That stream is then
served in chunks of the requested size until it is exhausted.

The model has five modules:

- `Wrappers`: an `Option` type.
- `PhpString`: `strpos` without an offset, and PHP's `(int)` conversion of a
  string on a 64-bit build (leading white space, an optional sign, the longest
  run of digits, saturation at `PHP_INT_MAX`/`PHP_INT_MIN`). Its partner is
  decimal notation, with a round-trip lemma.
- `PhpArray`: the ordered string-to-string array that `parse_headers`
  returns. Keys are unique. `isset`, reading a key, and `unset` are modelled;
  `unset` is proved equal to a reference filter that keeps the order.
- `CgiResponse`: finalization as a pure function from the buffer to the
  response-factory arguments, with its lemmas.
- `CgiStreamWrapper`: the class `CGIStream` with the fields the source
  updates (`cur_state`, `buffer`, `buffer_stream` and the handles), the
  `data://` stream as class `DataStream` (contents plus a read cursor), and
  the wrapper's methods.

Its object invariant `Valid()` states the following:

- the wrapper has a CGI pipe (`stream` is not null) and a server;
- there is no rendered stream exactly while buffering;
- once there is one, it holds the rendering of the finalized buffer;
- its cursor is at the end exactly in state EOF.

`StreamRead` is specified against this invariant and a ghost `Delivered()`
(everything handed out so far). Each call extends `Delivered()` by exactly
what it returns. So the bytes the server receives are the rendered response,
in order, whatever the chunk sizes.

Collaborators defined outside `cgistream.php` are parameters:

- `HTTPServer::parse_headers` and `render()` are the two function-valued
  fields of `CgiResponse.Server`.
- `server->response(...)` and `server->text_response(...)` are the two
  constructors of `CgiResponse.Response`. A response is recorded by the
  factory call that built it.
- What `fread` and `feof` report for the CGI pipe on a given call are
  parameters of `StreamRead`.

The source's own behaviour, which the model keeps:

- `stream_open` always returns true; it does not fail on missing options.
- The buffer is not discarded after finalization. It is kept, unchanged,
  until `stream_close`.
- `stream_close` does not test whether the process and pipe handles are
  present before it releases them.

## Model

| member | source | states |
|---|---|---|
| PhpString.StrPos | cgistream.php:81 | the result is the first index where the needle occurs; it is `None` (PHP `false`) exactly when the needle occurs nowhere |
| PhpString.StrPosFrom | cgistream.php:81 | the search from a given index finds the first occurrence at or after it, or shows there is none |
| PhpString.IntCast | cgistream.php:93 | `(int)` of a string always lies in the 64-bit range |
| PhpString.IntCastOfDecimal | cgistream.php:93 | `(int)` reads back the decimal notation of every 64-bit integer, negatives included, whatever text follows it that starts with neither a digit, a decimal point nor an exponent marker (as in "404 Not Found") |
| PhpString.IntCastSkipsSpace | cgistream.php:93 | leading space, tab, newline, carriage return, vertical tab and form feed do not change the value `(int)` reads |
| PhpString.SkipSpace | cgistream.php:93 | the result is a suffix of the input, what was dropped is all white space, and the result does not start with white space |
| PhpString.LeadingDigits | cgistream.php:93 | the length of the maximal run of digits at the start of the string |
| PhpArray.Isset | cgistream.php:91 | `isset($headers['Status'])` is true exactly when some entry has that key |
| PhpArray.Get | cgistream.php:93 | `$headers['Status']` is the value stored under that key, the only one there is |
| PhpArray.Unset | cgistream.php:94 | `unset` removes the entry under the key and no other; every other entry keeps its place (it equals the order-keeping filter `Without`), and the length drops by one exactly when the key was present |
| CgiResponse.Finalize | cgistream.php:81-103 | the response is the 502 "Invalid Response from CGI process" text response exactly when the buffer holds no blank line; otherwise it is a full response whose headers contain no `Status` |
| CgiResponse.FinalizeSplit | cgistream.php:88-102 | at the first blank line `i`: the header block is `buffer[..i]`, and header block, blank line and body reconstruct the buffer; with a `Status` header the status is its leading integer and the headers are the parsed ones without `Status`, in order; otherwise the status is 200 and the headers are passed on unchanged |
| CgiResponse.HeaderBlockHasNoSeparator | cgistream.php:81-88 | the header block handed to the parser contains no blank line |
| CgiResponse.StatusHeaderSetsCode | cgistream.php:91-95 | a `Status` header of the form "<code> <reason>" makes `code` the response status, and `Status` is not among the headers passed on |
| CgiResponse.MalformedIsBadGateway | cgistream.php:81-85 | CGI output without a carriage return, of any length, becomes the fixed 502 response, whatever it contains |
| CgiResponse.TwoLineHeaderEnd | cgistream.php:81-88 | two header lines without a carriage return are split at the blank line after them, header block and body exact |
| CgiResponse.NotFoundExample | cgistream.php:81-102 | "Status: 404 Not Found", "Content-Type: text/plain", blank line, "nope" gives status 404, body "nope" and the one header Content-Type |
| CgiResponse.NoSeparatorExample | cgistream.php:81-85 | "no separator here" gives the fixed 502 response; the output is not echoed |
| CgiStreamWrapper.DataStream.constructor | cgistream.php:107-110 | the `data://` stream holds exactly the rendered bytes, with the cursor at the start |
| CgiStreamWrapper.DataStream.AtEof | cgistream.php:116 | `feof` on the `data://` stream is true exactly when no byte is left after the cursor |
| CgiStreamWrapper.DataStream.Read | cgistream.php:114 | a read returns the next `count` bytes, or the rest if fewer, and advances the cursor by that much |
| CgiStreamWrapper.CGIStream.constructor | cgistream.php:16-19 | a new wrapper starts in BUFFERING with an empty buffer and no handles |
| CgiStreamWrapper.CGIStream.StreamOpen | cgistream.php:40-52 | the process, both pipes and the server are stored, nothing else changes, and the result is true; the wrapper is then ready to read exactly when a pipe and a server were given |
| CgiStreamWrapper.CGIStream.StreamCast | cgistream.php:35-38 | for an open wrapper the handle `stream_select` watches is never null; it is the CGI pipe exactly while buffering, and afterwards it is the stream that holds the rendered response |
| CgiStreamWrapper.CGIStream.StreamRead | cgistream.php:54-124 | in BUFFERING, a successful read appends the bytes to the buffer, and before end of file it returns '' and stays in BUFFERING; end of file or a failed read (which leaves the buffer as it is) finalizes once, creates the rendered stream fresh and, in the same call, returns its first `min(count, length)` bytes, entering EOF when that is all of it; in BUFFERED the next bytes are returned, the cursor advances and the buffer and rendered stream stay the same; in EOF the result is `false` and nothing changes; the state never moves backwards, and each call extends what has been handed out by exactly what it returns |
| CgiStreamWrapper.CGIStream.StreamEof | cgistream.php:126-129 | `stream_eof` is true exactly when the response has been rendered and all of it has been handed out; so the bytes delivered by the time of EOF are the rendering of the CGI output, whatever the chunk sizes |
| CgiStreamWrapper.CGIStream.StreamClose | cgistream.php:131-149 | every handle and the server are cleared, the buffer is emptied, and no response is finalized |

## Left out

- Process and handle management: `proc_close` and the `fclose` calls in
  `stream_close`, and the opening of the `data://` stream by `fopen`. The
  model only clears the fields.
- `stream_context_get_options`: the `cgi` options are passed to `StreamOpen`
  directly. The `$path`, `$mode`, `$options` and `$opened_path` parameters
  are not used by the source and are not modelled, nor is the `$context`
  field.
- The internals of `HTTPServer::parse_headers`, `server->response`,
  `server->text_response` and `render()` are not part of this model. They are
  parameters (see above), so the `Content-Length` that `render()` adds is not
  modelled.
- Blocking and non-blocking pipe reads, the Windows blocking caveat, and
  readiness through `stream_select`: these are platform and concurrency
  behaviour.
- PHP's exact `feof` timing. For the CGI pipe, end of file is a boolean
  parameter. For the `data://` stream it is "cursor at the end", so the call
  that returns the last bytes already moves to EOF.
- `PhpString.IntCast`: does not read fractions or exponents. PHP converts a
  leading numeric string with a fraction or an exponent through a double, so
  "4e2" is 400 (the model reads 4) and "404.99999999999999999" rounds up to
  405 (the model reads 404).
- `CgiStreamWrapper.CGIStream.StreamRead`: requires a positive `count`. PHP's
  stream layer never asks for zero bytes, and PHP 8's `fread` rejects a
  length of 0.
- PHP strings are byte strings; the model uses Dafny strings whose characters
  stand for bytes.
- `CgiStreamWrapper.CGIStream.StreamClose`: PHP sets the buffer to null. The
  model sets it to '', the value PHP gives null wherever it is used as a
  string.
