/**
 * The finalization step of CGIStream: once the CGI process has finished, its
 * raw output (header lines, a blank line, the body) is turned into the
 * arguments of the server's response factory. The CGI `Status` pseudo-header
 * (section 6.3.3 of RFC 3875) becomes the HTTP status code.
 */
module CgiResponse {
  import opened Wrappers
  import opened PhpString
  import opened PhpArray

  /** The blank line that ends the CGI header block. */
  const Separator: string := "\r\n\r\n"
  const StatusHeader: string := "Status"
  const DefaultStatus: int := 200
  const BadGatewayStatus: int := 502
  const InvalidResponseMessage: string := "Invalid Response from CGI process"

  /**
   * A response object, recorded as the call to the server's factory that made it:
   * `$server->response($status, $content, $headers)` or
   * `$server->text_response($status, $message)`.
   */
  datatype Response =
    | Full(status: int, content: string, headers: OrderedMap)
    | Text(status: int, message: string)

  /**
   * The HTTP server as CGIStream uses it: the static header parser
   * `HTTPServer::parse_headers` and the `render()` of the responses its
   * factory builds. Both are defined outside this model.
   */
  datatype Server = Server(parseHeaders: string -> OrderedMap, render: Response -> string)

  /** `i` is where the header block ends: the first blank line of `buffer`. */
  predicate IsHeaderEnd(buffer: string, i: nat)
  {
    OccursAt(buffer, Separator, i) && forall j: nat :: j < i ==> !OccursAt(buffer, Separator, j)
  }

  /** The response for the complete output `buffer` of the CGI process. */
  function Finalize(buffer: string, parseHeaders: string -> OrderedMap): (r: Response)
    ensures r.Text? <==> !Contains(buffer, Separator)
    ensures r.Text? ==> r == Text(BadGatewayStatus, InvalidResponseMessage)
    ensures r.Full? ==> !Isset(r.headers, StatusHeader)
  {
    match StrPos(buffer, Separator)
    case None =>
      Text(BadGatewayStatus, InvalidResponseMessage)
    case Some(endHeaders) =>
      var headers := parseHeaders(buffer[..endHeaders]);
      var content := buffer[endHeaders + |Separator|..];
      if Isset(headers, StatusHeader) then
        Full(IntCast(Get(headers, StatusHeader)), content, Unset(headers, StatusHeader))
      else
        Full(DefaultStatus, content, headers)
  }

  /**
   * When the first blank line of `buffer` is at `i`, the header block is
   * everything before it and the body everything after it: header block,
   * blank line and body put back together are `buffer`, and the header block
   * holds no blank line. The status is the leading integer of the `Status`
   * header, which is dropped while every other header is kept in order; without
   * a `Status` header the status is 200 and the headers are passed on as parsed.
   */
  lemma {:induction false} FinalizeSplit(buffer: string, parseHeaders: string -> OrderedMap, i: nat)
    requires IsHeaderEnd(buffer, i)
    ensures var r := Finalize(buffer, parseHeaders);
      && r.Full?
      && buffer == buffer[..i] + Separator + r.content
      && !Contains(buffer[..i], Separator)
    ensures var r := Finalize(buffer, parseHeaders);
      var headers := parseHeaders(buffer[..i]);
      && (Isset(headers, StatusHeader) ==>
            r.status == IntCast(Get(headers, StatusHeader)) && r.headers == Without(headers, StatusHeader))
      && (!Isset(headers, StatusHeader) ==> r.status == DefaultStatus && r.headers == headers)
  {
    var p := StrPos(buffer, Separator);
    assert p.Some?;
    assert p.value == i by {
      assert !(p.value < i);
      assert !(i < p.value);
    }
    assert buffer == buffer[..i] + Separator + buffer[i + |Separator|..];
    HeaderBlockHasNoSeparator(buffer, i);
  }

  lemma {:induction false} HeaderBlockHasNoSeparator(buffer: string, i: nat)
    requires IsHeaderEnd(buffer, i)
    ensures !Contains(buffer[..i], Separator)
  {
    forall j: nat | OccursAt(buffer[..i], Separator, j) ensures j < i && OccursAt(buffer, Separator, j) {
      assert buffer[..i][j..j + |Separator|] == buffer[j..j + |Separator|];
    }
  }

  /** A CGI output with no blank line anywhere becomes the 502 response, however long it is. */
  lemma {:induction false} MalformedIsBadGateway(buffer: string, parseHeaders: string -> OrderedMap)
    requires forall k :: 0 <= k < |buffer| ==> buffer[k] != '\r'
    ensures Finalize(buffer, parseHeaders) == Text(502, "Invalid Response from CGI process")
  {
    forall j: nat | OccursAt(buffer, Separator, j) ensures buffer[j] == '\r' {
      assert buffer[j..j + |Separator|][0] == buffer[j];
    }
  }

  /**
   * A `Status` header whose value is a status code in decimal followed by a
   * reason phrase sets that code, and is no longer among the headers.
   */
  lemma {:induction false} StatusHeaderSetsCode(buffer: string, parseHeaders: string -> OrderedMap, i: nat, code: int, reason: string)
    requires IsHeaderEnd(buffer, i)
    requires MinInt <= code <= MaxInt
    requires reason == [] || reason[0] == ' '
    requires Isset(parseHeaders(buffer[..i]), StatusHeader)
    requires Get(parseHeaders(buffer[..i]), StatusHeader) == Decimal(code) + reason
    ensures Finalize(buffer, parseHeaders).status == code
    ensures !Isset(Finalize(buffer, parseHeaders).headers, StatusHeader)
  {
    FinalizeSplit(buffer, parseHeaders, i);
    IntCastOfDecimal(code, reason);
  }

  /**
   * The CGI output "Status: 404 Not Found", "Content-Type: text/plain", a blank
   * line and "nope" becomes a 404 response with body "nope" and the one header
   * Content-Type, given that the header parser reads the two header lines.
   */
  lemma {:induction false} NotFoundExample(parseHeaders: string -> OrderedMap)
    requires parseHeaders("Status: 404 Not Found" + "\r\n" + "Content-Type: text/plain")
             == [("Status", "404 Not Found"), ("Content-Type", "text/plain")]
    ensures Finalize("Status: 404 Not Found" + "\r\n" + "Content-Type: text/plain" + "\r\n\r\n" + "nope", parseHeaders)
            == Full(404, "nope", [("Content-Type", "text/plain")])
  {
    var first, second := "Status: 404 Not Found", "Content-Type: text/plain";
    var buffer := first + "\r\n" + second + Separator + "nope";
    var headers: OrderedMap := [("Status", "404 Not Found"), ("Content-Type", "text/plain")];
    var i := |first| + 2 + |second|;
    NotFoundPieces();
    TwoLineHeaderEnd(first, second, "nope");
    StatusHeaderSetsCode(buffer, parseHeaders, i, 404, " Not Found");
    FinalizeSplit(buffer, parseHeaders, i);
  }

  lemma NotFoundPieces()
    ensures '\r' !in "Status: 404 Not Found" && '\r' !in "Content-Type: text/plain"
    ensures Decimal(404) == "404"
    ensures var headers: OrderedMap := [("Status", "404 Not Found"), ("Content-Type", "text/plain")];
      && Isset(headers, StatusHeader)
      && Get(headers, StatusHeader) == "404" + " Not Found"
      && Without(headers, StatusHeader) == [("Content-Type", "text/plain")]
  {
    Decimal404();
    StatusEntryOfExample();
  }

  lemma Decimal404()
    ensures Decimal(404) == "404"
  {
    assert Digits(4) == "4";
    assert Digits(40) == "40";
  }

  lemma StatusEntryOfExample()
    ensures var headers: OrderedMap := [("Status", "404 Not Found"), ("Content-Type", "text/plain")];
      && Find(headers, StatusHeader) == Some(0)
      && Without(headers, StatusHeader) == [("Content-Type", "text/plain")]
  {
    var headers: OrderedMap := [("Status", "404 Not Found"), ("Content-Type", "text/plain")];
    assert headers[0].0 == StatusHeader;
    assert headers[1].0 != StatusHeader;
    assert headers[1..][1..] == [];
  }

  /** Two header lines without a carriage return in them end at the blank line that follows them. */
  lemma {:induction false} TwoLineHeaderEnd(first: string, second: string, body: string)
    requires '\r' !in first && '\r' !in second && second != []
    ensures var buffer := first + "\r\n" + second + Separator + body;
      var i := |first| + 2 + |second|;
      && IsHeaderEnd(buffer, i)
      && buffer[..i] == first + "\r\n" + second
      && buffer[i + 4..] == body
  {
    var buffer := first + "\r\n" + second + Separator + body;
    var i := |first| + 2 + |second|;
    assert buffer[i..i + 4] == Separator;
    forall j: nat | j < i ensures buffer[j] != '\r' || buffer[j + 2] != '\r' {
      if j < |first| {
        assert buffer[j] == first[j];
      } else if j == |first| {
        assert buffer[j + 2] == second[0];
      } else if j == |first| + 1 {
        assert buffer[j] == '\n';
      } else {
        assert buffer[j] == second[j - |first| - 2];
      }
    }
    forall j: nat | j < i ensures !OccursAt(buffer, Separator, j) {
      assert j + 4 <= |buffer|;
      assert buffer[j..j + 4][0] == buffer[j] && buffer[j..j + 4][2] == buffer[j + 2];
    }
    assert buffer[..i] == first + "\r\n" + second;
  }

  /** The CGI output "no separator here" becomes the fixed 502 response; the output is not echoed. */
  lemma {:induction false} NoSeparatorExample(parseHeaders: string -> OrderedMap)
    ensures Finalize("no separator here", parseHeaders) == Text(502, "Invalid Response from CGI process")
  {
    var buffer := "no separator here";
    forall k | 0 <= k < |buffer| ensures buffer[k] != '\r' {
    }
    MalformedIsBadGateway(buffer, parseHeaders);
  }
}
