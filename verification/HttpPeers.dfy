/**
 The slow server and the blasting client: the loops that read from and write to a
 socket, proved to depend only on the octets and not on how they are split.
 */
module HttpPeers {
  import opened Bytes
  import opened Numerals
  import opened HttpText
  import opened HttpFraming
  import opened HttpExchange
  import opened HttpEndings

  // -------------------------------------------------------------- the socket

  /** A blocking stream socket: what the peer sends before it closes, and what is sent to it. */
  class Socket {
    var incoming: string
    var outgoing: string

    /** Some octets, at least one and at most `n`; none only at the end of the stream. */
    method Recv(n: nat) returns (data: string)
      requires n > 0
      modifies this`incoming
      ensures data <= old(incoming) && |data| <= n
      ensures data == "" <==> old(incoming) == ""
      ensures incoming == old(incoming)[|data|..]
    {
      data := if n <= |incoming| then incoming[..n] else incoming;
      incoming := incoming[|data|..];
    }

    method SendAll(data: string)
      modifies this`outgoing
      ensures outgoing == old(outgoing) + data
    {
      outgoing := outgoing + data;
    }
  }

  // ------------------------------------------------------------ the readers

  lemma NextOctet(data: string, s: string)
    requires s != ""
    ensures data + s == data + [s[0]] + s[1..]
    ensures s[0] == '\n' ==> FirstLine(s) == "\n"
    ensures s[0] != '\n' ==> data + FirstLine(s) == data + [s[0]] + FirstLine(s[1..])
  {
    assert s == [s[0]] + s[1..];
    Concat(data, [s[0]], s[1..]);
    if s[0] != '\n' {
      assert FirstLine(s) == [s[0]] + FirstLine(s[1..]);
      Concat(data, [s[0]], FirstLine(s[1..]));
    }
  }

  lemma Concat(a: string, b: string, c: string)
    ensures a + b + c == a + (b + c)
  {
  }

  /** One octet at a time, up to the line feed or the end of the stream. */
  method ReadLine(conn: Socket) returns (data: string)
    modifies conn`incoming
    ensures data == FirstLine(old(conn.incoming))
    ensures conn.incoming == old(conn.incoming)[|data|..]
  {
    data := "";
    while true
      invariant old(conn.incoming) == data + conn.incoming
      invariant FirstLine(old(conn.incoming)) == data + FirstLine(conn.incoming)
      decreases |conn.incoming|
    {
      ghost var s := conn.incoming;
      if s != "" { NextOctet(data, s); }
      var octet := conn.Recv(1);
      assert s != "" ==> octet == [s[0]];
      if octet == "" {
        return;
      }
      data := data + octet;
      if octet == "\n" {
        return;
      }
    }
  }

  /** The header loop of both peers. */
  method DrainHeaders(conn: Socket) returns (result: Headers)
    modifies conn`incoming
    ensures result == ReadHeaders(old(conn.incoming), 0)
    ensures result.Ready? ==> conn.incoming == result.rest
    ensures result.Ended? ==> conn.incoming == ""
  {
    var contentLength := 0;
    while true
      invariant ReadHeaders(conn.incoming, contentLength) == ReadHeaders(old(conn.incoming), 0)
      decreases |conn.incoming|
    {
      var line := ReadLine(conn);
      if line == "" {
        return Ended;
      }
      if line == "\r\n" {
        return Ready(contentLength, conn.incoming);
      }
      match Header(line, contentLength) {
        case None => return Malformed;
        case Some(n) => contentLength := n;
      }
    }
  }

  /** The body loop of both peers: false when the stream ends first. */
  method DrainBody(conn: Socket, length: int) returns (ok: bool)
    modifies conn`incoming
    ensures ok == (length <= |old(conn.incoming)|)
    ensures ok ==> conn.incoming == old(conn.incoming)[if length > 0 then length else 0..]
    ensures !ok ==> conn.incoming == ""
  {
    var contentLength := length;
    while contentLength > 0
      invariant contentLength <= length && (length > 0 ==> contentLength >= 0) && (length <= 0 ==> contentLength == length)
      invariant length > 0 ==> length - contentLength <= |old(conn.incoming)|
      invariant length > 0 ==> conn.incoming == old(conn.incoming)[length - contentLength..]
      invariant length <= 0 ==> conn.incoming == old(conn.incoming)
    {
      var data := conn.Recv(contentLength);
      if data == "" {
        return false;
      }
      contentLength := contentLength - |data|;
    }
    return true;
  }

  method DrainMessage(conn: Socket) returns (result: Outcome)
    modifies conn`incoming
    ensures result == ReadMessage(old(conn.incoming))
    ensures result.Raised? <==> Raises(old(conn.incoming))
    ensures result.Done? ==> conn.incoming == result.rest
    ensures result.Closed? ==> conn.incoming == ""
  {
    OutcomeExactly(conn.incoming);
    var headers := DrainHeaders(conn);
    match headers {
      case Ended => return Closed;
      case Malformed => return Raised;
      case Ready(n, rest) =>
        var ok := DrainBody(conn, n);
        return if ok then Done(conn.incoming) else Closed;
    }
  }

  // -------------------------------------------------------------- the server

  method SendResponse(conn: Socket)
    modifies conn`outgoing
    ensures conn.outgoing == old(conn.outgoing) + RESPONSE
  {
    ghost var before := conn.outgoing;
    conn.SendAll("HTTP/1.1 404 Not Found\r\n");
    conn.SendAll("content-length: 0\r\n\r\n");
    Concat(before, "HTTP/1.1 404 Not Found\r\n", "content-length: 0\r\n\r\n");
  }

  /** One response for each message read, however the stream is split into fragments. */
  method HandleRequests(conn: Socket) returns (result: Outcome)
    modifies conn
    ensures !result.Done? && (result.Closed? ==> conn.incoming == "")
    ensures var s := old(conn.incoming);
      result == Ending(s) && (result.Raised? <==> Raises(After(s, Count(s))))
    ensures IsPipeline(old(conn.incoming)) ==> result == Closed
    ensures conn.outgoing == old(conn.outgoing) + Times(RESPONSE, Count(old(conn.incoming)))
  {
    ghost var s, sent, served := conn.incoming, conn.outgoing, 0;
    while true
      invariant served <= Count(s) && conn.incoming == After(s, served)
      invariant conn.outgoing == sent + Times(RESPONSE, served)
      decreases Count(s) - served
    {
      NextMessage(s, served);
      result := DrainMessage(conn);
      if !result.Done? {
        WholePipelineCloses(s);
        return;
      }
      SendResponse(conn);
      OneMore(sent, RESPONSE, served);
      served := served + 1;
    }
  }

  // -------------------------------------------------------------- the client

  method SendRequests(conn: Socket, request: string, count: nat)
    modifies conn`outgoing
    ensures conn.outgoing == old(conn.outgoing) + Times(request, count)
  {
    for req := 0 to count
      invariant conn.outgoing == old(conn.outgoing) + Times(request, req)
    {
      OneMore(old(conn.outgoing), request, req);
      conn.SendAll(request);
    }
  }

  /** Read responses until one is missing or all have come; `got` is how many came, and `raised`
      says that the next one's header lines raised an exception. */
  method GetResponses(conn: Socket, count: nat) returns (got: nat, raised: bool)
    modifies conn`incoming
    ensures got == if Count(old(conn.incoming)) < count then Count(old(conn.incoming)) else count
    ensures got == count ==> conn.incoming == After(old(conn.incoming), count)
    ensures raised <==> got < count && Raises(After(old(conn.incoming), got))
  {
    got, raised := 0, false;
    ghost var total := Count(conn.incoming);
    while got < count
      invariant got <= count && got <= total == Count(old(conn.incoming)) && !raised
      invariant conn.incoming == After(old(conn.incoming), got)
    {
      NextMessage(old(conn.incoming), got);
      var result := DrainMessage(conn);
      if !result.Done? {
        raised := result.Raised?;
        return;
      }
      got := got + 1;
    }
  }

  /** The client's whole exchange: all requests go out before the first response is read. */
  method RunClient(conn: Socket, host: string, port: nat, count: nat) returns (got: nat, raised: bool)
    modifies conn
    ensures conn.outgoing == old(conn.outgoing) + Times(PutRequest(host, port, 1000000), count)
    ensures got == if Count(old(conn.incoming)) < count then Count(old(conn.incoming)) else count
    ensures got == count ==> conn.incoming == After(old(conn.incoming), count)
    ensures raised <==> got < count && Raises(After(old(conn.incoming), got))
  {
    var request := PutRequest(host, port, 1000000);
    SendRequests(conn, request, count);
    got, raised := GetResponses(conn, count);
  }
}
