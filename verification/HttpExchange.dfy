/**
 What the blasting client and the slow server print, and that each reads the
 other's output as exactly the messages printed.
 */
module HttpExchange {
  import opened Numerals
  import opened HttpText
  import opened HttpFraming

  function Times(s: string, n: nat): string {
    if n == 0 then "" else s + Times(s, n - 1)
  }

  const RESPONSE: string := "HTTP/1.1 404 Not Found\r\n" + "content-length: 0\r\n\r\n"

  /** What the client prints for one request with a body of `n` octets. */
  function PutRequest(host: string, port: nat, n: nat): string {
    "PUT /target.html HTTP/1.1\r\n"
    + ("Host: " + host + ":" + Decimal(port) + "\r\n")
    + ("Content-Length: " + Decimal(n) + "\r\n")
    + "\r\n"
    + Times("X", n)
  }

  /** A host name that can stand in a header line. */
  predicate HostName(host: string) {
    IsAscii(host) && '\r' !in host && '\n' !in host
  }

  function PutMessage(host: string, port: nat, n: nat): Message {
    Message(["PUT /target.html HTTP/1.1", "Host: " + host + ":" + Decimal(port), "Content-Length: " + Decimal(n)],
            Times("X", n))
  }

  const NOT_FOUND: Message := Message(["HTTP/1.1 404 Not Found", "content-length: 0"], "")

  lemma {:induction false} TimesSnoc(s: string, n: nat)
    ensures Times(s, n + 1) == Times(s, n) + s
  {
    if n > 0 {
      TimesSnoc(s, n - 1);
    } else {
      assert s + "" == "" + s;
    }
  }

  /** Sending one more copy. */
  lemma OneMore(base: string, s: string, n: nat)
    ensures base + Times(s, n) + s == base + Times(s, n + 1)
  {
    TimesSnoc(s, n);
    assert base + Times(s, n) + s == base + (Times(s, n) + s);
  }

  /** What is left of a stream after its first `k` messages. */
  function After(s: string, k: nat): string
    requires k <= Count(s)
    decreases k
  {
    if k == 0 then s else After(ReadMessage(s).rest, k - 1)
  }

  /** The stream after `k` messages starts with another exactly when there are more. */
  lemma {:induction false} NextMessage(s: string, k: nat)
    requires k <= Count(s)
    ensures ReadMessage(After(s, k)).Done? <==> k < Count(s)
    ensures k < Count(s) ==> After(s, k + 1) == ReadMessage(After(s, k)).rest
    decreases k
  {
    if k > 0 {
      NextMessage(ReadMessage(s).rest, k - 1);
    }
  }

  // -------------------------------------------------- one against the other

  lemma PutRequestIsMessage(host: string, port: nat, n: nat)
    ensures PutRequest(host, port, n) == Encode(PutMessage(host, port, n))
  {
    var h := PutMessage(host, port, n).head;
    assert Lines(h[3..]) == "";
    assert Lines(h[2..]) == h[2] + "\r\n" by { assert h[2..][1..] == h[3..]; }
    assert Lines(h[1..]) == h[1] + "\r\n" + Lines(h[2..]) by { assert h[1..][1..] == h[2..]; }
    assert Lines(h) == h[0] + "\r\n" + Lines(h[1..]);
  }

  lemma {:induction false} TimesLength(s: string, n: nat)
    requires |s| == 1
    ensures |Times(s, n)| == n
  {
    if n > 0 {
      TimesLength(s, n - 1);
    }
  }

  lemma PlainStart(line: string)
    requires line != "" && IsAscii(line) && '\r' !in line && '\n' !in line
    requires !IsSpace(line[0]) && LowerChar(line[0]) != 'c'
    ensures PlainLine(line)
  {
    assert CONTENT_LENGTH[0] == 'c';
    assert Lower(line)[0] != 'c';
  }

  lemma HostLine(host: string, port: nat)
    requires HostName(host)
    ensures PlainLine("Host: " + host + ":" + Decimal(port))
  {
    var line := "Host: " + host + ":" + Decimal(port);
    assert line[0] == 'H';
    PlainStart(line);
  }

  lemma RequestLine()
    ensures PlainLine("PUT /target.html HTTP/1.1")
  {
    PlainStart("PUT /target.html HTTP/1.1");
  }

  /** A printed length line declares the number printed, in either spelling of the name. */
  lemma PrintedLength(name: string, n: nat)
    requires name == "Content-Length" || name == "content-length"
    ensures LengthLine(name + ": " + Decimal(n), n)
  {
    ValueOfDecimal(n);
    assert Lower("Content-Length") == "content-length" == Lower("content-length");
    assert name + ":" + " " + Decimal(n) + "" == name + ": " + Decimal(n);
    assert IsLengthLine(name + ": " + Decimal(n), name, " ", Decimal(n), "", n);
  }

  lemma PutLength(n: nat)
    ensures LengthLine("Content-Length: " + Decimal(n), n)
  {
    PrintedLength("Content-Length", n);
    assert "Content-Length" + ": " == "Content-Length: ";
  }

  lemma WellFormedOf(first: string, second: string, length: string, body: string)
    requires PlainLine(first) && PlainLine(second) && LengthLine(length, |body|)
    ensures WellFormed(Message([first, second, length], body))
  {
    var m := Message([first, second, length], body);
    assert m.head[2] == length;
  }

  lemma PutMessageWellFormed(host: string, port: nat, n: nat)
    requires HostName(host)
    ensures WellFormed(PutMessage(host, port, n))
  {
    TimesLength("X", n);
    RequestLine();
    HostLine(host, port);
    PutLength(n);
    WellFormedOf("PUT /target.html HTTP/1.1", "Host: " + host + ":" + Decimal(port),
                 "Content-Length: " + Decimal(n), Times("X", n));
  }

  lemma NotFoundIsMessage()
    ensures WellFormed(NOT_FOUND)
  {
    PlainStart("HTTP/1.1 404 Not Found");
    PrintedLength("content-length", 0);
    assert "content-length" + ": " + Decimal(0) == NOT_FOUND.head[1];
    forall i | 0 <= i < 2 ensures PlainLine(NOT_FOUND.head[i]) || LengthLine(NOT_FOUND.head[i], 0) {
      assert i == 0 || i == 1;
    }
  }

  lemma NotFoundIsResponse()
    ensures Encode(NOT_FOUND) == RESPONSE
  {
    var h := NOT_FOUND.head;
    assert Lines(h[2..]) == "";
    assert Lines(h[1..]) == h[1] + "\r\n" by { assert h[1..][1..] == h[2..]; }
    assert Lines(h) == h[0] + "\r\n" + Lines(h[1..]);
  }

  lemma {:induction false} Copies(e: string, k: nat)
    requires forall tail :: ReadMessage(e + tail) == Done(tail)
    ensures Count(Times(e, k)) == k && After(Times(e, k), k) == ""
  {
    if k == 0 {
      assert ReadMessage("") == Closed;
    } else {
      Copies(e, k - 1);
      assert ReadMessage(e + Times(e, k - 1)) == Done(Times(e, k - 1));
    }
  }

  /** `k` copies of a message are read as exactly `k` messages, with nothing left over. */
  lemma CopiesAreRead(m: Message, k: nat)
    requires WellFormed(m)
    ensures Count(Times(Encode(m), k)) == k && After(Times(Encode(m), k), k) == ""
  {
    forall tail ensures ReadMessage(Encode(m) + tail) == Done(tail) {
      ReadsOneMessage(m, tail);
    }
    Copies(Encode(m), k);
  }

  /** End to end, for any host, port, count and body length: the server reads what the
      client prints as exactly that many requests, the client reads what the server
      answers as exactly that many responses, and no octet is left over. */
  lemma ClientAndServerAgree(host: string, port: nat, n: nat, count: nat)
    requires HostName(host)
    ensures var requests := Times(PutRequest(host, port, n), count);
      Count(requests) == count && After(requests, count) == ""
    ensures var responses := Times(RESPONSE, count);
      Count(responses) == count && After(responses, count) == ""
  {
    PutMessageWellFormed(host, port, n);
    PutRequestIsMessage(host, port, n);
    CopiesAreRead(PutMessage(host, port, n), count);
    NotFoundIsMessage();
    NotFoundIsResponse();
    CopiesAreRead(NOT_FOUND, count);
  }

  /** The literal in the client's request is the numeral of its body's length. */
  lemma BodyLengthLiteral()
    ensures Decimal(1000000) == "1000000"
  {
    assert Decimal(1) == "1";
    assert Decimal(10) == "10" && Decimal(100) == "100" && Decimal(1000) == "1000";
    assert Decimal(10000) == "10000" && Decimal(100000) == "100000";
  }
}
