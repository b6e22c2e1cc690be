/**
 HTTP message framing as the slow server and the blasting client do it: lines up
 to a line feed, header lines up to an empty one, then a body of the last content
 length seen.  Messages here are framed by Content-Length only, as in sections
 6.2 and 6.3 of RFC 9112.
 */
module HttpFraming {
  import opened Bytes
  import opened Numerals
  import opened HttpText

  // ------------------------------------------------------------- the readers

  /** Up to and including the first line feed; all of it when there is none. */
  function FirstLine(s: string): (line: string)
    ensures line <= s && (s != "" ==> line != "")
  {
    if s == "" || s[0] == '\n' then s[..if s == "" then 0 else 1] else [s[0]] + FirstLine(s[1..])
  }

  datatype Outcome =
    | Done(rest: string)   // a whole message was consumed
    | Closed               // the peer closed the stream first
    | Raised               // a header line raised an exception

  datatype Headers = Ready(contentLength: int, rest: string) | Ended | Malformed

  /** The header loop: from the content length so far to the one after the empty line. */
  function ReadHeaders(s: string, contentLength: int): Headers
    decreases |s|
  {
    var line := FirstLine(s);
    if line == "" then Ended
    else if line == "\r\n" then Ready(contentLength, s[2..])
    else match Header(line, contentLength)
      case None => Malformed
      case Some(n) => ReadHeaders(s[|line|..], n)
  }

  /** One message: its headers, then its body; a content length below zero has none. */
  function ReadMessage(s: string): (r: Outcome)
    ensures r.Done? ==> |r.rest| < |s|
  {
    match ReadHeaders(s, 0)
    case Ended => Closed
    case Malformed => Raised
    case Ready(n, rest) =>
      ReadyShorter(s, 0);
      if n > |rest| then Closed else Done(rest[if n > 0 then n else 0..])
  }

  lemma {:induction false} ReadyShorter(s: string, contentLength: int)
    ensures ReadHeaders(s, contentLength).Ready? ==> |ReadHeaders(s, contentLength).rest| < |s|
    decreases |s|
  {
    var line := FirstLine(s);
    if line != "" && line != "\r\n" && Header(line, contentLength).Some? {
      ReadyShorter(s[|line|..], Header(line, contentLength).value);
    }
  }

  // ---------------------------------------------------------- the messages

  datatype Message = Message(head: seq<string>, body: string)

  function Lines(head: seq<string>): string {
    if head == [] then "" else head[0] + "\r\n" + Lines(head[1..])
  }

  /** A message as it goes on the stream. */
  function Encode(m: Message): string {
    Lines(m.head) + "\r\n" + m.body
  }

  /** A start line and fields; the body's length is declared unless it is empty. */
  ghost predicate WellFormed(m: Message) {
    && m.head != []
    && (forall i :: 0 <= i < |m.head| ==> PlainLine(m.head[i]) || LengthLine(m.head[i], |m.body|))
    && (m.body == "" || exists i :: 0 <= i < |m.head| && LengthLine(m.head[i], |m.body|))
  }

  // ------------------------------------------------------- reading a message

  lemma {:induction false} FirstLineOf(a: string, s: string)
    requires '\n' !in a
    ensures FirstLine(a + "\n" + s) == a + "\n"
  {
    if a == "" {
      assert a + "\n" + s == ['\n'] + s;
    } else {
      FirstLineOf(a[1..], s);
      assert (a + "\n" + s)[1..] == a[1..] + "\n" + s;
    }
  }

  lemma NoLineFeed(line: string, n: nat)
    requires PlainLine(line) || LengthLine(line, n)
    ensures '\n' !in line && line != ""
  {
    if !PlainLine(line) {
      var name, before, digits, after :| IsLengthLine(line, name, before, digits, after, n);
      forall i | 0 <= i < |name| ensures name[i] != '\n' {
        assert Lower(name)[i] == LowerChar(name[i]) == "content-length"[i];
      }
    }
  }

  /** What the header loop makes of well-formed lines: the declared length if there is one. */
  ghost function Declared(head: seq<string>, n: nat, contentLength: int): int {
    if exists i :: 0 <= i < |head| && LengthLine(head[i], n) then n else contentLength
  }

  lemma HeaderOf(line: string, n: nat, contentLength: int)
    requires PlainLine(line) || LengthLine(line, n)
    ensures Header(line + "\r\n", contentLength) == Some(if LengthLine(line, n) then n else contentLength)
  {
    if LengthLine(line, n) {
      LengthHeader(line, n, contentLength);
    } else {
      PlainHeader(line, contentLength);
    }
  }

  lemma {:induction false} ReadLines(head: seq<string>, n: nat, contentLength: int, rest: string)
    requires forall i :: 0 <= i < |head| ==> PlainLine(head[i]) || LengthLine(head[i], n)
    ensures ReadHeaders(Lines(head) + "\r\n" + rest, contentLength) == Ready(Declared(head, n, contentLength), rest)
    decreases |head|
  {
    var s := Lines(head) + "\r\n" + rest;
    if head == [] {
      assert s == "\r" + "\n" + rest;
      FirstLineOf("\r", rest);
      assert s[2..] == rest;
    } else {
      var line, tail := head[0], Lines(head[1..]) + "\r\n" + rest;
      NoLineFeed(line, n);
      assert s == line + "\r" + "\n" + tail;
      FirstLineOf(line + "\r", tail);
      assert FirstLine(s) == line + "\r\n" != "\r\n";
      assert s[|line| + 2..] == tail;
      HeaderOf(line, n, contentLength);
      var next := if LengthLine(line, n) then n else contentLength;
      ReadLines(head[1..], n, next, rest);
      DeclaredCons(head, n, contentLength);
    }
  }

  lemma DeclaredCons(head: seq<string>, n: nat, contentLength: int)
    requires head != []
    ensures Declared(head, n, contentLength)
      == Declared(head[1..], n, if LengthLine(head[0], n) then n else contentLength)
  {
    if i :| 0 <= i < |head| && LengthLine(head[i], n) {
      if i > 0 {
        assert LengthLine(head[1..][i - 1], n);
      }
    }
    if j :| 0 <= j < |head[1..]| && LengthLine(head[1..][j], n) {
      assert LengthLine(head[j + 1], n);
    }
  }

  /** A well-formed message is consumed exactly, whatever its body and whatever follows. */
  lemma ReadsOneMessage(m: Message, tail: string)
    requires WellFormed(m)
    ensures ReadMessage(Encode(m) + tail) == Done(tail)
  {
    var n, rest := |m.body|, m.body + tail;
    assert Encode(m) + tail == Lines(m.head) + "\r\n" + rest;
    ReadLines(m.head, n, 0, rest);
    assert Declared(m.head, n, 0) == n;
    assert rest[n..] == tail;
  }

  // --------------------------------------------------- streams that are cut

  lemma {:induction false} FirstLineGrows(s: string, x: string)
    ensures s != "" && FirstLine(s)[|FirstLine(s)| - 1] == '\n' ==> FirstLine(s + x) == FirstLine(s)
  {
    if s != "" && s[0] != '\n' {
      FirstLineGrows(s[1..], x);
      assert (s + x)[1..] == s[1..] + x;
    }
  }

  lemma {:induction false} UnendedLineIsAll(s: string)
    requires s != "" && FirstLine(s)[|FirstLine(s)| - 1] != '\n'
    ensures FirstLine(s) == s
  {
    if s[0] != '\n' && s[1..] != "" {
      UnendedLineIsAll(s[1..]);
    }
  }

  /** A header section is complete only if its first line is ended. */
  lemma ReadyEndsLine(s: string, contentLength: int)
    requires ReadHeaders(s, contentLength).Ready?
    ensures s != "" && FirstLine(s)[|FirstLine(s)| - 1] == '\n'
  {
    var line := FirstLine(s);
    if line[|line| - 1] != '\n' {
      UnendedLineIsAll(s);
      assert FirstLine(s[|line|..]) == "";
    }
  }

  /** More input after a complete header section leaves what was read of it alone. */
  lemma {:induction false} HeadersGrow(s: string, contentLength: int, x: string)
    requires ReadHeaders(s, contentLength).Ready?
    ensures ReadHeaders(s + x, contentLength)
      == Ready(ReadHeaders(s, contentLength).contentLength, ReadHeaders(s, contentLength).rest + x)
    decreases |s|
  {
    var line := FirstLine(s);
    ReadyEndsLine(s, contentLength);
    FirstLineGrows(s, x);
    assert (s + x)[|line|..] == s[|line|..] + x;
    if line != "\r\n" {
      HeadersGrow(s[|line|..], Header(line, contentLength).value, x);
    }
  }

  /** A message once complete stays complete. */
  lemma MessageGrows(s: string, x: string)
    requires ReadMessage(s).Done?
    ensures ReadMessage(s + x) == Done(ReadMessage(s).rest + x)
  {
    HeadersGrow(s, 0, x);
    var r := ReadHeaders(s, 0);
    var k := if r.contentLength > 0 then r.contentLength else 0;
    assert (r.rest + x)[k..] == r.rest[k..] + x;
  }

  /** A stream cut anywhere inside a well-formed message does not count as one. */
  lemma CutMessageIsNotRead(m: Message, p: string)
    requires WellFormed(m) && p < Encode(m)
    ensures !ReadMessage(p).Done?
  {
    var x := Encode(m)[|p|..];
    assert p + x == Encode(m) == Encode(m) + "";
    ReadsOneMessage(m, "");
    if ReadMessage(p).Done? {
      MessageGrows(p, x);
    }
  }

  // ------------------------------------------------------- pipelined messages

  /** How many messages are read before the stream ends or a header raises. */
  function Count(s: string): nat
    decreases |s|
  {
    match ReadMessage(s)
    case Done(rest) => 1 + Count(rest)
    case _ => 0
  }

  function EncodeAll(ms: seq<Message>): string {
    if ms == [] then "" else Encode(ms[0]) + EncodeAll(ms[1..])
  }

  /** How many of the messages are wholly within the first `n` octets of their encoding. */
  function Complete(ms: seq<Message>, n: nat): nat {
    if ms == [] || n < |Encode(ms[0])| then 0 else 1 + Complete(ms[1..], n - |Encode(ms[0])|)
  }

  lemma PrefixOfConcat(p: string, a: string, b: string)
    requires p <= a + b
    ensures if |p| < |a| then p < a else p == a + p[|a|..] && p[|a|..] <= b
  {
    assert p == (a + b)[..|p|];
  }

  /** For any pipeline of well-formed messages cut at any octet, exactly the complete ones are read. */
  lemma {:induction false} ReadsCompleteMessages(ms: seq<Message>, p: string)
    requires (forall i :: 0 <= i < |ms| ==> WellFormed(ms[i])) && p <= EncodeAll(ms)
    ensures Count(p) == Complete(ms, |p|)
    decreases |ms|
  {
    if ms == [] {
      assert p == "" && ReadMessage("") == Closed;
    } else {
      var e := Encode(ms[0]);
      PrefixOfConcat(p, e, EncodeAll(ms[1..]));
      if |p| < |e| {
        CutMessageIsNotRead(ms[0], p);
      } else {
        ReadsOneMessage(ms[0], p[|e|..]);
        ReadsCompleteMessages(ms[1..], p[|e|..]);
      }
    }
  }

  lemma {:induction false} AllComplete(ms: seq<Message>)
    ensures Complete(ms, |EncodeAll(ms)|) == |ms|
  {
    if ms != [] {
      AllComplete(ms[1..]);
    }
  }

  /** A whole pipeline is read as exactly its messages. */
  lemma ReadsWholePipeline(ms: seq<Message>)
    requires forall i :: 0 <= i < |ms| ==> WellFormed(ms[i])
    ensures Count(EncodeAll(ms)) == |ms|
  {
    ReadsCompleteMessages(ms, EncodeAll(ms));
    AllComplete(ms);
  }
}
