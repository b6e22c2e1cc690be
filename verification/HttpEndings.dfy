/**
 How reading a stream of messages ends: when the header loop raises, when the peer is
 taken to have closed the connection, and what a stream cut at any octet leads to.
 */
module HttpEndings {
  import opened Bytes
  import opened Numerals
  import opened HttpText
  import opened HttpFraming
  import opened HttpExchange

  // -------------------------------------------------- the header loop exactly

  /** The lines the header loop looks at: those before the empty line, or before the end. */
  function HeaderLines(s: string): seq<string>
    decreases |s|
  {
    var line := FirstLine(s);
    if line == "" || line == "\r\n" then [] else [line] + HeaderLines(s[|line|..])
  }

  /** What follows the empty line, if there is one. */
  function AfterHead(s: string): Option<string>
    decreases |s|
  {
    var line := FirstLine(s);
    if line == "" then None
    else if line == "\r\n" then Some(s[2..])
    else AfterHead(s[|line|..])
  }

  predicate NamesLength(line: string) {
    CONTENT_LENGTH <= Strip(Lower(line))
  }

  function LengthText(line: string): string
    requires NamesLength(line)
  {
    UpToColon(Strip(Lower(line))[|CONTENT_LENGTH|..])
  }

  /** A line that raises: it cannot be decoded, or it is a content length without a value. */
  predicate Valueless(line: string) {
    !IsAscii(line) || (NamesLength(line) && ParseInt(LengthText(line)).None?)
  }

  predicate Raises(s: string) {
    exists i :: 0 <= i < |HeaderLines(s)| && Valueless(HeaderLines(s)[i])
  }

  /** The value of the last content length among the lines. */
  function LastLength(lines: seq<string>, contentLength: int): int
    requires forall i :: 0 <= i < |lines| ==> !Valueless(lines[i])
  {
    if lines == [] then contentLength
    else
      assert !Valueless(lines[0]);
      LastLength(lines[1..], if NamesLength(lines[0]) then ParseInt(LengthText(lines[0])).value else contentLength)
  }

  /** The header loop raises exactly if some line it looks at has no value; otherwise it comes to
      the end of the stream or to the empty line, with the last content length named. */
  lemma {:induction false} HeadersExactly(s: string, contentLength: int)
    ensures ReadHeaders(s, contentLength).Malformed? <==> Raises(s)
    ensures !Raises(s) && AfterHead(s).None? ==> ReadHeaders(s, contentLength) == Ended
    ensures !Raises(s) && AfterHead(s).Some? ==>
      ReadHeaders(s, contentLength) == Ready(LastLength(HeaderLines(s), contentLength), AfterHead(s).value)
    decreases |s|
  {
    var line := FirstLine(s);
    if line != "" && line != "\r\n" {
      var lines := HeaderLines(s);
      assert lines[0] == line && lines[1..] == HeaderLines(s[|line|..]);
      match Header(line, contentLength)
      case None =>
        assert Valueless(lines[0]);
      case Some(n) =>
        assert !Valueless(line);
        HeadersExactly(s[|line|..], n);
        assert Raises(s[|line|..]) <==> Raises(s) by {
          RaisesLater(s);
        }
    }
  }

  lemma RaisesLater(s: string)
    requires FirstLine(s) != "" && FirstLine(s) != "\r\n" && !Valueless(FirstLine(s))
    ensures Raises(s) <==> Raises(s[|FirstLine(s)|..])
  {
    var lines, later := HeaderLines(s), HeaderLines(s[|FirstLine(s)|..]);
    assert lines == [FirstLine(s)] + later;
    if i :| 0 <= i < |lines| && Valueless(lines[i]) {
      assert later[i - 1] == lines[i];
    }
    if j :| 0 <= j < |later| && Valueless(later[j]) {
      assert lines[j + 1] == later[j];
    }
  }

  /** The three ends of reading one message, for any stream at all. */
  lemma OutcomeExactly(s: string)
    ensures ReadMessage(s) == Raised <==> Raises(s)
    ensures !Raises(s) ==>
      var length := LastLength(HeaderLines(s), 0);
      ReadMessage(s) == match AfterHead(s)
        case None => Closed
        case Some(rest) => if length > |rest| then Closed else Done(rest[if length > 0 then length else 0..])
  {
    HeadersExactly(s, 0);
  }

  // ------------------------------------------------------- a header line cut

  /** `k` octets of a Content-Length line: the colon, but no digit yet. */
  ghost predicate BeforeValue(line: string, k: int) {
    exists name, before, digits, after, n ::
      IsLengthLine(line, name, before, digits, after, n) && |name| < k <= |name| + 1 + |before|
  }

  /** The cut falls in a Content-Length line, there. */
  ghost predicate CutBeforeValue(head: seq<string>, k: int) {
    head != [] &&
    if k < |head[0]| + 2 then BeforeValue(head[0], k) else CutBeforeValue(head[1..], k - |head[0]| - 2)
  }

  lemma LengthLineNames(line: string, n: nat)
    requires LengthLine(line, n)
    ensures CONTENT_LENGTH <= Lower(line)
  {
    var name, before, digits, after :| IsLengthLine(line, name, before, digits, after, n);
    assert line == name + (":" + (before + digits + after));
    assert Lower(line)[..|name|] == Lower(name);
    assert Lower(line)[|name|] == ':';
    assert CONTENT_LENGTH == "content-length" + ":";
  }

  /** What is left of a line cut short, stripped, is still the beginning of the line. */
  lemma StripOfCut(line: string, q: string)
    requires line != "" && !IsSpace(line[0]) && q != "" && q <= line + "\r"
    ensures Strip(Lower(q)) <= Lower(line)
  {
    var low := Lower(q);
    assert q[0] == line[0];
    assert StripLeft(low) == low;
    if |q| == |line| + 1 {
      assert low[..|line|] == Lower(line);
      assert low[|line|] == '\r';
      StripRightPrefix(Lower(line));
    } else {
      StripRightPrefix(low);
      assert low == Lower(line)[..|q|];
    }
  }

  /** A start line or another field cut anywhere has a value. */
  lemma PlainCut(line: string, q: string)
    requires PlainLine(line) && q != "" && q <= line + "\r"
    ensures !Valueless(q) && !BeforeValue(line, |q|)
  {
    forall n: nat ensures !LengthLine(line, n) {
      if LengthLine(line, n) {
        LengthLineNames(line, n);
      }
    }
    StripOfCut(line, q);
  }

  /** With a digit or more, a Content-Length line has the value of those there are. */
  lemma ValueCut(name: string, before: string, digits: string, tail: string)
    requires IsAscii(name) && Lower(name) == "content-length" && Ows(before) && IsAscii(tail)
    requires digits != "" && AllDigits(digits) && AllSpace(tail)
    ensures !Valueless(name + ":" + before + digits + tail)
  {
    var q := name + ":" + before + digits + tail;
    var value := before + digits + tail;
    assert q == name + ":" + value;
    LowerValue(before, digits, tail);
    assert Lower(q) == Lower(name) + ":" + Lower(value);
    assert "content-length" + ":" == CONTENT_LENGTH;
    assert Lower(q) == CONTENT_LENGTH + before + digits + tail;
    StripKeepsValue(CONTENT_LENGTH + before + digits, tail);
    ValueField(before, digits);
  }

  /** With the colon but no digit, it has none. */
  lemma NoValueCut(name: string, before: string)
    requires IsAscii(name) && Lower(name) == "content-length" && Ows(before)
    ensures Valueless(name + ":" + before)
  {
    var q := name + ":" + before;
    assert Lower(before) == before;
    assert "content-length" + ":" == CONTENT_LENGTH;
    assert Lower(q) == CONTENT_LENGTH + before;
    StripKeepsValue(CONTENT_LENGTH, before);
    assert LengthText(q) == "";
  }

  lemma StripIn(s: string)
    ensures forall c :: c in Strip(s) ==> c in s
  {
    StripLeftIn(s);
    StripRightPrefix(StripLeft(s));
  }

  lemma LowerColon(q: string)
    ensures ':' in Lower(q) ==> ':' in q
  {
    if i :| 0 <= i < |q| && Lower(q)[i] == ':' {
      assert q[i] == ':';
    }
  }

  lemma LengthHasColon(t: string)
    requires CONTENT_LENGTH <= t
    ensures ':' in t
  {
    assert t[14] == CONTENT_LENGTH[14] == ':';
  }

  lemma {:induction false} AllOneLine(q: string)
    requires '\n' !in q
    ensures FirstLine(q) == q
  {
    if q != "" {
      AllOneLine(q[1..]);
    }
  }

  /** So a stream that ends right after the colon raises. */
  lemma EndsAfterColon()
    ensures ReadMessage("Content-Length:") == Raised
  {
    var q := "Content-Length:";
    assert Lower("Content-Length") == "content-length";
    NoValueCut("Content-Length", "");
    assert q == "Content-Length" + ":" + "";
    assert '\n' !in q;
    AllOneLine(q);
    assert HeaderLines(q)[0] == q;
    OutcomeExactly(q);
  }

  /** Without the colon, it is no content length. */
  lemma NoColonCut(q: string)
    requires IsAscii(q) && ':' !in q
    ensures !Valueless(q)
  {
    StripIn(Lower(q));
    LowerColon(q);
    if NamesLength(q) {
      LengthHasColon(Strip(Lower(q)));
    }
  }

  lemma {:induction false} StripLeftIn(s: string)
    ensures forall c :: c in StripLeft(s) ==> c in s
  {
    if s != "" && IsSpace(s[0]) {
      StripLeftIn(s[1..]);
    }
  }

  predicate IsOws(c: char) {
    c == ' ' || c == '\t'
  }

  function OwsRun(s: string): nat {
    if s != "" && IsOws(s[0]) then 1 + OwsRun(s[1..]) else 0
  }

  lemma {:induction false} OwsRunOf(before: string, rest: string)
    requires Ows(before) && rest != "" && !IsOws(rest[0])
    ensures OwsRun(before + rest) == |before|
  {
    if before == "" {
      assert before + rest == rest;
    } else {
      OwsRunOf(before[1..], rest);
      assert (before + rest)[1..] == before[1..] + rest;
    }
  }

  lemma SplitOf(line: string, name: string, before: string, digits: string, after: string, n: nat)
    requires IsLengthLine(line, name, before, digits, after, n)
    ensures |name| == 14 < |line| && |before| == OwsRun(line[15..])
  {
    assert |Lower(name)| == |"content-length"|;
    assert line[15..] == before + (digits + after);
    OwsRunOf(before, digits + after);
  }

  /** A Content-Length line cut anywhere: it raises exactly after the colon and before a digit. */
  lemma LengthCut(line: string, n: nat, q: string)
    requires LengthLine(line, n) && q != "" && q <= line + "\r"
    ensures Valueless(q) <==> BeforeValue(line, |q|)
  {
    var name, before, digits, after :| IsLengthLine(line, name, before, digits, after, n);
    if name', before', digits', after', n' :|
      IsLengthLine(line, name', before', digits', after', n') && |name'| < |q| <= |name'| + 1 + |before'| {
      SplitOf(line, name', before', digits', after', n');
    }
    SplitOf(line, name, before, digits, after, n);
    assert BeforeValue(line, |q|) <==> |name| < |q| <= |name| + 1 + |before|;
    LengthCutAt(line, name, before, digits, after, n, q);
  }

  lemma LengthCutAt(line: string, name: string, before: string, digits: string, after: string, n: nat, q: string)
    requires IsLengthLine(line, name, before, digits, after, n) && q != "" && q <= line + "\r"
    ensures Valueless(q) <==> |name| < |q| <= |name| + 1 + |before|
  {
    var k := |name| + 1;
    var full := line + "\r";
    assert q == full[..|q|];
    if |q| <= |name| {
      assert q == name[..|q|];
      assert ':' !in name by { LowerHasNoColon(name); }
      NoColonCut(q);
    } else if |q| <= k + |before| {
      assert q == name + ":" + before[..|q| - k];
      NoValueCut(name, before[..|q| - k]);
    } else {
      var d := if |q| <= k + |before| + |digits| then |q| - k - |before| else |digits|;
      var tail := q[k + |before| + d..];
      assert full == name + ":" + before + digits + (after + "\r");
      assert q == name + ":" + before + digits[..d] + tail;
      assert forall i :: 0 <= i < |tail| ==> tail[i] in after + "\r";
      ValueCut(name, before, digits[..d], tail);
    }
  }

  lemma LowerHasNoColon(name: string)
    requires Lower(name) == "content-length"
    ensures ':' !in name
  {
    forall i | 0 <= i < |name| ensures name[i] != ':' {
      assert Lower(name)[i] == "content-length"[i];
    }
  }

  // ------------------------------------------------------------ a stream cut

  /** Read to the end of the stream, a partial line counts as one. */
  lemma PartialLine(line: string, n: nat, q: string, contentLength: int)
    requires PlainLine(line) || LengthLine(line, n)
    requires q < line + "\r\n"
    ensures ReadHeaders(q, contentLength).Malformed? <==> BeforeValue(line, |q|)
    ensures !ReadHeaders(q, contentLength).Ready?
  {
    NoLineFeed(line, n);
    assert q <= line + "\r" by {
      assert line + "\r\n" == (line + "\r") + "\n";
    }
    assert '\n' !in q;
    AllOneLine(q);
    if q != "" {
      assert q[|q|..] == "";
      if PlainLine(line) {
        PlainCut(line, q);
      } else {
        LengthCut(line, n, q);
      }
    } else {
      assert !BeforeValue(line, 0);
    }
  }

  lemma WholeLine(line: string, n: nat, rest: string, contentLength: int)
    requires PlainLine(line) || LengthLine(line, n)
    ensures ReadHeaders(line + "\r\n" + rest, contentLength)
      == ReadHeaders(rest, if LengthLine(line, n) then n else contentLength)
  {
    NoLineFeed(line, n);
    var r := line + "\r\n" + rest;
    assert r == line + "\r" + "\n" + rest;
    FirstLineOf(line + "\r", rest);
    assert FirstLine(r) == line + "\r\n" != "\r\n";
    HeaderOf(line, n, contentLength);
    assert r[|line| + 2..] == rest;
  }

  lemma {:induction false} CutHead(head: seq<string>, n: nat, body: string, r: string, contentLength: int)
    requires forall i :: 0 <= i < |head| ==> PlainLine(head[i]) || LengthLine(head[i], n)
    requires r <= Lines(head) + "\r\n" + body
    ensures ReadHeaders(r, contentLength).Malformed? <==> CutBeforeValue(head, |r|)
    decreases |head|
  {
    var all := Lines(head) + "\r\n" + body;
    if head == [] {
      assert all == "\r\n" + body;
      CutEmptyLine(body, r, contentLength);
    } else {
      var line := head[0];
      var rest := Lines(head[1..]) + "\r\n" + body;
      assert all == line + "\r\n" + rest;
      PrefixOfConcat(r, line + "\r\n", rest);
      if |r| < |line| + 2 {
        PartialLine(line, n, r, contentLength);
      } else {
        var r' := r[|line| + 2..];
        WholeLine(line, n, r', contentLength);
        CutHead(head[1..], n, body, r', if LengthLine(line, n) then n else contentLength);
      }
    }
  }

  lemma CutEmptyLine(body: string, r: string, contentLength: int)
    requires r <= "\r\n" + body
    ensures !ReadHeaders(r, contentLength).Malformed?
  {
    if |r| == 1 {
      assert r == "\r";
      assert FirstLine(r) == "\r";
      NoColonCut("\r");
    } else if |r| >= 2 {
      assert r[0] == '\r' && r[1] == '\n';
      assert FirstLine(r[1..]) == "\n";
      assert FirstLine(r) == "\r\n";
    }
  }

  /** A message cut anywhere ends in an exception if the cut is in a Content-Length line after
      the colon and before any digit; anywhere else, bodies included, the peer is taken to
      have closed the connection. */
  lemma CutMessageEnds(m: Message, r: string)
    requires WellFormed(m) && r < Encode(m)
    ensures ReadMessage(r) == if CutBeforeValue(m.head, |r|) then Raised else Closed
  {
    CutMessageIsNotRead(m, r);
    CutHead(m.head, |m.body|, m.body, r, 0);
  }

  /** What is left after the complete messages of a cut pipeline. */
  function Ending(s: string): Outcome {
    ReadMessage(After(s, Count(s)))
  }

  ghost predicate AllWellFormed(ms: seq<Message>) {
    forall i :: 0 <= i < |ms| ==> WellFormed(ms[i])
  }

  /** The cut falls in one of the messages, in such a place. */
  ghost predicate PipelineCutBeforeValue(ms: seq<Message>, k: int) {
    ms != [] &&
    if k < |Encode(ms[0])| then CutBeforeValue(ms[0].head, k)
    else PipelineCutBeforeValue(ms[1..], k - |Encode(ms[0])|)
  }

  /** So for any pipeline of well-formed messages cut at any octet. */
  lemma {:induction false} CutPipelineEnds(ms: seq<Message>, p: string)
    requires AllWellFormed(ms) && p <= EncodeAll(ms)
    ensures Ending(p) == if PipelineCutBeforeValue(ms, |p|) then Raised else Closed
    decreases |ms|
  {
    if ms == [] {
      assert p == "" && FirstLine("") == "";
      assert ReadMessage("") == Closed;
    } else {
      PrefixOfConcat(p, Encode(ms[0]), EncodeAll(ms[1..]));
      if |p| < |Encode(ms[0])| {
        CutMessageEnds(ms[0], p);
        assert Count(p) == 0;
      } else {
        var q := p[|Encode(ms[0])|..];
        ReadsOneMessage(ms[0], q);
        CutPipelineEnds(ms[1..], q);
        assert After(p, Count(p)) == After(q, Count(q));
      }
    }
  }

  lemma {:induction false} NoCutAtEnd(ms: seq<Message>)
    ensures !PipelineCutBeforeValue(ms, |EncodeAll(ms)|)
  {
    if ms != [] {
      NoCutAtEnd(ms[1..]);
    }
  }

  /** In particular the ordinary end of a connection, after whole messages, is no exception. */
  lemma PipelineCloses(ms: seq<Message>)
    requires AllWellFormed(ms)
    ensures Ending(EncodeAll(ms)) == Closed
  {
    CutPipelineEnds(ms, EncodeAll(ms));
    NoCutAtEnd(ms);
  }

  ghost predicate IsPipeline(s: string) {
    exists ms :: AllWellFormed(ms) && s == EncodeAll(ms)
  }

  lemma WholePipelineCloses(s: string)
    ensures IsPipeline(s) ==> Ending(s) == Closed
  {
    if ms :| AllWellFormed(ms) && s == EncodeAll(ms) {
      PipelineCloses(ms);
    }
  }

  // --------------------------------------------------------------- oddities

  lemma StripNothing(s: string)
    requires s != "" && !IsSpace(s[0]) && !IsSpace(s[|s| - 1])
    ensures Strip(s) == s
  {
    StripAround("", s, "");
    assert "" + s + "" == s;
  }

  /** int() takes one sign; a length below zero is then read as no body at all. */
  lemma SignedNumeral(sign: char, digits: string)
    requires (sign == '-' || sign == '+') && digits != "" && AllDigits(digits)
    ensures var v := ParseInt([sign] + digits);
      v.Some? && v.value == if sign == '-' then 0 - Value(digits) else Value(digits)
  {
    var s := [sign] + digits;
    StripNothing(s);
    assert s[1..] == digits;
    DigitsOnly(digits);
  }

  /** It takes no text with a letter in it. */
  lemma LettersRaise(s: string, i: nat)
    requires s != "" && !IsSpace(s[0]) && !IsSpace(s[|s| - 1])
    requires i < |s| && 'a' <= s[i] <= 'z'
    ensures ParseInt(s) == None
  {
    StripNothing(s);
    if s[0] == '-' || s[0] == '+' {
      assert s[1..][i - 1] == s[i];
      assert !DigitOrJoint(s[1..], i - 1);
    } else {
      assert !DigitOrJoint(s, i);
    }
  }
}
