/**
 The text side of the HTTP readers: one header line at a time, in the string
 operations of Python that the readers use.  An octet is a char; a line with an
 octet that is not ASCII is treated as one the readers cannot decode.
 */
module HttpText {
  import opened Bytes
  import opened Numerals

  predicate IsAscii(s: string) {
    forall i :: 0 <= i < |s| ==> s[i] < 128 as char
  }

  /** What strip removes: blanks, tab, line ends, the other ASCII controls Python counts as space. */
  predicate IsSpace(c: char) {
    c == ' ' || 9 as char <= c <= 13 as char || 28 as char <= c <= 31 as char
  }

  predicate AllSpace(s: string) {
    forall i :: 0 <= i < |s| ==> IsSpace(s[i])
  }

  function LowerChar(c: char): char {
    if 'A' <= c <= 'Z' then c + 32 as char else c
  }

  function Lower(s: string): (r: string)
    ensures |r| == |s| && forall i :: 0 <= i < |s| ==> r[i] == LowerChar(s[i])
  {
    seq(|s|, i requires 0 <= i < |s| => LowerChar(s[i]))
  }

  function StripLeft(s: string): string {
    if s != "" && IsSpace(s[0]) then StripLeft(s[1..]) else s
  }

  function StripRight(s: string): string {
    if s != "" && IsSpace(s[|s| - 1]) then StripRight(s[..|s| - 1]) else s
  }

  function Strip(s: string): string {
    StripRight(StripLeft(s))
  }

  /** The text up to the first colon. */
  function UpToColon(s: string): string {
    if s == "" || s[0] == ':' then "" else [s[0]] + UpToColon(s[1..])
  }

  /** The digits of a numeral; single underscores between digits are skipped. */
  function Numeral(s: string): Option<nat> {
    if |s| > 0 && forall i :: 0 <= i < |s| ==> DigitOrJoint(s, i) then
      Some(Value(OnlyDigits(s)))
    else
      None
  }

  predicate DigitOrJoint(s: string, i: nat)
    requires i < |s|
  {
    IsDigit(s[i]) || (s[i] == '_' && 0 < i < |s| - 1 && IsDigit(s[i - 1]) && IsDigit(s[i + 1]))
  }

  function OnlyDigits(s: string): (r: string)
    ensures AllDigits(r)
  {
    if s == "" then "" else (if IsDigit(s[0]) then [s[0]] else "") + OnlyDigits(s[1..])
  }

  /** Python's int() of a string: spaces around, one sign, a numeral; None is ValueError. */
  function ParseInt(s: string): Option<int> {
    var t := Strip(s);
    if t != "" && t[0] == '-' then
      match Numeral(t[1..]) case Some(n) => Some(0 - n) case None => None
    else if t != "" && t[0] == '+' then
      match Numeral(t[1..]) case Some(n) => Some(n) case None => None
    else
      match Numeral(t) case Some(n) => Some(n) case None => None
  }

  const CONTENT_LENGTH: string := "content-length:"

  /** What one header line does to the content length: None is an exception. */
  function Header(line: string, contentLength: int): Option<int> {
    if !IsAscii(line) then None
    else
      var t := Strip(Lower(line));
      if CONTENT_LENGTH <= t then ParseInt(UpToColon(t[|CONTENT_LENGTH|..])) else Some(contentLength)
  }

  // ------------------------------------------------ lines as RFC 9112 has them

  /** A start line or a field line that is not about the content length. */
  ghost predicate PlainLine(line: string) {
    && line != "" && IsAscii(line) && '\r' !in line && '\n' !in line
    && !IsSpace(line[0])
    && !(CONTENT_LENGTH <= Lower(line))
  }

  /** Optional white space of a field line. */
  predicate Ows(s: string) {
    forall i :: 0 <= i < |s| ==> s[i] == ' ' || s[i] == '\t'
  }

  /** A Content-Length field with value `n`: any case, white space around, leading zeros. */
  ghost predicate LengthLine(line: string, n: nat) {
    exists name, before, digits, after :: IsLengthLine(line, name, before, digits, after, n)
  }

  ghost predicate IsLengthLine(line: string, name: string, before: string, digits: string, after: string, n: nat) {
    && line == name + ":" + before + digits + after
    && Lower(name) == "content-length" && IsAscii(name)
    && Ows(before) && Ows(after) && digits != "" && AllDigits(digits) && Value(digits) == n
  }

  // ----------------------------------------------------------- string facts

  lemma {:induction false} StripLeftSpaces(a: string, s: string)
    requires AllSpace(a) && (s != "" ==> !IsSpace(s[0]))
    ensures StripLeft(a + s) == s
  {
    if a == "" {
      assert a + s == s;
    } else {
      StripLeftSpaces(a[1..], s);
      assert (a + s)[1..] == a[1..] + s;
    }
  }

  lemma {:induction false} StripRightSpaces(s: string, b: string)
    requires AllSpace(b) && s != "" && !IsSpace(s[|s| - 1])
    ensures StripRight(s + b) == s
  {
    if b == "" {
      assert s + b == s;
    } else {
      StripRightSpaces(s, b[..|b| - 1]);
      assert (s + b)[..|s + b| - 1] == s + b[..|b| - 1];
    }
  }

  /** Strip takes off the spaces around and nothing else. */
  lemma StripAround(a: string, s: string, b: string)
    requires AllSpace(a) && AllSpace(b) && s != "" && !IsSpace(s[0]) && !IsSpace(s[|s| - 1])
    ensures Strip(a + s + b) == s
  {
    assert a + s + b == a + (s + b);
    StripLeftSpaces(a, s + b);
    StripRightSpaces(s, b);
  }

  lemma {:induction false} NoColon(s: string)
    requires ':' !in s
    ensures UpToColon(s) == s
  {
    if s != "" {
      assert s[1..] == s[1..];
      NoColon(s[1..]);
    }
  }

  lemma {:induction false} DigitsOnly(s: string)
    requires AllDigits(s)
    ensures OnlyDigits(s) == s
  {
    if s != "" {
      DigitsOnly(s[1..]);
    }
  }

  /** int() reads a numeral with white space around it. */
  lemma ParsePadded(before: string, digits: string, after: string)
    requires AllSpace(before) && AllSpace(after) && digits != "" && AllDigits(digits)
    ensures ParseInt(before + digits + after) == Some(Value(digits))
  {
    StripAround(before, digits, after);
    DigitsOnly(digits);
  }

  lemma {:induction false} StripRightPrefix(s: string)
    ensures StripRight(s) <= s
  {
    if s != "" && IsSpace(s[|s| - 1]) {
      StripRightPrefix(s[..|s| - 1]);
    }
  }

  /** A plain line leaves the content length alone. */
  lemma PlainHeader(line: string, contentLength: int)
    requires PlainLine(line)
    ensures Header(line + "\r\n", contentLength) == Some(contentLength)
  {
    var low := Lower(line + "\r\n");
    assert !IsSpace(low[0]);
    assert StripLeft(low) == low;
    StripRightPrefix(low);
    assert Strip(low) <= low;
  }

  /** What strip and lower leave of a Content-Length line. */
  lemma LengthLineStripped(name: string, before: string, digits: string, after: string)
    requires Lower(name) == "content-length" && Ows(before) && Ows(after) && digits != "" && AllDigits(digits)
    ensures Strip(Lower(name + ":" + before + digits + after + "\r\n")) == CONTENT_LENGTH + before + digits
  {
    var value := before + digits + (after + "\r\n");
    LowerValue(before, digits, after + "\r\n");
    assert name + ":" + before + digits + after + "\r\n" == name + ":" + value;
    assert Lower(name + ":" + value) == Lower(name) + ":" + Lower(value);
    assert "content-length" + ":" == CONTENT_LENGTH;
    assert Lower(value) == value;
    assert Lower(name + ":" + value) == CONTENT_LENGTH + value;
    assert CONTENT_LENGTH + value == CONTENT_LENGTH + before + digits + (after + "\r\n");
    StripKeepsValue(CONTENT_LENGTH + before + digits, after + "\r\n");
  }

  lemma ValueField(before: string, digits: string)
    requires Ows(before) && digits != "" && AllDigits(digits)
    ensures ParseInt(UpToColon((CONTENT_LENGTH + before + digits)[|CONTENT_LENGTH|..])) == Some(Value(digits))
  {
    assert (CONTENT_LENGTH + before + digits)[|CONTENT_LENGTH|..] == before + digits;
    NoColon(before + digits);
    ParsePadded(before, digits, "");
    assert before + digits + "" == before + digits;
  }

  /** A Content-Length line sets it to the field's value, whatever it was. */
  lemma LengthHeader(line: string, n: nat, contentLength: int)
    requires LengthLine(line, n)
    ensures Header(line + "\r\n", contentLength) == Some(n)
  {
    var name, before, digits, after :| IsLengthLine(line, name, before, digits, after, n);
    LengthLineStripped(name, before, digits, after);
    LengthLineAscii(name, before, digits, after);
    ValueField(before, digits);
    var t := CONTENT_LENGTH + before + digits;
    assert CONTENT_LENGTH <= t;
  }

  lemma LengthLineAscii(name: string, before: string, digits: string, after: string)
    requires IsAscii(name) && Ows(before) && Ows(after) && AllDigits(digits)
    ensures IsAscii(name + ":" + before + digits + after + "\r\n")
  {
  }

  lemma LowerValue(before: string, digits: string, after: string)
    requires Ows(before) && AllDigits(digits) && AllSpace(after)
    ensures Lower(before + digits + after) == before + digits + after
  {
  }

  lemma StripKeepsValue(s: string, b: string)
    requires s != "" && !IsSpace(s[0]) && !IsSpace(s[|s| - 1]) && AllSpace(b)
    ensures Strip(s + b) == s
  {
    StripAround("", s, b);
    assert "" + s + b == s + b;
  }
}
