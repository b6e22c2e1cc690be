/**
 The one message the streaming clients send: a header section, a properties
 section and an amqp-value section holding binary data, as sections 3.2.1, 3.2.4
 and 3.2.8 of AMQP 1.0 define them, with the types of its section 1.6.
 */
module AmqpMessage {
  import opened Bytes

  const TWO32: nat := 0x1_0000_0000

  /** Everything before the length of the binary data. */
  const MSG_HEADER: bytes := [
    0x00, 0x53, 0x70, 0x45,
    0x00, 0x53, 0x73, 0x45,
    0x00, 0x53, 0x77, 0xb0]

  /** A 32-bit length in network order. */
  function NetworkOrder(n: nat): (b: bytes)
    requires n < TWO32
    ensures |b| == 4
  {
    [n / 0x100_0000, n / 0x1_0000 % 0x100, n / 0x100 % 0x100, n % 0x100]
  }

  function ReadNetworkOrder(b: bytes): nat
    requires |b| == 4
  {
    (b[0] as int) * 0x100_0000 + (b[1] as int) * 0x1_0000 + (b[2] as int) * 0x100 + b[3] as int
  }

  lemma NetworkOrderReads(n: nat)
    requires n < TWO32
    ensures ReadNetworkOrder(NetworkOrder(n)) == n
  {
    var a, b := n / 0x100, n / 0x1_0000;
    assert n == a * 0x100 + n % 0x100;
    assert a == b * 0x100 + a % 0x100;
    assert b == n / 0x100_0000 * 0x100 + b % 0x100;
  }

  /** What a client writes before the body: the header and the length announced. */
  function Prologue(n: nat): (b: bytes)
    requires n < TWO32
    ensures |b| == 16
  {
    MSG_HEADER + NetworkOrder(n)
  }

  function Encode(body: bytes): bytes
    requires |body| < TWO32
  {
    Prologue(|body|) + body
  }

  // ---------------------------------------------------------------- decoding

  datatype Value = EmptyList | Binary(data: bytes)

  datatype Section = Section(code: byte, value: Value, rest: bytes)

  /** A value: an empty list, or binary data with an 8-bit or a 32-bit length. */
  function DecodeValue(b: bytes, code: byte): Option<Section> {
    if |b| >= 1 && b[0] == 0x45 then Some(Section(code, EmptyList, b[1..]))
    else if |b| >= 2 && b[0] == 0xa0 then DecodeData(b[2..], b[1], code)
    else if |b| >= 5 && b[0] == 0xb0 then DecodeData(b[5..], ReadNetworkOrder(b[1..5]), code)
    else None
  }

  function DecodeData(b: bytes, n: nat, code: byte): Option<Section> {
    if n <= |b| then Some(Section(code, Binary(b[..n]), b[n..])) else None
  }

  /** A section: a described value whose descriptor is a small unsigned long. */
  function DecodeSection(b: bytes): Option<Section> {
    if |b| >= 3 && b[0] == 0x00 && b[1] == 0x53 then DecodeValue(b[3..], b[2]) else None
  }

  /** A whole message of the three sections, and its data. */
  function DecodeMessage(b: bytes): Option<bytes> {
    var h := DecodeSection(b);
    if h.None? || h.value.code != 0x70 || !h.value.value.EmptyList? then None
    else
      var p := DecodeSection(h.value.rest);
      if p.None? || p.value.code != 0x73 || !p.value.value.EmptyList? then None
      else
        var v := DecodeSection(p.value.rest);
        if v.None? || v.value.code != 0x77 || !v.value.value.Binary? || v.value.rest != [] then None
        else Some(v.value.value.data)
  }

  lemma DecodeBody(n: nat, data: bytes)
    requires n < TWO32
    ensures DecodeSection([0x00, 0x53, 0x77, 0xb0] + (NetworkOrder(n) + data)) == DecodeData(data, n, 0x77)
  {
    var v := [0x00, 0x53, 0x77, 0xb0] + (NetworkOrder(n) + data);
    assert v[3..] == [0xb0] + (NetworkOrder(n) + data);
    assert v[3..][1..5] == (NetworkOrder(n) + data)[..4] == NetworkOrder(n);
    NetworkOrderReads(n);
    assert v[3..][5..] == data;
  }

  /** The three sections of anything that starts with a prologue. */
  lemma DecodePrologue(n: nat, data: bytes)
    requires n < TWO32
    ensures DecodeMessage(Prologue(n) + data) == if |data| == n then Some(data) else None
  {
    var b := Prologue(n) + data;
    assert DecodeSection(b) == Some(Section(0x70, EmptyList, b[4..]));
    assert DecodeSection(b[4..]) == Some(Section(0x73, EmptyList, b[8..]));
    assert b[8..] == [0x00, 0x53, 0x77, 0xb0] + (NetworkOrder(n) + data);
    DecodeBody(n, data);
    if |data| == n {
      assert data[..n] == data && data[n..] == [];
    }
  }

  /** What is encoded is decoded. */
  lemma DecodeEncode(body: bytes)
    requires |body| < TWO32
    ensures DecodeMessage(Encode(body)) == Some(body)
  {
    DecodePrologue(|body|, body);
  }

  /** A message cut anywhere decodes to nothing: a delivery that is not finished, and
      the fragment the link loader leaves in flight, cannot be taken for a message. */
  lemma CutMessageDoesNotDecode(body: bytes, p: bytes)
    requires |body| < TWO32 && p < Encode(body)
    ensures DecodeMessage(p) == None
  {
    var e := Encode(body);
    assert forall i :: 0 <= i < |p| ==> p[i] == e[i];
    if |p| >= 16 {
      assert p == Prologue(|body|) + p[16..];
      DecodePrologue(|body|, p[16..]);
    }
  }
}
