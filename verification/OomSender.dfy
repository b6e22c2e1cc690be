/**
 The out-of-memory sender: streams one message of the largest length an AMQP binary
 can announce after another, a batch of the body at each flow event, within what the
 peer's session window leaves free.
 */
module OomSender {
  import opened Bytes
  import opened AmqpMessage

  const UINT32_MAX: nat := 0xffff_ffff

  const BATCH_SIZE: nat := 1001

  /** The digits 0 to 9 a hundred times over, then the string's closing zero. */
  function BatchOctet(i: nat): byte {
    if i < BATCH_SIZE - 1 then 0x30 + i % 10 else 0
  }

  /** The first `n` octets of the batch. */
  function Batch(n: nat): (b: bytes)
    ensures |b| == n
  {
    seq(n, i requires 0 <= i < n => BatchOctet(i))
  }

  /** `buffered` counts the session's outgoing octets; `pending` and `finished` are the
      octets of the current and of the finished deliveries; `drained` those the
      transport has taken from the session; `failed` says that a null delivery was used. */
  datatype State = State(credit: nat, current: bool, bytesSent: nat, totalBytes: nat, tag: nat,
                         buffered: nat, pending: bytes, finished: seq<bytes>, drained: nat,
                         failed: bool)

  /** The octets of the body this flow event sends: none once the body is complete, and
      none while as much is buffered as the window can hold. */
  function Amount(bytesSent: int, capacity: int, buffered: int): int {
    var wanted := Min(BATCH_SIZE, UINT32_MAX - bytesSent);
    if wanted > 0 && capacity > buffered then Min(wanted, capacity - buffered) else 0
  }

  /** The first arrival of credit: a new delivery, its prologue written at once. */
  function Begun(s: State): State {
    s.(current := true, bytesSent := 0, totalBytes := 16, tag := s.tag + 1,
       buffered := s.buffered + 16, pending := Prologue(UINT32_MAX))
  }

  function Written(s: State, n: nat): State
    requires n <= BATCH_SIZE
  {
    s.(bytesSent := s.bytesSent + n, totalBytes := s.totalBytes + n,
       buffered := s.buffered + n, pending := s.pending + Batch(n))
  }

  function Advanced(s: State): State {
    s.(current := false, credit := if s.credit > 0 then s.credit - 1 else 0,
       pending := [], finished := s.finished + [s.pending])
  }

  /** PN_LINK_FLOW, which needs a current delivery or credit for one; the window is compared
      with what was buffered before the prologue. */
  function FlowHandled(s: State, capacity: nat): State {
    if !s.current && s.credit == 0 then s.(failed := true)
    else
      var b := if s.current then s else Begun(s);
      if b.bytesSent < UINT32_MAX then Written(b, Amount(b.bytesSent, capacity, s.buffered))
      else Advanced(b)
  }

  datatype Event =
    | Credit(n: nat)
    | Flow(capacity: nat)       // the window the peer's session offers, in octets
    | Drain(n: nat)             // the transport takes octets from the session

  /** Proton may post a flow event at any time. */
  predicate Enabled(s: State, e: Event) {
    !s.failed && (e.Drain? ==> e.n <= s.buffered)
  }

  function Step(s: State, e: Event): State
    requires Enabled(s, e)
  {
    match e
    case Credit(n) => s.(credit := s.credit + n)
    case Flow(capacity) => FlowHandled(s, capacity)
    case Drain(n) => s.(buffered := s.buffered - n, drained := s.drained + n)
  }

  // -------------------------------------------------------------- invariants

  /** A delivery that is nothing but a message of the length it announces. */
  predicate Whole(b: bytes) {
    |b| == 16 + UINT32_MAX && b[..16] == Prologue(UINT32_MAX)
  }

  function Octets(parts: seq<bytes>): nat {
    if parts == [] then 0 else Octets(parts[..|parts| - 1]) + |parts[|parts| - 1]|
  }

  ghost predicate Inv(s: State) {
    && (s.current ==> s.bytesSent <= UINT32_MAX && s.credit > 0)
    && (s.current ==> s.totalBytes == |s.pending| == 16 + s.bytesSent && s.pending[..16] == Prologue(UINT32_MAX))
    && (!s.current ==> s.pending == [])
    && (forall i :: 0 <= i < |s.finished| ==> Whole(s.finished[i]))
    && s.tag == |s.finished| + (if s.current then 1 else 0)
    && Octets(s.finished) + |s.pending| == s.drained + s.buffered
  }

  lemma {:induction false} WholeOctets(parts: seq<bytes>)
    requires forall i :: 0 <= i < |parts| ==> Whole(parts[i])
    ensures Octets(parts) == |parts| * (16 + UINT32_MAX)
  {
    if parts != [] {
      WholeOctets(parts[..|parts| - 1]);
    }
  }

  lemma WrittenKeeps(s: State, n: nat)
    requires Inv(s) && s.current && n <= BATCH_SIZE && s.bytesSent + n <= UINT32_MAX
    ensures Inv(Written(s, n))
  {
    var t := Written(s, n);
    assert |t.pending| == |s.pending| + n;
    assert t.pending[..16] == s.pending[..16];
  }

  lemma AdvancedKeeps(s: State)
    requires Inv(s) && s.current && s.bytesSent == UINT32_MAX
    ensures Inv(Advanced(s))
  {
    var t := Advanced(s);
    assert t.finished[..|t.finished| - 1] == s.finished;
  }

  lemma FlowKeeps(s: State, capacity: nat)
    requires Inv(s)
    ensures Inv(FlowHandled(s, capacity))
  {
    if !s.current && s.credit == 0 {
      return;
    }
    var b := if s.current then s else Begun(s);
    assert Inv(b);
    if b.bytesSent < UINT32_MAX {
      WrittenKeeps(b, Amount(b.bytesSent, capacity, s.buffered));
    } else {
      AdvancedKeeps(b);
    }
  }

  lemma StepKeeps(s: State, e: Event)
    requires Inv(s) && Enabled(s, e)
    ensures Inv(Step(s, e))
  {
    if e.Flow? {
      FlowKeeps(s, e.capacity);
    }
  }

  // -------------------------------------------------------------- one event

  /** A flow event sends the most octets of the body that the batch, the body and the open
      window all have room for, and none while the window is full; the delivery is advanced
      exactly when all of it is sent. */
  lemma FlowProgress(s: State, capacity: nat)
    requires Inv(s) && (s.current || s.credit > 0)
    ensures var sent, t := if s.current then s.bytesSent else 0, FlowHandled(s, capacity);
      && (!t.current <==> sent == UINT32_MAX)
      && |t.finished| == |s.finished| + (if sent == UINT32_MAX then 1 else 0)
      && (t.current && capacity <= s.buffered ==> t.bytesSent == sent)
      && (t.current && capacity > s.buffered ==>
        var n, room := t.bytesSent - sent, capacity - s.buffered;
        && 0 < n <= BATCH_SIZE && n <= UINT32_MAX - sent && n <= room
        && (n == BATCH_SIZE || n == UINT32_MAX - sent || n == room))
  {
  }

  const DIGITS: string := "0123456789"

  /** And those are the digits in turn from 0 on, a batch's last octet a zero byte, behind
      what the delivery had, or behind the prologue of a delivery just begun; deliveries
      finished before stay as they were, and the one finished now is what was sent of it. */
  lemma FlowOctets(s: State, capacity: nat)
    requires Inv(s) && (s.current || s.credit > 0)
    ensures var t := FlowHandled(s, capacity);
      if t.current then
        var before := if s.current then s.pending else Prologue(UINT32_MAX);
        && t.finished == s.finished
        && before <= t.pending
        && |t.pending| - |before| == t.bytesSent - (if s.current then s.bytesSent else 0)
        && (forall i :: |before| <= i < |t.pending| ==>
          var k := i - |before|;
          t.pending[i] == if k == 1000 then 0 else DIGITS[k % 10] as int)
      else t.finished == s.finished + [s.pending]
  {
    var b := if s.current then s else Begun(s);
    if b.bytesSent < UINT32_MAX {
      BatchDigits(Amount(b.bytesSent, capacity, s.buffered));
    }
  }

  lemma BatchDigits(n: nat)
    requires n <= BATCH_SIZE
    ensures forall k :: 0 <= k < n ==> Batch(n)[k] == if k == 1000 then 0 else DIGITS[k % 10] as int
  {
    forall k | 0 <= k < n && k < 1000 ensures Batch(n)[k] == DIGITS[k % 10] as int {
      assert DIGITS[k % 10] as int == 0x30 + k % 10;
    }
  }

  /** No flow event raises what is buffered by more than a prologue above the window, or
      above what was buffered before; and by nothing above them while a delivery goes on. */
  lemma FlowRespectsWindow(s: State, capacity: nat)
    requires Inv(s)
    ensures var most := if s.buffered > capacity then s.buffered else capacity;
      FlowHandled(s, capacity).buffered <= most + if s.current then 0 else 16
  {
  }

  // -------------------------------------------------------------------- runs

  ghost predicate Initial(s: State) {
    s == State(0, false, 0, 0, 0, 0, [], [], 0, false)
  }

  ghost predicate Run(s: State, es: seq<Event>, t: State)
    decreases |es|
  {
    if es == [] then s == t
    else Enabled(s, es[0]) && Run(Step(s, es[0]), es[1..], t)
  }

  lemma {:induction false} RunKeeps(s: State, es: seq<Event>, t: State)
    requires Inv(s) && Run(s, es, t)
    ensures Inv(t)
    decreases |es|
  {
    if es != [] {
      StepKeeps(s, es[0]);
      RunKeeps(Step(s, es[0]), es[1..], t);
    }
  }

  // --------------------------------------------------------- a null delivery

  function Granted(es: seq<Event>): nat {
    if es == [] then 0 else (if es[0].Credit? then es[0].n else 0) + Granted(es[1..])
  }

  /** A message finished takes one of the credits granted, and nothing else does. */
  lemma {:induction false} RunCredit(s: State, es: seq<Event>, t: State)
    requires Inv(s) && Run(s, es, t)
    ensures t.credit + |t.finished| == s.credit + |s.finished| + Granted(es)
    decreases |es|
  {
    if es != [] {
      StepKeeps(s, es[0]);
      RunCredit(Step(s, es[0]), es[1..], t);
    }
  }

  /** In every run a flow event uses a null delivery if and only if it comes when a message
      has been finished for every credit granted, before the first credit included. */
  lemma FailsExactly(s: State, es: seq<Event>, t: State, e: Event)
    requires Initial(s) && Run(s, es, t) && Enabled(t, e)
    ensures Step(t, e).failed <==> e.Flow? && |t.finished| == Granted(es)
  {
    RunKeeps(s, es, t);
    RunCredit(s, es, t);
  }

  lemma RunFrom(s: State, e: Event, es: seq<Event>, t: State)
    requires Enabled(s, e) && Run(Step(s, e), es, t)
    ensures Run(s, [e] + es, t)
  {
    assert ([e] + es)[1..] == es;
  }

  /** From any current delivery flow events with room enough send the rest of its body, and
      the next two finish it and, with no credit left, use a null delivery. */
  lemma {:induction false} RunsOut(s: State) returns (es: seq<Event>, t: State)
    requires Inv(s) && !s.failed && s.current && s.credit == 1
    ensures Run(s, es, t) && t.failed && |t.finished| == |s.finished| + 1
    decreases UINT32_MAX - s.bytesSent
  {
    var e := Flow(s.buffered + BATCH_SIZE);
    var u := Step(s, e);
    StepKeeps(s, e);
    if s.bytesSent < UINT32_MAX {
      es, t := RunsOut(u);
    } else {
      t := Step(u, Flow(0));
      assert Run(t, [], t);
      RunFrom(u, Flow(0), [], t);
      es := [Flow(0)] + [];
    }
    RunFrom(s, e, es, t);
    es := [e] + es;
  }

  /** Such a run from the start: one credit, one message, and one flow event too many. */
  lemma OneCreditRunsOut(s: State) returns (es: seq<Event>, t: State)
    requires Initial(s)
    ensures Run(s, es, t) && t.failed && |t.finished| == 1
  {
    var a := Step(s, Credit(1));
    var b := Step(a, Flow(0));
    StepKeeps(s, Credit(1));
    StepKeeps(a, Flow(0));
    es, t := RunsOut(b);
    RunFrom(a, Flow(0), es, t);
    es := [Flow(0)] + es;
    RunFrom(s, Credit(1), es, t);
    es := [Credit(1)] + es;
  }

  // --------------------------------------------------------- whole messages

  /** In every run each finished delivery is one whole message of UINT32_MAX octets of
      data, and decodes; and every octet written has left the session or is buffered. */
  lemma FinishedAreWhole(s: State, es: seq<Event>, t: State, i: nat)
    requires Initial(s) && Run(s, es, t)
    ensures i < |t.finished| ==>
      |t.finished[i]| == 16 + UINT32_MAX && DecodeMessage(t.finished[i]) == Some(t.finished[i][16..])
    ensures t.current ==> t.totalBytes == 16 + t.bytesSent
    ensures |t.finished| * (16 + UINT32_MAX) + (if t.current then t.totalBytes else 0) == t.drained + t.buffered
  {
    RunKeeps(s, es, t);
    WholeOctets(t.finished);
    if i < |t.finished| {
      var b := t.finished[i];
      assert Whole(b);
      assert b == Prologue(UINT32_MAX) + b[16..];
      DecodePrologue(UINT32_MAX, b[16..]);
    }
  }

  /** Every window offered holds at most `w` octets. */
  ghost predicate WindowsWithin(es: seq<Event>, w: nat) {
    forall i :: 0 <= i < |es| && es[i].Flow? ==> es[i].capacity <= w
  }

  /** A prologue may overshoot the window, but not the last octets of a body. */
  ghost predicate Within(s: State, w: nat) {
    && s.buffered <= w + 16
    && (!s.current || s.bytesSent > BATCH_SIZE ==> s.buffered <= w)
  }

  lemma {:induction false} RunWithin(s: State, es: seq<Event>, t: State, w: nat)
    requires Inv(s) && Within(s, w) && Run(s, es, t) && WindowsWithin(es, w)
    ensures Within(t, w)
    decreases |es|
  {
    if es != [] {
      StepKeeps(s, es[0]);
      RunWithin(Step(s, es[0]), es[1..], t, w);
    }
  }

  /** Over any run, with any number of messages, at most one prologue is ever buffered
      beyond the widest window offered. */
  lemma BufferedWithinWindow(s: State, es: seq<Event>, t: State, w: nat)
    requires Initial(s) && Run(s, es, t) && WindowsWithin(es, w)
    ensures t.buffered <= w + 16
  {
    RunWithin(s, es, t, w);
  }
}
