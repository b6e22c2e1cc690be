/**
 The clogger: streams long messages in chunks, one chunk each time a timer that
 it sets itself has expired and woken the connection.  A state machine on values;
 the program that updates the client's globals is in CloggerClient.dfy.
 */
module Clogger {
  import opened AmqpMessage
  import opened Bytes
  import opened Dispositions

  const ZERO_BLOCK: nat := 65535

  /** The sending link: credit, the octets of the delivery in progress, and those finished. */
  datatype Link = Link(credit: nat, pending: bytes, finished: seq<bytes>, flowEvent: bool)

  datatype State = State(
    limit: nat, presettle: bool, bodyLength: nat, maxFrame: nat,      // settings
    link: Link,
    delivery: bool, bytesSent: nat,                                   // the current delivery
    timer: bool, wake: bool,                                          // timeout set, wake queued
    sent: nat, acked: nat, accepted: nat, notAccepted: nat,
    unsettled: nat,                                                   // finished, outcome not seen
    stop: bool)

  predicate MoreToSend(s: State) {
    s.limit == 0 || s.sent < s.limit
  }

  /** A delivery begun: its prologue written and the timer set for its first chunk. */
  function Started(s: State): State
    requires s.bodyLength < TWO32
  {
    s.(delivery := true, bytesSent := 0, timer := true,
       link := s.link.(pending := s.link.pending + Prologue(s.bodyLength)))
  }

  function FlowHandled(s: State): State
    requires s.bodyLength < TWO32
  {
    var t := s.(link := s.link.(flowEvent := false));
    if MoreToSend(s) && s.link.credit > 0 && !s.delivery then Started(t) else t
  }

  /** How much of the body the next write offers. */
  function Offer(s: State): int {
    Min(Min(s.bodyLength - s.bytesSent, s.maxFrame), ZERO_BLOCK)
  }

  /** The current delivery advanced. */
  function Finished(s: State): State
    requires s.link.credit > 0
  {
    var t := s.(delivery := false, sent := s.sent + 1,
                link := s.link.(credit := s.link.credit - 1, pending := [],
                                finished := s.link.finished + [s.link.pending]));
    if s.presettle then t.(stop := t.stop || (t.limit != 0 && t.sent == t.limit))
    else t.(unsettled := t.unsettled + 1)
  }

  /** A wake: one chunk, of which the link takes `rc` octets; then set the timer
      again, begin the next message, or rest. */
  function WakeHandled(s: State, rc: nat): State
    requires s.bodyLength < TWO32 && (s.delivery ==> s.link.credit > 0)
  {
    var a := s.(wake := false);
    if !s.delivery then
      if MoreToSend(a) && a.link.credit > 0 then Started(a) else a
    else
      var b := if s.bytesSent < s.bodyLength
        then a.(bytesSent := a.bytesSent + rc, link := a.link.(pending := a.link.pending + Repeat(0, rc)))
        else a;
      if b.bytesSent != b.bodyLength then
        b.(timer := true)
      else
        var c := Finished(b);
        if MoreToSend(c) && c.link.credit > 0 then Started(c) else c
  }

  function TimeoutHandled(s: State): State {
    s.(timer := false, wake := true)
  }

  function OutcomeHandled(s: State, o: Outcome): State {
    var t := match o
      case Informational => s
      case Accepted => s.(acked := s.acked + 1, accepted := s.accepted + 1)
      case NotAccepted => s.(acked := s.acked + 1, notAccepted := s.notAccepted + 1);
    if t.limit != 0 && t.acked == t.limit then t.(stop := true) else t
  }

  datatype Event =
    | Credit(n: nat)             // the peer grants credit; a flow event follows
    | Flow                       // Proton may post one at any time
    | Timeout
    | Wake(rc: nat)
    | Settled(o: Outcome)        // an outcome of a finished delivery arrives

  ghost predicate Enabled(s: State, e: Event) {
    match e
    case Credit(n) => true
    case Flow => true
    case Timeout => s.timer
    case Wake(rc) => s.wake && (s.delivery ==> rc <= Offer(s))
    case Settled(o) => s.unsettled > 0
  }

  ghost function Step(s: State, e: Event): State
    requires Inv(s) && Enabled(s, e)
  {
    match e
    case Credit(n) => s.(link := s.link.(credit := s.link.credit + n, flowEvent := true))
    case Flow => FlowHandled(s)
    case Timeout => TimeoutHandled(s)
    case Wake(rc) => WakeHandled(s, rc)
    case Settled(o) =>
      OutcomeHandled(if o == Informational then s else s.(unsettled := s.unsettled - 1), o)
  }

  // -------------------------------------------------------------- invariants

  /** The delivery in progress holds the prologue and the body so far; every finished
      one is the whole message. */
  ghost predicate Content(s: State) {
    && s.bodyLength < TWO32 && s.bytesSent <= s.bodyLength
    && s.link.pending == (if s.delivery then Prologue(s.bodyLength) + Repeat(0, s.bytesSent) else [])
    && forall i :: 0 <= i < |s.link.finished| ==> s.link.finished[i] == Encode(Repeat(0, s.bodyLength))
  }

  /** A delivery is in progress exactly when a timer or a wake is pending, never both. */
  ghost predicate Driven(s: State) {
    && (s.delivery <==> s.timer || s.wake) && !(s.timer && s.wake)
    && (s.delivery ==> s.link.credit > 0 && MoreToSend(s))
    && (!s.delivery && MoreToSend(s) ==> s.link.credit == 0 || s.link.flowEvent)
  }

  ghost predicate Counted(s: State) {
    && s.sent == |s.link.finished| && (s.limit != 0 ==> s.sent <= s.limit)
    && s.acked == s.accepted + s.notAccepted
    && s.acked + s.unsettled == (if s.presettle then 0 else s.sent)
    && (s.stop <==> s.limit != 0 && (if s.presettle then s.sent else s.acked) == s.limit)
  }

  ghost predicate Inv(s: State) {
    Content(s) && Driven(s) && Counted(s) && s.maxFrame > 0
  }

  lemma StartedKeeps(s: State)
    requires Content(s) && Counted(s) && s.maxFrame > 0
    requires !s.delivery && !s.timer && !s.wake && s.link.credit > 0 && MoreToSend(s)
    ensures Inv(Started(s))
  {
    assert [] + Prologue(s.bodyLength) == Prologue(s.bodyLength) + Repeat(0, 0);
  }

  lemma ChunkKeeps(s: State, rc: nat)
    requires Content(s) && s.delivery && rc <= Offer(s)
    ensures Content(s.(bytesSent := s.bytesSent + rc,
                       link := s.link.(pending := s.link.pending + Repeat(0, rc))))
  {
    assert Prologue(s.bodyLength) + Repeat(0, s.bytesSent) + Repeat(0, rc)
      == Prologue(s.bodyLength) + Repeat(0, s.bytesSent + rc);
  }

  lemma FinishedKeeps(s: State)
    requires Content(s) && Counted(s) && s.delivery && s.link.credit > 0 && MoreToSend(s)
    requires s.bytesSent == s.bodyLength
    ensures Content(Finished(s)) && Counted(Finished(s))
  {
  }

  lemma WakeKeeps(s: State, rc: nat)
    requires Inv(s) && Enabled(s, Wake(rc))
    ensures Inv(WakeHandled(s, rc))
  {
    var a := s.(wake := false);
    var b := a;
    if s.bytesSent < s.bodyLength {
      ChunkKeeps(a, rc);
      b := a.(bytesSent := a.bytesSent + rc, link := a.link.(pending := a.link.pending + Repeat(0, rc)));
    }
    if b.bytesSent == b.bodyLength {
      FinishedKeeps(b);
      var c := Finished(b);
      if MoreToSend(c) && c.link.credit > 0 {
        StartedKeeps(c);
      }
    }
  }

  lemma FlowKeeps(s: State)
    requires Inv(s)
    ensures Inv(FlowHandled(s))
  {
    if MoreToSend(s) && s.link.credit > 0 && !s.delivery {
      StartedKeeps(s.(link := s.link.(flowEvent := false)));
    }
  }

  lemma SettledKeeps(s: State, o: Outcome)
    requires Inv(s) && s.unsettled > 0
    ensures Inv(Step(s, Settled(o)))
  {
    assert Counted(Step(s, Settled(o)));
  }

  lemma StepKeeps(s: State, e: Event)
    requires Inv(s) && Enabled(s, e)
    ensures Inv(Step(s, e))
  {
    match e
    case Credit(n) =>
    case Flow => FlowKeeps(s);
    case Timeout =>
    case Wake(rc) => WakeKeeps(s, rc);
    case Settled(o) => SettledKeeps(s, o);
  }

  // -------------------------------------------------------------- every run

  ghost predicate Initial(s: State)
    ensures Initial(s) ==> Inv(s)
  {
    && s.bodyLength < TWO32 && s.maxFrame > 0
    && s == State(s.limit, s.presettle, s.bodyLength, s.maxFrame, Link(0, [], [], false),
                  false, 0, false, false, 0, 0, 0, 0, 0, false)
  }

  ghost predicate Run(s: State, es: seq<Event>, t: State)
    requires Inv(s)
    decreases |es|
  {
    if es == [] then s == t
    else Enabled(s, es[0]) && (StepKeeps(s, es[0]); Run(Step(s, es[0]), es[1..], t))
  }

  lemma {:induction false} RunKeeps(s: State, es: seq<Event>, t: State)
    requires Inv(s) && Run(s, es, t)
    ensures Inv(t)
    decreases |es|
  {
    if es != [] {
      StepKeeps(s, es[0]);
      RunKeeps(Step(s, es[0]), es[1..], t);
    }
  }

  /** In every run, whatever the frame size and however short the writes: each
      finished delivery is the one message, and decodes to its body of zeros; the
      delivery in progress does not decode until it is whole. */
  lemma DeliveriesAreMessages(s: State, es: seq<Event>, t: State, i: nat)
    requires Initial(s) && Run(s, es, t)
    ensures |t.link.finished| == t.sent && (t.limit != 0 ==> t.sent <= t.limit)
    ensures i < t.sent ==> DecodeMessage(t.link.finished[i]) == Some(Repeat(0, t.bodyLength))
    ensures t.delivery ==> (DecodeMessage(t.link.pending) == None <==> t.bytesSent < t.bodyLength)
  {
    RunKeeps(s, es, t);
    var body := Repeat(0, t.bodyLength);
    DecodeEncode(body);
    if t.delivery {
      var e := Encode(body);
      assert t.link.pending == e[..16 + t.bytesSent];
      if t.bytesSent < t.bodyLength {
        CutMessageDoesNotDecode(body, t.link.pending);
      } else {
        assert t.link.pending == e;
      }
    }
  }

  /** The client never rests while it could send: with neither timer, wake nor flow
      event pending, it has sent its limit or used its credit. */
  lemma RestMeansNoCredit(s: State, es: seq<Event>, t: State)
    requires Initial(s) && Run(s, es, t)
    requires !t.timer && !t.wake && !t.link.flowEvent
    ensures !t.delivery && (t.link.credit == 0 || (t.limit != 0 && t.sent == t.limit))
    ensures t.unsettled == 0 && t.limit != 0 && t.sent == t.limit ==> t.stop
  {
    RunKeeps(s, es, t);
  }

  // ----------------------------------------------------------------- writes

  /** A write is never empty and never beyond the body, the peer's frame or the block of zeros,
      and is up to one of them. */
  lemma OfferExactly(s: State)
    requires Inv(s) && s.bytesSent < s.bodyLength
    ensures 0 < Offer(s) <= s.bodyLength - s.bytesSent && Offer(s) <= s.maxFrame && Offer(s) <= 65535
    ensures Offer(s) == s.bodyLength - s.bytesSent || Offer(s) == s.maxFrame || Offer(s) == 65535
  {
  }

  /** What a wake does with a delivery in progress: the octets the link takes are sent, the
      delivery is finished exactly with the last of the body, and until then the timer is set. */
  lemma WakeSends(s: State, rc: nat)
    requires Inv(s) && Enabled(s, Wake(rc)) && s.delivery
    ensures var t, sent := Step(s, Wake(rc)), s.bytesSent + if s.bytesSent < s.bodyLength then rc else 0;
      && (sent < s.bodyLength ==>
            t.delivery && t.timer && t.bytesSent == sent && t.link.finished == s.link.finished)
      && (sent == s.bodyLength ==>
            && |t.link.finished| == |s.link.finished| + 1 && t.sent == s.sent + 1
            && (t.delivery <==> s.link.credit > 1 && MoreToSend(t)) && (t.delivery ==> t.bytesSent == 0))
  {
  }

  // ---------------------------------------------------------------- outcomes

  function CountOf(es: seq<Event>, o: Outcome): nat {
    if es == [] then 0 else (if es[0].Settled? && es[0].o == o then 1 else 0) + CountOf(es[1..], o)
  }

  lemma StepOutcome(s: State, e: Event)
    requires Inv(s) && Enabled(s, e)
    ensures var t := Step(s, e);
      && t.accepted == s.accepted + (if e.Settled? && e.o == Accepted then 1 else 0)
      && t.notAccepted == s.notAccepted + (if e.Settled? && e.o == NotAccepted then 1 else 0)
      && t.acked == s.acked + (if e.Settled? && e.o != Informational then 1 else 0)
  {
  }

  lemma {:induction false} OutcomesAdd(s: State, es: seq<Event>, t: State)
    requires Inv(s) && Run(s, es, t)
    ensures t.accepted == s.accepted + CountOf(es, Accepted)
    ensures t.notAccepted == s.notAccepted + CountOf(es, NotAccepted)
    ensures t.acked == s.acked + CountOf(es, Accepted) + CountOf(es, NotAccepted)
    decreases |es|
  {
    if es != [] {
      StepKeeps(s, es[0]);
      StepOutcome(s, es[0]);
      OutcomesAdd(Step(s, es[0]), es[1..], t);
    }
  }

  /** The client's counters are the numbers of outcomes of each kind that arrived. */
  lemma OutcomesCounted(s: State, es: seq<Event>, t: State)
    requires Initial(s) && Run(s, es, t)
    ensures t.accepted == CountOf(es, Accepted) && t.notAccepted == CountOf(es, NotAccepted)
    ensures t.acked == CountOf(es, Accepted) + CountOf(es, NotAccepted)
  {
    OutcomesAdd(s, es, t);
  }
}
