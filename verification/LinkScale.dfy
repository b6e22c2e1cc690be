/**
 The link scale test: a sender that streams one message over each of many links, a
 buffer at each flow event, and a receiver that reads each delivery as it comes in
 and carries the number of octets read from event to event.
 */
module LinkScale {
  import opened Bytes
  import opened AmqpMessage

  const TX_BUF_SIZE: nat := 32768

  /** One link. At the sender: its credit, whether it is open, whether its context holds a
      delivery, that delivery's context (the octets of the body sent), the octets sent, and
      whether it has been advanced; `flows` is the history of the flow events that wrote.
      At the receiver: how many of the octets have arrived, whether the last has, the
      delivery's context (the octets read), and the history of the totals accepted.
      `outcome`: the outcome is on its way back. */
  datatype Link = Link(
    credit: nat, open: bool, started: bool, bodySent: nat, wire: bytes, advanced: bool, flows: nat,
    arrived: nat, complete: bool, total: nat, accepted: seq<nat>, outcome: bool)

  const IDLE := Link(0, true, false, 0, [], false, 0, 0, false, 0, [], false)

  datatype State = State(bodyLength: nat, links: seq<Link>, closedLinks: nat, msgCount: nat, stop: bool)

  function Started(l: Link, n: nat): Link
    requires n < TWO32
  {
    l.(started := true, bodySent := 0, wire := l.wire + Prologue(n))
  }

  /** The next buffer of the body; the delivery is advanced with its last octet. */
  function Chunked(l: Link, n: nat): Link
    requires l.bodySent <= n
  {
    var amount := Min(n - l.bodySent, TX_BUF_SIZE);
    var m := l.(bodySent := l.bodySent + amount, wire := l.wire + Repeat(0, amount), flows := l.flows + 1);
    if m.bodySent == n then m.(advanced := true, credit := if l.credit > 0 then l.credit - 1 else 0) else m
  }

  predicate Writable(l: Link) {
    l.started && !l.advanced && l.credit > 0
  }

  /** PN_LINK_FLOW at the sender. */
  function FlowHandled(l: Link, n: nat): Link
    requires n < TWO32
  {
    if !l.open then l
    else
      var a := if !l.started && l.credit > 0 then Started(l, n) else l;
      if Writable(a) && a.bodySent < n then Chunked(a, n) else a
  }

  /** PN_DELIVERY at the receiver: everything that has arrived is read; a whole message is
      accepted and settled, of a partial one the total is carried on. */
  function Delivered(l: Link): Link
    requires l.total <= l.arrived
  {
    if l.complete then l.(accepted := l.accepted + [l.arrived], outcome := true)
    else l.(total := l.arrived)
  }

  datatype Event =
    | Credit(i: nat, n: nat)
    | Flow(i: nat)
    | Arrive(i: nat, n: nat, last: bool)     // `n` more octets reach the receiver
    | Deliver(i: nat)
    | Settled(i: nat, final: bool)           // an outcome reaches the sender

  predicate Enabled(s: State, e: Event) {
    e.i < |s.links| && !s.stop &&
    var l := s.links[e.i];
    match e
    case Credit(_, n) => true
    case Flow(_) => true
    case Arrive(_, n, last) =>
      !l.complete && l.arrived + n <= |l.wire| && (last ==> l.advanced && l.arrived + n == |l.wire|)
    case Deliver(_) => l.started && l.accepted == []
    case Settled(_, final) => l.started && l.open && (final ==> l.outcome)
  }

  function Step(s: State, e: Event): State
    requires Enabled(s, e) && s.bodyLength < TWO32 && s.links[e.i].total <= s.links[e.i].arrived
  {
    var l := s.links[e.i];
    match e
    case Credit(i, n) => s.(links := s.links[i := l.(credit := l.credit + n)])
    case Flow(i) => s.(links := s.links[i := FlowHandled(l, s.bodyLength)])
    case Arrive(i, n, last) => s.(links := s.links[i := l.(arrived := l.arrived + n, complete := last)])
    case Deliver(i) =>
      s.(links := s.links[i := Delivered(l)], msgCount := s.msgCount + if l.complete then 1 else 0)
    case Settled(i, final) =>
      if !final then s
      else s.(links := s.links[i := l.(outcome := false, open := false)], closedLinks := s.closedLinks + 1,
              stop := s.closedLinks + 1 == |s.links|)
  }

  // -------------------------------------------------------------- invariants

  /** What is sent is the message so far, a full buffer at each flow event. */
  ghost predicate SenderInv(l: Link, n: nat)
    requires n < TWO32
  {
    && l.wire == (if l.started then Prologue(n) + Repeat(0, l.bodySent) else [])
    && l.bodySent == Min(n, l.flows * TX_BUF_SIZE)
    && (l.advanced <==> l.bodySent == n)
    && (l.started && !l.advanced ==> l.credit > 0)
    && (l.flows > 0 ==> l.started && (l.flows - 1) * TX_BUF_SIZE < n)
  }

  ghost predicate ReceiverInv(l: Link, n: nat) {
    && l.total <= l.arrived <= |l.wire| && (l.complete ==> l.advanced && l.arrived == |l.wire|)
    && (l.accepted != [] <==> l.outcome || !l.open) && !(l.outcome && !l.open)
    && (l.accepted != [] ==> l.complete && l.accepted == [16 + n])
  }

  ghost predicate LinkInv(l: Link, n: nat) {
    0 < n < TWO32 && SenderInv(l, n) && ReceiverInv(l, n)
  }

  /** How much there is to do before the link is closed. */
  function Remaining(l: Link, n: nat): int {
    n - l.bodySent + (if l.complete then 0 else 1) + (if l.accepted == [] then 1 else 0) + (if l.open then 1 else 0)
  }

  function Closed(links: seq<Link>): nat {
    if links == [] then 0 else (if links[0].open then 0 else 1) + Closed(links[1..])
  }

  function Accepted(links: seq<Link>): nat {
    if links == [] then 0 else |links[0].accepted| + Accepted(links[1..])
  }

  function TotalRemaining(links: seq<Link>, n: nat): int {
    if links == [] then 0 else Remaining(links[0], n) + TotalRemaining(links[1..], n)
  }

  /** A change of one link changes the totals by that link's change. */
  lemma {:induction false} TotalsAfterUpdate(links: seq<Link>, i: nat, l: Link, n: nat)
    requires i < |links|
    ensures Closed(links[i := l]) == Closed(links) - (if links[i].open then 0 else 1) + (if l.open then 0 else 1)
    ensures Accepted(links[i := l]) == Accepted(links) - |links[i].accepted| + |l.accepted|
    ensures TotalRemaining(links[i := l], n) == TotalRemaining(links, n) - Remaining(links[i], n) + Remaining(l, n)
  {
    var after := links[i := l];
    if i == 0 {
      assert after[1..] == links[1..];
    } else {
      TotalsAfterUpdate(links[1..], i - 1, l, n);
      assert after[1..] == links[1..][i - 1 := l];
    }
  }

  ghost predicate Inv(s: State) {
    && 0 < s.bodyLength < TWO32 && s.links != []
    && (forall i :: 0 <= i < |s.links| ==> LinkInv(s.links[i], s.bodyLength))
    && s.closedLinks == Closed(s.links) && s.msgCount == Accepted(s.links)
    && (s.stop <==> s.closedLinks == |s.links|)
  }

  lemma StartedKeeps(l: Link, n: nat)
    requires LinkInv(l, n) && !l.started && l.credit > 0
    ensures LinkInv(Started(l, n), n)
  {
    assert [] + Prologue(n) == Prologue(n) + Repeat(0, 0);
  }

  lemma ChunkedKeeps(l: Link, n: nat)
    requires LinkInv(l, n) && Writable(l)
    ensures LinkInv(Chunked(l, n), n) && Chunked(l, n).bodySent > l.bodySent
  {
    var amount := Min(n - l.bodySent, TX_BUF_SIZE);
    assert Prologue(n) + Repeat(0, l.bodySent) + Repeat(0, amount) == Prologue(n) + Repeat(0, l.bodySent + amount);
  }

  lemma FlowKeeps(l: Link, n: nat)
    requires LinkInv(l, n)
    ensures LinkInv(FlowHandled(l, n), n) && FlowHandled(l, n).bodySent >= l.bodySent
  {
    if l.open {
      var a := if !l.started && l.credit > 0 then Started(l, n) else l;
      if !l.started && l.credit > 0 {
        StartedKeeps(l, n);
      }
      if Writable(a) {
        ChunkedKeeps(a, n);
      }
    }
  }

  /** The link concerned stays sound, and has no more to do than before. */
  lemma LinkKeeps(s: State, e: Event)
    requires Inv(s) && Enabled(s, e)
    ensures LinkInv(s.links[e.i], s.bodyLength) && |Step(s, e).links| == |s.links|
    ensures var l, m := s.links[e.i], Step(s, e).links[e.i];
      && LinkInv(m, s.bodyLength) && Remaining(m, s.bodyLength) <= Remaining(l, s.bodyLength)
      && (!l.open ==> !m.open) && Step(s, e).links == s.links[e.i := m]
  {
    assert LinkInv(s.links[e.i], s.bodyLength);
    if e.Flow? {
      FlowKeeps(s.links[e.i], s.bodyLength);
    }
  }

  lemma {:induction false} ClosedAtMost(links: seq<Link>)
    ensures Closed(links) <= |links|
    ensures Closed(links) == |links| <==> forall i :: 0 <= i < |links| ==> !links[i].open
  {
    if links != [] {
      ClosedAtMost(links[1..]);
    }
  }

  lemma StepKeeps(s: State, e: Event)
    requires Inv(s) && Enabled(s, e)
    ensures s.links[e.i].total <= s.links[e.i].arrived
    ensures Inv(Step(s, e))
    ensures TotalRemaining(Step(s, e).links, s.bodyLength) <= TotalRemaining(s.links, s.bodyLength)
  {
    LinkKeeps(s, e);
    var t := Step(s, e);
    TotalsAfterUpdate(s.links, e.i, t.links[e.i], s.bodyLength);
    ClosedAtMost(s.links);
  }

  // -------------------------------------------------------------------- runs

  ghost predicate Initial(s: State)
    ensures Initial(s) ==> Inv(s)
  {
    && 0 < s.bodyLength < TWO32 && s.links != [] && (forall i :: 0 <= i < |s.links| ==> s.links[i] == IDLE)
    && (IdleTotals(s.links); s == State(s.bodyLength, s.links, 0, 0, false))
  }

  lemma {:induction false} IdleTotals(links: seq<Link>)
    requires forall i :: 0 <= i < |links| ==> links[i] == IDLE
    ensures Closed(links) == 0 && Accepted(links) == 0
  {
    if links != [] {
      IdleTotals(links[1..]);
    }
  }

  ghost predicate Run(s: State, es: seq<Event>, t: State)
    requires Inv(s)
    decreases |es|
  {
    if es == [] then s == t
    else Enabled(s, es[0]) && (StepKeeps(s, es[0]); Run(Step(s, es[0]), es[1..], t))
  }

  lemma {:induction false} RunKeeps(s: State, es: seq<Event>, t: State)
    requires Inv(s) && Run(s, es, t)
    ensures Inv(t) && t.bodyLength == s.bodyLength && |t.links| == |s.links|
    decreases |es|
  {
    if es != [] {
      StepKeeps(s, es[0]);
      RunKeeps(Step(s, es[0]), es[1..], t);
    }
  }

  /** Octets are conserved: each link carries one message and no more, which the receiver
      accepts at most once, with a total of exactly its 16 + bodyLength octets however it
      was cut up on the way; before that the total carried is at most what was sent. */
  lemma OctetsConserved(s: State, es: seq<Event>, t: State, i: nat)
    requires Initial(s) && Run(s, es, t) && i < |t.links|
    ensures var l := t.links[i];
      && l.total <= l.arrived <= |l.wire| <= 16 + s.bodyLength
      && (l.accepted == [] || l.accepted == [16 + s.bodyLength])
      && (l.accepted != [] ==> l.wire == Encode(Repeat(0, s.bodyLength)))
  {
    RunKeeps(s, es, t);
    assert LinkInv(t.links[i], t.bodyLength);
  }

  /** What is on the wire decodes to the body of zeros exactly when the delivery is advanced,
      which takes as many writing flow events as the body has buffers, the last one short or not. */
  lemma AdvancedWhenWhole(s: State, es: seq<Event>, t: State, i: nat)
    requires Initial(s) && Run(s, es, t) && i < |t.links|
    ensures var l := t.links[i];
      && (l.advanced <==> DecodeMessage(l.wire) == Some(Repeat(0, s.bodyLength)))
      && (l.advanced <==> l.flows * TX_BUF_SIZE >= s.bodyLength)
      && (l.flows > 0 ==> (l.flows - 1) * TX_BUF_SIZE < s.bodyLength)
  {
    RunKeeps(s, es, t);
    var l, n := t.links[i], s.bodyLength;
    assert LinkInv(l, n);
    DecodeEncode(Repeat(0, n));
    if l.started {
      DecodePrologue(n, Repeat(0, l.bodySent));
    }
  }

  /** The sender stops exactly when every link is closed, and by then every message has
      been received: as many as there are links. */
  lemma StopsWhenAllAccepted(s: State, es: seq<Event>, t: State)
    requires Initial(s) && Run(s, es, t)
    ensures t.stop <==> forall i :: 0 <= i < |t.links| ==> !t.links[i].open
    ensures t.stop ==> t.msgCount == |t.links| && TotalRemaining(t.links, t.bodyLength) == 0
  {
    RunKeeps(s, es, t);
    ClosedAtMost(t.links);
    if t.stop {
      forall i | 0 <= i < |t.links|
        ensures |t.links[i].accepted| == 1 && Remaining(t.links[i], t.bodyLength) == 0
      {
        assert LinkInv(t.links[i], t.bodyLength);
      }
      AllDone(t.links, t.bodyLength);
    }
  }

  lemma {:induction false} AllDone(links: seq<Link>, n: nat)
    requires forall i :: 0 <= i < |links| ==> |links[i].accepted| == 1 && Remaining(links[i], n) == 0
    ensures Accepted(links) == |links| && TotalRemaining(links, n) == 0
  {
    if links != [] {
      assert |links[0].accepted| == 1;
      AllDone(links[1..], n);
    }
  }

  /** No stuck state: until the sender stops there is an event that leaves less to do, for
      any link that is open and has, or ever had, credit. */
  lemma ThereIsProgress(s: State, i: nat) returns (e: Event)
    requires Inv(s) && !s.stop && i < |s.links| && s.links[i].open && (s.links[i].credit > 0 || s.links[i].started)
    ensures Enabled(s, e) && e.i == i && s.links[i].total <= s.links[i].arrived
    ensures TotalRemaining(Step(s, e).links, s.bodyLength) < TotalRemaining(s.links, s.bodyLength)
  {
    var l, n := s.links[i], s.bodyLength;
    assert LinkInv(l, n);
    if l.outcome {
      e := Settled(i, true);
    } else if l.complete {
      e := Deliver(i);
    } else if l.advanced {
      e := Arrive(i, |l.wire| - l.arrived, true);
    } else {
      e := Flow(i);
      if !l.started {
        StartedKeeps(l, n);
      }
      ChunkedKeeps(if l.started then l else Started(l, n), n);
    }
    TotalsAfterUpdate(s.links, i, Step(s, e).links[i], n);
  }
}
