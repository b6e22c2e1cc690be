/**
 The chunked sender: several links, each streaming copies of one encoded message
 a small chunk at a time, under a limit on messages that all links share.
 */
module ChunkedSender {
  import opened Bytes
  import opened Dispositions

  const WRITE_SIZE: nat := 64
  const SESSION_ROOM: nat := 1024

  /** One sending link: its credit, its current delivery with the offset the client
      keeps for it, the deliveries finished, and how many of those have no outcome yet. */
  datatype Link = Link(credit: nat, current: bool, offset: nat, wire: bytes, finished: seq<bytes>, unsettled: nat)

  datatype State = State(limit: nat, encoded: bytes, links: seq<Link>,
                         count: nat, acked: nat, accepted: nat, notAccepted: nat, stop: bool)

  /** A link with a new delivery, if it has none and one may be begun. */
  predicate Begins(s: State, i: nat)
    requires i < |s.links|
  {
    !s.links[i].current && s.links[i].credit > 0 && (s.limit == 0 || s.count < s.limit)
  }

  function Begun(l: Link): Link {
    l.(current := true, offset := 0, wire := [])
  }

  /** A link after its next chunk; the delivery is advanced with its last octet. */
  function Chunked(l: Link, encoded: bytes): Link
    requires l.offset <= |encoded|
  {
    var amount := Min(WRITE_SIZE, |encoded| - l.offset);
    var m := l.(offset := l.offset + amount, wire := l.wire + encoded[l.offset..l.offset + amount]);
    if m.offset == |encoded|
    then m.(current := false, credit := if l.credit > 0 then l.credit - 1 else 0, wire := [],
            finished := l.finished + [m.wire], unsettled := l.unsettled + 1)
    else m
  }

  /** PN_LINK_FLOW on link `i` with `buffered` octets still in the session. */
  function FlowHandled(s: State, i: nat, buffered: nat): State
    requires i < |s.links| && s.links[i].offset <= |s.encoded|
  {
    var l := if Begins(s, i) then Begun(s.links[i]) else s.links[i];
    var m := if l.current && buffered < SESSION_ROOM then Chunked(l, s.encoded) else l;
    s.(links := s.links[i := m], count := s.count + if Begins(s, i) then 1 else 0)
  }

  /** PN_DELIVERY for an updated delivery of link `i`. */
  function OutcomeHandled(s: State, i: nat, o: Outcome): State
    requires i < |s.links|
  {
    var l := s.links[i];
    var t := if o == Informational then s
      else s.(links := s.links[i := l.(unsettled := if l.unsettled > 0 then l.unsettled - 1 else 0)],
              acked := s.acked + 1,
              accepted := s.accepted + (if o == Accepted then 1 else 0),
              notAccepted := s.notAccepted + (if o == Accepted then 0 else 1));
    if t.limit != 0 && t.acked == t.limit then t.(stop := true) else t
  }

  datatype Event = Credit(i: nat, n: nat) | Flow(i: nat, buffered: nat) | Settled(i: nat, o: Outcome)

  /** Outcomes come only for finished deliveries. */
  predicate Enabled(s: State, e: Event) {
    e.i < |s.links| && (e.Settled? ==> s.links[e.i].unsettled > 0)
  }

  function Step(s: State, e: Event): State
    requires Enabled(s, e) && forall i :: 0 <= i < |s.links| ==> s.links[i].offset <= |s.encoded|
  {
    match e
    case Credit(i, n) => s.(links := s.links[i := s.links[i].(credit := s.links[i].credit + n)])
    case Flow(i, buffered) => FlowHandled(s, i, buffered)
    case Settled(i, o) => OutcomeHandled(s, i, o)
  }

  // ---------------------------------------------------------- the accounts

  /** A link's deliveries: finished, and the one in progress. */
  function Deliveries(l: Link): nat {
    |l.finished| + if l.current then 1 else 0
  }

  function TotalDeliveries(links: seq<Link>): nat {
    if links == [] then 0 else Deliveries(links[0]) + TotalDeliveries(links[1..])
  }

  function TotalSettled(links: seq<Link>): int {
    if links == [] then 0 else |links[0].finished| - links[0].unsettled + TotalSettled(links[1..])
  }

  function TotalFinished(links: seq<Link>): nat {
    if links == [] then 0 else |links[0].finished| + TotalFinished(links[1..])
  }

  /** A change of one link changes the totals by that link's change. */
  lemma {:induction false} TotalsAfterUpdate(links: seq<Link>, i: nat, l: Link)
    requires i < |links|
    ensures TotalDeliveries(links[i := l]) == TotalDeliveries(links) - Deliveries(links[i]) + Deliveries(l)
    ensures TotalSettled(links[i := l])
      == TotalSettled(links) - (|links[i].finished| - links[i].unsettled) + (|l.finished| - l.unsettled)
  {
    var after := links[i := l];
    if i == 0 {
      assert after[1..] == links[1..];
    } else {
      TotalsAfterUpdate(links[1..], i - 1, l);
      assert after[1..] == links[1..][i - 1 := l];
    }
  }

  /** On each link: the octets sent for the delivery in progress are a proper prefix of
      the message, ending at the offset; every finished delivery is the whole message. */
  ghost predicate LinkInv(l: Link, encoded: bytes) {
    && l.offset <= |encoded|
    && (l.current ==> l.credit > 0 && l.offset < |encoded| && l.wire == encoded[..l.offset])
    && (forall j :: 0 <= j < |l.finished| ==> l.finished[j] == encoded)
    && l.unsettled <= |l.finished|
  }

  ghost predicate Inv(s: State) {
    && s.encoded != []
    && (forall i :: 0 <= i < |s.links| ==> LinkInv(s.links[i], s.encoded))
    && s.count == TotalDeliveries(s.links) && (s.limit != 0 ==> s.count <= s.limit)
    && s.acked == TotalSettled(s.links) == s.accepted + s.notAccepted
    && (s.stop <==> s.limit != 0 && s.acked == s.limit)
  }

  lemma {:induction false} SettledAtMostFinished(links: seq<Link>)
    ensures TotalSettled(links) <= TotalFinished(links) <= TotalDeliveries(links)
  {
    if links != [] {
      SettledAtMostFinished(links[1..]);
    }
  }

  lemma ChunkedKeeps(l: Link, encoded: bytes)
    requires LinkInv(l, encoded) && l.current
    ensures LinkInv(Chunked(l, encoded), encoded)
    ensures Deliveries(Chunked(l, encoded)) == Deliveries(l)
    ensures |Chunked(l, encoded).finished| - Chunked(l, encoded).unsettled == |l.finished| - l.unsettled
  {
    var amount := Min(WRITE_SIZE, |encoded| - l.offset);
    assert encoded[..l.offset] + encoded[l.offset..l.offset + amount] == encoded[..l.offset + amount];
    if l.offset + amount == |encoded| {
      assert encoded[..l.offset + amount] == encoded;
    }
  }

  lemma FlowKeeps(s: State, i: nat, buffered: nat)
    requires Inv(s) && i < |s.links|
    ensures Inv(FlowHandled(s, i, buffered))
  {
    var l := if Begins(s, i) then Begun(s.links[i]) else s.links[i];
    assert LinkInv(s.links[i], s.encoded);
    assert LinkInv(l, s.encoded);
    if l.current {
      ChunkedKeeps(l, s.encoded);
    }
    var t := FlowHandled(s, i, buffered);
    TotalsAfterUpdate(s.links, i, t.links[i]);
  }

  lemma OutcomeKeeps(s: State, i: nat, o: Outcome)
    requires Inv(s) && Enabled(s, Settled(i, o))
    ensures Inv(OutcomeHandled(s, i, o))
  {
    var t := OutcomeHandled(s, i, o);
    assert LinkInv(s.links[i], s.encoded);
    TotalsAfterUpdate(s.links, i, t.links[i]);
    SettledAtMostFinished(t.links);
    if o == Informational {
      assert t.links == s.links;
    }
  }

  lemma StepKeeps(s: State, e: Event)
    requires Inv(s) && Enabled(s, e)
    ensures Inv(Step(s, e))
  {
    match e
    case Credit(i, n) =>
      assert LinkInv(s.links[i], s.encoded);
      TotalsAfterUpdate(s.links, i, Step(s, e).links[i]);
    case Flow(i, buffered) => FlowKeeps(s, i, buffered);
    case Settled(i, o) => OutcomeKeeps(s, i, o);
  }

  ghost predicate Run(s: State, es: seq<Event>, t: State)
    requires Inv(s)
    decreases |es|
  {
    if es == [] then s == t
    else Enabled(s, es[0]) && (StepKeeps(s, es[0]); Run(Step(s, es[0]), es[1..], t))
  }

  /** Any number of links, idle at first. */
  ghost predicate Initial(s: State)
    ensures Initial(s) ==> Inv(s)
  {
    && s.encoded != []
    && (forall i :: 0 <= i < |s.links| ==> s.links[i] == Link(0, false, 0, [], [], 0))
    && (IdleTotals(s.links); s == State(s.limit, s.encoded, s.links, 0, 0, 0, 0, false))
  }

  lemma {:induction false} IdleTotals(links: seq<Link>)
    requires forall i :: 0 <= i < |links| ==> links[i] == Link(0, false, 0, [], [], 0)
    ensures TotalDeliveries(links) == 0 && TotalSettled(links) == 0
  {
    if links != [] {
      IdleTotals(links[1..]);
    }
  }

  lemma {:induction false} RunKeeps(s: State, es: seq<Event>, t: State)
    requires Inv(s) && Run(s, es, t)
    ensures Inv(t)
    decreases |es|
  {
    if es != [] {
      StepKeeps(s, es[0]);
      RunKeeps(Step(s, es[0]), es[1..], t);
    }
  }

  /** In every run over any number of links and any interleaving: what a link has sent
      for its current delivery is a prefix of the message, each finished delivery is
      the message, the count is finished plus in progress over all links and stays
      within the limit, and no more is acknowledged than was finished. */
  lemma ChunksMakeMessages(s: State, es: seq<Event>, t: State, i: nat)
    requires Initial(s) && Run(s, es, t) && i < |t.links|
    ensures t.links[i].current ==> t.links[i].offset < |t.encoded| && t.links[i].wire == t.encoded[..t.links[i].offset]
    ensures forall j :: 0 <= j < |t.links[i].finished| ==> t.links[i].finished[j] == t.encoded
    ensures t.acked <= TotalFinished(t.links) <= t.count == TotalDeliveries(t.links)
    ensures (t.limit != 0 ==> t.count <= t.limit)
    ensures t.stop ==> t.acked == t.count == t.limit
  {
    RunKeeps(s, es, t);
    assert LinkInv(t.links[i], t.encoded);
    SettledAtMostFinished(t.links);
  }

  // ---------------------------------------------------------------- progress

  /** Every octet a link has sent, over all its deliveries. */
  function OctetsSent(l: Link, encoded: bytes): nat {
    |encoded| * |l.finished| + if l.current then l.offset else 0
  }

  /** The link has a delivery, or credit for one and messages left. */
  predicate CanSend(s: State, i: nat)
    requires i < |s.links|
  {
    s.links[i].current || (s.links[i].credit > 0 && (s.limit == 0 || s.count < s.limit))
  }

  lemma OneMoreWhole(n: nat, f: nat)
    ensures n * (f + 1) == n * f + n
  {
  }

  /** A flow event on a link that can send, with less than 1024 octets in the session, sends
      exactly 64 octets of the message or what is left of it; with 1024 or more it sends none,
      but begins the delivery; and on a link that cannot send it does nothing. */
  lemma FlowSends(s: State, i: nat, buffered: nat)
    requires Inv(s) && i < |s.links|
    ensures var l, m := s.links[i], FlowHandled(s, i, buffered).links[i];
      var left := |s.encoded| - if l.current then l.offset else 0;
      && (CanSend(s, i) && buffered < 1024 ==>
            OctetsSent(m, s.encoded) == OctetsSent(l, s.encoded) + if left < 64 then left else 64)
      && (CanSend(s, i) && buffered >= 1024 ==> OctetsSent(m, s.encoded) == OctetsSent(l, s.encoded) && m.current)
      && (!CanSend(s, i) ==> m == l && FlowHandled(s, i, buffered) == s)
  {
    var l := s.links[i];
    assert LinkInv(l, s.encoded);
    OneMoreWhole(|s.encoded|, |l.finished|);
    if !CanSend(s, i) {
      assert s.links[i := l] == s.links;
    }
  }

  /** How many chunks the message has: its length by 64, rounded up. */
  function Chunks(encoded: bytes): nat {
    (|encoded| + 63) / 64
  }

  /** Chunks sent by a link: those of its finished deliveries, and of the one in progress. */
  function ChunksSent(l: Link, encoded: bytes): nat {
    Chunks(encoded) * |l.finished| + if l.current then l.offset / 64 else 0
  }

  ghost predicate InChunks(l: Link) {
    l.current ==> l.offset % 64 == 0
  }

  lemma FlowChunks(s: State, i: nat, buffered: nat)
    requires Inv(s) && i < |s.links| && InChunks(s.links[i])
    ensures var l, m := s.links[i], FlowHandled(s, i, buffered).links[i];
      && InChunks(m)
      && ChunksSent(m, s.encoded) == ChunksSent(l, s.encoded) + if CanSend(s, i) && buffered < 1024 then 1 else 0
  {
    assert LinkInv(s.links[i], s.encoded);
    OneMoreWhole(Chunks(s.encoded), |s.links[i].finished|);
  }

  predicate Sends(s: State, e: Event, i: nat)
    requires i < |s.links|
  {
    e.Flow? && e.i == i && e.buffered < 1024 && CanSend(s, i)
  }

  /** The flow events of a run that find room for link `i` when it can send. */
  ghost function Sending(s: State, es: seq<Event>, i: nat): nat
    requires Inv(s) && i < |s.links|
    decreases |es|
  {
    if es == [] || !Enabled(s, es[0]) then 0
    else
      StepKeeps(s, es[0]);
      (if Sends(s, es[0], i) then 1 else 0)
      + Sending(Step(s, es[0]), es[1..], i)
  }

  lemma StepChunks(s: State, e: Event, i: nat)
    requires Inv(s) && i < |s.links| && InChunks(s.links[i]) && Enabled(s, e)
    ensures var t := Step(s, e);
      && t.encoded == s.encoded && |t.links| == |s.links| && InChunks(t.links[i])
      && ChunksSent(t.links[i], s.encoded) == ChunksSent(s.links[i], s.encoded) + if Sends(s, e, i) then 1 else 0
  {
    if e.Flow? && e.i == i {
      FlowChunks(s, i, e.buffered);
    }
  }

  lemma {:induction false} RunChunks(s: State, es: seq<Event>, t: State, i: nat)
    requires Inv(s) && i < |s.links| && InChunks(s.links[i]) && Run(s, es, t)
    ensures i < |t.links| && t.encoded == s.encoded && InChunks(t.links[i])
    ensures ChunksSent(t.links[i], t.encoded) == ChunksSent(s.links[i], s.encoded) + Sending(s, es, i)
    decreases |es|
  {
    if es != [] {
      StepKeeps(s, es[0]);
      StepChunks(s, es[0], i);
      RunChunks(Step(s, es[0]), es[1..], t, i);
    }
  }

  /** A link finishes a message after exactly as many sending flow events as the message has
      chunks, over any run and whatever the other links do: the messages finished and the chunks
      of the one in progress are quotient and remainder of those events by that number. */
  lemma FinishedAfterChunks(s: State, es: seq<Event>, t: State, i: nat)
    requires Initial(s) && Run(s, es, t) && i < |s.links|
    ensures i < |t.links|
    ensures var l, c := t.links[i], Chunks(s.encoded);
      var begun := if l.current then l.offset / 64 else 0;
      Sending(s, es, i) == c * |l.finished| + begun && begun < c && (l.current ==> l.offset == 64 * begun)
  {
    RunChunks(s, es, t, i);
    RunKeeps(s, es, t);
    assert LinkInv(t.links[i], t.encoded);
  }

  // ---------------------------------------------------------------- outcomes

  function CountOf(es: seq<Event>, o: Outcome): nat {
    if es == [] then 0 else (if es[0].Settled? && es[0].o == o then 1 else 0) + CountOf(es[1..], o)
  }

  lemma StepOutcome(s: State, e: Event)
    requires Inv(s) && Enabled(s, e)
    ensures var t := Step(s, e);
      && t.accepted == s.accepted + (if e.Settled? && e.o == Accepted then 1 else 0)
      && t.notAccepted == s.notAccepted + (if e.Settled? && e.o == NotAccepted then 1 else 0)
      && t.acked == s.acked + (if e.Settled? && e.o != Informational then 1 else 0)
  {
  }

  lemma {:induction false} OutcomesAdd(s: State, es: seq<Event>, t: State)
    requires Inv(s) && Run(s, es, t)
    ensures t.accepted == s.accepted + CountOf(es, Accepted)
    ensures t.notAccepted == s.notAccepted + CountOf(es, NotAccepted)
    decreases |es|
  {
    if es != [] {
      StepKeeps(s, es[0]);
      StepOutcome(s, es[0]);
      OutcomesAdd(Step(s, es[0]), es[1..], t);
    }
  }

  /** The client's counters are the numbers of outcomes of each kind that arrived. */
  lemma OutcomesCounted(s: State, es: seq<Event>, t: State)
    requires Initial(s) && Run(s, es, t)
    ensures t.accepted == CountOf(es, Accepted) && t.notAccepted == CountOf(es, NotAccepted)
    ensures t.acked == CountOf(es, Accepted) + CountOf(es, NotAccepted)
  {
    OutcomesAdd(s, es, t);
    RunKeeps(s, es, t);
  }
}
