/**
 The bridge's events: when the AMQP handler's assertion on its delivery holds, when
 no wake-up is lost, and when the TCP connection is closed.
 */
module BridgeWakes {
  import opened Bytes
  import opened BridgeLink
  import opened Ring
  import opened Bridge
  import opened BridgeRuns

  // --------------------------------------------------- the handler's assertion

  /** The link after the handler's work on it. */
  ghost function LinkAfter(a: Amqp, chunks: seq<bytes>): Amqp
    requires Flatten(chunks) <= a.unread
  {
    var b := a.(unread := a.unread[|Flatten(chunks)|..]);
    if Finishes(a, chunks) then Accepted(b) else b
  }

  lemma HandledLink(s: State, chunks: seq<bytes>)
    requires WellFormed(s) && AmqpEnabled(s, chunks)
    ensures Flatten(chunks) <= s.amqp.unread && AmqpHandled(s, chunks).amqp == LinkAfter(s.amqp, chunks)
  {
  }

  lemma DeliveryInTurn(a: Amqp, chunks: seq<bytes>)
    requires Books(a) && EventIsCurrent(a) && Announced(a) && a.events != []
    requires Flatten(chunks) <= a.unread
    ensures var b := LinkAfter(Taken(a), chunks);
      Announced(b) && (EventIsCurrent(b) <==> |a.events| == 1 || Finishes(a, chunks))
  {
    assert Finishes(Taken(a), chunks) <==> Finishes(a, chunks);
    if Finishes(a, chunks) {
      TakenAndAccepted(a);
      assert LinkAfter(Taken(a), chunks) == Accepted(Taken(a).(unread := []));
    } else {
      TakenInTurn(a);
      UnreadDoesNotMatter(Taken(a), a.unread[|Flatten(chunks)|..]);
    }
  }

  lemma UnreadDoesNotMatter(a: Amqp, unread: bytes)
    ensures EventIsCurrent(a.(unread := unread)) <==> EventIsCurrent(a)
    ensures Announced(a.(unread := unread)) <==> Announced(a)
  {
  }

  lemma WakeInTurn(a: Amqp, chunks: seq<bytes>)
    requires Books(a) && EventIsCurrent(a) && Announced(a) && Flatten(chunks) <= a.unread
    ensures var b := LinkAfter(a, chunks);
      Announced(b) && (EventIsCurrent(b) <==> a.events == [] || !Finishes(a, chunks))
  {
    if Finishes(a, chunks) {
      AcceptedInTurn(a);
    }
  }

  lemma DeliveryStepInTurn(s: State, chunks: seq<bytes>)
    requires WellFormed(s) && Books(s.amqp) && Enabled(s, DeliveryEvent(chunks))
    requires EventIsCurrent(s.amqp) && Announced(s.amqp)
    ensures var t := Step(s, DeliveryEvent(chunks));
      Announced(t.amqp) && (EventIsCurrent(t.amqp) <==> Timely(s, DeliveryEvent(chunks)))
  {
    HandledLink(s.(amqp := Taken(s.amqp)), chunks);
    DeliveryInTurn(s.amqp, chunks);
  }

  lemma WakeStepInTurn(s: State, chunks: seq<bytes>)
    requires WellFormed(s) && Books(s.amqp) && Enabled(s, WakeEvent(chunks))
    requires EventIsCurrent(s.amqp) && Announced(s.amqp)
    ensures var t := Step(s, WakeEvent(chunks));
      Announced(t.amqp) && (EventIsCurrent(t.amqp) <==> Timely(s, WakeEvent(chunks)))
  {
    HandledLink(s.(amqp := s.amqp.(wake := false)), chunks);
    WakeInTurn(s.amqp.(wake := false), chunks);
  }

  lemma PeerStepInTurn(s: State, e: Event)
    requires WellFormed(s) && Books(s.amqp) && Enabled(s, e) && EventIsCurrent(s.amqp) && Announced(s.amqp)
    requires e.Begin? || e.Arrive?
    ensures Announced(Step(s, e).amqp) && (EventIsCurrent(Step(s, e).amqp) <==> Timely(s, e))
  {
    if e.Begin? {
      BegunInTurn(s.amqp);
    } else {
      ArrivedAnnounced(s.amqp, e.data, e.last);
      ArrivedInTurn(s.amqp, e.data, e.last);
    }
  }

  lemma TcpStepInTurn(s: State, e: Event)
    requires WellFormed(s) && Enabled(s, e) && EventIsCurrent(s.amqp) && Announced(s.amqp)
    requires e.LinkClosed? || e.Connected? || e.RawEvent? || e.Write?
    ensures Announced(Step(s, e).amqp) && EventIsCurrent(Step(s, e).amqp)
  {
  }

  /** The assertion that a delivery event is for the current delivery goes on holding
      exactly when the step is timely; either way, what waits stays announced. */
  lemma TimelyStep(s: State, e: Event)
    requires WellFormed(s) && Books(s.amqp) && Enabled(s, e) && EventIsCurrent(s.amqp) && Announced(s.amqp)
    ensures Announced(Step(s, e).amqp) && (EventIsCurrent(Step(s, e).amqp) <==> Timely(s, e))
  {
    if e.DeliveryEvent? {
      DeliveryStepInTurn(s, e.chunks);
    } else if e.WakeEvent? {
      WakeStepInTurn(s, e.chunks);
    } else if e.Begin? || e.Arrive? {
      PeerStepInTurn(s, e);
    } else {
      TcpStepInTurn(s, e);
    }
  }

  lemma FirstTwo(events: seq<nat>)
    requires forall i, j :: 0 <= i < j < |events| ==> events[i] < events[j]
    ensures |events| >= 2 ==> events[0] < events[1]
  {
  }

  lemma OneEvent(a: Amqp)
    requires Books(a) && EventIsCurrent(a) && a.waiting == []
    ensures |a.events| <= 1
  {
    FirstTwo(a.events);
  }

  /** A peer that begins a delivery only when there is none: nothing ever waits behind the
      current one, and only a wake that finishes a delivery with an event waiting is untimely. */
  lemma OneAtATime(s: State, e: Event)
    requires Inv(s) && Enabled(s, e) && EventIsCurrent(s.amqp) && s.amqp.waiting == []
    ensures Step(s, e).amqp.waiting == [] <==> !(e.Begin? && s.amqp.current)
    ensures Timely(s, e) <==> !(e.WakeEvent? && s.amqp.events != [] && Finishes(s.amqp, e.chunks))
  {
    OneEvent(s.amqp);
    if e.DeliveryEvent? {
      HandledLink(s.(amqp := Taken(s.amqp)), e.chunks);
    } else if e.WakeEvent? {
      HandledLink(s.(amqp := s.amqp.(wake := false)), e.chunks);
    }
  }

  // ------------------------------------------------------------- the wake-ups

  /** Readable AMQP data and a free slot need an AMQP event; so does a delivery that is
      complete and read. */
  ghost predicate LinkAwake(a: Amqp, full: bool) {
    && (a.current && a.unread != [] && !full ==> Queued(a))
    && (a.current && a.unread == [] && !a.partial ==> Queued(a))
  }

  /** Octets in the ring need a lent buffer or a raw event; a written buffer needs a raw
      event to be taken back. */
  ghost predicate TcpAwake(s: State) {
    && (Used(s.ring) > 0 && s.tcp.connected ==> s.tcp.out != [] || s.tcp.queued)
    && (s.tcp.done > 0 ==> s.tcp.queued)
  }

  /** Whoever can make progress has an event waiting. */
  ghost predicate Awake(s: State) {
    LinkAwake(s.amqp, Full(s.ring)) && TcpAwake(s)
  }

  /** The ring after the AMQP handler. */
  ghost function RingAfter(s: State, chunks: seq<bytes>): Ring
    requires WellFormed(s) && AmqpEnabled(s, chunks)
  {
    if s.amqp.linkOpen && s.amqp.current && s.amqp.unread != [] then Put(Drained(s).ring, chunks) else s.ring
  }

  /** The handler finishes the current delivery, the next one can be handled, and no AMQP
      event waits: not even for the next delivery, whose own came too soon. */
  ghost predicate Strands(a: Amqp, chunks: seq<bytes>, full: bool) {
    && Finishes(a, chunks) && !Queued(a) && a.waiting != [] && Readable(a.waiting[0])
    && (a.waiting[0].data != [] ==> !full)
  }

  ghost predicate PromptlyRead(a: Amqp, chunks: seq<bytes>, full: bool) {
    a.linkOpen && a.current && a.unread != [] ==> full || |Flatten(chunks)| == |a.unread|
  }

  lemma LinkAfterAwake(a: Amqp, chunks: seq<bytes>, full: bool)
    requires Books(a) && Flatten(chunks) <= a.unread && PromptlyRead(a, chunks, full)
    ensures LinkAwake(LinkAfter(a, chunks), full) <==> !Strands(a, chunks, full)
  {
  }

  lemma HandledTcp(s: State, chunks: seq<bytes>)
    requires Inv(s) && TcpAwake(s) && AmqpEnabled(s, chunks)
    requires PromptlyRead(s.amqp, chunks, Full(RingAfter(s, chunks)))
    ensures TcpAwake(AmqpHandled(s, chunks)) && AmqpHandled(s, chunks).ring == RingAfter(s, chunks)
  {
    if s.amqp.linkOpen && s.amqp.current && s.amqp.unread != [] {
      DrainedKeeps(s);
      FullAndEmpty(s.ring);
      FullAndEmpty(Drained(s).ring);
      if chunks == [] {
        assert Full(Drained(s).ring);
        assert s.tcp.done == 0;
      }
    }
  }

  /** The AMQP handler leaves no one asleep unless it strands the next delivery. */
  lemma HandledAwake(s: State, chunks: seq<bytes>)
    requires Inv(s) && TcpAwake(s) && AmqpEnabled(s, chunks)
    requires PromptlyRead(s.amqp, chunks, Full(RingAfter(s, chunks)))
    ensures Awake(AmqpHandled(s, chunks)) <==> !Strands(s.amqp, chunks, Full(RingAfter(s, chunks)))
  {
    HandledTcp(s, chunks);
    HandledLink(s, chunks);
    LinkAfterAwake(s.amqp, chunks, Full(RingAfter(s, chunks)));
  }

  lemma LentAwake(s: State, avail: nat)
    requires Inv(s) && (s.tcp.connected && s.tcp.done == |s.tcp.out| ==> avail > 0)
    ensures TcpAwake(Sent(Drained(s), avail))
    ensures Full(Drained(s).ring) ==> s.tcp.done == 0 && Full(s.ring)
  {
    DrainedKeeps(s);
    FullAndEmpty(s.ring);
    FullAndEmpty(Drained(s).ring);
  }

  lemma CheckedAwake(t: State, full: bool)
    requires Shape(t.ring) && Books(t.amqp) && LinkAwake(t.amqp, full) && TcpAwake(t) && (Full(t.ring) ==> full)
    ensures Awake(RawChecked(t, full))
  {
  }

  lemma RawAwake(s: State, avail: nat)
    requires Inv(s) && Awake(s) && Enabled(s, RawEvent(avail))
    ensures Awake(RawHandled(s, avail))
  {
    FlagsKeep(s, s.amqp, false, s.tcp.closed);
    var a := s.(tcp := s.tcp.(queued := false));
    LentAwake(a, avail);
    DrainedKeeps(a);
    CheckedAwake(Sent(Drained(a), avail), Full(s.ring));
  }

  /** The state in which the handler starts, its event taken. */
  ghost function Handling(s: State, e: Event): State
    requires e.DeliveryEvent? ==> s.amqp.events != []
  {
    match e
    case DeliveryEvent(_) => s.(amqp := Taken(s.amqp))
    case WakeEvent(_) => s.(amqp := s.amqp.(wake := false))
    case _ => s
  }

  lemma HandlingKeeps(s: State, e: Event)
    requires Inv(s) && Enabled(s, e) && (e.DeliveryEvent? || e.WakeEvent?)
    ensures Inv(Handling(s, e)) && AmqpEnabled(Handling(s, e), e.chunks)
    ensures Step(s, e) == AmqpHandled(Handling(s, e), e.chunks)
    ensures Prompt(s, e) ==> PromptlyRead(s.amqp, e.chunks, Full(RingAfter(Handling(s, e), e.chunks)))
    ensures TcpAwake(s) ==> TcpAwake(Handling(s, e))
  {
    if e.DeliveryEvent? {
      TakenKeeps(s.amqp);
    }
    FlagsKeep(s, Handling(s, e).amqp, s.tcp.queued, s.tcp.closed);
  }

  /** The step is the AMQP handler's and strands the next delivery. */
  ghost predicate StrandsAt(s: State, e: Event)
    requires WellFormed(s) && Enabled(s, e)
  {
    && (e.DeliveryEvent? || e.WakeEvent?) && AmqpEnabled(Handling(s, e), e.chunks)
    && Strands(Handling(s, e).amqp, e.chunks, Full(RingAfter(Handling(s, e), e.chunks)))
  }

  /** Any step leaves no one asleep, unless it strands the next delivery. */
  lemma StepAwake(s: State, e: Event)
    requires Inv(s) && Awake(s) && Allowed(s, e, Receiving)
    ensures Awake(Step(s, e)) <==> !StrandsAt(s, e)
  {
    if e.DeliveryEvent? || e.WakeEvent? {
      HandlingKeeps(s, e);
      HandledAwake(Handling(s, e), e.chunks);
    } else if e.RawEvent? {
      RawAwake(s, e.avail);
    } else {
      OtherAwake(s, e);
    }
  }

  lemma OtherAwake(s: State, e: Event)
    requires Inv(s) && Awake(s) && Enabled(s, e)
    requires !e.DeliveryEvent? && !e.WakeEvent? && !e.RawEvent?
    ensures Awake(Step(s, e))
  {
  }

  /** While the assertion holds and what waits is announced, no delivery is stranded. */
  lemma InTurnStep(s: State, e: Event)
    requires Inv(s) && Awake(s) && EventIsCurrent(s.amqp) && Announced(s.amqp) && Allowed(s, e, Receiving)
    ensures Awake(Step(s, e)) && Announced(Step(s, e).amqp)
    ensures EventIsCurrent(Step(s, e).amqp) <==> Timely(s, e)
  {
    StepAwake(s, e);
    TimelyStep(s, e);
    if e.DeliveryEvent? || e.WakeEvent? {
      NotStranded(s.amqp, e.chunks, Full(RingAfter(Handling(s, e), e.chunks)));
    }
  }

  lemma NotStranded(a: Amqp, chunks: seq<bytes>, full: bool)
    requires Books(a) && EventIsCurrent(a) && Announced(a)
    ensures !Strands(a.(wake := false), chunks, full)
    ensures a.events != [] ==> !Strands(Taken(a), chunks, full)
  {
    if a.waiting != [] && Readable(a.waiting[0]) {
      assert a.settled + 1 + 0 in a.events;
    }
  }

  // --------------------------------------------------------------- every run

  lemma {:induction false} RunInTurn(s: State, es: seq<Event>, t: State)
    requires Inv(s) && Awake(s) && EventIsCurrent(s.amqp) && Announced(s.amqp) && Run(s, es, t, InTurn)
    ensures Inv(t) && Awake(t) && EventIsCurrent(t.amqp) && Announced(t.amqp)
    decreases |es|
  {
    if es != [] {
      StepKeeps(s, es[0]);
      InTurnStep(s, es[0]);
      RunInTurn(Step(s, es[0]), es[1..], t);
    }
  }

  /** In every state of the run the next delivery event is for the current delivery. */
  ghost predicate AssertionHolds(s: State, es: seq<Event>)
    requires Inv(s)
    decreases |es|
  {
    EventIsCurrent(s.amqp) &&
    (es == [] || (Enabled(s, es[0]) && HandedBack(s, es[0])
                  && (StepKeeps(s, es[0]); AssertionHolds(Step(s, es[0]), es[1..]))))
  }

  /** Of the runs with prompt receives, those in turn are exactly those in which the
      assertion holds from first to last. */
  lemma {:induction false} InTurnExactly(s: State, es: seq<Event>, t: State)
    requires Inv(s) && Awake(s) && EventIsCurrent(s.amqp) && Announced(s.amqp) && Run(s, es, t, Receiving)
    ensures AssertionHolds(s, es) <==> Run(s, es, t, InTurn)
    decreases |es|
  {
    if es != [] {
      var u := Step(s, es[0]);
      StepKeeps(s, es[0]);
      InTurnStep(s, es[0]);
      if EventIsCurrent(u.amqp) {
        InTurnExactly(u, es[1..], t);
      }
    }
  }

  /** No step of the run strands a delivery. */
  ghost predicate NoneStranded(s: State, es: seq<Event>)
    requires Inv(s)
    decreases |es|
  {
    es == [] || (Allowed(s, es[0], Receiving) && !StrandsAt(s, es[0])
                 && (StepKeeps(s, es[0]); NoneStranded(Step(s, es[0]), es[1..])))
  }

  ghost predicate AwakeThroughout(s: State, es: seq<Event>)
    requires Inv(s)
    decreases |es|
  {
    Awake(s) &&
    (es == [] || (Allowed(s, es[0], Receiving)
                  && (StepKeeps(s, es[0]); AwakeThroughout(Step(s, es[0]), es[1..]))))
  }

  /** Of the runs with prompt receives, those that strand no delivery are exactly those in
      which no one is asleep from first to last. */
  lemma {:induction false} AwakeExactly(s: State, es: seq<Event>, t: State)
    requires Inv(s) && Awake(s) && Run(s, es, t, Receiving)
    ensures AwakeThroughout(s, es) <==> NoneStranded(s, es)
    ensures NoneStranded(s, es) ==> Inv(t) && Awake(t)
    decreases |es|
  {
    if es != [] {
      StepKeeps(s, es[0]);
      StepAwake(s, es[0]);
      if !StrandsAt(s, es[0]) {
        AwakeExactly(Step(s, es[0]), es[1..], t);
      }
    }
  }

  /** A run in turn is one of them. */
  lemma {:induction false} InTurnStrandsNone(s: State, es: seq<Event>, t: State)
    requires Inv(s) && Awake(s) && EventIsCurrent(s.amqp) && Announced(s.amqp) && Run(s, es, t, InTurn)
    ensures Run(s, es, t, Receiving) && NoneStranded(s, es)
    decreases |es|
  {
    if es != [] {
      StepKeeps(s, es[0]);
      InTurnStep(s, es[0]);
      StepAwake(s, es[0]);
      InTurnStrandsNone(Step(s, es[0]), es[1..], t);
    }
  }

  /** No lost wake-up, end to end, with or without the assertion: when no event waits and the
      transport has written all it was lent, every octet that arrived is on the wire, the ring
      is empty, and a delivery still open is one the peer has not finished. */
  lemma QuietMeansDone(s: State, es: seq<Event>, t: State)
    requires Initial(s) && Run(s, es, t, Receiving) && NoneStranded(s, es) && Quiet(t)
    ensures Used(t.ring) == 0 && t.h.wire == t.h.received
    ensures t.amqp.linkOpen ==> t.h.wire == t.h.arrived
    ensures t.amqp.current ==> t.amqp.partial && t.amqp.waiting == []
  {
    AwakeExactly(s, es, t);
    QuietState(t);
  }

  ghost predicate Quiet(t: State) {
    t.tcp.connected && t.tcp.done == |t.tcp.out| && !Queued(t.amqp) && !t.tcp.queued
  }

  lemma QuietState(t: State)
    requires Inv(t) && Awake(t) && Quiet(t)
    ensures Used(t.ring) == 0 && t.h.wire == t.h.received && t.tcp.out == []
    ensures t.amqp.linkOpen ==> t.h.wire == t.h.arrived
    ensures t.amqp.current ==> t.amqp.partial && t.amqp.waiting == []
  {
    FullAndEmpty(t.ring);
    assert Queue(t.ring) == [];
    assert Backlog(t.amqp.waiting) == [];
  }

  // -------------------------------------------------- closing the connection

  /** The raw side has something that will make its handler run: the connection is still
      to come up, the ring is not empty, or a raw event waits. */
  predicate Stirring(s: State) {
    !s.tcp.connected || Used(s.ring) > 0 || s.tcp.queued
  }

  predicate HasRawEvent(es: seq<Event>) {
    exists i :: 0 <= i < |es| && es[i].RawEvent?
  }

  lemma AfterClosing(s: State, e: Event)
    requires Inv(s) && !s.amqp.linkOpen && Enabled(s, e) && HandedBack(s, e)
    ensures !Step(s, e).amqp.linkOpen
    ensures s.tcp.closed ==> Step(s, e).tcp.closed
    ensures !e.RawEvent? && !s.tcp.closed ==> !Step(s, e).tcp.closed && (Stirring(Step(s, e)) <==> Stirring(s))
    ensures e.RawEvent? ==> Step(s, e).tcp.closed || Stirring(Step(s, e))
    ensures e.RawEvent? && !Stirring(s) ==> Step(s, e).tcp.closed
  {
    var a := s.(tcp := s.tcp.(queued := false));
    if e.RawEvent? {
      FlagsKeep(s, s.amqp, false, s.tcp.closed);
      DrainedKeeps(a);
      FullAndEmpty(Drained(a).ring);
    } else if e.WakeEvent? {
      assert Step(s, e) == s.(amqp := s.amqp.(wake := false));
    }
  }

  lemma {:induction false} ClosingRun(s: State, es: seq<Event>, t: State, d: Discipline)
    requires Inv(s) && !s.amqp.linkOpen && Run(s, es, t, d)
    ensures !t.amqp.linkOpen
    ensures s.tcp.closed ==> t.tcp.closed
    ensures Stirring(s) || HasRawEvent(es) ==> t.tcp.closed || Stirring(t)
    ensures !s.tcp.closed && !Stirring(s) && !HasRawEvent(es) ==> !t.tcp.closed
    decreases |es|
  {
    if es != [] {
      StepKeeps(s, es[0]);
      AfterClosing(s, es[0]);
      ClosingRun(Step(s, es[0]), es[1..], t, d);
      if HasRawEvent(es) && !es[0].RawEvent? {
        var i :| 0 <= i < |es| && es[i].RawEvent?;
        assert es[1..][i - 1].RawEvent?;
      }
      if HasRawEvent(es[1..]) {
        var i :| 0 <= i < |es[1..]| && es[1..][i].RawEvent?;
        assert es[i + 1].RawEvent?;
      }
    }
  }

  /** The closing of the link makes no event. */
  lemma LinkClosedAwake(m: State)
    requires Inv(m) && Awake(m) && Enabled(m, LinkClosed)
    ensures var u := Step(m, LinkClosed);
      && Inv(u) && Awake(u) && !u.amqp.linkOpen && !u.tcp.closed && (Stirring(u) <==> Stirring(m))
  {
    LinkKeeps(m, LinkClosed);
  }

  /** Without the link no delivery can be stranded. */
  lemma {:induction false} ClosedRunAwake(u: State, es: seq<Event>, t: State)
    requires Inv(u) && Awake(u) && !u.amqp.linkOpen && Run(u, es, t, Receiving)
    ensures Inv(t) && Awake(t)
    decreases |es|
  {
    if es != [] {
      StepKeeps(u, es[0]);
      StepAwake(u, es[0]);
      AfterClosing(u, es[0]);
      ClosedRunAwake(Step(u, es[0]), es[1..], t);
    }
  }

  /** When everything has come to rest after the link closed, the TCP connection is closed
      exactly if, as the link closed, octets were in the ring or a raw event or the
      connection was still to come, or if some raw event came of itself.  The closing of
      the link makes none, so an idle bridge is left with its TCP connection open. */
  lemma ClosedWhenQuiet(m: State, es: seq<Event>, t: State)
    requires Inv(m) && Awake(m) && Enabled(m, LinkClosed) && Inv(Step(m, LinkClosed))
    requires Run(Step(m, LinkClosed), es, t, Receiving) && Quiet(t)
    ensures t.tcp.closed <==> Stirring(m) || HasRawEvent(es)
  {
    var u := Step(m, LinkClosed);
    LinkClosedAwake(m);
    ClosingRun(u, es, t, Receiving);
    ClosedRunAwake(u, es, t);
    QuietState(t);
  }
}
