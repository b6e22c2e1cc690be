/**
 What every run of the bridge keeps: the stream on the wire, and where the
 code's own assumption about lent buffers is exactly needed.
 */
module BridgeRuns {
  import opened Bytes
  import opened BridgeLink
  import opened Ring
  import opened Bridge

  /** The bridge when its link has just opened and it is connecting to the TCP server. */
  ghost predicate Initial(s: State)
    ensures Initial(s) ==> Inv(s)
  {
    && Shape(s.ring) && s.ring.producer == 0 && s.ring.consumer == 0 && Queue(s.ring) == []
    && s.amqp == OPENED
    && !s.tcp.connected && !s.tcp.closed && s.tcp.out == [] && s.tcp.done == s.tcp.progress == 0 && !s.tcp.queued
    && s.h.arrived == [] && s.h.received == [] && s.h.retired == [] && s.h.wire == []
  }

  /** The receive calls go on until the ring is full or the delivery has no more
      to give: what holds if a receive returns data whenever data is pending. */
  ghost predicate Prompt(s: State, e: Event)
    requires WellFormed(s) && Enabled(s, e)
  {
    (e.DeliveryEvent? || e.WakeEvent?) && s.amqp.linkOpen && s.amqp.current && s.amqp.unread != [] ==>
      var t := Received(Drained(s), e.chunks);
      Full(t.ring) || t.amqp.unread == []
  }

  /** The handler, taking `chunks`, comes to the end of the current delivery. */
  predicate Finishes(a: Amqp, chunks: seq<bytes>) {
    a.linkOpen && a.current && !a.partial && |Flatten(chunks)| == |a.unread|
  }

  /** When the next delivery event stays in turn: a transfer for a delivery behind the
      current one finds an event before its own; the event handled is the only one or its
      delivery is finished with it; and a wake finishes no delivery with an event waiting. */
  ghost predicate Timely(s: State, e: Event) {
    match e
    case Arrive(_, _) => s.amqp.waiting == [] || s.amqp.events != []
    case DeliveryEvent(chunks) => |s.amqp.events| == 1 || Finishes(s.amqp, chunks)
    case WakeEvent(chunks) => s.amqp.events == [] || !Finishes(s.amqp, chunks)
    case _ => true
  }

  /** Which runs are considered: any, those with prompt receives, or those in which the
      deliveries are also handled in turn. */
  datatype Discipline = Any | Receiving | InTurn

  /** In all of them raw events come only when `HandedBack` allows. */
  ghost predicate Allowed(s: State, e: Event, d: Discipline)
    requires WellFormed(s)
  {
    && Enabled(s, e) && HandedBack(s, e)
    && (d != Any ==> Prompt(s, e)) && (d == InTurn ==> Timely(s, e))
  }

  ghost predicate Run(s: State, es: seq<Event>, t: State, d: Discipline)
    requires Inv(s)
    decreases |es|
  {
    if es == [] then s == t
    else Allowed(s, es[0], d) && (StepKeeps(s, es[0]); Run(Step(s, es[0]), es[1..], t, d))
  }

  lemma {:induction false} RunKeeps(s: State, es: seq<Event>, t: State, d: Discipline)
    requires Inv(s) && Run(s, es, t, d)
    ensures Inv(t)
    decreases |es|
  {
    if es != [] {
      StepKeeps(s, es[0]);
      RunKeeps(Step(s, es[0]), es[1..], t, d);
    }
  }

  lemma WireInState(t: State)
    requires Inv(t)
    ensures t.h.wire <= t.h.received && t.h.received == t.h.retired + Flatten(Queue(t.ring)) && t.h.retired <= t.h.wire
    ensures t.tcp.closed ==> t.h.wire == t.h.received
  {
    var q, d := Queue(t.ring), t.tcp.done;
    FlattenSplit(q, d);
    if d < |q| {
      assert q[d..] == [q[d]] + q[d..][1..];
    }
  }

  /** In every run the wire carries a prefix of what was received, itself a prefix of
      what arrived; what has not been handed back is the ring's content, oldest slot
      first, and the closing of the TCP connection finds nothing left to write.  While the
      link is open, what has not been received is what its deliveries still hold. */
  lemma WireIsPrefix(s: State, es: seq<Event>, t: State)
    requires Initial(s) && Run(s, es, t, Any)
    ensures t.h.wire <= t.h.received <= t.h.arrived
    ensures Shape(t.ring) && t.h.received == t.h.retired + Flatten(Queue(t.ring)) && t.h.retired <= t.h.wire
    ensures t.tcp.closed ==> t.h.wire == t.h.received
    ensures t.amqp.linkOpen ==> t.h.arrived == t.h.received + Unread(t.amqp)
    ensures t.amqp.linkOpen ==> t.amqp.credit + Unsettled(t.amqp) == CREDIT_WINDOW
  {
    RunKeeps(s, es, t, Any);
    WireInState(t);
  }

  lemma ReturnedInState(t: State, k: nat)
    requires Inv(t) && k < t.tcp.done
    ensures t.tcp.out[k].slot == Release(t.ring, k).consumer
  {
  }

  /** Every buffer that comes back is the one at the consumer slot, so the drain's
      assertion on the slot number holds whenever it is evaluated. */
  lemma ReturnedSlotIsConsumer(s: State, es: seq<Event>, t: State, k: nat)
    requires Initial(s) && Run(s, es, t, Any) && k < t.tcp.done
    ensures Inv(t) && t.tcp.out[k].slot == Release(t.ring, k).consumer
  {
    RunKeeps(s, es, t, Any);
    ReturnedInState(t, k);
  }

  // ----------------------------------- where the code's assumption is needed

  lemma LentAgain(s: State, avail: nat)
    requires Inv(s) && s.tcp.out != [] && avail > 0 && Used(s.ring) > 0
    ensures !Lent(Sent(s, avail).ring, Sent(s, avail).tcp)
  {
    var t, h := Sent(s, avail), |s.tcp.out|;
    assert t.tcp.out[h].slot == Slot(s.ring.consumer, 0);
    if h < Used(s.ring) {
      SlotsDiffer(s.ring.consumer, 0, h);
    }
  }

  /** The raw handler leaves each slot lent at most once, in ring order, exactly
      when every lent buffer was written or the connection took no more. */
  lemma LendingTwice(s: State, avail: nat)
    requires Inv(s)
    ensures Lent(RawHandled(s, avail).ring, RawHandled(s, avail).tcp)
      <==> s.tcp.done == |s.tcp.out| || avail == 0
  {
    if s.tcp.done == |s.tcp.out| || avail == 0 {
      RawHandledKeeps(s, avail);
    } else {
      var a := s.(tcp := s.tcp.(queued := false));
      FlagsKeep(s, s.amqp, false, s.tcp.closed);
      DrainedKeeps(a);
      LentAgain(Drained(a), avail);
    }
  }

  /** The same when the second lending comes back: the slot is not the consumer slot. */
  lemma SecondReturnFailsAssertion(s: State, avail: nat)
    requires Inv(s) && s.tcp.done < |s.tcp.out| && avail > 0
    ensures var t := RawHandled(s, avail);
      var h := |s.tcp.out| - s.tcp.done;
      h < |t.tcp.out| && t.tcp.out[h].slot != Release(t.ring, h).consumer
  {
    var a := s.(tcp := s.tcp.(queued := false));
    assert Inv(a);
    DrainedKeeps(a);
    var b := Drained(a);
    var h := |b.tcp.out|;
    assert Sent(b, avail).tcp.out[h].slot == Slot(b.ring.consumer, 0);
    SlotsDiffer(b.ring.consumer, 0, h);
  }

  /** A raw event wakes the AMQP side exactly when it frees a slot of a full ring;
      the handler then reads the link's current delivery, and there is none exactly
      when the delivery that filled the ring was complete and already accepted. */
  lemma WakeFindsDelivery(s: State, avail: nat)
    requires Inv(s) && s.amqp.linkOpen && !s.amqp.wake
    ensures var t := RawHandled(s, avail);
      && (t.amqp.wake <==> Full(s.ring) && s.tcp.done > 0)
      && (t.amqp.wake && !t.amqp.current <==> Full(s.ring) && s.tcp.done > 0 && !s.amqp.current)
  {
    var a := s.(tcp := s.tcp.(queued := false));
    assert Inv(a);
    DrainedKeeps(a);
    FullAndEmpty(s.ring);
    FullAndEmpty(Drained(a).ring);
  }
}
