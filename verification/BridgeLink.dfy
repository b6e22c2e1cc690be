/**
 The bridge's receiving link, by Proton's contract.  The peer may begin deliveries
 while it has credit, one behind the other; the oldest unsettled one is the link's
 current delivery.  Each transfer posts an event for its delivery, unless the newest
 event is one for it already; a wake posts one for the connection.
 */
module BridgeLink {
  import opened Bytes

  const CREDIT_WINDOW: nat := 1000

  /** A delivery behind the current one: what has arrived of it, and whether more is to come. */
  datatype Waiting = Waiting(data: bytes, partial: bool)

  /** Deliveries are numbered from 0; `settled` many are settled, so that is the number
      of the current one.  `events` are the deliveries with an event waiting, oldest first. */
  datatype Amqp = Amqp(linkOpen: bool, credit: nat,
                       current: bool, unread: bytes, partial: bool, waiting: seq<Waiting>,
                       settled: nat, events: seq<nat>, wake: bool)

  const OPENED := Amqp(true, CREDIT_WINDOW, false, [], false, [], 0, [], false)

  function Unsettled(a: Amqp): nat {
    if a.current then 1 + |a.waiting| else 0
  }

  function Newest(a: Amqp): nat {
    a.settled + |a.waiting|
  }

  predicate NewestPartial(a: Amqp) {
    if a.waiting == [] then a.partial else a.waiting[|a.waiting| - 1].partial
  }

  /** The peer begins a delivery when it has credit and has finished the one before. */
  predicate CanBegin(a: Amqp) {
    a.linkOpen && a.credit > 0 && (a.current ==> !NewestPartial(a))
  }

  function Begun(a: Amqp): Amqp
    requires a.credit > 0
  {
    var b := a.(credit := a.credit - 1);
    if a.current then b.(waiting := a.waiting + [Waiting([], true)])
    else b.(current := true, unread := [], partial := true)
  }

  predicate CanArrive(a: Amqp) {
    a.linkOpen && a.current && NewestPartial(a)
  }

  function Posted(events: seq<nat>, n: nat): seq<nat> {
    if events != [] && events[|events| - 1] == n then events else events + [n]
  }

  /** A transfer: more of the newest delivery. */
  function Arrived(a: Amqp, data: bytes, last: bool): Amqp {
    var b := a.(events := Posted(a.events, Newest(a)));
    if a.waiting == [] then b.(unread := a.unread + data, partial := !last)
    else b.(waiting := Extended(a.waiting, data, last))
  }

  function Extended(w: seq<Waiting>, data: bytes, last: bool): seq<Waiting>
    requires w != []
  {
    w[|w| - 1 := Waiting(w[|w| - 1].data + data, !last)]
  }

  /** The current delivery accepted and settled, and one credit more; the next one is current. */
  function Accepted(a: Amqp): Amqp {
    var b := a.(settled := a.settled + 1, credit := a.credit + 1);
    if a.waiting == [] then b.(current := false)
    else b.(unread := a.waiting[0].data, partial := a.waiting[0].partial, waiting := a.waiting[1..])
  }

  /** The oldest delivery event taken out for handling. */
  function Taken(a: Amqp): Amqp
    requires a.events != []
  {
    a.(events := a.events[1..])
  }

  /** The link closed and freed, with its deliveries and their events. */
  function Closed(a: Amqp): Amqp {
    a.(linkOpen := false, current := false, unread := [], waiting := [], events := [])
  }

  predicate Queued(a: Amqp) {
    a.events != [] || a.wake
  }

  // --------------------------------------------------------------- the books

  function Backlog(w: seq<Waiting>): bytes {
    if w == [] then [] else w[0].data + Backlog(w[1..])
  }

  /** Every octet that has arrived and has not been received. */
  function Unread(a: Amqp): bytes {
    a.unread + Backlog(a.waiting)
  }

  /** Credit and unsettled deliveries make up the window; only the newest delivery is
      partial; events are for deliveries that were begun, in their order. */
  ghost predicate Books(a: Amqp) {
    && (!a.current ==> a.unread == [] && a.waiting == [])
    && (if a.linkOpen then a.credit + Unsettled(a) == CREDIT_WINDOW else !a.current && a.events == [])
    && (a.waiting != [] ==> !a.partial)
    && (forall i :: 0 <= i < |a.waiting| - 1 ==> !a.waiting[i].partial)
    && (forall i :: 0 <= i < |a.events| ==> a.events[i] < a.settled + Unsettled(a))
    && (forall i, j :: 0 <= i < j < |a.events| ==> a.events[i] < a.events[j])
  }

  lemma {:induction false} BacklogExtended(w: seq<Waiting>, data: bytes, last: bool)
    requires w != []
    ensures Backlog(Extended(w, data, last)) == Backlog(w) + data
  {
    var x := Extended(w, data, last);
    if |w| == 1 {
      assert x[1..] == [] == w[1..];
    } else {
      BacklogExtended(w[1..], data, last);
      assert x[1..] == Extended(w[1..], data, last);
      Associative(w[0].data, Backlog(w[1..]), data);
    }
  }

  lemma {:induction false} BacklogBegun(w: seq<Waiting>)
    ensures Backlog(w + [Waiting([], true)]) == Backlog(w)
  {
    if w == [] {
      assert (w + [Waiting([], true)])[1..] == [];
    } else {
      BacklogBegun(w[1..]);
      assert (w + [Waiting([], true)])[1..] == w[1..] + [Waiting([], true)];
    }
  }

  lemma BegunKeeps(a: Amqp)
    requires Books(a) && CanBegin(a)
    ensures Books(Begun(a)) && Unread(Begun(a)) == Unread(a)
  {
    BacklogBegun(a.waiting);
  }

  lemma ArrivedKeeps(a: Amqp, data: bytes, last: bool)
    requires Books(a) && CanArrive(a)
    ensures Books(Arrived(a, data, last)) && Unread(Arrived(a, data, last)) == Unread(a) + data
  {
    if a.waiting != [] {
      BacklogExtended(a.waiting, data, last);
      Associative(a.unread, Backlog(a.waiting), data);
    } else {
      assert Backlog(a.waiting) == [];
    }
  }

  lemma AcceptedKeeps(a: Amqp)
    requires Books(a) && a.linkOpen && a.current && a.unread == [] && !a.partial
    ensures Books(Accepted(a)) && Unread(Accepted(a)) == Unread(a)
  {
  }

  lemma TakenKeeps(a: Amqp)
    requires Books(a) && a.events != []
    ensures Books(Taken(a)) && Unread(Taken(a)) == Unread(a)
  {
  }

  // ------------------------------------------------------ events and deliveries

  /** What the handler asserts of a delivery event: it is for the link's current delivery. */
  predicate EventIsCurrent(a: Amqp) {
    a.events != [] ==> a.current && a.events[0] == a.settled
  }

  predicate Readable(w: Waiting) {
    w.data != [] || !w.partial
  }

  /** Each delivery behind the current one that has something to handle has its event waiting. */
  ghost predicate Announced(a: Amqp) {
    forall i :: 0 <= i < |a.waiting| && Readable(a.waiting[i]) ==> a.settled + 1 + i in a.events
  }

  lemma ArrivedAnnounced(a: Amqp, data: bytes, last: bool)
    requires CanArrive(a) && Announced(a)
    ensures Announced(Arrived(a, data, last))
  {
    var b := Arrived(a, data, last);
    assert b.events[|b.events| - 1] == Newest(a);
    forall i | 0 <= i < |b.waiting| && Readable(b.waiting[i])
      ensures b.settled + 1 + i in b.events
    {
      if i < |a.waiting| - 1 {
        assert a.settled + 1 + i in a.events;
      }
    }
  }

  /** A transfer's event comes too soon if it is for a delivery behind the current one and
      nothing is before it. */
  lemma ArrivedInTurn(a: Amqp, data: bytes, last: bool)
    requires CanArrive(a) && EventIsCurrent(a)
    ensures EventIsCurrent(Arrived(a, data, last)) <==> a.waiting == [] || a.events != []
  {
  }

  lemma BegunInTurn(a: Amqp)
    requires Books(a) && CanBegin(a) && EventIsCurrent(a) && Announced(a)
    ensures EventIsCurrent(Begun(a)) && Announced(Begun(a))
  {
  }

  /** The event handled and its delivery still current: the next event comes too soon. */
  lemma TakenInTurn(a: Amqp)
    requires Books(a) && EventIsCurrent(a) && Announced(a) && a.events != []
    ensures Announced(Taken(a)) && (EventIsCurrent(Taken(a)) <==> |a.events| == 1)
  {
    var b := Taken(a);
    forall i | 0 <= i < |b.waiting| && Readable(b.waiting[i])
      ensures b.settled + 1 + i in b.events
    {
      assert a.settled + 1 + i in a.events;
    }
  }

  /** The event handled and its delivery accepted: the next event is for the next delivery. */
  lemma TakenAndAccepted(a: Amqp)
    requires Books(a) && EventIsCurrent(a) && Announced(a) && a.events != [] && !a.partial
    ensures Announced(Accepted(Taken(a).(unread := []))) && EventIsCurrent(Accepted(Taken(a).(unread := [])))
  {
    TakenInTurn(a);
    var b := Taken(a).(unread := []);
    AcceptedAnnounced(b);
    if b.events != [] {
      assert a.events[0] < a.events[1];
      if |a.waiting| > 1 {
        assert Readable(a.waiting[0]);
        assert a.settled + 1 in a.events;
      }
    }
  }

  lemma AcceptedAnnounced(a: Amqp)
    requires Announced(a)
    ensures Announced(Accepted(a))
  {
    var b := Accepted(a);
    forall i | 0 <= i < |b.waiting| && Readable(b.waiting[i])
      ensures b.settled + 1 + i in b.events
    {
      assert b.waiting[i] == a.waiting[i + 1];
      assert a.settled + 1 + (i + 1) in a.events;
    }
  }

  /** A delivery accepted with its own event still waiting leaves that event stale. */
  lemma AcceptedInTurn(a: Amqp)
    requires Books(a) && a.current && EventIsCurrent(a) && Announced(a)
    ensures var b := Accepted(a.(unread := []));
      Announced(b) && (EventIsCurrent(b) <==> a.events == [])
  {
    AcceptedAnnounced(a.(unread := []));
  }
}
