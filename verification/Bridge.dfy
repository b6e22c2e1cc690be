/**
 The AMQP-to-TCP bridge as a state machine on values.  Octets of an AMQP
 delivery are received into the ring, the ring's buffers are lent to the raw TCP
 connection, which reads them in place when it writes, and a slot is free again
 once its buffer has been handed back.

 An event is one call of an event handler, or one thing done by the peer or the
 transport.  The events carry what the transport decides: what each receive
 returned, how many buffers it will accept, how much it wrote.
 */
module Bridge {
  import opened Bytes
  import opened BridgeLink
  import opened Ring

  /** A buffer lent to the raw connection: a reference to a slot, not a copy of it. */
  datatype Desc = Desc(slot: nat, size: nat)

  /** The raw connection: lent buffers, how many of them are written out, how far
      into the next one the transport is, and whether a raw event waits. */
  datatype Tcp = Tcp(connected: bool, closed: bool, out: seq<Desc>, done: nat, progress: nat, queued: bool)

  /** What has happened so far: octets delivered by the peer, received into the
      ring, handed back by the raw connection, and put on the wire. */
  datatype History = History(arrived: bytes, received: bytes, retired: bytes, wire: bytes)

  datatype State = State(amqp: Amqp, ring: Ring, tcp: Tcp, h: History)

  // ------------------------------------------------------ the handlers' parts

  /** The memory a lent buffer refers to, as it is now. */
  function Memory(r: Ring, d: Desc): bytes
    requires d.slot < |r.slots| && d.size <= |r.slots[d.slot].data|
  {
    r.slots[d.slot].data[..d.size]
  }

  /** Enough for every step to be meaningful, also in runs that lend a slot twice. */
  ghost predicate WellFormed(s: State) {
    && Shape(s.ring)
    && s.tcp.done <= |s.tcp.out| && s.tcp.done < SLOT_COUNT
    && forall i :: 0 <= i < |s.tcp.out| ==> s.tcp.out[i].slot < SLOT_COUNT && s.tcp.out[i].size <= BUF_SIZE
  }

  /** The octets of the written buffers, oldest first. */
  ghost function Returned(s: State): (back: seq<bytes>)
    requires WellFormed(s)
    ensures |back| == s.tcp.done
  {
    seq(s.tcp.done, i requires 0 <= i < s.tcp.done => Memory(s.ring, s.tcp.out[i]))
  }

  /** What the drain asserts of each buffer as it comes back: it is the consumer slot's. */
  ghost predicate ReturnInOrder(s: State)
    requires WellFormed(s)
  {
    forall i :: 0 <= i < s.tcp.done ==> s.tcp.out[i].slot == Slot(s.ring.consumer, i)
  }

  /** All written buffers taken back. */
  ghost function Drained(s: State): State
    requires WellFormed(s)
  {
    s.(ring := Release(s.ring, s.tcp.done),
       tcp := s.tcp.(out := s.tcp.out[s.tcp.done..], done := 0),
       h := s.h.(retired := s.h.retired + Flatten(Returned(s))))
  }

  /** The first `k` slots in use, as descriptors, always counted from the consumer. */
  ghost function Lend(r: Ring, k: nat): (d: seq<Desc>)
    requires Shape(r) && k <= SLOT_COUNT
    ensures |d| == k
  {
    seq(k, i requires 0 <= i < k => Desc(Slot(r.consumer, i), r.slots[Slot(r.consumer, i)].size))
  }

  ghost function Sent(s: State, avail: nat): State
    requires WellFormed(s)
  {
    s.(tcp := s.tcp.(out := s.tcp.out + Lend(s.ring, Min(avail, Used(s.ring)))))
  }

  ghost predicate CanReceive(s: State, chunks: seq<bytes>) {
    Fits(s.ring, chunks) && Flatten(chunks) <= s.amqp.unread
  }

  ghost function Received(s: State, chunks: seq<bytes>): State
    requires CanReceive(s, chunks)
  {
    s.(ring := Put(s.ring, chunks),
       amqp := s.amqp.(unread := s.amqp.unread[|Flatten(chunks)|..]),
       h := s.h.(received := s.h.received + Flatten(chunks)))
  }

  // ------------------------------------------------------------- the handlers

  /** The AMQP handler's delivery and wake arm, which works on the link's current delivery
      whatever its event is for.  `chunks` is what the receives returned. */
  ghost function AmqpHandled(s: State, chunks: seq<bytes>): State
    requires WellFormed(s) && AmqpEnabled(s, chunks)
  {
    if !s.amqp.linkOpen || !s.amqp.current then s
    else
      var b := if s.amqp.unread != [] then Received(Drained(s), chunks) else s;
      var c := if chunks != [] then b.(tcp := b.tcp.(queued := true)) else b;
      if c.amqp.unread == [] && !c.amqp.partial then c.(amqp := Accepted(c.amqp)) else c
  }

  ghost predicate AmqpEnabled(s: State, chunks: seq<bytes>)
    requires WellFormed(s)
  {
    if s.amqp.linkOpen && s.amqp.current && s.amqp.unread != [] then
      CanReceive(Drained(s), chunks)
    else
      chunks == []
  }

  /** The raw handler; `avail` is how many more buffers the connection accepts. */
  ghost function RawHandled(s: State, avail: nat): State
    requires WellFormed(s)
  {
    RawChecked(Sent(Drained(s.(tcp := s.tcp.(queued := false))), avail), Full(s.ring))
  }

  /** The handler's last part: close the connection or wake the AMQP side; `full` says
      whether the ring was full when the handler began. */
  ghost function RawChecked(t: State, full: bool): State
    requires Shape(t.ring)
  {
    if Empty(t.ring) && !t.amqp.linkOpen then
      t.(tcp := t.tcp.(closed := true))
    else if full && !Full(t.ring) then
      t.(amqp := t.amqp.(wake := true))
    else
      t
  }

  // ------------------------------------------- the peer and the transport

  /** The transport writes `n` octets of the next lent buffer, read from the ring's memory now. */
  ghost function Written(s: State, n: nat): State
    requires WellFormed(s) && WriteEnabled(s, n)
  {
    var d := s.tcp.out[s.tcp.done];
    var p := s.tcp.progress + n;
    s.(tcp := if p == d.size then s.tcp.(done := s.tcp.done + 1, progress := 0, queued := true)
              else s.tcp.(progress := p),
       h := s.h.(wire := s.h.wire + Memory(s.ring, d)[s.tcp.progress..p]))
  }

  ghost predicate WriteEnabled(s: State, n: nat) {
    && s.tcp.connected && s.tcp.done < |s.tcp.out|
    && 1 <= n && s.tcp.progress + n <= s.tcp.out[s.tcp.done].size
  }

  datatype Event =
    | Begin                                 // the peer starts a delivery
    | Arrive(data: bytes, last: bool)       // more of it arrives
    | DeliveryEvent(chunks: seq<bytes>)     // PN_DELIVERY
    | WakeEvent(chunks: seq<bytes>)         // PN_CONNECTION_WAKE
    | LinkClosed                            // PN_LINK_REMOTE_CLOSE
    | Connected                             // the TCP connection comes up
    | RawEvent(avail: nat)                  // any raw connection event but a disconnect
    | Write(n: nat)                         // the transport writes to the socket

  ghost predicate Enabled(s: State, e: Event)
    requires WellFormed(s)
  {
    match e
    case Begin => CanBegin(s.amqp)
    case Arrive(_, _) => CanArrive(s.amqp)
    case DeliveryEvent(chunks) => s.amqp.events != [] && AmqpEnabled(s, chunks)
    case WakeEvent(chunks) => s.amqp.wake && AmqpEnabled(s, chunks)
    case LinkClosed => s.amqp.linkOpen
    case Connected => !s.tcp.connected
    case RawEvent(avail) => s.tcp.connected && s.tcp.done == |s.tcp.out| ==> avail > 0
    case Write(n) => WriteEnabled(s, n)
  }

  ghost function Step(s: State, e: Event): State
    requires WellFormed(s) && Enabled(s, e)
  {
    match e
    case Begin => s.(amqp := Begun(s.amqp))
    case Arrive(data, last) =>
      s.(amqp := Arrived(s.amqp, data, last), h := s.h.(arrived := s.h.arrived + data))
    case DeliveryEvent(chunks) => AmqpHandled(s.(amqp := Taken(s.amqp)), chunks)
    case WakeEvent(chunks) => AmqpHandled(s.(amqp := s.amqp.(wake := false)), chunks)
    case LinkClosed => s.(amqp := Closed(s.amqp))
    case Connected => s.(tcp := s.tcp.(connected := true, queued := true))
    case RawEvent(avail) => RawHandled(s, avail)
    case Write(n) => Written(s, n)
  }

  // -------------------------------------------------------------- invariants

  /** The lent buffers are the oldest slots in use, each once, in ring order. */
  ghost predicate Lent(r: Ring, t: Tcp) {
    && Shape(r)
    && t.done <= |t.out| <= Used(r)
    && t.out == Lend(r, |t.out|)
    && (if t.done < |t.out| then t.progress < t.out[t.done].size else t.progress == 0)
  }

  /** The octets on the wire beyond those handed back: whole written buffers, then part of one. */
  ghost function InFlight(q: seq<bytes>, done: nat, progress: nat): bytes
    requires done <= |q|
  {
    Flatten(q[..done]) + if done < |q| && progress <= |q[done]| then q[done][..progress] else []
  }

  /** Every octet received is handed back or in the ring; every octet on the wire is accounted for in order. */
  ghost predicate Stream(q: seq<bytes>, done: nat, progress: nat, h: History)
    requires done <= |q|
  {
    && h.received == h.retired + Flatten(q)
    && h.wire == h.retired + InFlight(q, done, progress)
    && forall i :: 0 <= i < |q| ==> q[i] != []
  }

  /** Nothing that arrived is lost while the link is open. */
  ghost predicate Delivered(a: Amqp, h: History) {
    && Books(a) && h.received <= h.arrived
    && (a.linkOpen ==> h.arrived == h.received + Unread(a))
  }

  ghost predicate Inv(s: State) {
    && WellFormed(s)
    && Lent(s.ring, s.tcp)
    && Stream(Queue(s.ring), s.tcp.done, s.tcp.progress, s.h)
    && Delivered(s.amqp, s.h)
    && (s.tcp.closed ==> !s.amqp.linkOpen && Used(s.ring) == 0)
  }

  // -------------------------------------------- each part keeps the stream

  /** A lent buffer refers to the queue's octets as they are now. */
  lemma LentMemory(r: Ring, t: Tcp, i: nat)
    requires Lent(r, t) && i < |t.out|
    ensures t.out[i].slot < SLOT_COUNT && t.out[i].size <= BUF_SIZE
    ensures Memory(r, t.out[i]) == Queue(r)[i]
    ensures t.out[i].size == |Queue(r)[i]|
  {
  }

  lemma LentWellFormed(s: State)
    requires Lent(s.ring, s.tcp)
    ensures WellFormed(s)
  {
    forall i | 0 <= i < |s.tcp.out|
      ensures s.tcp.out[i].slot < SLOT_COUNT && s.tcp.out[i].size <= BUF_SIZE
    {
      LentMemory(s.ring, s.tcp, i);
    }
  }

  lemma LentReleased(r: Ring, t: Tcp)
    requires Lent(r, t)
    ensures Lent(Release(r, t.done), t.(out := t.out[t.done..], done := 0))
  {
    var r', t' := Release(r, t.done), t.(out := t.out[t.done..], done := 0);
    ReleaseQueue(r, t.done);
    assert t'.out == Lend(r', |t'.out|);
  }

  lemma StreamReleased(q: seq<bytes>, done: nat, progress: nat, h: History)
    requires done <= |q| && Stream(q, done, progress, h)
    ensures Stream(q[done..], 0, progress, h.(retired := h.retired + Flatten(q[..done])))
  {
    FlattenSplit(q, done);
    assert q[done..][..0] == [];
  }

  lemma LentInOrder(s: State)
    requires WellFormed(s) && Lent(s.ring, s.tcp)
    ensures ReturnInOrder(s) && Returned(s) == Queue(s.ring)[..s.tcp.done]
  {
    forall i | 0 <= i < s.tcp.done ensures Memory(s.ring, s.tcp.out[i]) == Queue(s.ring)[i] {
      LentMemory(s.ring, s.tcp, i);
    }
  }

  lemma DrainedKeeps(s: State)
    requires Inv(s)
    ensures Inv(Drained(s)) && Used(Drained(s).ring) == Used(s.ring) - s.tcp.done
    ensures Queue(Drained(s).ring) == Queue(s.ring)[s.tcp.done..]
  {
    var d, q, t := s.tcp.done, Queue(s.ring), Drained(s);
    LentInOrder(s);
    assert t.h == s.h.(retired := s.h.retired + Flatten(q[..d]));
    ReleaseQueue(s.ring, d);
    LentReleased(s.ring, s.tcp);
    LentWellFormed(t);
    StreamReleased(q, d, s.tcp.progress, s.h);
  }

  lemma SentKeeps(s: State, avail: nat)
    requires Inv(s) && s.tcp.out == []
    ensures Inv(Sent(s, avail))
  {
    var t := Sent(s, avail);
    assert t.tcp.out == Lend(t.ring, |t.tcp.out|);
    if t.tcp.out != [] {
      assert Queue(t.ring)[0] != [];
    }
    LentWellFormed(t);
  }

  lemma LentReceived(r: Ring, t: Tcp, chunks: seq<bytes>)
    requires Lent(r, t) && Fits(r, chunks)
    ensures Lent(Put(r, chunks), t)
  {
    PutQueue(r, chunks);
    assert Lend(r, |t.out|) == Lend(Put(r, chunks), |t.out|);
  }

  lemma InFlightReceived(q: seq<bytes>, done: nat, progress: nat, chunks: seq<bytes>)
    requires done <= |q| && (done == |q| ==> progress == 0)
    ensures InFlight(q + chunks, done, progress) == InFlight(q, done, progress)
  {
    assert (q + chunks)[..done] == q[..done];
    if done == |q| {
      assert Flatten(q[..done]) + [] == Flatten(q[..done]);
    }
  }

  lemma StreamReceived(q: seq<bytes>, done: nat, progress: nat, h: History, chunks: seq<bytes>)
    requires done <= |q| && Stream(q, done, progress, h) && (done == |q| ==> progress == 0)
    requires forall i :: 0 <= i < |chunks| ==> chunks[i] != []
    ensures Stream(q + chunks, done, progress, h.(received := h.received + Flatten(chunks)))
  {
    FlattenConcat(q, chunks);
    InFlightReceived(q, done, progress, chunks);
    Associative(h.retired, Flatten(q), Flatten(chunks));
  }

  lemma ReceivedKeeps(s: State, chunks: seq<bytes>)
    requires Inv(s) && s.amqp.current && CanReceive(s, chunks)
    ensures Inv(Received(s, chunks))
  {
    var t := Received(s, chunks);
    LentReceived(s.ring, s.tcp, chunks);
    LentWellFormed(t);
    StreamReceived(Queue(s.ring), s.tcp.done, s.tcp.progress, s.h, chunks);
    PutQueue(s.ring, chunks);
    assert s.amqp.unread == Flatten(chunks) + t.amqp.unread;
    Associative(s.h.received, Flatten(chunks), Unread(t.amqp));
    Associative(Flatten(chunks), t.amqp.unread, Backlog(t.amqp.waiting));
  }

  lemma StreamWritten(q: seq<bytes>, done: nat, progress: nat, n: nat, h: History)
    requires done < |q| && Stream(q, done, progress, h) && progress + n <= |q[done]|
    ensures var h' := h.(wire := h.wire + q[done][progress..progress + n]);
      if progress + n == |q[done]| then Stream(q, done + 1, 0, h') else Stream(q, done, progress + n, h')
  {
    var p := progress + n;
    assert q[done][..progress] + q[done][progress..p] == q[done][..p];
    if p == |q[done]| {
      assert q[..done + 1] == q[..done] + [q[done]];
      FlattenSnoc(q[..done], q[done]);
      assert q[done][..p] == q[done];
    }
    Associative(h.retired + Flatten(q[..done]), q[done][..progress], q[done][progress..p]);
    Associative(h.retired, Flatten(q[..done]), q[done][..progress]);
    Associative(h.retired, Flatten(q[..done]), q[done][..p]);
  }

  lemma LentWritten(s: State, n: nat)
    requires WellFormed(s) && Lent(s.ring, s.tcp) && WriteEnabled(s, n)
    requires forall i :: 0 <= i < Used(s.ring) ==> Queue(s.ring)[i] != []
    ensures Lent(Written(s, n).ring, Written(s, n).tcp)
  {
    if s.tcp.done + 1 < |s.tcp.out| {
      LentMemory(s.ring, s.tcp, s.tcp.done + 1);
    }
  }

  lemma WireWritten(s: State, n: nat)
    requires Inv(s) && WriteEnabled(s, n)
    ensures var t := Written(s, n);
      t.tcp.done <= Used(s.ring) && Stream(Queue(s.ring), t.tcp.done, t.tcp.progress, t.h)
  {
    LentMemory(s.ring, s.tcp, s.tcp.done);
    StreamWritten(Queue(s.ring), s.tcp.done, s.tcp.progress, n, s.h);
  }

  lemma WrittenKeeps(s: State, n: nat)
    requires Inv(s) && WriteEnabled(s, n)
    ensures Inv(Written(s, n))
  {
    var t := Written(s, n);
    assert t.ring == s.ring && t.amqp == s.amqp;
    WireWritten(s, n);
    LentWritten(s, n);
    LentWellFormed(t);
  }

  // -------------------------------------------------------- safety of every run

  /** The raw handler starts lending at the consumer slot each time, so it must not
      run while a lent buffer is unwritten, unless the connection accepts none. */
  ghost predicate HandedBack(s: State, e: Event) {
    e.RawEvent? ==> s.tcp.done == |s.tcp.out| || e.avail == 0
  }

  /** Flags may change freely: only the ring, the lending and the books matter. */
  lemma FlagsKeep(s: State, amqp: Amqp, queued: bool, closed: bool)
    requires Inv(s) && Delivered(amqp, s.h)
    requires closed ==> !amqp.linkOpen && Used(s.ring) == 0
    ensures Inv(State(amqp, s.ring, s.tcp.(queued := queued, closed := closed), s.h))
  {
  }

  lemma ReadKeeps(s: State, chunks: seq<bytes>)
    requires Inv(s) && s.amqp.current && CanReceive(Drained(s), chunks)
    ensures Inv(Received(Drained(s), chunks))
  {
    DrainedKeeps(s);
    ReceivedKeeps(Drained(s), chunks);
  }

  lemma AmqpHandledKeeps(s: State, chunks: seq<bytes>)
    requires Inv(s) && AmqpEnabled(s, chunks)
    ensures Inv(AmqpHandled(s, chunks))
  {
    if s.amqp.linkOpen && s.amqp.current {
      var b := s;
      if s.amqp.unread != [] {
        ReadKeeps(s, chunks);
        b := Received(Drained(s), chunks);
      }
      if b.amqp.unread == [] && !b.amqp.partial {
        AcceptedKeeps(b.amqp);
      }
      FlagsKeep(b, AmqpHandled(s, chunks).amqp, AmqpHandled(s, chunks).tcp.queued, b.tcp.closed);
    }
  }

  lemma LentKeeps(s: State, avail: nat)
    requires Inv(s) && (s.tcp.done == |s.tcp.out| || avail == 0)
    ensures Inv(Sent(Drained(s), avail))
  {
    DrainedKeeps(s);
    var b := Drained(s);
    if b.tcp.out == [] {
      SentKeeps(b, avail);
    } else {
      assert Sent(b, avail) == b;
    }
  }

  lemma CheckedKeeps(t: State, full: bool)
    requires Inv(t)
    ensures Inv(RawChecked(t, full))
  {
    FullAndEmpty(t.ring);
    var r := RawChecked(t, full);
    FlagsKeep(t, r.amqp, t.tcp.queued, r.tcp.closed);
  }

  lemma RawHandledKeeps(s: State, avail: nat)
    requires Inv(s) && HandedBack(s, RawEvent(avail))
    ensures Inv(RawHandled(s, avail))
  {
    var a := s.(tcp := s.tcp.(queued := false));
    FlagsKeep(s, s.amqp, false, s.tcp.closed);
    LentKeeps(a, avail);
    CheckedKeeps(Sent(Drained(a), avail), Full(s.ring));
  }

  /** What only the link sees. */
  lemma LinkKeeps(s: State, e: Event)
    requires Inv(s) && Enabled(s, e) && (e.Begin? || e.Arrive? || e.LinkClosed?)
    ensures Inv(Step(s, e))
  {
    match e
    case Begin => BegunKeeps(s.amqp);
    case Arrive(data, last) =>
      ArrivedKeeps(s.amqp, data, last);
      Associative(s.h.received, Unread(s.amqp), data);
    case LinkClosed =>
  }

  lemma StepKeeps(s: State, e: Event)
    requires Inv(s) && Enabled(s, e) && HandedBack(s, e)
    ensures Inv(Step(s, e))
  {
    match e
    case Begin => LinkKeeps(s, e);
    case Arrive(_, _) => LinkKeeps(s, e);
    case LinkClosed => LinkKeeps(s, e);
    case DeliveryEvent(chunks) =>
      TakenKeeps(s.amqp);
      FlagsKeep(s, Taken(s.amqp), s.tcp.queued, s.tcp.closed);
      AmqpHandledKeeps(s.(amqp := Taken(s.amqp)), chunks);
    case WakeEvent(chunks) =>
      FlagsKeep(s, s.amqp.(wake := false), s.tcp.queued, s.tcp.closed);
      AmqpHandledKeeps(s.(amqp := s.amqp.(wake := false)), chunks);
    case Connected =>
    case RawEvent(avail) => RawHandledKeeps(s, avail);
    case Write(n) => WrittenKeeps(s, n);
  }

  // ------------------------------------------- how much a handler gets done

  lemma SentLends(s: State, avail: nat)
    requires Inv(s) && (s.tcp.done == |s.tcp.out| || avail == 0)
    ensures var t := Sent(Drained(s), avail);
      && t.tcp.done == 0 && Used(t.ring) == Used(s.ring) - s.tcp.done
      && |t.tcp.out| == Min(Used(t.ring), |s.tcp.out| - s.tcp.done + avail)
      && forall i :: 0 <= i < |t.tcp.out| ==> t.tcp.out[i].slot == Slot(t.ring.consumer, i)
  {
    DrainedKeeps(s);
    LentKeeps(s, avail);
    var t := Sent(Drained(s), avail);
    assert t.tcp.out == Lend(t.ring, |t.tcp.out|);
  }

  /** A raw event takes back every written buffer, and then lends all the slots in use or, if the
      connection accepts fewer, as many more as it accepts. */
  lemma RawLendsAll(s: State, avail: nat)
    requires Inv(s) && Enabled(s, RawEvent(avail)) && HandedBack(s, RawEvent(avail))
    ensures var t := Step(s, RawEvent(avail));
      && t.tcp.done == 0 && Used(t.ring) == Used(s.ring) - s.tcp.done
      && |t.tcp.out| <= Used(t.ring) && |t.tcp.out| <= |s.tcp.out| - s.tcp.done + avail
      && (|t.tcp.out| == Used(t.ring) || |t.tcp.out| == |s.tcp.out| - s.tcp.done + avail)
      && forall i :: 0 <= i < |t.tcp.out| ==> t.tcp.out[i].slot == Slot(t.ring.consumer, i)
  {
    FlagsKeep(s, s.amqp, false, s.tcp.closed);
    SentLends(s.(tcp := s.tcp.(queued := false)), avail);
  }

  /** The AMQP arm, with data to read, first takes back every written buffer; then one more
      slot is in use for each receive, and that many octets fewer are unread. */
  lemma AmqpMakesRoom(s: State, chunks: seq<bytes>)
    requires Inv(s) && AmqpEnabled(s, chunks) && s.amqp.linkOpen && s.amqp.current && s.amqp.unread != []
    ensures var t := AmqpHandled(s, chunks);
      && t.tcp.done == 0 && |t.tcp.out| == |s.tcp.out| - s.tcp.done
      && Used(t.ring) == Used(s.ring) - s.tcp.done + |chunks|
      && t.h.received == s.h.received + Flatten(chunks) && (t.tcp.queued <==> s.tcp.queued || chunks != [])
      && (t.amqp.settled == s.amqp.settled + 1 <==> !s.amqp.partial && Flatten(chunks) == s.amqp.unread)
  {
    DrainedKeeps(s);
  }
}
