/**
 The bridge's context object and its event handlers, which update the ring in
 place.  Each handler is proved to do what the state machine's step says.
 */
module BridgeContext {
  import opened Bytes
  import opened BridgeLink
  import opened Ring
  import opened Bridge
  import BridgeRuns

  /** Proton's receiving link, by its contract. */
  class ReceiverLink {
    var state: Amqp
    /** A receive returns data whenever data is pending. */
    ghost const prompt: bool
    /** How much each receive asked for; no part of the program. */
    ghost var asked: seq<nat>

    constructor (ghost prompt: bool)
      ensures state == OPENED && this.prompt == prompt
    {
      state, asked := OPENED, [];
      this.prompt := prompt;
    }

    predicate Pending()
      reads this
    {
      state.unread != []
    }

    /** Some non-empty prefix of what is unread, or a result of zero or less and nothing read. */
    method Recv(max: nat) returns (rc: int, chunk: bytes)
      requires max > 0
      modifies this
      ensures rc <= 0 ==> state == old(state) && chunk == []
      ensures rc > 0 ==> rc <= max && rc == |chunk| && chunk <= old(state.unread)
      ensures rc > 0 ==> state == old(state).(unread := old(state.unread)[rc..])
      ensures prompt && old(state.unread) != [] ==> rc > 0
      ensures asked == old(asked) + [max]
    {
      asked := asked + [max];
      rc := Min(max, |state.unread|);
      chunk := state.unread[..rc];
      state := state.(unread := state.unread[rc..]);
    }

    /** The delivery of the oldest event waiting, which is taken out. */
    method NextEvent() returns (delivery: nat)
      requires state.events != []
      modifies this`state
      ensures delivery == old(state.events[0]) && state == Taken(old(state))
    {
      delivery := state.events[0];
      state := Taken(state);
    }

    /** Accept and settle the current delivery, and grant one credit for another. */
    method Accept()
      modifies this`state
      ensures state == Accepted(old(state))
    {
      state := Accepted(state);
    }
  }

  /** The raw connection after its first `k` written buffers have been taken back. */
  function TcpDrained(t: Tcp, k: nat): Tcp
    requires k <= t.done <= |t.out|
  {
    t.(out := t.out[k..], done := t.done - k)
  }

  lemma TcpDrainedNext(t: Tcp, k: nat)
    requires k <= t.done <= |t.out|
    ensures TcpDrained(t, 0) == t
    ensures k < t.done ==>
      TcpDrained(t, k).out[0] == t.out[k] && TcpDrained(TcpDrained(t, k), 1) == TcpDrained(t, k + 1)
  {
  }

  /** Proton's raw connection, by its contract. */
  class RawConnection {
    var state: Tcp

    constructor ()
      ensures state == Tcp(false, false, [], 0, 0, false)
    {
      state := Tcp(false, false, [], 0, 0, false);
    }

    /** The oldest lent buffer, if it is written out. */
    method TakeWritten() returns (taken: bool, d: Desc)
      requires state.done <= |state.out|
      modifies this
      ensures taken <==> old(state.done) > 0
      ensures taken ==> d == old(state.out)[0]
      ensures taken ==> state == TcpDrained(old(state), 1)
      ensures !taken ==> state == old(state)
    {
      taken, d := state.done > 0, Desc(0, 0);
      if taken {
        d := state.out[0];
        state := TcpDrained(state, 1);
      }
    }

    /** How many more buffers it accepts: any number, but not none when it holds none. */
    method WriteCapacity() returns (avail: nat)
      ensures state.connected && state.out == [] ==> avail > 0
    {
      avail := 16;
    }

    method WriteBuffer(d: Desc)
      modifies this
      ensures state == old(state).(out := old(state.out) + [d])
    {
      state := state.(out := state.out + [d]);
    }

    method Wake()
      modifies this
      ensures state == old(state).(queued := true)
    {
      state := state.(queued := true);
    }

    method Close()
      modifies this
      ensures state == old(state).(closed := true)
    {
      state := state.(closed := true);
    }
  }

  /** One more receive extends the run of receives by its chunk. */
  lemma ReceiveOne(s: State, chunks: seq<bytes>, chunk: bytes)
    requires CanReceive(s, chunks) && !Full(Put(s.ring, chunks))
    requires 1 <= |chunk| <= BUF_SIZE && chunk <= s.amqp.unread[|Flatten(chunks)|..]
    ensures CanReceive(s, chunks + [chunk])
    ensures Put(s.ring, chunks + [chunk]) == PutOne(Put(s.ring, chunks), chunk)
    ensures Flatten(chunks + [chunk]) == Flatten(chunks) + chunk
    ensures s.amqp.unread[|Flatten(chunks)|..][|chunk|..] == s.amqp.unread[|Flatten(chunks + [chunk])|..]
  {
    FullAndEmpty(Put(s.ring, chunks));
    FlattenSnoc(chunks, chunk);
    assert (chunks + [chunk])[..|chunks|] == chunks;
  }

  /** The drain after taking back the first `k` of the written buffers. */
  ghost function DrainedTo(s: State, k: nat): State
    requires WellFormed(s) && k <= s.tcp.done
  {
    s.(ring := s.ring.(consumer := Slot(s.ring.consumer, k)), tcp := TcpDrained(s.tcp, k),
       h := s.h.(retired := s.h.retired + Flatten(Returned(s)[..k])))
  }

  /** One more buffer taken back, from the consumer slot on. */
  lemma DrainOne(s: State, k: nat)
    requires WellFormed(s) && k < s.tcp.done
    ensures DrainedTo(s, k + 1).ring == DrainedTo(s, k).ring.(consumer := NextSlot(Slot(s.ring.consumer, k)))
    ensures DrainedTo(s, k + 1).h.retired == DrainedTo(s, k).h.retired + Returned(s)[k]
  {
    SlotStep(s.ring.consumer, k);
    FlattenNext(s.h.retired, Returned(s), k);
  }

  lemma DrainAll(s: State)
    requires WellFormed(s)
    ensures DrainedTo(s, s.tcp.done) == Drained(s)
  {
    assert Returned(s)[..s.tcp.done] == Returned(s);
  }

  lemma LendNone(r: Ring, out: seq<Desc>)
    requires Shape(r)
    ensures out + Lend(r, 0) == out && Used(r) >= 0
  {
    FullAndEmpty(r);
  }

  /** A slot that is not the producer's is in use, and is lent after those before it. */
  lemma LendNext(r: Ring, out: seq<Desc>, k: nat)
    requires Shape(r) && k <= Used(r) && Slot(r.consumer, k) != r.producer
    ensures k < Used(r) && Slot(r.consumer, k) < SLOT_COUNT
    ensures Slot(r.consumer, k + 1) == NextSlot(Slot(r.consumer, k))
    ensures var slot := Slot(r.consumer, k);
      out + Lend(r, k) + [Desc(slot, r.slots[slot].size)] == out + Lend(r, k + 1)
  {
    FullAndEmpty(r);
    SlotStep(r.consumer, k);
    var d := Desc(Slot(r.consumer, k), r.slots[Slot(r.consumer, k)].size);
    assert Lend(r, k + 1) == Lend(r, k) + [d];
  }

  lemma LendEntries(r: Ring, out: seq<Desc>, k: nat)
    requires Shape(r) && k <= Used(r)
    ensures out <= out + Lend(r, k) && |out + Lend(r, k)| == |out| + k
    ensures forall i :: 0 <= i < k ==>
      var slot := Slot(r.consumer, i);
      slot < SLOT_COUNT && (out + Lend(r, k))[|out| + i] == Desc(slot, r.slots[slot].size)
  {
  }

  /** The slot after those in use is the producer's, and no other is. */
  lemma LendLast(r: Ring, k: nat)
    requires Shape(r) && k <= Used(r)
    ensures Slot(r.consumer, k) == r.producer <==> k == Used(r)
  {
    FullAndEmpty(r);
    if k < Used(r) {
      SlotsDiffer(r.consumer, k, Used(r));
    }
  }

  lemma SentWellFormed(s: State)
    requires WellFormed(s)
    ensures WellFormed(Drained(s)) && forall avail: nat :: WellFormed(Sent(Drained(s), avail))
  {
  }

  lemma DrainNone(s: State)
    requires WellFormed(s)
    ensures DrainedTo(s, 0) == s
  {
    assert s.h.retired + [] == s.h.retired;
  }

  class Context {
    const amqpLink: ReceiverLink
    const rawConn: RawConnection
    const buffers: array<Buffer>
    var producerSlot: nat
    var consumerSlot: nat
    /** What has happened so far; no part of the program. */
    ghost var history: History

    constructor (link: ReceiverLink, raw: RawConnection)
      requires link.state == OPENED
      requires raw.state == Tcp(false, false, [], 0, 0, false)
      ensures amqpLink == link && rawConn == raw && fresh(buffers)
      ensures Valid() && BridgeRuns.Initial(State())
    {
      amqpLink, rawConn := link, raw;
      buffers := new Buffer[SLOT_COUNT](_ => Buffer(0, Repeat(0, BUF_SIZE)));
      producerSlot, consumerSlot := 0, 0;
      history := History([], [], [], []);
    }

    ghost predicate Valid()
      reads this, buffers, amqpLink, rawConn
    {
      WellFormed(State())
    }

    ghost function State(): State
      reads this, buffers, amqpLink, rawConn
    {
      Bridge.State(amqpLink.state, Ring(buffers[..], producerSlot, consumerSlot), rawConn.state, history)
    }

    predicate SlotsFull()
      reads this
    {
      NextSlot(producerSlot) == consumerSlot
    }

    predicate SlotsEmpty()
      reads this
    {
      producerSlot == consumerSlot
    }

    /** Fill the producer slot and move on. */
    method Store(chunk: bytes)
      requires producerSlot < buffers.Length && |chunk| <= BUF_SIZE && |buffers[producerSlot].data| == BUF_SIZE
      modifies this`producerSlot, buffers
      ensures Ring(buffers[..], producerSlot, consumerSlot)
        == PutOne(old(Ring(buffers[..], producerSlot, consumerSlot)), chunk)
    {
      buffers[producerSlot] := Fill(buffers[producerSlot], chunk);
      producerSlot := NextSlot(producerSlot);
    }

    /** Receive from the link into free slots until the ring is full or a receive yields nothing. */
    method LinkReceive() returns (written: nat, ghost chunks: seq<bytes>)
      requires Valid()
      modifies this`producerSlot, this`history, buffers, amqpLink
      ensures Valid() && CanReceive(old(State()), chunks)
      ensures State() == Received(old(State()), chunks) && written == |chunks|
      ensures amqpLink.prompt ==> SlotsFull() || !amqpLink.Pending()
      ensures old(amqpLink.asked) <= amqpLink.asked
      ensures forall i :: |old(amqpLink.asked)| <= i < |amqpLink.asked| ==> amqpLink.asked[i] == BUF_SIZE
    {
      written, chunks := 0, [];
      ghost var s := State();
      var more := true;
      while more && !SlotsFull() && amqpLink.Pending()
        invariant CanReceive(s, chunks) && written == |chunks|
        invariant Ring(buffers[..], producerSlot, consumerSlot) == Put(s.ring, chunks)
        invariant amqpLink.state == s.amqp.(unread := amqpLink.state.unread)
        invariant amqpLink.state.unread == s.amqp.unread[|Flatten(chunks)|..]
        invariant history == s.h.(received := s.h.received + Flatten(chunks))
        invariant amqpLink.prompt ==> more
        invariant old(amqpLink.asked) <= amqpLink.asked
        invariant forall i :: |old(amqpLink.asked)| <= i < |amqpLink.asked| ==> amqpLink.asked[i] == BUF_SIZE
        decreases more, |amqpLink.state.unread|
      {
        var rc, chunk := amqpLink.Recv(BUF_SIZE);
        if rc <= 0 {
          more := false;
        } else {
          ReceiveOne(s, chunks, chunk);
          Store(chunk);
          history := history.(received := s.h.received + Flatten(chunks + [chunk]));
          written := written + 1;
          chunks := chunks + [chunk];
        }
      }
    }

    /** One written buffer taken back, the `k`-th: it must be the one at the consumer slot. */
    method TakeBack(mySlot: nat, ghost s: State, ghost k: nat)
      requires WellFormed(s) && ReturnInOrder(s) && k < s.tcp.done && mySlot == s.tcp.out[k].slot
      requires consumerSlot == DrainedTo(s, k).ring.consumer && history == DrainedTo(s, k).h
      modifies this`consumerSlot, this`history
      ensures consumerSlot == DrainedTo(s, k + 1).ring.consumer && history == DrainedTo(s, k + 1).h
    {
      assert mySlot == consumerSlot;
      DrainOne(s, k);
      history := history.(retired := history.retired + Returned(s)[k]);
      consumerSlot := NextSlot(consumerSlot);
    }

    /** Take back every written buffer. */
    method RawWriteDrain() returns (drained: nat)
      requires Valid() && ReturnInOrder(State())
      modifies this`consumerSlot, this`history, rawConn
      ensures State() == Drained(old(State())) && drained == old(rawConn.state.done)
    {
      drained := 0;
      ghost var s := State();
      DrainNone(s);
      TcpDrainedNext(s.tcp, 0);
      var taken, d := rawConn.TakeWritten();
      while taken
        invariant drained <= s.tcp.done && (taken <==> drained < s.tcp.done)
        invariant taken ==> d == s.tcp.out[drained]
        invariant rawConn.state == TcpDrained(s.tcp, if taken then drained + 1 else drained)
        invariant consumerSlot == DrainedTo(s, drained).ring.consumer && history == DrainedTo(s, drained).h
        decreases s.tcp.done - drained
      {
        TakeBack(d.slot, s, drained);
        drained := drained + 1;
        TcpDrainedNext(s.tcp, drained);
        taken, d := rawConn.TakeWritten();
      }
      DrainAll(s);
    }

    /** Lend the buffers in use to the raw connection, from the consumer slot on. */
    method RawSend() returns (written: nat, ghost avail: nat)
      requires Valid()
      modifies rawConn
      ensures State() == Sent(old(State()), avail)
      ensures written == Min(avail, old(Used(State().ring)))
      ensures |rawConn.state.out| == |old(rawConn.state.out)| + written && old(rawConn.state.out) <= rawConn.state.out
      ensures forall i :: 0 <= i < written ==>
        var slot := Slot(consumerSlot, i);
        slot < buffers.Length && rawConn.state.out[|old(rawConn.state.out)| + i] == Desc(slot, buffers[slot].size)
      ensures rawConn.state.connected && old(rawConn.state.out) == [] ==> avail > 0
    {
      written := 0;
      var left: nat := rawConn.WriteCapacity();
      avail := left;
      ghost var s := State();
      var slot := consumerSlot;
      LendNone(s.ring, s.tcp.out);
      while left > 0 && slot != producerSlot
        invariant left + written == avail && written <= Used(s.ring) && slot == Slot(consumerSlot, written)
        invariant rawConn.state == s.tcp.(out := s.tcp.out + Lend(s.ring, written))
      {
        LendNext(s.ring, s.tcp.out, written);
        rawConn.WriteBuffer(Desc(slot, buffers[slot].size));
        left := left - 1;
        slot := NextSlot(slot);
        written := written + 1;
      }
      LendLast(s.ring, written);
      LendEntries(s.ring, s.tcp.out, written);
    }

    /** The arm that delivery and wake events share, on the link's current delivery; `found` is
        false when that is null, which the code goes on to use. */
    method HandleAmqp() returns (found: bool, ghost chunks: seq<bytes>)
      requires Valid() && ReturnInOrder(State())
      modifies this, buffers, amqpLink, rawConn
      ensures AmqpEnabled(old(State()), chunks) && State() == AmqpHandled(old(State()), chunks)
      ensures found <==> old(amqpLink.state.linkOpen ==> amqpLink.state.current)
      ensures amqpLink.prompt && old(amqpLink.state.linkOpen && amqpLink.state.current && amqpLink.state.unread != []) ==>
        var t := Received(Drained(old(State())), chunks);
        Full(t.ring) || t.amqp.unread == []
    {
      found, chunks := amqpLink.state.linkOpen ==> amqpLink.state.current, [];
      if amqpLink.state.linkOpen && amqpLink.state.current {
        var written := 0;
        if amqpLink.Pending() {
          var _ := RawWriteDrain();
          written, chunks := LinkReceive();
        }
        if written > 0 {
          rawConn.Wake();
        }
        if !amqpLink.Pending() && !amqpLink.state.partial {
          amqpLink.Accept();
        }
      }
    }

    /** PN_DELIVERY: `asserted` is what the handler asserts of the event's delivery, and
        what follows is done with the assertion compiled out. */
    method OnDelivery() returns (asserted: bool, found: bool, ghost chunks: seq<bytes>)
      requires Inv(State()) && amqpLink.state.events != []
      modifies this, buffers, amqpLink, rawConn
      ensures asserted <==> EventIsCurrent(old(amqpLink.state))
      ensures found <==> old(amqpLink.state.linkOpen ==> amqpLink.state.current)
      ensures Enabled(old(State()), DeliveryEvent(chunks)) && State() == Step(old(State()), DeliveryEvent(chunks))
      ensures amqpLink.prompt ==> BridgeRuns.Prompt(old(State()), DeliveryEvent(chunks))
    {
      LentInOrder(State());
      var delivery := amqpLink.NextEvent();
      asserted := amqpLink.state.current && delivery == amqpLink.state.settled;
      found, chunks := HandleAmqp();
    }

    /** PN_CONNECTION_WAKE. */
    method OnWake() returns (found: bool, ghost chunks: seq<bytes>)
      requires Inv(State()) && amqpLink.state.wake
      modifies this, buffers, amqpLink, rawConn
      ensures found <==> old(amqpLink.state.linkOpen ==> amqpLink.state.current)
      ensures Enabled(old(State()), WakeEvent(chunks)) && State() == Step(old(State()), WakeEvent(chunks))
      ensures amqpLink.prompt ==> BridgeRuns.Prompt(old(State()), WakeEvent(chunks))
    {
      LentInOrder(State());
      amqpLink.state := amqpLink.state.(wake := false);
      found, chunks := HandleAmqp();
    }

    /** Close the connection at the end of the stream, or wake the AMQP side. */
    method CheckStream(wasFull: bool)
      requires Valid()
      modifies amqpLink, rawConn
      ensures State() == RawChecked(old(State()), wasFull)
    {
      if SlotsEmpty() && !amqpLink.state.linkOpen {
        rawConn.Close();
      } else if wasFull && !SlotsFull() {
        amqpLink.state := amqpLink.state.(wake := true);
      }
    }

    /** Any raw connection event but a disconnect. */
    method OnRawEvent() returns (ghost avail: nat)
      requires Inv(State())
      modifies this, amqpLink, rawConn
      ensures Enabled(old(State()), RawEvent(avail)) && State() == Step(old(State()), RawEvent(avail))
    {
      ghost var s := State();
      LentInOrder(s);
      rawConn.state := rawConn.state.(queued := false);
      var wasFull := SlotsFull();
      var _ := RawWriteDrain();
      SentWellFormed(s.(tcp := s.tcp.(queued := false)));
      var _, a := RawSend();
      avail := a;
      CheckStream(wasFull);
    }
  }
}
