/**
 Runs of the bridge from its start in which the code's unwritten assumptions fail:
 an octet sent to the server twice, a wake without a delivery, a delivery event out
 of turn, and a delivery that no event is left for.
 */
module BridgeFailures {
  import opened Bytes
  import opened BridgeLink
  import opened Ring
  import opened Bridge
  import opened BridgeRuns
  import opened BridgeWakes

  lemma FirstOfConcat(es: seq<Event>, fs: seq<Event>)
    requires es != []
    ensures es + fs != [] && (es + fs)[0] == es[0] && (es + fs)[1..] == es[1..] + fs
  {
  }

  lemma {:induction false} RunsJoin(s: State, es: seq<Event>, t: State, fs: seq<Event>, u: State, d: Discipline)
    requires Inv(s) && Run(s, es, t, d) && Inv(t) && Run(t, fs, u, d)
    ensures Run(s, es + fs, u, d)
    decreases |es|
  {
    if es == [] {
      assert es + fs == fs;
    } else {
      StepKeeps(s, es[0]);
      RunsJoin(Step(s, es[0]), es[1..], t, fs, u, d);
      FirstOfConcat(es, fs);
    }
  }

  /** A run can be extended by any event allowed at its end. */
  lemma Then(s: State, es: seq<Event>, t: State, e: Event, d: Discipline)
    requires Inv(s) && Run(s, es, t, d) && Inv(t) && Allowed(t, e, d)
    ensures Inv(Step(t, e)) && Run(s, es + [e], Step(t, e), d)
  {
    StepKeeps(t, e);
    assert [e][1..] == [];
    assert Run(Step(t, e), [], Step(t, e), d);
    assert Run(t, [e], Step(t, e), d);
    RunsJoin(s, es, t, [e], Step(t, e), d);
  }

  /** Some run leads from `s` to `t`. */
  ghost predicate Reached(s: State, t: State, d: Discipline)
    requires Inv(s)
  {
    exists es :: Run(s, es, t, d)
  }

  lemma Start(s: State, d: Discipline)
    requires Inv(s)
    ensures Reached(s, s, d)
  {
    assert Run(s, [], s, d);
  }

  lemma Further(s: State, t: State, e: Event, d: Discipline)
    requires Inv(s) && Reached(s, t, d) && Inv(t) && Allowed(t, e, d)
    ensures Inv(Step(t, e)) && Reached(s, Step(t, e), d)
  {
    var es :| Run(s, es, t, d);
    Then(s, es, t, e, d);
  }

  // ----------------------------------------------------- lending a slot twice

  /** The link with its first delivery begun and `data` of it arrived. */
  function FirstArrival(data: bytes, last: bool): Amqp {
    Amqp(true, CREDIT_WINDOW - 1, true, data, !last, [], 0, [0], false)
  }

  lemma FirstArrives(data: bytes, last: bool)
    ensures Arrived(Begun(OPENED), data, last) == FirstArrival(data, last) && CanArrive(Begun(OPENED))
    ensures [] + data == data
  {
  }

  lemma OneOctetArrives(s: State, c: byte) returns (t: State)
    requires Initial(s)
    ensures Reached(s, t, InTurn) && Inv(t) && Used(t.ring) == 0 && t.tcp == Tcp(false, false, [], 0, 0, false)
    ensures t.amqp == FirstArrival([c], false) && t.h == History([c], [], [], [])
  {
    t := s;
    Start(s, InTurn);
    FirstArrives([c], false);
    Further(s, t, Begin, InTurn);
    t := Step(t, Begin);
    Further(s, t, Arrive([c], false), InTurn);
    t := Step(t, Arrive([c], false));
  }

  lemma OneOctetFits(r: Ring, c: byte)
    requires Shape(r) && Used(r) == 0
    ensures Fits(r, [[c]]) && Flatten([[c]]) == [c]
    ensures Shape(Put(r, [[c]])) && Queue(Put(r, [[c]])) == [[c]]
  {
    FullAndEmpty(r);
    PutQueue(r, [[c]]);
    assert Queue(r) + [[c]] == [[c]];
  }

  lemma OneOctetReads(s: State, c: byte)
    requires Inv(s) && Used(s.ring) == 0 && s.tcp == Tcp(false, false, [], 0, 0, false)
    requires s.amqp == FirstArrival([c], false)
    requires s.h == History([c], [], [], [])
    ensures Allowed(s, DeliveryEvent([[c]]), InTurn)
    ensures var t := Step(s, DeliveryEvent([[c]]));
      && Shape(t.ring) && Queue(t.ring) == [[c]] && t.tcp == s.tcp.(queued := true)
      && t.h == History([c], [c], [], []) && t.amqp.linkOpen
  {
    assert Drained(s) == s;
    OneOctetFits(s.ring, c);
  }

  lemma OneOctetReceived(s: State, c: byte) returns (t: State)
    requires Initial(s)
    ensures Reached(s, t, InTurn) && Inv(t) && Queue(t.ring) == [[c]]
    ensures t.tcp == Tcp(false, false, [], 0, 0, true) && t.h == History([c], [c], [], []) && t.amqp.linkOpen
  {
    t := OneOctetArrives(s, c);
    OneOctetReads(t, c);
    Further(s, t, DeliveryEvent([[c]]), InTurn);
    t := Step(t, DeliveryEvent([[c]]));
  }

  lemma OneOctetLends(s: State, c: byte)
    requires Inv(s) && Queue(s.ring) == [[c]] && s.tcp == Tcp(false, false, [], 0, 0, true) && s.amqp.linkOpen
    ensures Allowed(s, RawEvent(1), InTurn)
    ensures var t := Step(s, RawEvent(1));
      && t.ring == s.ring && t.h == s.h
      && |t.tcp.out| == 1 && t.tcp.out[0].size == 1 && t.tcp == Tcp(false, false, t.tcp.out, 0, 0, false)
  {
    RawHandledKeeps(s, 1);
    assert Returned(s.(tcp := s.tcp.(queued := false))) == [];
    var t := RawHandled(s, 1);
    assert t.ring == s.ring;
    LentMemory(t.ring, t.tcp, 0);
  }

  lemma OneOctetLent(s: State, c: byte) returns (t: State)
    requires Initial(s)
    ensures Reached(s, t, InTurn) && Inv(t) && t.tcp.connected && t.h == History([c], [c], [], [])
    ensures t.tcp.done == 0 && t.tcp.progress == 0 && |t.tcp.out| == 1 && t.tcp.out[0].size == 1
    ensures Queue(t.ring) == [[c]]
  {
    t := OneOctetReceived(s, c);
    OneOctetLends(t, c);
    Further(s, t, RawEvent(1), InTurn);
    t := Step(t, RawEvent(1));
    Further(s, t, Connected, InTurn);
    t := Step(t, Connected);
  }

  /** A run in which one octet arrives and is lent; at its end a second raw event, and two
      writes of the transport, send it to the server twice. */
  lemma DuplicateOctetOnWire(s: State, c: byte) returns (t: State)
    requires Initial(s)
    ensures Reached(s, t, InTurn) && Inv(t) && t.h.arrived == [c] && !HandedBack(t, RawEvent(1))
    ensures WellFormed(RawHandled(t, 1)) && WriteEnabled(RawHandled(t, 1), 1)
    ensures WellFormed(Written(RawHandled(t, 1), 1)) && WriteEnabled(Written(RawHandled(t, 1), 1), 1)
    ensures Written(Written(RawHandled(t, 1), 1), 1).h.wire == [c, c]
  {
    t := OneOctetLent(s, c);
    SecondLending(t, c);
  }

  lemma SecondLending(t: State, c: byte)
    requires Inv(t) && t.tcp.connected && t.h.wire == []
    requires t.tcp.done == 0 && t.tcp.progress == 0 && |t.tcp.out| == 1 && t.tcp.out[0].size == 1
    requires Queue(t.ring) == [[c]]
    ensures WellFormed(RawHandled(t, 1)) && WriteEnabled(RawHandled(t, 1), 1)
    ensures WellFormed(Written(RawHandled(t, 1), 1)) && WriteEnabled(Written(RawHandled(t, 1), 1), 1)
    ensures Written(Written(RawHandled(t, 1), 1), 1).h.wire == [c, c]
  {
    LentMemory(t.ring, t.tcp, 0);
    var d := t.tcp.out[0];
    assert Memory(t.ring, d) == [c];
    var u := RawHandled(t, 1);
    assert u.ring.slots == t.ring.slots && u.ring.consumer == t.ring.consumer;
    assert Lend(t.ring, 1) == [d];
    assert u.tcp.out == [d, d];
    assert Memory(u.ring, d)[0..1] == [c];
  }

  // -------------------------------------------------- filling and emptying

  /** `n` receives of one octet each. */
  function OctetByOctet(n: nat): seq<bytes> {
    seq(n, _ => [0])
  }

  lemma {:induction false} OctetByOctetFlat(n: nat)
    ensures Flatten(OctetByOctet(n)) == Repeat(0, n)
  {
    if n > 0 {
      OctetByOctetFlat(n - 1);
      assert OctetByOctet(n)[1..] == OctetByOctet(n - 1);
    }
  }

  /** The link with one delivery on it, the first, of which `n` octets are unread. */
  function FirstDelivery(n: nat, last: bool, events: seq<nat>): Amqp {
    FirstArrival(Repeat(0, n), last).(events := events)
  }

  lemma DeliveryBegins(s: State, d: Discipline) returns (t: State)
    requires Initial(s)
    ensures Reached(s, t, d) && Inv(t) && Used(t.ring) == 0
    ensures t.amqp == Begun(OPENED) && t.tcp == Tcp(true, false, [], 0, 0, true)
  {
    t := s;
    Start(s, d);
    Further(s, t, Connected, d);
    t := Step(t, Connected);
    Further(s, t, Begin, d);
    t := Step(t, Begin);
  }

  lemma DeliveryArrives(s: State, n: nat, last: bool, d: Discipline) returns (t: State)
    requires Initial(s)
    ensures Reached(s, t, d) && Inv(t) && Used(t.ring) == 0
    ensures t.amqp == FirstDelivery(n, last, [0]) && t.tcp == Tcp(true, false, [], 0, 0, true)
  {
    t := DeliveryBegins(s, d);
    FirstArrives(Repeat(0, n), last);
    Further(s, t, Arrive(Repeat(0, n), last), d);
    t := Step(t, Arrive(Repeat(0, n), last));
  }

  const ALL_SLOTS: nat := SLOT_COUNT - 1

  lemma CanFill(r: Ring, n: nat)
    requires Shape(r) && Used(r) == 0
    ensures Fits(r, OctetByOctet(ALL_SLOTS)) && Full(Put(r, OctetByOctet(ALL_SLOTS)))
    ensures Flatten(OctetByOctet(ALL_SLOTS)) <= Repeat(0, n + ALL_SLOTS)
    ensures |Flatten(OctetByOctet(ALL_SLOTS))| == ALL_SLOTS
    ensures Repeat(0, n + ALL_SLOTS)[ALL_SLOTS..] == Repeat(0, n)
  {
    OctetByOctetFlat(ALL_SLOTS);
    FullAndEmpty(r);
    FullAndEmpty(Put(r, OctetByOctet(ALL_SLOTS)));
  }

  lemma FillsRing(s: State, n: nat, last: bool, d: Discipline)
    requires Inv(s) && Used(s.ring) == 0 && s.tcp == Tcp(true, false, [], 0, 0, true)
    requires s.amqp == FirstDelivery(n + ALL_SLOTS, last, [0])
    ensures Allowed(s, DeliveryEvent(OctetByOctet(ALL_SLOTS)), d)
    ensures var t := Step(s, DeliveryEvent(OctetByOctet(ALL_SLOTS)));
      && Full(t.ring) && t.tcp == s.tcp
      && t.amqp == if n == 0 && last
           then Amqp(true, CREDIT_WINDOW, false, [], false, [], 1, [], false) else FirstDelivery(n, last, [])
  {
    assert Drained(s).ring == s.ring;
    CanFill(s.ring, n);
  }

  /** A delivery received one octet at a time fills the ring, `n` octets of it still unread. */
  lemma RingFills(s: State, n: nat, last: bool, d: Discipline) returns (t: State)
    requires Initial(s)
    ensures Reached(s, t, d) && Inv(t) && Full(t.ring) && t.tcp == Tcp(true, false, [], 0, 0, true)
    ensures t.amqp == if n == 0 && last
      then Amqp(true, CREDIT_WINDOW, false, [], false, [], 1, [], false) else FirstDelivery(n, last, [])
  {
    t := DeliveryArrives(s, n + ALL_SLOTS, last, d);
    FillsRing(t, n, last, d);
    Further(s, t, DeliveryEvent(OctetByOctet(ALL_SLOTS)), d);
    t := Step(t, DeliveryEvent(OctetByOctet(ALL_SLOTS)));
  }

  lemma OldestWritten(s: State)
    requires Inv(s) && s.tcp.connected && s.tcp.done == |s.tcp.out| < Used(s.ring) && s.amqp.linkOpen
    ensures var t := RawHandled(s, 1);
      && Inv(t) && |t.tcp.out| == 1 && WriteEnabled(t, t.tcp.out[0].size)
    ensures var t := RawHandled(s, 1);
      var u := Written(t, t.tcp.out[0].size);
      && Inv(u) && u.tcp.connected && u.tcp.done == 1 == |u.tcp.out| && Used(u.ring) == Used(s.ring) - s.tcp.done
      && u.amqp == s.amqp.(wake := s.amqp.wake || (Full(s.ring) && s.tcp.done > 0))
  {
    RawHandledKeeps(s, 1);
    var a := s.(tcp := s.tcp.(queued := false));
    FlagsKeep(s, s.amqp, false, s.tcp.closed);
    DrainedKeeps(a);
    var t := RawHandled(s, 1);
    FullAndEmpty(s.ring);
    FullAndEmpty(t.ring);
    LentMemory(t.ring, t.tcp, 0);
    WrittenKeeps(t, t.tcp.out[0].size);
  }

  /** A raw event lends the oldest buffer and the transport writes it. */
  lemma OneWritten(s: State, t: State, d: Discipline) returns (u: State)
    requires Inv(s) && Reached(s, t, d) && Inv(t)
    requires t.tcp.connected && t.tcp.done == |t.tcp.out| < Used(t.ring) && t.amqp.linkOpen
    ensures Reached(s, u, d) && Inv(u) && u.tcp.connected && u.tcp.done == 1 == |u.tcp.out|
    ensures Used(u.ring) == Used(t.ring) - t.tcp.done
    ensures u.amqp == t.amqp.(wake := t.amqp.wake || (Full(t.ring) && t.tcp.done > 0))
  {
    OldestWritten(t);
    Further(s, t, RawEvent(1), d);
    u := RawHandled(t, 1);
    var n := u.tcp.out[0].size;
    Further(s, u, Write(n), d);
    u := Written(u, n);
  }

  /** From a full ring two buffers are written and the first is taken back: the AMQP side is woken. */
  lemma TwoWritten(s: State, t: State, d: Discipline) returns (u: State)
    requires Inv(s) && Reached(s, t, d) && Inv(t)
    requires Full(t.ring) && t.tcp == Tcp(true, false, [], 0, 0, true) && t.amqp.linkOpen
    ensures Reached(s, u, d) && Inv(u) && u.tcp.done == 1 == |u.tcp.out|
    ensures Used(u.ring) == ALL_SLOTS - 1 && u.amqp == t.amqp.(wake := true)
  {
    FullAndEmpty(t.ring);
    u := OneWritten(s, t, d);
    FullAndEmpty(u.ring);
    u := OneWritten(s, u, d);
  }

  // ------------------------------------------------------ a wake and no delivery

  /** A run after which a wake finds no current delivery: a delivery of SLOT_COUNT - 1 octets,
      received one octet at a time, fills the ring and is accepted before TCP writes any of it. */
  lemma WakeWithoutDelivery(s: State) returns (t: State)
    requires Initial(s)
    ensures Reached(s, t, InTurn) && Inv(t) && t.amqp.linkOpen && t.amqp.wake && !t.amqp.current
  {
    t := RingFills(s, 0, true, InTurn);
    t := TwoWritten(s, t, InTurn);
  }

  // ------------------------------------------------ a delivery event out of turn

  /** One octet of the first delivery unread, the second whole behind it. */
  function SecondBehind(c: byte, events: seq<nat>): Amqp {
    FirstDelivery(1, true, events).(credit := CREDIT_WINDOW - 2, waiting := [Waiting([c], false)])
  }

  lemma SecondLink(c: byte)
    ensures CanBegin(FirstDelivery(1, true, [])) && CanArrive(Begun(FirstDelivery(1, true, [])))
    ensures Arrived(Begun(FirstDelivery(1, true, [])), [c], true) == SecondBehind(c, [1])
    ensures !EventIsCurrent(SecondBehind(c, [1])) && Taken(SecondBehind(c, [1])) == SecondBehind(c, [])
    ensures SecondBehind(c, [1]).unread == [0]
    ensures Accepted(SecondBehind(c, []).(unread := [])) == FirstArrival([c], true).(settled := 1, events := [])
  {
    assert Repeat(0, 1) == [0];
    assert [] + [c] == [c];
    assert Begun(FirstDelivery(1, true, [])).waiting == [Waiting([], true)];
  }

  /** The second delivery begins and arrives behind the first. */
  lemma SecondArrives(s: State, t: State, c: byte) returns (u: State)
    requires Inv(s) && Reached(s, t, Receiving) && Inv(t) && t.amqp == FirstDelivery(1, true, [])
    ensures Reached(s, u, Receiving) && Inv(u) && u.ring == t.ring && u.tcp == t.tcp
    ensures u.amqp == SecondBehind(c, [1])
  {
    SecondLink(c);
    Further(s, t, Begin, Receiving);
    u := Step(t, Begin);
    Further(s, u, Arrive([c], true), Receiving);
    u := Step(u, Arrive([c], true));
  }

  /** A run after which the handler's assertion fails: the first delivery fills the ring with
      an octet left, its event is gone, and the event that waits is the second delivery's. */
  lemma EventOutOfTurn(s: State, c: byte) returns (t: State)
    requires Initial(s)
    ensures Reached(s, t, Receiving) && Inv(t) && Full(t.ring) && t.tcp == Tcp(true, false, [], 0, 0, true)
    ensures t.amqp == SecondBehind(c, [1]) && !EventIsCurrent(t.amqp)
  {
    SecondLink(c);
    t := RingFills(s, 1, true, Receiving);
    t := SecondArrives(s, t, c);
  }

  lemma WastesEvent(t: State)
    requires Inv(t) && Full(t.ring) && t.tcp == Tcp(true, false, [], 0, 0, true)
    requires t.amqp.linkOpen && t.amqp.current && t.amqp.unread != [] && t.amqp.events != []
    ensures Allowed(t, DeliveryEvent([]), Receiving)
    ensures var u := Step(t, DeliveryEvent([]));
      Full(u.ring) && u.tcp == t.tcp && u.amqp == Taken(t.amqp)
  {
    assert Release(t.ring, 0) == t.ring;
    assert Drained(t).ring == t.ring && Put(t.ring, []) == t.ring;
    assert t.amqp.unread[0..] == t.amqp.unread;
  }

  /** The ring full and the second delivery's event handled: nothing is received. */
  lemma EventWasted(s: State, t: State) returns (u: State)
    requires Inv(s) && Reached(s, t, Receiving) && Inv(t) && Full(t.ring) && t.tcp == Tcp(true, false, [], 0, 0, true)
    requires t.amqp.linkOpen && t.amqp.current && t.amqp.unread != [] && t.amqp.events != []
    ensures Reached(s, u, Receiving) && Inv(u) && Full(u.ring) && u.tcp == t.tcp && u.amqp == Taken(t.amqp)
  {
    WastesEvent(t);
    Further(s, t, DeliveryEvent([]), Receiving);
    u := Step(t, DeliveryEvent([]));
  }

  lemma OneMoreReceived(s: State)
    requires Inv(s) && s.tcp.done == 1 == |s.tcp.out| && Used(s.ring) == ALL_SLOTS - 1
    requires s.amqp.linkOpen && s.amqp.current && s.amqp.unread == [0] && !s.amqp.partial && s.amqp.wake
    ensures Allowed(s, WakeEvent([[0]]), Receiving)
    ensures var t := Step(s, WakeEvent([[0]]));
      !Full(t.ring) && t.amqp == Accepted(s.amqp.(wake := false, unread := []))
  {
    DrainedKeeps(s);
    FullAndEmpty(Drained(s).ring);
    assert Flatten([[0]]) == [0];
    PutQueue(Drained(s).ring, [[0]]);
    FullAndEmpty(Put(Drained(s).ring, [[0]]));
  }

  lemma WokenAfterWaste(s: State, c: byte) returns (t: State)
    requires Initial(s)
    ensures Reached(s, t, Receiving) && Inv(t) && t.tcp.done == 1 == |t.tcp.out| && Used(t.ring) == ALL_SLOTS - 1
    ensures t.amqp == SecondBehind(c, []).(wake := true)
  {
    SecondLink(c);
    t := EventOutOfTurn(s, c);
    t := EventWasted(s, t);
    t := TwoWritten(s, t, Receiving);
  }

  lemma LeavesStranded(s: State, c: byte)
    requires Inv(s) && s.tcp.done == 1 == |s.tcp.out| && Used(s.ring) == ALL_SLOTS - 1
    requires s.amqp == SecondBehind(c, []).(wake := true)
    ensures Allowed(s, WakeEvent([[0]]), Receiving)
    ensures var t := Step(s, WakeEvent([[0]]));
      !Full(t.ring) && t.amqp == FirstArrival([c], true).(settled := 1, events := []) && !Awake(t)
  {
    SecondLink(c);
    OneMoreReceived(s);
  }

  /** With the assertion compiled out, such a run goes on to lose a wake-up: the first
      delivery is finished by a wake, the second is current, readable, with free slots
      in the ring, and no AMQP event waits. */
  lemma DeliveryStranded(s: State, c: byte) returns (t: State)
    requires Initial(s)
    ensures Reached(s, t, Receiving) && Inv(t) && !Awake(t)
    ensures t.amqp == FirstArrival([c], true).(settled := 1, events := []) && !Full(t.ring)
  {
    t := WokenAfterWaste(s, c);
    LeavesStranded(t, c);
    Further(s, t, WakeEvent([[0]]), Receiving);
    t := Step(t, WakeEvent([[0]]));
  }

  lemma FirstEnds()
    ensures var a := FirstDelivery(1, false, []).(wake := true);
      CanArrive(a) && Arrived(a, [], true) == FirstDelivery(1, true, [0]).(wake := true)
    ensures FirstDelivery(1, true, [0]).unread == [0]
    ensures Accepted(FirstDelivery(1, true, [0]).(unread := []))
      == Amqp(true, CREDIT_WINDOW, false, [], false, [], 1, [0], false)
  {
    assert Repeat(0, 1) == [0];
    assert Repeat(0, 1) + [] == Repeat(0, 1);
  }

  lemma WokenInDelivery(s: State) returns (t: State)
    requires Initial(s)
    ensures Reached(s, t, Receiving) && Inv(t) && t.tcp.done == 1 == |t.tcp.out| && Used(t.ring) == ALL_SLOTS - 1
    ensures t.amqp == FirstDelivery(1, false, []).(wake := true)
  {
    t := RingFills(s, 1, false, Receiving);
    t := TwoWritten(s, t, Receiving);
  }

  lemma LastTransfer(s: State)
    requires WellFormed(s) && s.amqp == FirstDelivery(1, false, []).(wake := true)
    ensures Allowed(s, Arrive([], true), Receiving)
    ensures var t := Step(s, Arrive([], true));
      t.amqp == FirstDelivery(1, true, [0]).(wake := true) && t.tcp == s.tcp && t.ring == s.ring
  {
    FirstEnds();
  }

  lemma WokenWhilePartial(s: State) returns (t: State)
    requires Initial(s)
    ensures Reached(s, t, Receiving) && Inv(t) && t.tcp.done == 1 == |t.tcp.out| && Used(t.ring) == ALL_SLOTS - 1
    ensures t.amqp == FirstDelivery(1, true, [0]).(wake := true)
  {
    t := WokenInDelivery(s);
    LastTransfer(t);
    Further(s, t, Arrive([], true), Receiving);
    t := Step(t, Arrive([], true));
  }

  /** One delivery at a time is not enough for the assertion: a run in which a wake finishes
      the only delivery while an event for its last transfer waits, which is then stale. */
  lemma EventStale(s: State) returns (t: State)
    requires Initial(s)
    ensures Reached(s, t, Receiving) && Inv(t)
    ensures t.amqp == Amqp(true, CREDIT_WINDOW, false, [], false, [], 1, [0], false) && !EventIsCurrent(t.amqp)
  {
    t := WokenWhilePartial(s);
    FirstEnds();
    OneMoreReceived(t);
    Further(s, t, WakeEvent([[0]]), Receiving);
    t := Step(t, WakeEvent([[0]]));
  }

  // ------------------------------------------------- a connection left open

  lemma IdleRawEvent(s: State)
    requires Inv(s) && Used(s.ring) == 0 && s.tcp == Tcp(true, false, [], 0, 0, true) && s.amqp == OPENED
    ensures Allowed(s, RawEvent(1), InTurn)
    ensures var t := Step(s, RawEvent(1));
      Used(t.ring) == 0 && t.tcp == Tcp(true, false, [], 0, 0, false) && t.amqp == OPENED
  {
    FullAndEmpty(s.ring);
    assert Drained(s).ring == s.ring;
  }

  lemma Idle(s: State) returns (t: State)
    requires Initial(s)
    ensures Reached(s, t, InTurn) && Inv(t) && Used(t.ring) == 0
    ensures t.tcp == Tcp(true, false, [], 0, 0, false) && t.amqp == OPENED
  {
    Start(s, InTurn);
    Further(s, s, Connected, InTurn);
    t := Step(s, Connected);
    IdleRawEvent(t);
    Further(s, t, RawEvent(1), InTurn);
    t := Step(t, RawEvent(1));
  }

  /** A run to rest after which the TCP connection is still open: it came up and its event was
      handled, nothing was sent, and the link closed. */
  lemma LeftOpen(s: State) returns (t: State)
    requires Initial(s)
    ensures Reached(s, t, InTurn) && Inv(t) && !t.amqp.linkOpen && Quiet(t) && !t.tcp.closed
  {
    t := Idle(s);
    Further(s, t, LinkClosed, InTurn);
    t := Step(t, LinkClosed);
  }
}
