/**
 The latency and blocking senders: one message at a time, the next one only when
 the outcome of the last has arrived.  A state machine on values; the programs
 that update the clients' globals are in WindowOneClients.dfy.
 */
module WindowOne {
  import opened Dispositions
  import opened Statistics

  type uint64 = n: int | 0 <= n < TWO64

  /** An outcome as the client measured it: for which delivery, when it came, after how long. */
  datatype Sample = Sample(delivery: nat, ackedAt: uint64, latency: uint64)

  /** `credit`, `flowEvent` and `unsettled` are Proton's: the link's credit, whether a flow
      event waits, and the deliveries without an outcome. `sentAt` and `samples` are the history
      of the clock readings at each send and at each outcome. */
  datatype State = State(
    limit: nat, presettle: bool,
    credit: nat, flowEvent: bool, unsettled: set<nat>,
    count: nat, acked: nat, accepted: nat, notAccepted: nat,
    pendingAck: bool, stop: bool,
    sentAt: seq<uint64>, samples: seq<Sample>)

  predicate MoreToSend(s: State) {
    s.limit == 0 || s.count < s.limit
  }

  predicate CanSend(s: State) {
    s.credit > 0 && !s.pendingAck && MoreToSend(s)
  }

  /** `send_msg`, at time `now`. */
  function SendMsg(s: State, now: uint64): State {
    if !CanSend(s) then s
    else
      s.(credit := s.credit - 1, count := s.count + 1, pendingAck := !s.presettle,
         unsettled := if s.presettle then s.unsettled else s.unsettled + {s.count},
         stop := s.stop || (s.presettle && s.limit != 0 && s.count + 1 == s.limit),
         sentAt := s.sentAt + [now])
  }

  /** A difference of two 64-bit times, which wraps when the clock has gone back. */
  function Elapsed(start: uint64, end: uint64): uint64 {
    if start <= end then end - start else TWO64 - (start - end)
  }

  /** An outcome of delivery `d` at time `now`, measured from the latest send. */
  function Acknowledged(s: State, d: nat, o: Outcome, now: uint64): State
    requires s.sentAt != []
  {
    s.(unsettled := s.unsettled - {d}, pendingAck := false, acked := s.acked + 1,
       accepted := s.accepted + (if o == Accepted then 1 else 0),
       notAccepted := s.notAccepted + (if o == Accepted then 0 else 1),
       samples := s.samples + [Sample(d, now, Elapsed(s.sentAt[|s.sentAt| - 1], now))])
  }

  /** The delivery event; `next` is the clock at the send it may lead to. */
  function OutcomeHandled(s: State, d: nat, o: Outcome, now: uint64, next: uint64): State
    requires s.sentAt != []
  {
    if o == Informational then s
    else
      var t := Acknowledged(s, d, o, now);
      if MoreToSend(t) then SendMsg(t, next)
      else t.(stop := t.stop || t.acked == t.limit)
  }

  datatype Event =
    | Credit(n: nat)                                       // the peer grants credit
    | Flow(now: uint64)                                    // Proton may post one at any time
    | Settled(d: nat, o: Outcome, now: uint64, next: uint64)     // an outcome of delivery `d`

  predicate Enabled(s: State, e: Event) {
    match e
    case Credit(n) => true
    case Flow(now) => true
    case Settled(d, o, now, next) => d in s.unsettled
  }

  /** Every delivery in `unsettled` was sent, so there is a latest send. */
  ghost function Step(s: State, e: Event): State
    requires Inv(s) && Enabled(s, e)
  {
    match e
    case Credit(n) => s.(credit := s.credit + n, flowEvent := true)
    case Flow(now) => SendMsg(s.(flowEvent := false), now)
    case Settled(d, o, now, next) => OutcomeHandled(s, d, o, now, next)
  }

  // -------------------------------------------------------------- invariants

  /** At most one message without an outcome: the latest, and just when the client waits for it. */
  ghost predicate Window(s: State) {
    && s.count == |s.sentAt| && s.acked == |s.samples| == s.accepted + s.notAccepted
    && (s.pendingAck ==> s.count > 0)
    && s.unsettled == (if s.pendingAck then {s.count - 1} else {})
    && (if s.presettle then !s.pendingAck && s.acked == 0
        else s.count - s.acked == if s.pendingAck then 1 else 0)
    && (s.limit != 0 ==> s.count <= s.limit)
    && (s.stop <==> s.limit != 0 && (if s.presettle then s.count else s.acked) == s.limit)
  }

  /** Each sample is of the message of its own number. */
  ghost predicate Matched(s: State) {
    forall i :: 0 <= i < |s.samples| ==>
      && i < |s.sentAt| && s.samples[i].delivery == i
      && s.samples[i].latency == Elapsed(s.sentAt[i], s.samples[i].ackedAt)
  }

  /** Without presettling, a client that is not waiting cannot send. */
  ghost predicate Busy(s: State) {
    !s.presettle && !s.flowEvent ==> !CanSend(s)
  }

  ghost predicate Inv(s: State) {
    Window(s) && Matched(s) && Busy(s)
  }

  lemma SendKeeps(s: State, now: uint64)
    requires Window(s) && Matched(s)
    ensures Inv(SendMsg(s, now))
  {
  }

  lemma AcknowledgedKeeps(s: State, d: nat, o: Outcome, now: uint64)
    requires Window(s) && Matched(s) && d in s.unsettled && o != Informational
    ensures var t := Acknowledged(s, d, o, now);
      Matched(t) && Window(if MoreToSend(t) then t else t.(stop := t.stop || t.acked == t.limit))
  {
  }

  lemma StepKeeps(s: State, e: Event)
    requires Inv(s) && Enabled(s, e)
    ensures Inv(Step(s, e))
  {
    match e
    case Credit(n) =>
    case Flow(now) => SendKeeps(s.(flowEvent := false), now);
    case Settled(d, o, now, next) =>
      if o != Informational {
        AcknowledgedKeeps(s, d, o, now);
        var t := Acknowledged(s, d, o, now);
        if MoreToSend(t) {
          SendKeeps(t, next);
        }
      }
  }

  // -------------------------------------------------------------------- runs

  ghost predicate Initial(s: State)
    ensures Initial(s) ==> Inv(s)
  {
    && s.credit == 0 && !s.flowEvent && s.unsettled == {}
    && s.count == s.acked == s.accepted == s.notAccepted == 0 && !s.pendingAck && !s.stop
    && s.sentAt == [] && s.samples == []
  }

  ghost predicate Run(s: State, es: seq<Event>, t: State)
    requires Inv(s)
    decreases |es|
  {
    if es == [] then s == t
    else Enabled(s, es[0]) && (StepKeeps(s, es[0]); Run(Step(s, es[0]), es[1..], t))
  }

  lemma {:induction false} RunKeeps(s: State, es: seq<Event>, t: State)
    requires Inv(s) && Run(s, es, t)
    ensures Inv(t) && t.limit == s.limit && t.presettle == s.presettle
    decreases |es|
  {
    if es != [] {
      StepKeeps(s, es[0]);
      RunKeeps(Step(s, es[0]), es[1..], t);
    }
  }

  /** In every run: without presettling the messages without an outcome number one when
      the client waits and none when not; outcomes are counted once; the limit is kept;
      and it stops exactly when all its messages have their outcome. */
  lemma OneAtATime(s: State, es: seq<Event>, t: State)
    requires Initial(s) && Run(s, es, t)
    ensures !t.presettle ==> t.count - t.acked == |t.unsettled| == if t.pendingAck then 1 else 0
    ensures t.accepted + t.notAccepted == t.acked <= t.count && (t.limit != 0 ==> t.count <= t.limit)
    ensures !t.presettle ==> (t.stop <==> t.limit != 0 && t.acked == t.limit)
  {
    RunKeeps(s, es, t);
  }

  /** The i-th latency is of the i-th message, from its send to its outcome, and is the
      time between them exactly when the clock has not gone back. */
  lemma LatencyIsOwn(s: State, es: seq<Event>, t: State, i: nat)
    requires Initial(s) && Run(s, es, t) && i < t.acked
    ensures i < |t.samples| && i < |t.sentAt| && t.samples[i].delivery == i
    ensures var start, end := t.sentAt[i], t.samples[i].ackedAt;
      (t.samples[i].latency == end - start <==> start <= end)
      && (start + t.samples[i].latency == end || start + t.samples[i].latency == end + TWO64)
  {
    RunKeeps(s, es, t);
  }

  /** No stuck state without presettling: when no flow event waits and no outcome is
      outstanding, the credit is used up or the limit is reached and the client stops. */
  lemma RestMeansDone(s: State, es: seq<Event>, t: State)
    requires Initial(s) && Run(s, es, t) && !t.presettle
    requires !t.flowEvent && t.unsettled == {}
    ensures t.credit == 0 || (t.limit != 0 && t.acked == t.count == t.limit && t.stop)
  {
    RunKeeps(s, es, t);
  }

  /** How many of the flow events find credit left, from `credit` on, if each of them uses one. */
  function Usable(credit: nat, es: seq<Event>): nat
    decreases |es|
  {
    if es == [] then 0
    else match es[0]
      case Credit(n) => Usable(credit + n, es[1..])
      case Flow(_) => if credit > 0 then 1 + Usable(credit - 1, es[1..]) else Usable(0, es[1..])
      case Settled(_, _, _, _) => Usable(credit, es[1..])
  }

  function AtMost(limit: nat, n: nat): nat {
    if limit != 0 && limit < n then limit else n
  }

  lemma {:induction false} PresettledCount(s: State, es: seq<Event>, t: State, credit: nat)
    requires Inv(s) && s.presettle && Run(s, es, t) && (MoreToSend(s) ==> s.credit == credit)
    ensures t.count == AtMost(s.limit, s.count + Usable(credit, es))
    decreases |es|
  {
    if es != [] {
      StepKeeps(s, es[0]);
      var next := match es[0]
        case Credit(n) => credit + n
        case Flow(_) => if credit > 0 then credit - 1 else 0
        case Settled(_, _, _, _) => credit;
      PresettledCount(Step(s, es[0]), es[1..], t, next);
    }
  }

  /** Presettled, no outcome prompts a send: exactly one message goes for each flow event
      that finds credit, up to the limit, and the client stops when those are as many. */
  lemma PresettledSendsOncePerFlow(s: State, es: seq<Event>, t: State)
    requires Initial(s) && s.presettle && Run(s, es, t)
    ensures t.count == AtMost(s.limit, Usable(0, es))
    ensures t.stop <==> s.limit != 0 && Usable(0, es) >= s.limit
  {
    RunKeeps(s, es, t);
    PresettledCount(s, es, t, 0);
  }

  lemma {:induction false} SentStaysSent(s: State, es: seq<Event>, t: State)
    requires Inv(s) && s.count > 0 && Run(s, es, t)
    ensures t.count > 0
    decreases |es|
  {
    if es != [] {
      StepKeeps(s, es[0]);
      SentStaysSent(Step(s, es[0]), es[1..], t);
    }
  }

  lemma {:induction false} FirstSend(s: State, es: seq<Event>, t: State)
    requires Inv(s) && s.count == 0 && Run(s, es, t)
    ensures t.count == 0 <==> Usable(s.credit, es) == 0
    decreases |es|
  {
    if es != [] {
      var u := Step(s, es[0]);
      StepKeeps(s, es[0]);
      if u.count == 0 {
        FirstSend(u, es[1..], t);
      } else {
        SentStaysSent(u, es[1..], t);
      }
    }
  }

  /** Presettled or not, nothing has been sent, and the latency sender's averages divide by
      zero, exactly when no flow event has found credit; so it is at the start. */
  lemma NothingSent(s: State, es: seq<Event>, t: State)
    requires Initial(s) && Run(s, es, t)
    ensures t.count == 0 <==> Usable(0, es) == 0
  {
    FirstSend(s, es, t);
  }

  // ------------------------------------------------------------------ clocks

  /** The clock reading of an event at which it may send. */
  function SendClock(e: Event): uint64 {
    match e
    case Credit(_) => 0
    case Flow(now) => now
    case Settled(_, _, _, next) => next
  }

  /** The history is of the clock: a message is sent at the event's own reading, and a final
      outcome is noted for its delivery at its own; nothing else is. */
  lemma StepClocks(s: State, e: Event)
    requires Inv(s) && Enabled(s, e)
    ensures var t := Step(s, e);
      && t.sentAt == s.sentAt + (if t.count > s.count then [SendClock(e)] else [])
      && s.samples <= t.samples && |t.samples| == |s.samples| + (t.acked - s.acked)
      && (t.acked > s.acked <==> e.Settled? && e.o != Informational)
      && (t.acked > s.acked ==>
            t.acked == s.acked + 1 && t.samples[s.acked].delivery == e.d && t.samples[s.acked].ackedAt == e.now)
  {
    assert s.sentAt + [] == s.sentAt;
  }

  // ---------------------------------------------------------------- outcomes

  function CountOf(es: seq<Event>, o: Outcome): nat {
    if es == [] then 0 else (if es[0].Settled? && es[0].o == o then 1 else 0) + CountOf(es[1..], o)
  }

  lemma StepOutcome(s: State, e: Event)
    requires Inv(s) && Enabled(s, e)
    ensures var t := Step(s, e);
      && t.accepted == s.accepted + (if e.Settled? && e.o == Accepted then 1 else 0)
      && t.notAccepted == s.notAccepted + (if e.Settled? && e.o == NotAccepted then 1 else 0)
      && t.acked == s.acked + (if e.Settled? && e.o != Informational then 1 else 0)
  {
  }

  lemma {:induction false} OutcomesAdd(s: State, es: seq<Event>, t: State)
    requires Inv(s) && Run(s, es, t)
    ensures t.accepted == s.accepted + CountOf(es, Accepted)
    ensures t.notAccepted == s.notAccepted + CountOf(es, NotAccepted)
    ensures t.acked == s.acked + CountOf(es, Accepted) + CountOf(es, NotAccepted)
    decreases |es|
  {
    if es != [] {
      StepKeeps(s, es[0]);
      StepOutcome(s, es[0]);
      OutcomesAdd(Step(s, es[0]), es[1..], t);
    }
  }

  /** The client's counters are the numbers of outcomes of each kind that arrived. */
  lemma OutcomesCounted(s: State, es: seq<Event>, t: State)
    requires Initial(s) && Run(s, es, t)
    ensures t.accepted == CountOf(es, Accepted) && t.notAccepted == CountOf(es, NotAccepted)
    ensures t.acked == CountOf(es, Accepted) + CountOf(es, NotAccepted)
  {
    OutcomesAdd(s, es, t);
  }
}
