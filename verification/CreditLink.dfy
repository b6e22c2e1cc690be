/**
 The benchmark sender and receiver joined by a link: transfers and flow frames
 and dispositions travel in order, each at its own pace.  Credit follows
 section 2.6.7 of AMQP 1.0: the sender's credit is the delivery-count and
 link-credit of the newest flow frame it has seen, less what it has sent.
 */
module CreditLink {
  import opened Bytes
  import opened Dispositions

  // ------------------------------------------------------------- the sender

  datatype Sender = Sender(
    limit: nat, presettle: bool,                       // settings
    count: nat, acked: nat, accepted: nat, notAccepted: nat,
    credit: int, flowEvent: bool, stop: bool)

  /** How many messages one flow event sends: all the credit, up to the limit. */
  function Burst(s: Sender): nat {
    if s.credit <= 0 then 0
    else if s.limit == 0 then s.credit
    else if s.count < s.limit then Min(s.credit, s.limit - s.count)
    else 0
  }

  /** The sender after PN_LINK_FLOW. */
  function FlowHandled(s: Sender): Sender {
    var k := Burst(s);
    s.(count := s.count + k, credit := s.credit - k, flowEvent := false,
       stop := s.stop || (s.presettle && k > 0 && s.limit != 0 && s.count + k == s.limit))
  }

  /** The sender after PN_DELIVERY for an updated delivery. */
  function OutcomeHandled(s: Sender, o: Outcome): Sender {
    var t := match o
      case Informational => s
      case Accepted => s.(acked := s.acked + 1, accepted := s.accepted + 1)
      case NotAccepted => s.(acked := s.acked + 1, notAccepted := s.notAccepted + 1);
    if t.limit != 0 && t.acked == t.limit then t.(stop := true) else t
  }

  // ----------------------------------------------------------- the receiver

  /** `credit` is what the link reports: granted less settled. */
  datatype Receiver = Receiver(limit: nat, window: nat, count: nat, credit: int, stop: bool)

  predicate AtLimit(r: Receiver) {
    r.limit != 0 && r.count == r.limit
  }

  /** How much credit the receiver flows after handling one more message. */
  function Grant(r: Receiver): int {
    var credit, count := r.credit - 1, r.count + 1;
    if (r.limit != 0 && count == r.limit) || credit > r.window / 2 then 0 else r.window - credit
  }

  /** The receiver after PN_DELIVERY for a complete message. */
  function DeliveryHandled(r: Receiver): Receiver {
    if AtLimit(r) then r
    else
      var t := r.(count := r.count + 1, credit := r.credit - 1 + Grant(r));
      t.(stop := r.stop || AtLimit(t))
  }

  // ------------------------------------------------------------- the system

  datatype Flow = Flow(deliveryCount: nat, linkCredit: int)

  datatype System = System(
    snd: Sender, rcv: Receiver,
    transfers: seq<nat>,      // messages on their way, by number
    queue: seq<nat>,          // arrived, delivery event not yet handled
    ignored: nat,             // handled by a receiver already at its limit
    arrived: nat,             // the receiver's delivery-count
    granted: int,             // all credit ever flowed
    flows: seq<Flow>,         // flow frames on their way
    seen: int,                // total credit in the newest flow frame seen
    disps: seq<nat>)          // dispositions on their way, by message

  datatype Action = FlowArrives | SenderFlow | TransferArrives | ReceiverDelivery
    | DispositionArrives(o: Outcome)     // what the link reports need not be what the receiver said

  predicate Enabled(y: System, a: Action) {
    match a
    case FlowArrives => y.flows != []
    case SenderFlow => y.snd.flowEvent
    case TransferArrives => y.transfers != []
    case ReceiverDelivery => y.queue != []
    case DispositionArrives(o) => y.disps != [] && o != Informational
  }

  /** The numbers from `a` up to, not including, `b`. */
  function Numbers(a: int, b: int): (r: seq<nat>)
    requires 0 <= a <= b
    ensures |r| == b - a && forall i :: 0 <= i < b - a ==> r[i] == a + i
  {
    seq(b - a, (i: nat) => a + i)
  }

  /** The frame a flow puts on the link: what has arrived, and the credit beyond it. */
  function FlowFrame(r: Receiver, arrived: nat): Flow {
    Flow(arrived, r.credit + r.count - arrived)
  }

  function Next(y: System, a: Action): System
    requires Enabled(y, a)
  {
    match a
    case FlowArrives =>
      var total := y.flows[0].deliveryCount + y.flows[0].linkCredit;
      y.(flows := y.flows[1..], seen := total,
         snd := y.snd.(credit := total - y.snd.count, flowEvent := true))
    case SenderFlow =>
      y.(snd := FlowHandled(y.snd),
         transfers := y.transfers + Numbers(y.snd.count, y.snd.count + Burst(y.snd)))
    case TransferArrives =>
      y.(transfers := y.transfers[1..], queue := y.queue + [y.transfers[0]], arrived := y.arrived + 1)
    case ReceiverDelivery =>
      var z := y.(queue := y.queue[1..], rcv := DeliveryHandled(y.rcv));
      if AtLimit(y.rcv) then
        z.(ignored := y.ignored + 1)
      else
        z.(disps := if y.snd.presettle then y.disps else y.disps + [y.queue[0]],
           granted := y.granted + Grant(y.rcv),
           flows := if Grant(y.rcv) == 0 then y.flows else y.flows + [FlowFrame(z.rcv, y.arrived)])
    case DispositionArrives(o) =>
      y.(disps := y.disps[1..], snd := OutcomeHandled(y.snd, o))
  }

  /** Both links open, and the receiver's first grant of a whole window on its way. */
  ghost predicate Initial(y: System) {
    && y.snd == Sender(y.snd.limit, y.snd.presettle, 0, 0, 0, 0, 0, false, false)
    && y.rcv == Receiver(y.rcv.limit, y.rcv.window, 0, y.rcv.window, false) && y.rcv.window > 0
    && y == System(y.snd, y.rcv, [], [], 0, 0, y.rcv.window, [FlowFrame(y.rcv, 0)], 0, [])
  }

  // ------------------------------------------------------------- invariants

  /** Each message is in exactly one place, in the order sent. */
  ghost predicate Conserved(y: System) {
    && y.arrived == y.rcv.count + y.ignored + |y.queue|
    && y.snd.count == y.arrived + |y.transfers|
    && y.queue + y.transfers == Numbers(y.rcv.count + y.ignored, y.snd.count)
  }

  /** Each message the receiver settled is acknowledged, once, or its disposition is on its way, in order. */
  ghost predicate Acknowledged(y: System) {
    && y.snd.accepted + y.snd.notAccepted == y.snd.acked
    && (if y.snd.presettle then y.snd.acked == 0 && y.disps == []
        else y.snd.acked + |y.disps| == y.rcv.count && y.disps == Numbers(y.snd.acked, y.rcv.count))
  }

  function Total(f: Flow): int {
    f.deliveryCount + f.linkCredit
  }

  /** Total credit only grows along the link; the newest frame carries all of it. */
  ghost predicate CreditInOrder(y: System) {
    && y.granted == y.rcv.count + y.rcv.credit
    && y.snd.credit == y.seen - y.snd.count >= 0
    && y.seen <= (if y.flows == [] then y.granted else Total(y.flows[0]))
    && (y.flows == [] ==> y.seen == y.granted)
    && (y.flows != [] ==> Total(y.flows[|y.flows| - 1]) == y.granted)
    && forall i, j :: 0 <= i < j < |y.flows| ==> Total(y.flows[i]) <= Total(y.flows[j])
  }

  /** The receiver's credit: never above the window, above half of it until the limit. */
  ghost predicate Refilled(r: Receiver) {
    && r.window > 0 && r.credit <= r.window
    && (if AtLimit(r) then r.credit >= r.window / 2 else r.credit > r.window / 2)
    && (r.limit != 0 ==> r.count <= r.limit) && (r.stop <==> AtLimit(r))
  }

  /** The sender uses all its credit, and stops when its last message is settled. */
  ghost predicate Spent(s: Sender) {
    && (s.limit != 0 ==> s.acked <= s.count <= s.limit)
    && (!s.flowEvent ==> s.credit == 0 || (s.limit != 0 && s.count == s.limit))
    && (s.stop <==> s.limit != 0 && (if s.presettle then s.count else s.acked) == s.limit)
  }

  ghost predicate Inv(y: System) {
    && Conserved(y) && Acknowledged(y) && CreditInOrder(y) && Refilled(y.rcv) && Spent(y.snd)
    && (y.ignored > 0 ==> AtLimit(y.rcv))
  }

  lemma InitialInv(y: System)
    requires Initial(y)
    ensures Inv(y)
  {
  }

  lemma FlowArrivesKeeps(y: System)
    requires Inv(y) && Enabled(y, FlowArrives)
    ensures Inv(Next(y, FlowArrives))
  {
    assert Total(y.flows[0]) <= Total(y.flows[|y.flows| - 1]);
  }

  lemma SenderFlowKeeps(y: System)
    requires Inv(y) && Enabled(y, SenderFlow)
    ensures Inv(Next(y, SenderFlow))
  {
    var z := Next(y, SenderFlow);
    assert z.queue + z.transfers == (y.queue + y.transfers) + Numbers(y.snd.count, z.snd.count);
  }

  lemma TransferArrivesKeeps(y: System)
    requires Inv(y) && Enabled(y, TransferArrives)
    ensures Inv(Next(y, TransferArrives))
  {
    var z := Next(y, TransferArrives);
    assert z.queue + z.transfers == y.queue + y.transfers;
  }

  lemma ReceiverDeliveryKeeps(y: System)
    requires Inv(y) && Enabled(y, ReceiverDelivery)
    ensures Inv(Next(y, ReceiverDelivery))
  {
    var z := Next(y, ReceiverDelivery);
    assert y.queue[0] == (y.queue + y.transfers)[0] == y.rcv.count + y.ignored;
    assert z.queue + z.transfers == (y.queue + y.transfers)[1..];
  }

  /** Proton may post a flow event at any time, not only after a flow frame: one that finds
      none waiting changes nothing, for the sender has used its credit or reached its limit. */
  lemma SpareFlowChangesNothing(y: System)
    requires Inv(y) && !y.snd.flowEvent
    ensures Burst(y.snd) == 0 && FlowHandled(y.snd) == y.snd
  {
  }

  /** An outcome that is not final changes nothing: no counter, and not whether the sender stops. */
  lemma InformationalChangesNothing(y: System)
    requires Inv(y)
    ensures OutcomeHandled(y.snd, Informational) == y.snd
  {
  }

  lemma DispositionArrivesKeeps(y: System, o: Outcome)
    requires Inv(y) && Enabled(y, DispositionArrives(o))
    ensures Inv(Next(y, DispositionArrives(o)))
  {
  }

  lemma NextKeeps(y: System, a: Action)
    requires Inv(y) && Enabled(y, a)
    ensures Inv(Next(y, a))
  {
    match a
    case FlowArrives => FlowArrivesKeeps(y);
    case SenderFlow => SenderFlowKeeps(y);
    case TransferArrives => TransferArrivesKeeps(y);
    case ReceiverDelivery => ReceiverDeliveryKeeps(y);
    case DispositionArrives(o) => DispositionArrivesKeeps(y, o);
  }
}
