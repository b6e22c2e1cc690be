/**
 What every run of the sender, the link and the receiver keeps, and how it ends.
 */
module CreditRuns {
  import opened CreditLink
  import opened Dispositions

  predicate Run(y: System, acts: seq<Action>, z: System)
    decreases |acts|
  {
    if acts == [] then y == z
    else Enabled(y, acts[0]) && Run(Next(y, acts[0]), acts[1..], z)
  }

  lemma NextSettings(y: System, a: Action)
    requires Enabled(y, a)
    ensures SameSettings(y, Next(y, a))
  {
  }

  lemma {:induction false} RunKeeps(y: System, acts: seq<Action>, z: System)
    requires Inv(y) && Run(y, acts, z)
    ensures SameSettings(y, z)
    ensures Inv(z)
    decreases |acts|
  {
    if acts != [] {
      NextKeeps(y, acts[0]);
      NextSettings(y, acts[0]);
      RunKeeps(Next(y, acts[0]), acts[1..], z);
    }
  }

  predicate SameSettings(y: System, z: System) {
    && y.snd.limit == z.snd.limit && y.snd.presettle == z.snd.presettle
    && y.rcv.limit == z.rcv.limit && y.rcv.window == z.rcv.window
  }

  /** In every reachable state: nothing is lost, duplicated or reordered between the
      ends, credit is total credit seen less messages sent, and the messages out
      beyond the receiver's count never exceed its window. */
  lemma LinkIsFaithful(y: System, acts: seq<Action>, z: System)
    requires Initial(y) && Run(y, acts, z)
    ensures z.snd.count == z.rcv.count + z.ignored + |z.queue| + |z.transfers|
    ensures forall i :: 0 <= i < |z.queue| ==> z.queue[i] == z.rcv.count + z.ignored + i
    ensures forall i :: 0 <= i < |z.transfers| ==> z.transfers[i] == z.snd.count - |z.transfers| + i
    ensures !z.snd.presettle ==> z.rcv.count == z.snd.acked + |z.disps| && z.snd.accepted + z.snd.notAccepted == z.snd.acked
    ensures z.snd.credit == z.seen - z.snd.count && 0 <= z.snd.credit
    ensures z.snd.count - z.rcv.count <= z.seen - z.rcv.count <= z.rcv.credit <= z.rcv.window
    ensures z.snd.limit != 0 ==> z.snd.count <= z.snd.limit
  {
    InitialInv(y);
    RunKeeps(y, acts, z);
    if z.flows != [] {
      assert Total(z.flows[0]) <= Total(z.flows[|z.flows| - 1]);
    }
    var all := z.queue + z.transfers;
    forall i | 0 <= i < |z.queue| ensures z.queue[i] == z.rcv.count + z.ignored + i {
      assert all[i] == z.queue[i];
    }
    forall i | 0 <= i < |z.transfers| ensures z.transfers[i] == z.snd.count - |z.transfers| + i {
      assert all[|z.queue| + i] == z.transfers[i];
    }
  }

  function CountOf(acts: seq<Action>, o: Outcome): nat {
    if acts == [] then 0 else (if acts[0] == DispositionArrives(o) then 1 else 0) + CountOf(acts[1..], o)
  }

  lemma {:induction false} OutcomesAdd(y: System, acts: seq<Action>, z: System)
    requires Run(y, acts, z)
    ensures z.snd.accepted == y.snd.accepted + CountOf(acts, Accepted)
    ensures z.snd.notAccepted == y.snd.notAccepted + CountOf(acts, NotAccepted)
    ensures z.snd.acked == y.snd.acked + CountOf(acts, Accepted) + CountOf(acts, NotAccepted)
    decreases |acts|
  {
    if acts != [] {
      OutcomesAdd(Next(y, acts[0]), acts[1..], z);
    }
  }

  /** In every run the sender's counters are the numbers of outcomes of each kind that arrived. */
  lemma OutcomesCounted(y: System, acts: seq<Action>, z: System)
    requires Initial(y) && Run(y, acts, z)
    ensures z.snd.accepted == CountOf(acts, Accepted) && z.snd.notAccepted == CountOf(acts, NotAccepted)
    ensures z.snd.acked == CountOf(acts, Accepted) + CountOf(acts, NotAccepted)
  {
    OutcomesAdd(y, acts, z);
  }

  // ------------------------------------------------------------ how runs end

  /** How many actions the state can still give rise to, at most. */
  function Potential(y: System): int {
    6 * (y.snd.limit - y.snd.count) + (if y.snd.flowEvent then 1 else 0)
    + 5 * |y.transfers| + 4 * |y.queue| + 2 * |y.flows| + |y.disps|
  }

  lemma PotentialFalls(y: System, a: Action)
    requires Spent(y.snd) && Enabled(y, a)
    ensures Potential(Next(y, a)) < Potential(y)
  {
    match a
    case FlowArrives =>
    case SenderFlow =>
    case TransferArrives =>
    case ReceiverDelivery =>
    case DispositionArrives(_) =>
  }

  lemma {:induction false} RunIsBounded(y: System, acts: seq<Action>, z: System)
    requires Inv(y) && y.snd.limit != 0 && Run(y, acts, z)
    ensures |acts| + Potential(z) <= Potential(y)
    decreases |acts|
  {
    if acts != [] {
      PotentialFalls(y, acts[0]);
      NextKeeps(y, acts[0]);
      RunIsBounded(Next(y, acts[0]), acts[1..], z);
    }
  }

  /** Nothing is on its way and no event waits. */
  ghost predicate Quiet(y: System) {
    forall a :: !Enabled(y, a)
  }

  /** The receiver takes at least as many messages as the sender has to send. */
  predicate ReceiverTakesAll(y: System) {
    y.rcv.limit == 0 || (y.snd.limit != 0 && y.snd.limit <= y.rcv.limit)
  }

  lemma QuietState(y: System)
    requires Inv(y) && Quiet(y)
    ensures y.flows == [] && !y.snd.flowEvent && y.transfers == [] && y.queue == [] && y.disps == []
  {
    assert !Enabled(y, FlowArrives) && !Enabled(y, SenderFlow) && !Enabled(y, TransferArrives)
      && !Enabled(y, ReceiverDelivery) && !Enabled(y, DispositionArrives(Accepted));
  }

  /** With a receiver that takes all, a quiet state is a finished one: every message
      sent, received, and, unless presettled, acknowledged, and the sender stopped.
      In particular a sender without a limit never comes to rest. */
  lemma QuietMeansFinished(y: System)
    requires Inv(y) && Quiet(y) && ReceiverTakesAll(y)
    ensures y.snd.limit != 0 && y.snd.count == y.rcv.count == y.snd.limit && y.snd.stop
    ensures !y.snd.presettle ==> y.snd.acked == y.snd.limit
  {
    QuietState(y);
  }

  /** Every run of a limited sender has at most 6 * limit + 2 actions; where it can
      go no further, an unsettled sender has stopped exactly when the receiver takes all,
      a presettled one exactly when it was granted its limit. */
  lemma EveryRunFinishes(y: System, acts: seq<Action>, z: System)
    requires Initial(y) && y.snd.limit != 0 && Run(y, acts, z)
    ensures |acts| <= 6 * y.snd.limit + 2
    ensures Quiet(z) && !y.snd.presettle ==> (z.snd.stop <==> ReceiverTakesAll(y))
    ensures Quiet(z) && y.snd.presettle ==> (z.snd.stop <==> y.snd.limit <= z.granted)
    ensures Quiet(z) && ReceiverTakesAll(y) ==> z.snd.stop && z.snd.count == z.rcv.count == y.snd.limit
    ensures Quiet(z) && !y.snd.presettle ==> z.snd.acked == z.rcv.count
  {
    InitialInv(y);
    RunKeeps(y, acts, z);
    RunIsBounded(y, acts, z);
    assert Potential(z) >= 0;
    if Quiet(z) {
      QuietState(z);
      if ReceiverTakesAll(z) {
        QuietMeansFinished(z);
      }
    }
  }
}
