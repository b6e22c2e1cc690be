/**
 How much credit the receiver grants: over a run, and with each refill, which the code's
 comment promises not to make larger than what is still wanted.
 */
module CreditGrants {
  import opened CreditLink
  import opened CreditRuns

  /** Messages received between two grants: half the window, rounded up. */
  function Batch(window: nat): nat {
    window - window / 2
  }

  /** The receiver's credit as a function of its count alone: a full window after
      every `Batch` messages, except that its last message brings no grant. */
  ghost predicate CreditFollowsCount(r: Receiver) {
    r.window > 0 &&
    r.credit == if AtLimit(r) then r.window - (r.count - 1) % Batch(r.window) - 1
                else r.window - r.count % Batch(r.window)
  }

  lemma NextRemainder(n: nat, c: nat)
    requires c > 0
    ensures (n + 1) % c == if n % c + 1 == c then 0 else n % c + 1
  {
    var q, r := n / c, n % c;
    assert q * c + c == (q + 1) * c;
    if r + 1 == c {
      RemainderUnique(n + 1, c, q + 1, 0);
    } else {
      RemainderUnique(n + 1, c, q, r + 1);
    }
  }

  lemma RemainderUnique(n: nat, c: nat, q: nat, r: nat)
    requires c > 0 && n == q * c + r && r < c
    ensures n % c == r
  {
    var d := n / c - q;
    assert d * c == (n / c) * c - q * c;
    assert d * c == r - n % c;
    MultipleOf(d, c);
  }

  lemma MultipleOf(d: int, c: nat)
    ensures d >= 1 ==> d * c >= c
    ensures d <= -1 ==> d * c + c <= 0
  {
    if d >= 1 {
      assert (d - 1) * c >= 0;
    } else if d <= -1 {
      assert (-1 - d) * c >= 0;
    }
  }

  lemma DeliveryKeepsCredit(r: Receiver)
    requires CreditFollowsCount(r) && !AtLimit(r) && (r.limit != 0 ==> r.count <= r.limit)
    ensures CreditFollowsCount(DeliveryHandled(r))
  {
    var c := Batch(r.window);
    NextRemainder(r.count, c);
    assert (r.count + 1 - 1) % c == r.count % c;
  }

  lemma {:induction false} RunKeepsCredit(y: System, acts: seq<Action>, z: System)
    requires Inv(y) && CreditFollowsCount(y.rcv) && Run(y, acts, z)
    ensures CreditFollowsCount(z.rcv)
    decreases |acts|
  {
    if acts != [] {
      NextKeeps(y, acts[0]);
      if acts[0] == ReceiverDelivery && !AtLimit(y.rcv) {
        DeliveryKeepsCredit(y.rcv);
      }
      RunKeepsCredit(Next(y, acts[0]), acts[1..], z);
    }
  }

  lemma CountDeterminesCredit(y: System, acts: seq<Action>, z: System)
    requires Initial(y) && Run(y, acts, z)
    ensures Inv(z) && CreditFollowsCount(z.rcv) && SameSettings(y, z)
  {
    InitialInv(y);
    assert 0 % Batch(y.rcv.window) == 0;
    RunKeeps(y, acts, z);
    RunKeepsCredit(y, acts, z);
  }

  /** The total credit granted is fixed by the receiver's count, whatever the
      interleaving; at the limit it is the limit and no more exactly when the window is one. */
  lemma GrantedExactly(y: System, acts: seq<Action>, z: System)
    requires Initial(y) && Run(y, acts, z)
    ensures CreditFollowsCount(z.rcv) && z.granted == z.rcv.count + z.rcv.credit
    ensures AtLimit(z.rcv) ==> (z.granted <= z.rcv.limit <==> z.rcv.window == 1)
  {
    CountDeterminesCredit(y, acts, z);
  }

  /** Where a run can go no further, a presettled sender has stopped exactly when the receiver
      takes all or has granted it enough by its own limit. */
  lemma PresettledFinishes(y: System, acts: seq<Action>, z: System)
    requires Initial(y) && y.snd.presettle && y.snd.limit != 0 && Run(y, acts, z) && Quiet(z)
    ensures z.snd.stop <==>
      ReceiverTakesAll(y) || y.snd.limit <= y.rcv.limit + y.rcv.window - (y.rcv.limit - 1) % Batch(y.rcv.window) - 1
  {
    CountDeterminesCredit(y, acts, z);
    EveryRunFinishes(y, acts, z);
    QuietState(z);
  }

  // ------------------------------------------------------------- each refill

  /** Handling one more message, the receiver flows more than it then still wants. */
  predicate Overgrants(r: Receiver) {
    r.limit != 0 && !AtLimit(r) && Grant(r) > r.limit - (r.count + 1)
  }

  /** A refill is always of one batch, and comes with every batch but not with the last message. */
  lemma RefillAmount(r: Receiver)
    requires CreditFollowsCount(r) && !AtLimit(r)
    ensures Grant(r) == if (r.limit != 0 && r.count + 1 == r.limit) || (r.count + 1) % Batch(r.window) != 0
      then 0 else Batch(r.window)
  {
    NextRemainder(r.count, Batch(r.window));
  }

  /** The last refill before the limit is too much: the limit is no whole number of batches. */
  predicate LastBatchCut(limit: nat, c: nat)
    requires c > 0
  {
    limit > c && limit % c != 0
  }

  lemma QuotientBelow(limit: nat, c: nat)
    requires c > 0 && limit > c
    ensures 0 < limit - limit % c && (limit - limit % c) % c == 0
  {
    var q := limit / c;
    assert limit == q * c + limit % c;
    RemainderUnique(limit - limit % c, c, q, 0);
  }

  /** Refills come at the multiples of the batch below the limit; one of them is more than the
      rest exactly when it is the last and the rest is no whole batch. */
  lemma CutAtMultiple(limit: nat, c: nat, n: nat)
    requires c > 0 && 0 < n < limit && n % c == 0
    ensures c > limit - n <==> LastBatchCut(limit, c) && n == limit - limit % c
  {
    var q := n / c;
    assert n == q * c;
    assert limit == (limit / c) * c + limit % c;
    MultipleOf(q, c);
    if c > limit - n {
      RemainderUnique(limit, c, q, limit - n);
    }
  }

  predicate WithinLimits(y: System, n: nat) {
    (y.rcv.limit == 0 || n < y.rcv.limit) && (y.snd.limit == 0 || n < y.snd.limit)
  }

  /** How far the receiver's next message is. */
  function Stage(y: System): nat {
    if y.queue != [] then 0
    else if y.transfers != [] then 1
    else 2 + 2 * |y.flows| + if y.snd.flowEvent then 1 else 0
  }

  /** The action that brings it nearer. */
  function Towards(y: System): Action {
    if y.queue != [] then ReceiverDelivery
    else if y.transfers != [] then TransferArrives
    else if y.snd.flowEvent then SenderFlow
    else FlowArrives
  }

  lemma SomethingOnItsWay(y: System, n: nat)
    requires Inv(y) && y.rcv.count <= n && WithinLimits(y, n)
    ensures Enabled(y, Towards(y))
  {
  }

  lemma ComesNearer(y: System, n: nat)
    requires y.rcv.count <= n && WithinLimits(y, n) && Enabled(y, Towards(y))
    ensures var z := Next(y, Towards(y));
      if y.queue != [] then z.rcv.count == y.rcv.count + 1
      else z.rcv.count == y.rcv.count && Stage(z) < Stage(y)
  {
  }

  lemma RunFrom(y: System, a: Action, acts: seq<Action>, z: System)
    requires Enabled(y, a) && Run(Next(y, a), acts, z)
    ensures Run(y, [a] + acts, z)
  {
    assert ([a] + acts)[1..] == acts;
  }

  /** From any state short of the limits a run leads to the receiver's message number `n`. */
  lemma ReachesCount(y: System, n: nat) returns (acts: seq<Action>, z: System)
    requires Inv(y) && y.rcv.count <= n && WithinLimits(y, n)
    ensures Run(y, acts, z) && z.rcv.count == n && z.queue != []
    decreases n - y.rcv.count, Stage(y)
  {
    if y.queue != [] && y.rcv.count == n {
      acts, z := [], y;
    } else {
      var a := Towards(y);
      SomethingOnItsWay(y, n);
      ComesNearer(y, n);
      NextKeeps(y, a);
      NextSettings(y, a);
      acts, z := ReachesCount(Next(y, a), n);
      RunFrom(y, a, acts, z);
      acts := [a] + acts;
    }
  }

  /** Where the last refill would come, the sender still sends. */
  predicate SentFarEnough(y: System, c: nat)
    requires c > 0
  {
    y.snd.limit == 0 || y.rcv.limit - y.rcv.limit % c <= y.snd.limit
  }

  ghost predicate SomeRunOvergrants(y: System) {
    exists acts, z :: Run(y, acts, z) && z.queue != [] && Overgrants(z.rcv)
  }

  /** Some run has a refill larger than what is then still wanted if and only if the limit is
      more than one batch and no whole number of batches, and the sender sends far enough. */
  lemma RefillsExactly(y: System)
    requires Initial(y) && y.rcv.limit != 0
    ensures SomeRunOvergrants(y)
      <==> LastBatchCut(y.rcv.limit, Batch(y.rcv.window)) && SentFarEnough(y, Batch(y.rcv.window))
  {
    if SomeRunOvergrants(y) {
      var acts, z :| Run(y, acts, z) && z.queue != [] && Overgrants(z.rcv);
      RefillIsCut(y, acts, z);
    }
    if LastBatchCut(y.rcv.limit, Batch(y.rcv.window)) && SentFarEnough(y, Batch(y.rcv.window)) {
      var acts, z := RefillBeyondWanted(y);
      assert SomeRunOvergrants(y);
    }
  }

  lemma RefillIsCut(y: System, acts: seq<Action>, z: System)
    requires Initial(y) && Run(y, acts, z) && z.queue != [] && Overgrants(z.rcv)
    ensures LastBatchCut(y.rcv.limit, Batch(y.rcv.window)) && SentFarEnough(y, Batch(y.rcv.window))
  {
    CountDeterminesCredit(y, acts, z);
    RefillAmount(z.rcv);
    CutAtMultiple(y.rcv.limit, Batch(y.rcv.window), z.rcv.count + 1);
  }

  /** The run that has it. */
  lemma RefillBeyondWanted(y: System) returns (acts: seq<Action>, z: System)
    requires Initial(y) && LastBatchCut(y.rcv.limit, Batch(y.rcv.window)) && SentFarEnough(y, Batch(y.rcv.window))
    ensures Run(y, acts, z) && z.queue != [] && Overgrants(z.rcv)
  {
    var limit, c := y.rcv.limit, Batch(y.rcv.window);
    var n := limit - limit % c;
    QuotientBelow(limit, c);
    InitialInv(y);
    acts, z := ReachesCount(y, n - 1);
    CountDeterminesCredit(y, acts, z);
    RefillAmount(z.rcv);
    CutAtMultiple(limit, c, n);
  }
}
