/**
 The senders' stall accounting over whole runs: which waits are timed, from when and
 to when, and that nothing else is recorded.
 */
module StallRuns {
  import opened Statistics
  import opened StallClock
  import opened CreditLink
  import opened Dispositions
  import BenchClients
  import WindowOne
  import WindowOneClients

  /** What a wait from `start` to `end` adds to the samples: its length, if above zero. */
  function Wait(start: Timespec, end: Timespec): seq<nat> {
    if DiffTimespecUsec(start, end) > 0 then [DiffTimespecUsec(start, end)] else []
  }

  // -------------------------------------------------- the credit-based sender

  /** A flow event that finds `credit`; `end` and `now` are the clock as its handler begins
      and ends to send. */
  datatype Flow = Flow(credit: int, end: Timespec, now: Timespec)

  datatype Play = Play(sender: Sender, stall: Stall)

  function Next(p: Play, e: Flow): Play {
    var s := p.sender.(credit := e.credit);
    var t := FlowHandled(s);
    Play(t, BenchClients.StallAfterFlow(s, t, p.stall, e.end, e.now))
  }

  function After(p: Play, es: seq<Flow>): Play {
    if es == [] then p else Next(After(p, es[..|es| - 1]), es[|es| - 1])
  }

  /** The flow events in which something was sent. */
  function Sending(p: Play, es: seq<Flow>): seq<Flow> {
    if es == [] then []
    else
      var before := es[..|es| - 1];
      var sent := After(p, es).sender.count > After(p, before).sender.count;
      Sending(p, before) + if sent then [es[|es| - 1]] else []
  }

  /** From the end of each of them to the beginning of the next. */
  function Waits(sends: seq<Flow>): seq<nat> {
    if |sends| < 2 then []
    else Waits(sends[..|sends| - 1]) + Wait(sends[|sends| - 2].now, sends[|sends| - 1].end)
  }

  ghost predicate Fresh(p: Play) {
    p.sender.count == 0 && !p.stall.stalled && p.stall.samples == []
  }

  predicate LimitReached(s: Sender) {
    s.limit != 0 && s.count == s.limit
  }

  ghost predicate Timed(p: Play, sends: seq<Flow>) {
    && (sends == [] <==> p.sender.count == 0) && (p.sender.limit != 0 ==> p.sender.count <= p.sender.limit)
    && (p.stall.stalled <==> sends != [] && !LimitReached(p.sender))
    && (p.stall.stalled ==> p.stall.start == sends[|sends| - 1].now)
    && p.stall.samples == Waits(sends)
  }

  lemma NextTimed(p: Play, sends: seq<Flow>, e: Flow)
    requires Timed(p, sends)
    ensures Timed(Next(p, e), sends + if Next(p, e).sender.count > p.sender.count then [e] else [])
  {
    var q := Next(p, e);
    if q.sender.count > p.sender.count {
      assert (sends + [e])[..|sends|] == sends;
      assert sends == [] ==> p.stall.samples == [];
    } else {
      assert sends + [] == sends;
    }
  }

  lemma {:induction false} RunTimed(p: Play, es: seq<Flow>)
    requires Fresh(p)
    ensures Timed(After(p, es), Sending(p, es))
  {
    if es != [] {
      RunTimed(p, es[..|es| - 1]);
      NextTimed(After(p, es[..|es| - 1]), Sending(p, es[..|es| - 1]), es[|es| - 1]);
    }
  }

  /** Over any run of flow events: the sender is stalled exactly when it has sent something and
      not yet its limit, since it last sent; and what is recorded is, in order, each wait above
      zero from the end of one sending event to the beginning of the next, and nothing else. */
  lemma WaitsBetweenSends(p: Play, es: seq<Flow>)
    requires Fresh(p)
    ensures var q, sends := After(p, es), Sending(p, es);
      && (q.stall.stalled <==> q.sender.count > 0 && !LimitReached(q.sender))
      && (q.stall.stalled ==> sends != [] && q.stall.start == sends[|sends| - 1].now)
      && q.stall.samples == Waits(sends)
  {
    RunTimed(p, es);
  }

  /** A flow event sends exactly if it finds credit and messages left. */
  lemma SendsIff(p: Play, e: Flow)
    requires p.sender.limit != 0 ==> p.sender.count <= p.sender.limit
    ensures Next(p, e).sender.count > p.sender.count <==> e.credit > 0 && !LimitReached(p.sender)
  {
  }

  // ------------------------------------------------------ the blocking sender

  /** A call of `send_msg`: whether there was credit, whether a message was sent, and when. */
  datatype Attempt = Attempt(credit: bool, sent: bool, clock: Timespec)

  /** The call made in state `s`. */
  function AttemptIn(s: WindowOne.State, clock: Timespec): Attempt {
    Attempt(s.credit > 0, WindowOne.SendMsg(s, 0).count > s.count, clock)
  }

  function Accounted(k: Stall, a: Attempt): Stall {
    if !a.credit then Stalled(k, a.clock) else if a.sent then Resumed(k, a.clock) else k
  }

  /** The client's accounting of a call depends on nothing more. */
  lemma AccountedByAttempt(s: WindowOne.State, k: Stall, clock: Timespec)
    ensures WindowOneClients.StallAfterSend(s, k, clock) == Accounted(k, AttemptIn(s, clock))
  {
  }

  function AllAccounted(k: Stall, calls: seq<Attempt>): Stall {
    if calls == [] then k else Accounted(AllAccounted(k, calls[..|calls| - 1]), calls[|calls| - 1])
  }

  /** Call `j` found no credit, and no call after it sent a message or found none either. */
  predicate LatestStall(calls: seq<Attempt>, j: int) {
    && 0 <= j < |calls| && !calls[j].credit
    && forall i :: j < i < |calls| ==> calls[i].credit && !calls[i].sent
  }

  /** The waits the calls end: from the latest without credit since the last message. */
  ghost function EndedWaits(calls: seq<Attempt>): seq<nat> {
    if calls == [] then []
    else
      var before, last := calls[..|calls| - 1], calls[|calls| - 1];
      EndedWaits(before)
      + if last.sent && exists j :: LatestStall(before, j)
        then var j :| LatestStall(before, j); Wait(calls[j].clock, last.clock) else []
  }

  /** A message is sent only with credit. */
  predicate Possible(calls: seq<Attempt>) {
    forall i :: 0 <= i < |calls| && calls[i].sent ==> calls[i].credit
  }

  lemma OneLatest(calls: seq<Attempt>, i: int, j: int)
    requires LatestStall(calls, i) && LatestStall(calls, j)
    ensures i == j
  {
  }

  lemma LatestGrows(calls: seq<Attempt>, last: Attempt, j: int)
    ensures last.credit && !last.sent ==> (LatestStall(calls + [last], j) <==> LatestStall(calls, j))
    ensures last.sent && last.credit ==> !LatestStall(calls + [last], j)
    ensures !last.credit ==> (LatestStall(calls + [last], j) <==> j == |calls|)
  {
    var all := calls + [last];
    assert forall i :: 0 <= i < |calls| ==> all[i] == calls[i];
    assert all[|calls|] == last;
  }

  /** A stall lasts from the latest call without credit to the next message sent: the client is
      stalled exactly if there is such a call with no message since, since then; and the samples
      are the waits above zero that messages ended, and nothing else. */
  lemma {:induction false} StallLastsToNextSend(k: Stall, calls: seq<Attempt>)
    requires !k.stalled && k.samples == [] && Possible(calls)
    ensures var q := AllAccounted(k, calls);
      && (q.stalled <==> exists j :: LatestStall(calls, j))
      && (forall j :: LatestStall(calls, j) ==> q.start == calls[j].clock)
      && q.samples == EndedWaits(calls)
  {
    if calls != [] {
      var before, last := calls[..|calls| - 1], calls[|calls| - 1];
      assert calls == before + [last];
      StallLastsToNextSend(k, before);
      forall j: int
        ensures last.credit && !last.sent ==> (LatestStall(calls, j) <==> LatestStall(before, j))
        ensures last.sent && last.credit ==> !LatestStall(calls, j)
        ensures !last.credit ==> (LatestStall(calls, j) <==> j == |before|)
      {
        LatestGrows(before, last, j);
      }
      var b, q := AllAccounted(k, before), AllAccounted(k, calls);
      if !last.credit {
        assert LatestStall(calls, |before|);
      }
      if last.sent && b.stalled {
        var j :| LatestStall(before, j);
        assert b.start == before[j].clock == calls[j].clock;
      }
    }
  }

  /** Which calls an event of the blocking sender's makes: a flow event one; an outcome one, if it
      is final and there is more to send.  Told from what became of the count. */
  lemma StallOfOutcome(s: WindowOne.State, d: nat, o: Outcome, k: Stall, clock: Timespec,
                       now: WindowOne.uint64, next: WindowOne.uint64)
    requires WindowOne.Inv(s) && d in s.unsettled
    ensures var t := WindowOne.Step(s, WindowOne.Settled(d, o, now, next));
      var q := WindowOneClients.StallAfterOutcome(s, o, k, clock);
      && (t.count > s.count ==> q == Accounted(k, Attempt(true, true, clock)))
      && (t.count == s.count && t.acked > s.acked && WindowOne.MoreToSend(s) ==>
            s.credit == 0 && q == Accounted(k, Attempt(false, false, clock)))
      && (t.acked == s.acked || !WindowOne.MoreToSend(s) ==> q == k)
  {
  }
}
