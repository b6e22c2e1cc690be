/** The latency and blocking senders' handlers, updating the clients' globals, proved to
    take the machine's steps and to keep their statistics those of the samples. */
module WindowOneClients {
  import opened Bytes
  import opened Dispositions
  import opened StallClock
  import opened Statistics
  import opened WindowOne

  /** Proton's sending link, by its contract: a send uses one credit, and its delivery has
      no outcome until it is settled. */
  class SendingLink {
    var credit: nat
    var flowEvent: bool
    var unsettled: set<nat>

    method Send(tag: nat, settled: bool)
      requires credit > 0
      modifies this
      ensures credit == old(credit) - 1 && flowEvent == old(flowEvent)
      ensures unsettled == if settled then old(unsettled) else old(unsettled) + {tag}
    {
      credit, unsettled := credit - 1, if settled then unsettled else unsettled + {tag};
    }

    method Settle(tag: nat)
      modifies this`unsettled
      ensures unsettled == old(unsettled) - {tag}
    {
      unsettled := unsettled - {tag};
    }
  }

  const UINT64_MAX: nat := TWO64 - 1

  /** The latency statistics, in 64-bit accumulators that wrap. */
  class LatencyTotals {
    var tally: Tally
    var min: int
    /** The latencies recorded so far; no part of the program. */
    ghost var latencies: seq<nat>

    ghost predicate Valid()
      reads this
    {
      tally == TallyOf(latencies) && min == Smallest(latencies, UINT64_MAX)
    }

    constructor ()
      ensures Valid() && latencies == []
    {
      tally, min, latencies := EMPTY, UINT64_MAX, [];
    }

    method Add(latency: nat)
      requires Valid()
      modifies this
      ensures Valid() && latencies == old(latencies) + [latency]
    {
      TallySnoc(latencies, latency);
      assert (latencies + [latency])[..|latencies|] == latencies;
      if latency < min {
        min := latency;
      }
      tally, latencies := Record(tally, latency), latencies + [latency];
    }

    /** The variance over `count` messages, of which one may still have no latency: it is
        not negative, being that of the latencies, with a zero if need be. */
    method Variance(count: nat) returns (sos: int)
      requires Valid() && count > 0 && |latencies| <= count <= |latencies| + 1
      ensures var xs := if count == |latencies| then latencies else latencies + [0];
        Exact64(latencies) ==> |xs| == count && sos == Statistics.Variance(Sum(xs), SumSquares(xs), count) >= 0
    {
      if Exact64(latencies) {
        WithZero(latencies, count > |latencies|);
      }
      var mean := tally.total / count;
      sos := tally.squares / count;
      sos := sos - mean * mean;
    }
  }

  function LatenciesIn(samples: seq<Sample>): seq<nat> {
    seq(|samples|, i requires 0 <= i < |samples| => samples[i].latency)
  }

  lemma OneMoreSample(samples: seq<Sample>, x: Sample)
    ensures LatenciesIn(samples + [x]) == LatenciesIn(samples) + [x.latency]
  {
  }

  lemma WithZero(xs: seq<nat>, zero: bool)
    requires Exact64(xs) && (zero || xs != [])
    ensures var ys := if zero then xs + [0] else xs;
      && TallyOf(xs).total == Sum(ys) && TallyOf(xs).squares == SumSquares(ys)
      && Variance(Sum(ys), SumSquares(ys), |ys|) >= 0
  {
    var ys := if zero then xs + [0] else xs;
    ExactIff(xs);
    assert (xs + [0])[..|xs|] == xs;
    VarianceNotNegative(ys);
  }

  class LatencySender {
    const limit: nat
    const link: SendingLink
    var count: nat
    var acked: nat
    var accepted: nat
    var notAccepted: nat
    var pendingAck: bool
    var stop: bool
    var sendTs: uint64
    const latency: LatencyTotals
    /** The history, no part of the program. */
    ghost var sentAt: seq<uint64>
    ghost var samples: seq<Sample>

    ghost function State(): State
      reads this, link
    {
      WindowOne.State(limit, false, link.credit, link.flowEvent, link.unsettled, count, acked, accepted, notAccepted,
                      pendingAck, stop, sentAt, samples)
    }

    /** `sendTs` is the latest send, and the statistics are those of the samples. */
    ghost predicate Valid()
      reads this, latency
    {
      && (sentAt != [] ==> sendTs == sentAt[|sentAt| - 1])
      && latency.Valid() && latency.latencies == LatenciesIn(samples)
    }

    constructor (limit: nat, link: SendingLink)
      requires link.credit == 0 && !link.flowEvent && link.unsettled == {}
      ensures this.link == link && fresh(latency) && Valid() && Initial(State())
    {
      this.limit, this.link := limit, link;
      count, acked, accepted, notAccepted, pendingAck, stop, sendTs := 0, 0, 0, 0, false, false, 0;
      latency := new LatencyTotals();
      sentAt, samples := [], [];
    }

    method SendMsg(now: uint64) returns (sent: bool)
      requires Valid()
      modifies this`count, this`pendingAck, this`sendTs, this`sentAt, link
      ensures Valid() && State() == WindowOne.SendMsg(old(State()), now) && sent == CanSend(old(State()))
    {
      if link.credit <= 0 {
        return false;
      }
      if !pendingAck && (limit == 0 || count < limit) {
        link.Send(count, false);
        count := count + 1;
        sendTs, sentAt := now, sentAt + [now];
        pendingAck := true;
        return true;
      }
      return false;
    }

    /** PN_LINK_FLOW. */
    method OnFlow(now: uint64)
      requires Valid() && Inv(State())
      modifies this, link
      ensures Valid() && State() == Step(old(State()), Flow(now))
    {
      link.flowEvent := false;
      if !stop {
        var _ := SendMsg(now);
      }
    }

    method CountOutcome(remote: Outcome)
      modifies this`pendingAck, this`acked, this`accepted, this`notAccepted
      ensures !pendingAck && acked == old(acked) + 1
      ensures accepted == old(accepted) + (if remote == Accepted then 1 else 0)
      ensures notAccepted == old(notAccepted) + (if remote == Accepted then 0 else 1)
    {
      pendingAck, acked := false, acked + 1;
      if remote == Accepted {
        accepted := accepted + 1;
      } else {
        notAccepted := notAccepted + 1;
      }
    }

    method RecordLatency(d: nat, ackTs: uint64)
      requires Valid() && sentAt != []
      modifies this`samples, latency
      ensures Valid() && samples == old(samples) + [Sample(d, ackTs, Elapsed(sentAt[|sentAt| - 1], ackTs))]
    {
      var usec := Elapsed(sendTs, ackTs);
      OneMoreSample(samples, Sample(d, ackTs, usec));
      latency.Add(usec);
      samples := samples + [Sample(d, ackTs, usec)];
    }

    /** Count a final outcome, settle the delivery and measure it. */
    method Acknowledge(d: nat, remote: Outcome, ackTs: uint64)
      requires Valid() && sentAt != []
      modifies this`pendingAck, this`acked, this`accepted, this`notAccepted, this`samples, link, latency
      ensures Valid() && State() == Acknowledged(old(State()), d, remote, ackTs)
    {
      CountOutcome(remote);
      link.Settle(d);
      RecordLatency(d, ackTs);
    }

    /** PN_DELIVERY for an updated delivery: outcome `remote` at `ackTs`. */
    method OnDelivery(d: nat, remote: Outcome, ackTs: uint64, next: uint64)
      requires Valid() && Inv(State()) && d in link.unsettled
      modifies this, link, latency
      ensures Valid() && State() == Step(old(State()), Settled(d, remote, ackTs, next))
    {
      if remote != Informational {
        assert sentAt != [];
        Acknowledge(d, remote, ackTs);
        if limit == 0 || count < limit {
          var _ := SendMsg(next);
        } else if acked == limit {
          stop := true;
        }
      }
    }

    /** What is printed at the end divides by the messages sent, one of which may be waiting;
        None stands for the division by zero when none was sent. */
    method PrintedVariance() returns (sos: Option<int>)
      requires Valid() && Inv(State())
      ensures sos.None? <==> count == 0
      ensures var xs := if pendingAck then LatenciesIn(samples) + [0] else LatenciesIn(samples);
        count > 0 && Exact64(LatenciesIn(samples)) ==>
          |xs| == count && sos == Some(Variance(Sum(xs), SumSquares(xs), count)) && sos.value >= 0
    {
      if count == 0 {
        return None;
      }
      var v := latency.Variance(count);
      sos := Some(v);
    }
  }

  /** What `send_msg` does to the stall accounting, at time `clock`. */
  function StallAfterSend(s: State, k: Stall, clock: Timespec): Stall {
    if s.credit == 0 then Stalled(k, clock)
    else if CanSend(s) then Resumed(k, clock)
    else k
  }

  /** A final outcome leads to `send_msg` while there is more to send. */
  function StallAfterOutcome(s: State, remote: Outcome, k: Stall, clock: Timespec): Stall {
    if remote != Informational && MoreToSend(s) then StallAfterSend(s.(pendingAck := false), k, clock) else k
  }

  class BlockingSender {
    const limit: nat
    const presettle: bool
    const link: SendingLink
    const stalls: Stalls
    var count: nat
    var acked: nat
    var accepted: nat
    var notAccepted: nat
    var pendingAck: bool
    var stop: bool
    var grantCount: nat
    var creditGrants: nat
    /** The history, no part of the program. */
    ghost var sentAt: seq<uint64>
    ghost var samples: seq<Sample>

    ghost function State(): State
      reads this, link
    {
      WindowOne.State(limit, presettle, link.credit, link.flowEvent, link.unsettled, count, acked, accepted, notAccepted,
                      pendingAck, stop, sentAt, samples)
    }

    constructor (limit: nat, presettle: bool, link: SendingLink)
      requires link.credit == 0 && !link.flowEvent && link.unsettled == {}
      ensures this.link == link && fresh(stalls) && stalls.Valid() && stalls.samples == [] && Initial(State())
    {
      this.limit, this.presettle, this.link := limit, presettle, link;
      count, acked, accepted, notAccepted, pendingAck, stop := 0, 0, 0, 0, false, false;
      grantCount, creditGrants := 0, 0;
      sentAt, samples := [], [];
      stalls := new Stalls();
    }

    method Transmit(ghost now: uint64)
      requires CanSend(State())
      modifies this`count, this`pendingAck, this`stop, this`sentAt, link
      ensures State() == WindowOne.SendMsg(old(State()), now)
    {
      link.Send(count, presettle);
      count, sentAt := count + 1, sentAt + [now];
      if !presettle {
        pendingAck := true;
      }
      if limit != 0 && count == limit {
        if !pendingAck {
          stop := true;
        }
      }
    }

    /** Without credit a stall begins, or begins again; a message sent ends it. */
    method SendMsg(clock: Timespec, ghost now: uint64) returns (sent: bool)
      requires stalls.Valid()
      modifies this`count, this`pendingAck, this`stop, this`grantCount, this`creditGrants, this`sentAt, link, stalls
      ensures stalls.Valid() && State() == WindowOne.SendMsg(old(State()), now) && sent == CanSend(old(State()))
      ensures stalls.State() == StallAfterSend(old(State()), old(stalls.State()), clock)
      ensures grantCount == old(grantCount) + if sent then 1 else 0
      ensures creditGrants == old(creditGrants) + if sent then old(link.credit) else 0
    {
      var credit := link.credit;
      if credit <= 0 {
        stalls.Begin(clock);
        return false;
      }
      if !pendingAck && (limit == 0 || count < limit) {
        stalls.End(clock);
        grantCount, creditGrants := grantCount + 1, creditGrants + credit;
        Transmit(now);
        return true;
      }
      return false;
    }

    /** PN_LINK_FLOW. */
    method OnFlow(clock: Timespec, ghost now: uint64)
      requires stalls.Valid() && Inv(State())
      modifies this, link, stalls
      ensures stalls.Valid() && State() == Step(old(State()), Flow(now))
      ensures stalls.State() == StallAfterSend(old(State()), old(stalls.State()), clock)
    {
      link.flowEvent := false;
      var _ := SendMsg(clock, now);
    }

    /** Count a final outcome and settle the delivery. */
    method Acknowledge(d: nat, remote: Outcome, ghost now: uint64)
      requires sentAt != [] && remote != Informational
      modifies this`pendingAck, this`acked, this`accepted, this`notAccepted, this`samples, link
      ensures State() == Acknowledged(old(State()), d, remote, now)
    {
      pendingAck, acked := false, acked + 1;
      if remote == Accepted {
        accepted := accepted + 1;
      } else {
        notAccepted := notAccepted + 1;
      }
      link.Settle(d);
      samples := samples + [Sample(d, now, Elapsed(sentAt[|sentAt| - 1], now))];
    }

    /** PN_DELIVERY for an updated delivery. */
    method OnDelivery(d: nat, remote: Outcome, clock: Timespec, ghost now: uint64, ghost next: uint64)
      requires stalls.Valid() && Inv(State()) && d in link.unsettled
      modifies this, link, stalls
      ensures stalls.Valid() && State() == Step(old(State()), Settled(d, remote, now, next))
      ensures stalls.State() == StallAfterOutcome(old(State()), remote, old(stalls.State()), clock)
    {
      if remote != Informational {
        assert sentAt != [];
        Acknowledge(d, remote, now);
      }
      if limit == 0 || count < limit {
        if !pendingAck {
          var _ := SendMsg(clock, next);
        }
      } else if acked == limit {
        stop := true;
      }
    }
  }
}
