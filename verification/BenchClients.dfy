/**
 The benchmark sender and receiver as programs: their event handlers update the
 clients' counters in place and are proved to do what the steps in CreditLink
 say, and to keep their statistics equal to those of the samples recorded.
 */
module BenchClients {
  import opened CreditLink
  import opened Dispositions
  import opened StallClock
  import opened Statistics

  /** Proton's end of the sending link, by its contract: a send uses one credit. */
  class SenderLink {
    var credit: int
    var flowEvent: bool
    var sent: seq<nat>

    method Send(tag: nat)
      modifies this
      ensures credit == old(credit) - 1 && sent == old(sent) + [tag] && flowEvent == old(flowEvent)
    {
      credit, sent := credit - 1, sent + [tag];
    }
  }

  /** A burst ends a stall; it begins another if it used up the credit with messages left. */
  function StallAfterFlow(s: Sender, t: Sender, k: Stall, end: Timespec, now: Timespec): Stall {
    if Burst(s) == 0 then k
    else if t.limit != 0 && t.count == t.limit then Resumed(k, end)
    else Stalled(Resumed(k, end), now)
  }

  class SenderClient {
    const limit: nat
    const presettle: bool
    const link: SenderLink
    var count: nat
    var acked: nat
    var accepted: nat
    var notAccepted: nat
    var tag: nat
    var stop: bool
    const stalls: Stalls
    var grantCount: nat
    var creditGrants: nat

    ghost predicate Valid()
      reads this, stalls
    {
      tag == count && stalls.Valid()
    }

    ghost function State(): Sender
      reads this, link
    {
      Sender(limit, presettle, count, acked, accepted, notAccepted, link.credit, link.flowEvent, stop)
    }

    constructor (limit: nat, presettle: bool, link: SenderLink)
      requires link.credit == 0 && !link.flowEvent
      ensures this.link == link && Valid() && fresh(stalls) && stalls.samples == []
      ensures State() == Sender(limit, presettle, 0, 0, 0, 0, 0, false, false)
    {
      this.limit, this.presettle, this.link := limit, presettle, link;
      count, acked, accepted, notAccepted, tag := 0, 0, 0, 0, 0;
      stop, grantCount, creditGrants := false, 0, 0;
      stalls := new Stalls();
    }

    /** Send while there is credit and something to send. */
    method SendBurst()
      requires tag == count && link.credit > 0 && (limit == 0 || count < limit)
      modifies this`count, this`tag, this`stop, link
      ensures tag == count && State() == FlowHandled(old(State())).(flowEvent := link.flowEvent)
      ensures link.flowEvent == old(link.flowEvent)
      ensures link.sent == old(link.sent) + Numbers(old(count), count)
    {
      ghost var s := State();
      var credit := link.credit;
      while credit > 0 && (limit == 0 || count < limit)
        invariant tag == count && s.count <= count <= s.count + Burst(s)
        invariant credit == link.credit == s.credit - (count - s.count) && link.flowEvent == s.flowEvent
        invariant link.sent == old(link.sent) + Numbers(s.count, count)
        invariant stop == (s.stop || (presettle && count > s.count && limit != 0 && count == limit))
      {
        credit := credit - 1;
        count := count + 1;
        link.Send(tag);
        tag := tag + 1;
        if presettle && limit != 0 && count == limit {
          stop := true;
        }
      }
    }

    /** PN_LINK_FLOW; `end` and `now` are the clock when a stall ends and when the next begins. */
    method OnLinkFlow(end: Timespec, now: Timespec)
      requires Valid()
      modifies this, link, stalls
      ensures Valid() && State() == FlowHandled(old(State()))
      ensures link.sent == old(link.sent) + Numbers(old(count), count)
      ensures stalls.State() == StallAfterFlow(old(State()), State(), old(stalls.State()), end, now)
      ensures grantCount == old(grantCount) + if Burst(old(State())) > 0 then 1 else 0
      ensures creditGrants == old(creditGrants) + if Burst(old(State())) > 0 then old(link.credit) else 0
    {
      link.flowEvent := false;
      if link.credit > 0 && (limit == 0 || count < limit) {
        stalls.End(end);
        grantCount, creditGrants := grantCount + 1, creditGrants + link.credit;
        SendBurst();
        if limit != 0 && count == limit {
          // done: no stall to time
        } else if link.credit == 0 {
          stalls.Begin(now);
        }
      }
    }

    /** PN_DELIVERY for an updated delivery. */
    method OnDelivery(remote: Outcome)
      requires Valid()
      modifies this`acked, this`accepted, this`notAccepted, this`stop
      ensures Valid() && State() == OutcomeHandled(old(State()), remote)
      ensures accepted == old(accepted) + (if remote == Accepted then 1 else 0)
      ensures notAccepted == old(notAccepted) + (if remote == NotAccepted then 1 else 0)
      ensures acked == old(acked) + (if remote == Informational then 0 else 1)
      ensures stop <==> old(stop) || (limit != 0 && acked == limit)
    {
      match remote {
        case Informational =>
        case Accepted => acked, accepted := acked + 1, accepted + 1;
        case NotAccepted => acked, notAccepted := acked + 1, notAccepted + 1;
      }
      if limit != 0 && acked == limit {
        stop := true;
      }
    }
  }

  /** Proton's end of the receiving link, by its contract: credit falls as messages
      are settled and rises by what is flowed. */
  class ReceiverLink {
    var credit: int
    var flowed: seq<int>
    var settled: nat

    method AcceptAndSettle()
      modifies this
      ensures credit == old(credit) - 1 && settled == old(settled) + 1 && flowed == old(flowed)
    {
      credit, settled := credit - 1, settled + 1;
    }

    method AddCredit(n: int)
      modifies this
      ensures credit == old(credit) + n && flowed == old(flowed) + [n] && settled == old(settled)
    {
      credit, flowed := credit + n, flowed + [n];
    }
  }

  class ReceiverClient {
    const limit: nat
    const window: nat
    const link: ReceiverLink
    var count: nat
    var stop: bool
    var latencies: Latencies
    /** The latencies measured so far; no part of the program. */
    ghost var samples: seq<int>

    ghost predicate Valid()
      reads this
    {
      latencies == LatenciesOf(samples)
    }

    ghost function State(): Receiver
      reads this, link
    {
      Receiver(limit, window, count, link.credit, stop)
    }

    constructor (limit: nat, window: nat, link: ReceiverLink)
      requires window > 0 && link.credit == window
      ensures this.link == link && Valid() && State() == Receiver(limit, window, 0, window, false)
    {
      this.limit, this.window, this.link := limit, window, link;
      count, stop, latencies, samples := 0, false, Latencies(0, 0, 0, INT64_MAX, 0), [];
    }

    method RecordLatency(latency: int)
      requires Valid()
      modifies this`latencies, this`samples
      ensures Valid() && samples == old(samples) + [latency]
    {
      LatenciesSnoc(samples, latency);
      latencies, samples := Measure(latencies, latency), samples + [latency];
    }

    /** Bring the credit back up to the window once half of it is used. */
    method TopUp()
      requires window > 0 && (limit != 0 ==> count < limit)
      modifies link
      ensures link.settled == old(link.settled)
      ensures if old(link.credit) <= window / 2
        then link.credit == window && link.flowed == old(link.flowed) + [window - old(link.credit)]
        else link.credit == old(link.credit) && link.flowed == old(link.flowed)
    {
      if link.credit <= window / 2 {
        var grant := window - link.credit;
        if limit != 0 && limit - count < grant {
          // meant to grant no more than is wanted; the amount below is not this one
          grant := limit - count;
        }
        if grant != 0 {
          link.AddCredit(window - link.credit);
        }
      }
    }

    /** PN_DELIVERY; `measured` is the measured latency, or nothing when none is measured. */
    method OnDelivery(complete: bool, measured: seq<int>)
      requires Valid() && window > 0 && |measured| <= 1 && (limit != 0 ==> count <= limit)
      requires !stop || AtLimit(State())
      modifies this, link
      ensures Valid() && State() == if complete then DeliveryHandled(old(State())) else old(State())
      ensures var handled := complete && !AtLimit(old(State()));
        && link.settled == old(link.settled) + (if handled then 1 else 0)
        && samples == old(samples) + (if handled then measured else [])
        && link.flowed == old(link.flowed)
           + (if handled && Grant(old(State())) != 0 then [Grant(old(State()))] else [])
    {
      if limit != 0 && count == limit {
        return;
      }
      if complete {
        count := count + 1;
        if |measured| > 0 {
          RecordLatency(measured[0]);
          assert measured == [measured[0]];
        }
        link.AcceptAndSettle();
        if limit != 0 && count == limit {
          stop := true;
        } else {
          TopUp();
        }
      }
    }

    /** The variance printed at the end is not negative, whatever was measured. */
    method PrintedVariance() returns (isos: int)
      requires Valid() && latencies.n > 0
      ensures samples != [] && isos == Variance(Sum(samples), SumSquares(samples), |samples|) >= 0
    {
      LatenciesHold(samples);
      VarianceNotNegative(samples);
      var mean := TruncDiv(latencies.total, latencies.n);
      isos := TruncDiv(latencies.squares, latencies.n);
      isos := isos - mean * mean;
    }
  }
}
