/** The link scale sender's and receiver's handlers, updating the links' and deliveries'
    contexts and the clients' counters, proved to take the machine's steps. */
module LinkScaleClients {
  import opened Bytes
  import opened AmqpMessage
  import opened LinkScale

  class Sender {
    const bodyLength: nat
    /** Each link as Proton holds it, with the client's contexts for it and its delivery. */
    const links: array<Link>
    var closedLinks: nat
    var stop: bool
    /** The receiver's count. */
    ghost var msgCount: nat

    ghost function State(): State
      reads this, links
    {
      LinkScale.State(bodyLength, links[..], closedLinks, msgCount, stop)
    }

    constructor (bodyLength: nat, maxLinks: nat)
      requires 0 < bodyLength < TWO32 && maxLinks > 0
      ensures fresh(links) && links.Length == maxLinks && Initial(State())
    {
      this.bodyLength := bodyLength;
      links := new Link[maxLinks](_ => IDLE);
      closedLinks, stop, msgCount := 0, false, 0;
    }

    /** Proton's send on link `i`: all of the data is buffered. */
    method Send(i: nat, data: bytes)
      requires i < links.Length
      modifies links
      ensures links[..] == old(links[..])[i := old(links[i]).(wire := old(links[i]).wire + data)]
    {
      links[i] := links[i].(wire := links[i].wire + data);
    }

    /** Begin the link's message: its prologue, and nothing of the body yet. */
    method StartMessage(i: nat)
      requires i < links.Length && bodyLength < TWO32
      modifies links
      ensures links[..] == old(links[..])[i := Started(old(links[i]), bodyLength)]
    {
      var wire := links[i].wire;
      links[i] := links[i].(started := true, bodySent := 0);
      Send(i, MSG_HEADER);
      Send(i, NetworkOrder(bodyLength));
      Associative(wire, MSG_HEADER, NetworkOrder(bodyLength));
    }

    method SendBuffer(i: nat)
      requires i < links.Length && links[i].bodySent < bodyLength && links[i].credit > 0
      modifies links
      ensures links[..] == old(links[..])[i := Chunked(old(links[i]), bodyLength)]
    {
      var sent := links[i].bodySent;
      var amount := Min(bodyLength - sent, TX_BUF_SIZE);
      Send(i, Repeat(0, amount));
      sent := sent + amount;
      links[i] := links[i].(bodySent := sent, flows := links[i].flows + 1);
      if sent == bodyLength {
        links[i] := links[i].(advanced := true, credit := links[i].credit - 1);
      }
    }

    /** PN_LINK_FLOW on link `i`. */
    method OnFlow(i: nat)
      requires i < links.Length && !stop && Inv(State())
      modifies links
      ensures State() == Step(old(State()), Flow(i))
    {
      assert LinkInv(State().links[i], bodyLength);
      if links[i].open {
        if !links[i].started && links[i].credit > 0 {
          StartMessage(i);
        }
        if links[i].started && !links[i].advanced && links[i].credit > 0 {
          if links[i].bodySent < bodyLength {
            SendBuffer(i);
          }
        }
      }
    }

    /** PN_DELIVERY for an updated delivery of link `i`: a final outcome closes the link. */
    method OnDelivery(i: nat, final: bool)
      requires i < links.Length && Inv(State()) && Enabled(State(), Settled(i, final))
      modifies this, links
      ensures State() == Step(old(State()), Settled(i, final))
    {
      assert LinkInv(State().links[i], bodyLength);
      if final {
        links[i] := links[i].(outcome := false, open := false);
        closedLinks := closedLinks + 1;
        if closedLinks == links.Length {
          stop := true;
        }
      }
    }
  }

  const RX_BUF_SIZE: nat := 65536

  /** A delivery at the receiver: what Proton holds of it, and the client's context. */
  class Delivery {
    var pending: nat
    var partial: bool
    var context: nat
    var settled: bool

    /** What this end of link `l` looks like. */
    ghost predicate Shows(l: Link)
      reads this
    {
      && l.total <= l.arrived && pending == l.arrived - l.total
      && partial == !l.complete && context == l.total && settled == (l.accepted != [])
    }

    /** Proton's receive: some of what is pending, at least an octet; or nothing, with the end
        of the stream or an error reported by a result below zero. */
    method Recv(size: nat) returns (rc: int)
      requires size > 0 && pending > 0
      modifies this`pending
      ensures rc < 0 ==> pending == old(pending)
      ensures rc >= 0 ==> 0 < rc <= size && rc <= old(pending) && pending == old(pending) - rc
    {
      rc := Min(size, pending);
      pending := pending - rc;
    }
  }

  class Receiver {
    var msgCount: nat

    constructor ()
      ensures msgCount == 0
    {
      msgCount := 0;
    }

    /** PN_DELIVERY for the delivery of link `l`: `total` octets of it read, in all events
        together, when it is accepted or left for the next event.  A delivery whose receive
        fails is accepted as well, with what was read of it. */
    method OnDelivery(dlv: Delivery, ghost l: Link) returns (total: nat, failed: bool)
      requires dlv.Shows(l) && l.accepted == []
      modifies this, dlv
      ensures total + dlv.pending == l.arrived && (failed <==> dlv.pending > 0)
      ensures msgCount == old(msgCount) + if failed || l.complete then 1 else 0
      ensures failed || l.complete ==> dlv.settled
      ensures !failed && l.complete ==> Delivered(l).accepted == [total]
      ensures !failed && !l.complete ==> dlv.Shows(Delivered(l))
    {
      total, failed := dlv.context, false;
      while dlv.pending > 0 && !failed
        invariant total + dlv.pending == l.arrived && (failed ==> dlv.pending > 0)
        invariant dlv.partial == old(dlv.partial) && dlv.context == old(dlv.context) && dlv.settled == old(dlv.settled)
        invariant msgCount == old(msgCount)
        decreases dlv.pending, !failed
      {
        var rc := dlv.Recv(RX_BUF_SIZE);
        failed := rc < 0;
        if !failed {
          total := total + rc;
        }
      }
      if failed || !dlv.partial {
        dlv.settled := true;
        msgCount := msgCount + 1;
      } else if total > 0 {
        dlv.context := total;
      }
    }
  }
}
