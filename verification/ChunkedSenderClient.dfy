/** The chunked sender's event handlers, updating the links' contexts and the client's globals. */
module ChunkedSenderClient {
  import opened Bytes
  import opened ChunkedSender
  import opened Dispositions

  class ChunkedSenderClient {
    const limit: nat
    const encodeBuffer: bytes
    /** Each link as Proton holds it, with the client's context for it, the offset. */
    const links: array<Link>
    var count: nat
    var acked: nat
    var accepted: nat
    var notAccepted: nat
    var stop: bool

    ghost function State(): State
      reads this, links
    {
      ChunkedSender.State(limit, encodeBuffer, links[..], count, acked, accepted, notAccepted, stop)
    }

    constructor (limit: nat, encodeBuffer: bytes, linkCount: nat)
      requires encodeBuffer != []
      ensures fresh(links) && links.Length == linkCount && Initial(State())
    {
      this.limit, this.encodeBuffer := limit, encodeBuffer;
      links := new Link[linkCount](_ => Link(0, false, 0, [], [], 0));
      count, acked, accepted, notAccepted, stop := 0, 0, 0, 0, false;
    }

    /** Proton's send on link `i`: all of the chunk is buffered. */
    method Send(i: nat, data: bytes)
      requires i < links.Length
      modifies links
      ensures links[..] == old(links[..])[i := old(links[i]).(wire := old(links[i]).wire + data)]
    {
      links[i] := links[i].(wire := links[i].wire + data);
    }

    /** Proton's advance of link `i`: the current delivery is finished and uses one credit. */
    method Advance(i: nat)
      requires i < links.Length && links[i].current && links[i].credit > 0
      modifies links
      ensures var l := old(links[i]);
        links[..] == old(links[..])[i := l.(current := false, credit := l.credit - 1, wire := [],
                                            finished := l.finished + [l.wire], unsettled := l.unsettled + 1)]
    {
      var l := links[i];
      links[i] := l.(current := false, credit := l.credit - 1, wire := [],
                     finished := l.finished + [l.wire], unsettled := l.unsettled + 1);
    }

    /** The link's next chunk. */
    method SendChunk(i: nat)
      requires i < links.Length && links[i].current && links[i].credit > 0 && links[i].offset <= |encodeBuffer|
      modifies links
      ensures links[..] == old(links[..])[i := Chunked(old(links[i]), encodeBuffer)]
    {
      var offset := links[i].offset;
      var amount := Min(WRITE_SIZE, |encodeBuffer| - offset);
      Send(i, encodeBuffer[offset..offset + amount]);
      links[i] := links[i].(offset := offset + amount);
      if links[i].offset == |encodeBuffer| {
        Advance(i);
      }
    }

    /** PN_LINK_FLOW on link `i`; `buffered` is the session's outgoing octets. */
    method OnFlow(i: nat, buffered: nat)
      requires i < links.Length && Inv(State())
      modifies this, links
      ensures State() == Step(old(State()), Flow(i, buffered))
    {
      assert LinkInv(State().links[i], encodeBuffer);
      if !links[i].current {
        if links[i].credit > 0 && (limit == 0 || count < limit) {
          links[i] := links[i].(current := true, wire := []);
          count := count + 1;
          links[i] := links[i].(offset := 0);
        }
      }
      if links[i].current && buffered < SESSION_ROOM {
        SendChunk(i);
      }
    }

    /** PN_DELIVERY for an updated delivery of link `i`. */
    method OnDelivery(i: nat, remote: Outcome)
      requires i < links.Length && Inv(State()) && links[i].unsettled > 0
      modifies this, links
      ensures State() == Step(old(State()), Settled(i, remote))
    {
      if remote != Informational {
        acked := acked + 1;
        if remote == Accepted {
          accepted := accepted + 1;
        } else {
          notAccepted := notAccepted + 1;
        }
        links[i] := links[i].(unsettled := links[i].unsettled - 1);
      }
      if limit != 0 && acked == limit {
        stop := true;
      }
    }
  }
}
