/** The out-of-memory sender's flow handler, updating the delivery's context and the client's globals. */
module OomSenderClient {
  import opened Bytes
  import opened AmqpMessage
  import opened OomSender

  class OomSenderClient {
    /** Proton's: the link's credit, its current delivery with the client's context for
        it, the session's outgoing octets, and what became of the octets written. */
    var credit: nat
    var current: bool
    var context: nat
    var buffered: nat
    ghost var pending: bytes
    ghost var finished: seq<bytes>
    ghost var drained: nat
    /** The client's. */
    var totalBytes: nat
    var tag: nat
    /** A null delivery was used. */
    ghost var failed: bool

    ghost function State(): State
      reads this
    {
      OomSender.State(credit, current, context, totalBytes, tag, buffered, pending, finished, drained, failed)
    }

    constructor ()
      ensures Initial(State())
    {
      credit, current, context, buffered, totalBytes, tag := 0, false, 0, 0, 0, 0;
      pending, finished, drained, failed := [], [], 0, false;
    }

    /** Proton's send: all of the data is buffered. */
    method Send(data: bytes)
      modifies this`pending, this`buffered
      ensures pending == old(pending) + data && buffered == old(buffered) + |data|
    {
      pending, buffered := pending + data, buffered + |data|;
    }

    /** Proton's advance: the current delivery is finished and uses one credit. */
    method Advance()
      requires credit > 0
      modifies this`current, this`credit, this`pending, this`finished
      ensures !current && credit == old(credit) - 1 && pending == [] && finished == old(finished) + [old(pending)]
    {
      current, credit, pending, finished := false, credit - 1, [], finished + [pending];
    }

    /** The first arrival of credit. */
    method StartMessage()
      requires !current && pending == []
      modifies this`tag, this`current, this`context, this`totalBytes, this`pending, this`buffered
      ensures State() == Begun(old(State()))
    {
      tag := tag + 1;
      current := true;
      Send(MSG_HEADER + NetworkOrder(UINT32_MAX));
      assert [] + (MSG_HEADER + NetworkOrder(UINT32_MAX)) == Prologue(UINT32_MAX);
      context := 0;
      totalBytes := 16;
    }

    /** PN_LINK_FLOW, with the window's capacity as the peer has set it; `ok` is false when
        the delivery whose context is read next is null. */
    method OnFlow(capacity: nat) returns (ok: bool)
      requires Inv(State()) && !failed
      modifies this
      ensures State() == Step(old(State()), Flow(capacity))
      ensures ok <==> old(current || credit > 0)
    {
      var ob := buffered;
      if !current && credit > 0 {
        StartMessage();
      }
      ok := current;
      if !ok {
        failed := true;
        return;
      }
      var bytesSent := context;
      var toSend := Min(BATCH_SIZE, UINT32_MAX - bytesSent);
      assert pending + Batch(0) == pending;
      if toSend > 0 {
        if capacity > ob {
          toSend := Min(toSend, capacity - ob);
          Send(Batch(toSend));
          bytesSent := bytesSent + toSend;
          totalBytes := totalBytes + toSend;
          context := bytesSent;
        }
      } else {
        Advance();
      }
    }
  }
}
