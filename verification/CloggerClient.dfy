/** The clogger's event handlers, updating the client's globals, proved to take the machine's steps. */
module CloggerClient {
  import opened AmqpMessage
  import opened Bytes
  import opened Clogger
  import opened Dispositions

  /** Proton's sending link, by its contract. */
  class SendingLink {
    var state: Link
    /** The size of the latest body write; no part of the program. */
    ghost var offered: nat

    /** A write the link takes whole, as the code asserts of the prologue's two parts. */
    method SendWhole(data: bytes)
      modifies this`state
      ensures state == old(state).(pending := old(state.pending) + data)
    {
      state := state.(pending := state.pending + data);
    }

    /** A write the link takes any part of, from the front. */
    method Send(data: bytes) returns (rc: nat)
      modifies this
      ensures rc <= |data| && state == old(state).(pending := old(state.pending) + data[..rc])
      ensures offered == |data|
    {
      offered := |data|;
      rc := |data|;
      state := state.(pending := state.pending + data[..rc]);
    }

    method Advance()
      requires state.credit > 0
      modifies this`state
      ensures state == old(state).(credit := old(state.credit) - 1, pending := [],
                                   finished := old(state.finished) + [old(state.pending)])
    {
      state := state.(credit := state.credit - 1, pending := [], finished := state.finished + [state.pending]);
    }
  }

  class CloggerClient {
    const limit: nat
    const presettle: bool
    const bodyLength: nat
    const remoteMaxFrame: nat
    const link: SendingLink
    var delivery: bool
    var bytesSent: nat
    var timer: bool
    var wake: bool
    var sent: nat
    var acked: nat
    var accepted: nat
    var notAccepted: nat
    ghost var unsettled: nat
    var stop: bool

    ghost function State(): State
      reads this, link
    {
      Clogger.State(limit, presettle, bodyLength, remoteMaxFrame, link.state, delivery, bytesSent,
                    timer, wake, sent, acked, accepted, notAccepted, unsettled, stop)
    }

    constructor (limit: nat, presettle: bool, bodyLength: nat, remoteMaxFrame: nat, link: SendingLink)
      requires bodyLength < TWO32 && link.state == Link(0, [], [], false)
      ensures this.link == link
      ensures remoteMaxFrame > 0 ==> Initial(State())
    {
      this.limit, this.presettle, this.bodyLength, this.remoteMaxFrame := limit, presettle, bodyLength, remoteMaxFrame;
      this.link := link;
      delivery, bytesSent, timer, wake, stop := false, 0, false, false, false;
      sent, acked, accepted, notAccepted, unsettled := 0, 0, 0, 0, 0;
    }

    /** Begin a delivery and set the timer for its first chunk; there must be none in process. */
    method StartMessage()
      requires bodyLength < TWO32 && !delivery
      modifies this`delivery, this`bytesSent, this`timer, link
      ensures State() == Started(old(State()))
    {
      delivery := true;
      bytesSent := 0;
      link.SendWhole(MSG_HEADER);
      link.SendWhole(NetworkOrder(bodyLength));
      Associative(old(link.state.pending), MSG_HEADER, NetworkOrder(bodyLength));
      timer := true;
    }

    method FinishMessage()
      requires link.state.credit > 0
      modifies this`delivery, this`sent, this`stop, this`unsettled, link`state
      ensures State() == Finished(old(State()))
    {
      link.Advance();
      sent := sent + 1;
      if presettle {
        if limit != 0 && sent == limit {
          stop := true;
        }
      } else {
        unsettled := unsettled + 1;
      }
      delivery := false;
    }

    /** Write one chunk; true when the message is complete or there is none. */
    method SendMessageData() returns (done: bool, ghost rc: nat)
      requires bytesSent <= bodyLength && (delivery ==> link.state.credit > 0)
      modifies this`delivery, this`bytesSent, this`sent, this`stop, this`unsettled, link
      ensures rc <= if old(bytesSent) < bodyLength then Offer(old(State())) else 0
      ensures old(delivery) && old(bytesSent) < bodyLength ==> link.offered == Offer(old(State()))
      ensures var s := old(State());
        var b := s.(bytesSent := s.bytesSent + rc, link := s.link.(pending := s.link.pending + Repeat(0, rc)));
        if !s.delivery then done && rc == 0 && State() == s
        else done == (b.bytesSent == bodyLength) && State() == if done then Finished(b) else b
    {
      rc := 0;
      assert link.state.pending + Repeat(0, 0) == link.state.pending;
      if !delivery {
        return true, rc;
      }
      if bytesSent < bodyLength {
        var amount := Min(bodyLength - bytesSent, remoteMaxFrame);
        amount := Min(amount, ZERO_BLOCK);
        var n := link.Send(Repeat(0, amount));
        assert Repeat(0, amount)[..n] == Repeat(0, n);
        bytesSent := bytesSent + n;
        rc := n;
      }
      done := bytesSent == bodyLength;
      if done {
        FinishMessage();
      }
    }

    /** PN_LINK_FLOW. */
    method OnFlow()
      requires Inv(State())
      modifies this, link
      ensures State() == Step(old(State()), Flow)
    {
      link.state := link.state.(flowEvent := false);
      if limit == 0 || sent < limit {
        if link.state.credit > 0 {
          if !delivery {
            StartMessage();
          }
        }
      }
    }

    /** PN_PROACTOR_TIMEOUT. */
    method OnTimeout()
      requires Inv(State()) && timer
      modifies this
      ensures State() == Step(old(State()), Timeout)
    {
      timer, wake := false, true;
    }

    /** PN_CONNECTION_WAKE. */
    method OnWake() returns (ghost rc: nat)
      requires Inv(State()) && wake
      modifies this, link
      ensures Enabled(old(State()), Wake(rc)) && State() == Step(old(State()), Wake(rc))
    {
      wake := false;
      ghost var s := State();
      var done;
      done, rc := SendMessageData();
      assert s.link.pending + Repeat(0, 0) == s.link.pending;
      if !done {
        timer := true;
      } else if limit == 0 || sent < limit {
        if link.state.credit > 0 {
          StartMessage();
        }
      }
    }

    /** PN_DELIVERY for an updated delivery. */
    method OnDelivery(remote: Outcome)
      requires Inv(State()) && unsettled > 0
      modifies this
      ensures State() == Step(old(State()), Settled(remote))
    {
      match remote {
        case Informational =>
        case Accepted =>
          acked, accepted, unsettled := acked + 1, accepted + 1, unsettled - 1;
        case NotAccepted =>
          acked, notAccepted, unsettled := acked + 1, notAccepted + 1, unsettled - 1;
      }
      if limit != 0 && acked == limit {
        stop := true;
      }
    }
  }
}
