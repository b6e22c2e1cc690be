/** The link loader's event handlers, with their loops over the connection's links. */
module LinkLoaderClient {
  import opened Numerals
  import opened LinkLoader

  class LinkLoaderClient {
    const linkLimit: nat
    var repeatCount: nat
    var linkCount: nat
    /** The connection's links of this cycle, as Proton holds them. */
    var links: seq<Link>
    var stop: bool
    ghost var closing: bool
    ghost var created: seq<seq<string>>

    ghost function State(): State
      reads this
    {
      LinkLoader.State(linkLimit, repeatCount, linkCount, links, stop, closing, created)
    }

    /** PN_CONNECTION_INIT: the first cycle's links. */
    constructor (linkLimit: nat, repeatCount: nat)
      requires linkLimit > 0 && repeatCount > 0
      ensures Initial(State())
    {
      this.linkLimit, this.repeatCount := linkLimit, repeatCount;
      linkCount, links, stop, closing, created := 0, [], false, false, [];
      new;
      OpenLinks();
    }

    /** Open `linkLimit` links, named after the cycle. */
    method OpenLinks()
      modifies this`links, this`closing, this`created
      ensures links == NewLinks(repeatCount, linkLimit) && !closing
      ensures created == old(created) + [CycleNames(repeatCount, linkLimit)]
    {
      links := [];
      var i := 0;
      while i < linkLimit
        invariant i <= linkLimit && links == NewLinks(repeatCount, i) && created == old(created)
      {
        var name := "Link-" + Decimal(repeatCount) + ":" + Decimal(i);
        links := links + [NewLink(name)];
        i := i + 1;
      }
      closing, created := false, created + [CycleNames(repeatCount, linkLimit)];
    }

    /** Close every link from this end. */
    method CloseLinks()
      modifies this`links, this`closing
      ensures links == Closed(old(links)) && closing
    {
      var i := 0;
      while i < |links|
        invariant i <= |links| == |old(links)|
        invariant forall j :: 0 <= j < |links| ==> links[j] == if j < i then Close(old(links)[j]) else old(links)[j]
      {
        links := links[i := Close(links[i])];
        i := i + 1;
      }
      closing := true;
    }

    /** PN_LINK_FLOW on link `i`. */
    method OnFlow(i: nat)
      requires Inv(State()) && Enabled(State(), Flow(i))
      modifies this
      ensures State() == Step(old(State()), Flow(i))
    {
      if linkCount < linkLimit && !links[i].started && links[i].credit > 0 {
        links := links[i := links[i].(started := true)];
        linkCount := linkCount + 1;
        if linkCount == linkLimit {
          CloseLinks();
        }
      }
    }

    /** PN_LINK_REMOTE_CLOSE on link `i`. */
    method OnRemoteClose(i: nat)
      requires Inv(State()) && Enabled(State(), RemoteClose(i))
      modifies this
      ensures State() == Step(old(State()), RemoteClose(i))
    {
      AssertsHold(State(), i);
      links := links[i := links[i].(remoteClosed := true)];
      if links[i].localClosed {
        links := links[i := links[i].(freed := true)];
        assert linkCount > 0;
        linkCount := linkCount - 1;
        if linkCount == 0 {
          assert repeatCount > 0;
          repeatCount := repeatCount - 1;
          if repeatCount > 0 {
            OpenLinks();
          } else {
            stop := true;
          }
        }
      }
    }
  }
}
