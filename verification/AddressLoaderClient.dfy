/** The address generator and the address loader's event handlers. */
module AddressLoaderClient {
  import opened Numerals
  import opened AddressLoader

  class UnicastGenerator {
    const length: int
    const unique: string
    var counter: nat

    constructor (length: int, unique: string)
      ensures this.length == length && this.unique == unique && counter == 0
    {
      this.length, this.unique, counter := length, unique, 0;
    }

    method Call() returns (addr: string)
      modifies this
      ensures addr == Address(length, unique, old(counter)) && counter == old(counter) + 1
    {
      var num := Decimal(counter);
      counter := counter + 1;
      var needed := length - (|num| + |PREFIX| + |unique|);
      var filler := if needed > 0 then seq(needed, _ => 'X') else "";
      addr := PREFIX + filler + unique + num;
    }
  }

  class Loader {
    const numConns: int
    const linksPerConn: int
    const addrGenerator: UnicastGenerator
    var conns: set<nat>
    var links: map<nat, seq<string>>
    var connIndex: nat
    var linkIndex: nat
    ghost var connecting: nat
    ghost var attaching: nat
    ghost var visited: seq<(nat, nat)>
    ghost var addresses: seq<string>

    ghost function State(): State
      reads this
    {
      AddressLoader.State(numConns, linksPerConn, connIndex, linkIndex, conns, links,
                          connecting, attaching, visited, addresses)
    }

    constructor (conns: int, linksPerConn: int, generator: UnicastGenerator)
      requires generator.counter == 0
      ensures numConns == conns && this.linksPerConn == linksPerConn && addrGenerator == generator
      ensures Initial(State()) && generator.counter == |addresses|
    {
      numConns, this.linksPerConn, addrGenerator := conns, linksPerConn, generator;
      this.conns, links, connIndex, linkIndex := {}, map[], 0, 0;
      connecting, attaching, visited, addresses := 0, 0, [], [];
      new;
      OnStart();
    }

    /** on_start and the reconnecting branch of on_link_opened. */
    method OnStart()
      modifies this`conns, this`connecting
      ensures State() == Connect(old(State()))
    {
      conns, connecting := conns + {connIndex}, connecting + 1;
    }

    method CreateReceiver()
      requires connIndex in links && addrGenerator.counter == |addresses|
      modifies this`links, this`attaching, this`addresses, addrGenerator
      ensures State() == Attach(old(State()), addrGenerator.length, addrGenerator.unique)
      ensures addrGenerator.counter == |addresses|
    {
      var source := addrGenerator.Call();
      attaching, addresses := attaching + 1, addresses + [source];
      links := links[connIndex := links[connIndex] + [source]];
    }

    method OnConnectionOpened()
      requires addrGenerator.counter == |addresses| && Enabled(State(), ConnectionOpened)
      modifies this, addrGenerator
      ensures State() == Step(old(State()), ConnectionOpened, addrGenerator.length, addrGenerator.unique)
      ensures addrGenerator.counter == |addresses|
    {
      connecting := connecting - 1;
      if connIndex !in links {
        links := links[connIndex := []];
      }
      CreateReceiver();
    }

    /** The connection's entry in `links`, which is looked up here, is there. */
    method OnLinkOpened()
      requires addrGenerator.counter == |addresses| && Enabled(State(), LinkOpened)
      requires Tables(State())
      modifies this, addrGenerator
      ensures State() == Step(old(State()), LinkOpened, addrGenerator.length, addrGenerator.unique)
      ensures addrGenerator.counter == |addresses|
    {
      assert connIndex in links;
      attaching, visited := attaching - 1, visited + [(connIndex, linkIndex)];
      linkIndex := linkIndex + 1;
      if linkIndex < linksPerConn {
        CreateReceiver();
      } else {
        connIndex, linkIndex := connIndex + 1, 0;
        if connIndex < numConns {
          OnStart();
        }
      }
    }
  }
}
