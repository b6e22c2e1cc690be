/**
 The address loader: opens receiving links one after another, `linksPerConn` on
 each of `numConns` connections, each with an address of its own that is padded
 to a requested length.
 */
module AddressLoader {
  import opened Numerals

  // --------------------------------------------------------------- addresses

  const PREFIX: string := "closest/"

  predicate IsHex(c: char) {
    '0' <= c <= '9' || 'a' <= c <= 'f'
  }

  predicate HexId(id: string) {
    forall i :: 0 <= i < |id| ==> IsHex(id[i])
  }

  function Filler(n: int): string {
    seq(if n > 0 then n else 0, _ => 'X')
  }

  /** The address for counter value `n`. */
  function Address(length: int, id: string, n: nat): string {
    var num := Decimal(n);
    PREFIX + Filler(length - (|num| + |PREFIX| + |id|)) + id + num
  }

  /** As long as requested, or as long as it has to be. */
  lemma AddressLength(length: int, id: string, n: nat)
    ensures var least := |PREFIX| + |id| + |Decimal(n)|;
      |Address(length, id, n)| == if length > least then length else least
  {
  }

  /** What stands where, counted from both ends: the prefix first, the number last, the
      identifier right before the number, and nothing but X between prefix and identifier. */
  lemma AddressParts(length: int, id: string, n: nat)
    ensures var a, k := Address(length, id, n), |Decimal(n)|;
      && |a| >= 8 + |id| + k
      && a[..8] == "closest/"
      && a[|a| - k..] == Decimal(n)
      && a[|a| - k - |id|..|a| - k] == id
      && forall i :: 8 <= i < |a| - k - |id| ==> a[i] == 'X'
  {
  }

  /** After the prefix: the filler, then nothing but hexadecimal digits. */
  lemma AddressShape(length: int, id: string, n: nat)
    requires HexId(id)
    ensures var a, f := Address(length, id, n)[|PREFIX|..], |Filler(length - (|Decimal(n)| + |PREFIX| + |id|))|;
      && |a| == f + |id| + |Decimal(n)| && a[f + |id|..] == Decimal(n)
      && (forall i :: 0 <= i < f ==> a[i] == 'X') && (forall i :: f <= i < |a| ==> IsHex(a[i]))
  {
    var num := Decimal(n);
    var filler := Filler(length - (|num| + |PREFIX| + |id|));
    assert Address(length, id, n)[|PREFIX|..] == filler + id + num;
  }

  /** Different counter values give different addresses, whatever length is requested:
      the filler cannot pass for the identifier, nor the identifier for the number. */
  lemma AddressesDiffer(length: int, id: string, m: nat, n: nat)
    requires HexId(id) && Address(length, id, m) == Address(length, id, n)
    ensures m == n
  {
    AddressShape(length, id, m);
    AddressShape(length, id, n);
    var a := Address(length, id, m)[|PREFIX|..];
    var f := |Filler(length - (|Decimal(m)| + |PREFIX| + |id|))|;
    var g := |Filler(length - (|Decimal(n)| + |PREFIX| + |id|))|;
    SameFiller(a, f, g);
    DecimalInjective(m, n);
  }

  lemma SameFiller(a: string, f: nat, g: nat)
    requires f < |a| && g < |a|
    requires (forall i :: 0 <= i < f ==> a[i] == 'X') && (forall i :: f <= i < |a| ==> IsHex(a[i]))
    requires (forall i :: 0 <= i < g ==> a[i] == 'X') && (forall i :: g <= i < |a| ==> IsHex(a[i]))
    ensures f == g
  {
    assert !IsHex('X');
    assert IsHex(a[f]) && IsHex(a[g]);
  }

  // ------------------------------------------------------------- the opening

  /** `conns` holds the indices with a connection, `links` the receivers of each connection
      by their addresses, in the order they were added. `connecting` and `attaching` count
      the open requests without an answer; `visited` is the history of the (connection, link)
      indices of the links opened, `addresses` that of the addresses handed out. */
  datatype State = State(numConns: int, linksPerConn: int, connIndex: nat, linkIndex: nat,
                         conns: set<nat>, links: map<nat, seq<string>>,
                         connecting: nat, attaching: nat, visited: seq<(nat, nat)>, addresses: seq<string>)

  datatype Event = ConnectionOpened | LinkOpened

  predicate Enabled(s: State, e: Event) {
    match e
    case ConnectionOpened => s.connecting > 0
    case LinkOpened => s.attaching > 0
  }

  function Connect(s: State): State {
    s.(connecting := s.connecting + 1, conns := s.conns + {s.connIndex})
  }

  function Receivers(links: map<nat, seq<string>>, conn: nat): seq<string> {
    if conn in links then links[conn] else []
  }

  /** Open a receiver on the current connection, at the generator's next address. */
  function Attach(s: State, length: int, id: string): State {
    var addr := Address(length, id, |s.addresses|);
    s.(attaching := s.attaching + 1, addresses := s.addresses + [addr],
       links := s.links[s.connIndex := Receivers(s.links, s.connIndex) + [addr]])
  }

  function Opened(s: State): State
    requires s.attaching > 0
  {
    s.(attaching := s.attaching - 1, visited := s.visited + [(s.connIndex, s.linkIndex)])
  }

  function Step(s: State, e: Event, length: int, id: string): State
    requires Enabled(s, e)
  {
    match e
    case ConnectionOpened => Attach(s.(connecting := s.connecting - 1), length, id)
    case LinkOpened =>
      if s.linkIndex + 1 < s.linksPerConn then
        Attach(Opened(s).(linkIndex := s.linkIndex + 1), length, id)
      else
        var t := Opened(s).(connIndex := s.connIndex + 1, linkIndex := 0);
        if t.connIndex < s.numConns then Connect(t) else t
  }

  ghost predicate Initial(s: State) {
    s == Connect(State(s.numConns, s.linksPerConn, 0, 0, {}, map[], 0, 0, [], []))
  }

  // -------------------------------------------------------------- invariants

  function AtLeastOne(n: int): (r: nat)
    ensures r > 0
  {
    if n < 1 then 1 else n
  }

  /** The place of (conn, link) in the order of opening. */
  function Position(s: State, conn: nat, link: nat): nat {
    conn * AtLeastOne(s.linksPerConn) + link
  }

  /** One request is outstanding until all are answered, and the links opened are
      exactly those before (connIndex, linkIndex). */
  ghost predicate Cursor(s: State) {
    && s.connecting + s.attaching == (if s.connIndex < AtLeastOne(s.numConns) then 1 else 0)
    && s.connIndex <= AtLeastOne(s.numConns) && s.linkIndex < AtLeastOne(s.linksPerConn)
    && (s.attaching == 0 ==> s.linkIndex == 0)
    && |s.visited| == Position(s, s.connIndex, s.linkIndex)
    && |s.addresses| == |s.visited| + s.attaching
  }

  ghost predicate History(s: State, length: int, id: string) {
    && (forall i :: 0 <= i < |s.addresses| ==> s.addresses[i] == Address(length, id, i))
    && forall i :: 0 <= i < |s.visited| ==>
         && s.visited[i].0 < AtLeastOne(s.numConns) && s.visited[i].1 < AtLeastOne(s.linksPerConn)
         && Position(s, s.visited[i].0, s.visited[i].1) == i
  }

  /** The receivers of connection `c`: a stretch of the addresses handed out. */
  ghost predicate Holds(s: State, c: nat)
    requires c in s.links
  {
    var first := Position(s, c, 0);
    && |s.links[c]| == (if c == s.connIndex then s.linkIndex + 1 else AtLeastOne(s.linksPerConn))
    && first + |s.links[c]| <= |s.addresses|
    && s.links[c] == s.addresses[first..first + |s.links[c]|]
  }

  ghost predicate Tables(s: State) {
    && (forall c: nat :: c in s.conns <==> c < s.connIndex + s.connecting + s.attaching)
    && (forall c: nat :: c in s.links <==> c < s.connIndex + s.attaching)
    && forall c: nat :: c in s.links ==> Holds(s, c)
  }

  ghost predicate Inv(s: State, length: int, id: string) {
    Cursor(s) && History(s, length, id) && Tables(s)
  }

  lemma NextConnection(conn: nat, n: nat)
    ensures (conn + 1) * n == conn * n + n
  {
  }

  lemma Ordered(a: nat, b: nat, n: nat)
    requires a <= b
    ensures a * n <= b * n
  {
  }

  lemma CursorKeeps(s: State, e: Event, length: int, id: string)
    requires Cursor(s) && Enabled(s, e)
    ensures Cursor(Step(s, e, length, id))
  {
    NextConnection(s.connIndex, AtLeastOne(s.linksPerConn));
  }

  lemma HistoryKeeps(s: State, e: Event, length: int, id: string)
    requires Cursor(s) && History(s, length, id) && Enabled(s, e)
    ensures History(Step(s, e, length, id), length, id)
  {
    var t := Step(s, e, length, id);
    assert s.visited <= t.visited;
    if e.LinkOpened? {
      assert t.visited == s.visited + [(s.connIndex, s.linkIndex)];
    }
  }

  /** What connection `c` holds stays as it is when only other connections get more. */
  lemma HoldsStill(s: State, t: State, c: nat)
    requires c in s.links && c in t.links && t.links[c] == s.links[c] && Holds(s, c)
    requires t.linksPerConn == s.linksPerConn && s.addresses <= t.addresses
    requires c == t.connIndex ==> c == s.connIndex && t.linkIndex == s.linkIndex
    requires c == s.connIndex && c != t.connIndex ==> s.linkIndex + 1 == AtLeastOne(s.linksPerConn)
    ensures Holds(t, c)
  {
    var first := Position(s, c, 0);
    assert t.addresses[first..first + |s.links[c]|] == s.addresses[first..first + |s.links[c]|];
  }

  lemma FirstReceiver(s: State, t: State)
    requires Cursor(s) && Tables(s) && s.connecting > 0 && s.connIndex in t.links
    requires exists addr :: t.addresses == s.addresses + [addr] && t.links[s.connIndex] == [addr]
    requires t.linksPerConn == s.linksPerConn && t.connIndex == s.connIndex && t.linkIndex == s.linkIndex
    ensures Holds(t, s.connIndex)
  {
    assert |t.addresses| == Position(s, s.connIndex, 0) + 1;
  }

  lemma NextReceiver(s: State, t: State)
    requires Cursor(s) && s.attaching > 0 && s.connIndex in s.links && Holds(s, s.connIndex) && s.connIndex in t.links
    requires exists addr :: t.addresses == s.addresses + [addr] && t.links[s.connIndex] == s.links[s.connIndex] + [addr]
    requires t.linksPerConn == s.linksPerConn && t.connIndex == s.connIndex && t.linkIndex == s.linkIndex + 1
    ensures Holds(t, s.connIndex)
  {
    var first := Position(s, s.connIndex, 0);
    assert |s.addresses| == first + |s.links[s.connIndex]|;
    assert t.addresses[first..] == s.addresses[first..] + t.addresses[|s.addresses|..];
  }

  lemma KeysKeep(s: State, e: Event, length: int, id: string)
    requires Cursor(s) && Tables(s) && Enabled(s, e)
    ensures var t := Step(s, e, length, id);
      && (forall c: nat :: c in t.conns <==> c < t.connIndex + t.connecting + t.attaching)
      && (forall c: nat :: c in t.links <==> c < t.connIndex + t.attaching)
  {
  }

  lemma TablesKeep(s: State, e: Event, length: int, id: string)
    requires Cursor(s) && Tables(s) && Enabled(s, e)
    ensures Tables(Step(s, e, length, id))
  {
    var t := Step(s, e, length, id);
    KeysKeep(s, e, length, id);
    forall c: nat | c in t.links
      ensures Holds(t, c)
    {
      if c == s.connIndex && e.ConnectionOpened? {
        FirstReceiver(s, t);
      } else if c == s.connIndex && s.linkIndex + 1 < s.linksPerConn {
        NextReceiver(s, t);
      } else {
        HoldsStill(s, t, c);
      }
    }
  }

  lemma StepKeeps(s: State, e: Event, length: int, id: string)
    requires Inv(s, length, id) && Enabled(s, e)
    ensures Inv(Step(s, e, length, id), length, id)
  {
    CursorKeeps(s, e, length, id);
    HistoryKeeps(s, e, length, id);
    TablesKeep(s, e, length, id);
  }

  // -------------------------------------------------------------------- runs

  ghost predicate Run(s: State, es: seq<Event>, t: State, length: int, id: string)
    decreases |es|
  {
    if es == [] then s == t
    else Enabled(s, es[0]) && Run(Step(s, es[0], length, id), es[1..], t, length, id)
  }

  /** How many requests have been answered. */
  function Answers(s: State): nat {
    s.connIndex + s.attaching + |s.visited|
  }

  lemma {:induction false} RunKeeps(s: State, es: seq<Event>, t: State, length: int, id: string)
    requires Inv(s, length, id) && Run(s, es, t, length, id)
    ensures Inv(t, length, id) && t.numConns == s.numConns && t.linksPerConn == s.linksPerConn
    ensures |es| == Answers(t) - Answers(s)
    decreases |es|
  {
    if es != [] {
      StepKeeps(s, es[0], length, id);
      RunKeeps(Step(s, es[0], length, id), es[1..], t, length, id);
    }
  }

  lemma InitialInv(s: State, length: int, id: string)
    requires Initial(s)
    ensures Inv(s, length, id)
  {
  }

  ghost predicate Quiet(s: State) {
    !Enabled(s, ConnectionOpened) && !Enabled(s, LinkOpened)
  }

  /** Of two integers, the product of those above zero is the product itself only when
      both are above zero, or both are minus one. */
  lemma Products(a: int, b: int)
    ensures a * b == AtLeastOne(a) * AtLeastOne(b) <==> (a >= 1 && b >= 1) || (a == -1 && b == -1)
  {
    if a >= 1 && b < 1 {
      assert a * b <= 0;
    } else if a < 1 && b >= 1 {
      assert a * b <= 0;
    } else if a < 1 && b < 1 {
      NegativeProduct(-a, -b);
      assert a * b == (-a) * (-b);
    }
  }

  lemma NegativeProduct(a: nat, b: nat)
    ensures a * b == 1 <==> a == 1 && b == 1
  {
    if a >= 2 && b >= 1 {
      assert a * b >= 2 * b;
    }
  }

  /** A run is over after one answer per connection and one per link, never before; then
      each connection holds its own stretch of the addresses. */
  lemma EveryRunEnds(s: State, es: seq<Event>, t: State, length: int, id: string)
    requires Initial(s) && Run(s, es, t, length, id)
    ensures var n, m := AtLeastOne(s.numConns), AtLeastOne(s.linksPerConn);
      && |es| <= n * m + n
      && (Quiet(t) <==> |es| == n * m + n)
      && (Quiet(t) <==> |t.visited| == n * m)
      && (!Quiet(t) ==> t.connecting + t.attaching == 1)
      && (Quiet(t) ==> forall c: nat :: c < n ==>
           c in t.links && c * m + m <= |t.addresses| && t.links[c] == t.addresses[c * m..c * m + m])
  {
    InitialInv(s, length, id);
    RunKeeps(s, es, t, length, id);
    var n, m := AtLeastOne(s.numConns), AtLeastOne(s.linksPerConn);
    if t.connIndex < n {
      NextConnection(t.connIndex, m);
      Ordered(t.connIndex + 1, n, m);
    } else {
      forall c: nat | c < n
        ensures c in t.links && c * m + m <= |t.addresses| && t.links[c] == t.addresses[c * m..c * m + m]
      {
        assert c in t.links;
        assert Holds(t, c);
      }
    }
  }

  /** Each (connection, link) pair is opened once and in order, at an address of its own. */
  lemma EachPairOnce(s: State, es: seq<Event>, t: State, length: int, id: string, conn: nat, link: nat)
    requires Initial(s) && Run(s, es, t, length, id) && Quiet(t)
    requires conn < AtLeastOne(s.numConns) && link < AtLeastOne(s.linksPerConn)
    ensures Position(s, conn, link) < |t.visited| && t.visited[Position(s, conn, link)] == (conn, link)
    ensures forall i :: 0 <= i < |t.visited| && t.visited[i] == (conn, link) ==> i == Position(s, conn, link)
  {
    InitialInv(s, length, id);
    RunKeeps(s, es, t, length, id);
    var m := AtLeastOne(s.linksPerConn);
    NextConnection(conn, m);
    Ordered(conn + 1, AtLeastOne(s.numConns), m);
    var p := Position(s, conn, link);
    assert t.connIndex * m == |t.visited|;
    var (c, l) := t.visited[p];
    SamePosition(c, l, conn, link, m);
  }

  lemma SamePosition(c: nat, l: nat, conn: nat, link: nat, m: nat)
    requires l < m && link < m && c * m + l == conn * m + link
    ensures c == conn && l == link
  {
    if c < conn {
      NextConnection(c, m);
      Ordered(c + 1, conn, m);
      assert false;
    } else if conn < c {
      NextConnection(conn, m);
      Ordered(conn + 1, c, m);
      assert false;
    }
  }

  /** No two receivers of a run ask for the same address. */
  lemma AddressesOfRunDiffer(s: State, es: seq<Event>, t: State, length: int, id: string, i: nat, j: nat)
    requires HexId(id) && Initial(s) && Run(s, es, t, length, id) && i < j < |t.addresses|
    ensures t.addresses[i] != t.addresses[j]
  {
    InitialInv(s, length, id);
    RunKeeps(s, es, t, length, id);
    if t.addresses[i] == t.addresses[j] {
      AddressesDiffer(length, id, i, j);
      assert false;
    }
  }

  /** The total printed at the end is the number of links opened exactly when both
      settings are at least one, or by chance both are minus one. */
  lemma PrintedTotal(s: State, es: seq<Event>, t: State, length: int, id: string)
    requires Initial(s) && Run(s, es, t, length, id) && Quiet(t)
    ensures s.numConns * s.linksPerConn == |t.visited|
        <==> (s.numConns >= 1 && s.linksPerConn >= 1) || (s.numConns == -1 && s.linksPerConn == -1)
  {
    EveryRunEnds(s, es, t, length, id);
    Products(s.numConns, s.linksPerConn);
  }
}
