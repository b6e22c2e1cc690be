/**
 The link loader: opens `linkLimit` links, starts a message fragment on each as
 credit comes, closes them all when the last has its fragment, and begins again
 when the last is freed, `repeatCount` times in all.
 */
module LinkLoader {
  import opened Numerals

  // ------------------------------------------------------------------- names

  const NAME_BUFFER: nat := 64

  function LinkName(cycle: nat, i: nat): string {
    "Link-" + Decimal(cycle) + ":" + Decimal(i)
  }

  lemma DigitsAreNotColons(s: string)
    requires AllDigits(s)
    ensures ':' !in s
  {
  }

  /** Text before a colon and text after it can be told apart. */
  lemma SplitAtColon(a: string, b: string, c: string, d: string)
    requires ':' !in a && ':' !in c && a + ":" + b == c + ":" + d
    ensures a == c && b == d
  {
    var s := a + ":" + b;
    assert s[|a|] == ':' && s[|c|] == ':';
    assert |a| == |c|;
    assert a == s[..|a|] && c == s[..|c|];
    assert b == s[|a| + 1..] && d == s[|c| + 1..];
  }

  /** No two links of a run have the same name. */
  lemma NamesDiffer(cycle: nat, i: nat, cycle': nat, i': nat)
    requires LinkName(cycle, i) == LinkName(cycle', i')
    ensures cycle == cycle' && i == i'
  {
    var a, b := Decimal(cycle), Decimal(cycle');
    DigitsAreNotColons(a);
    DigitsAreNotColons(b);
    assert LinkName(cycle, i)[5..] == a + ":" + Decimal(i);
    assert LinkName(cycle', i')[5..] == b + ":" + Decimal(i');
    SplitAtColon(a, Decimal(i), b, Decimal(i'));
    DecimalInjective(cycle, cycle');
    DecimalInjective(i, i');
  }

  /** What a name says: behind its prefix, up to the only colon, the numeral of the cycle,
      and behind the colon that of the link. */
  lemma NameParts(cycle: nat, i: nat)
    ensures var s, c := LinkName(cycle, i), 5 + |Decimal(cycle)|;
      && c < |s| && s[..5] == "Link-"
      && (forall k :: 0 <= k < |s| ==> (s[k] == ':' <==> k == c))
      && AllDigits(s[5..c]) && Value(s[5..c]) == cycle
      && AllDigits(s[c + 1..]) && Value(s[c + 1..]) == i
  {
    var s, a, b := LinkName(cycle, i), Decimal(cycle), Decimal(i);
    var c := 5 + |a|;
    assert s[..5] == "Link-";
    assert s[5..c] == a;
    assert s[c + 1..] == b;
    DigitsAreNotColons(a);
    DigitsAreNotColons(b);
    ValueOfDecimal(cycle);
    ValueOfDecimal(i);
  }

  /** And none is cut by the buffer it is printed into. */
  lemma NamesFit(cycle: nat, i: nat)
    requires cycle < 0x1_0000_0000 && i < 0x1_0000_0000
    ensures |LinkName(cycle, i)| < NAME_BUFFER
  {
    assert Power10(10) == 10000000000 by {
      assert Power10(2) == 100 && Power10(4) == 10000 && Power10(6) == 1000000 && Power10(8) == 100000000;
    }
    DecimalLength(cycle, 10);
    DecimalLength(i, 10);
  }

  // ----------------------------------------------------------------- machine

  datatype Link = Link(name: string, credit: nat, started: bool, localClosed: bool, remoteClosed: bool, freed: bool)

  /** History: whether this end has closed the links of this cycle, and the names
      created so far, one list for each cycle begun. */
  datatype State = State(linkLimit: nat, repeatCount: nat, linkCount: nat, links: seq<Link>, stop: bool,
                         closing: bool, created: seq<seq<string>>)

  function CycleNames(cycle: nat, n: nat): (names: seq<string>)
    ensures |names| == n
  {
    seq(n, (i: nat) => LinkName(cycle, i))
  }

  function NewLink(name: string): Link {
    Link(name, 0, false, false, false, false)
  }

  function NewLinks(cycle: nat, n: nat): (links: seq<Link>)
    ensures |links| == n
  {
    seq(n, (i: nat) => NewLink(LinkName(cycle, i)))
  }

  function Close(l: Link): Link {
    l.(localClosed := true)
  }

  function Closed(links: seq<Link>): (r: seq<Link>)
    ensures |r| == |links|
  {
    seq(|links|, i requires 0 <= i < |links| => Close(links[i]))
  }

  predicate Starts(s: State, i: nat)
    requires i < |s.links|
  {
    s.linkCount < s.linkLimit && !s.links[i].started && s.links[i].credit > 0
  }

  /** PN_LINK_FLOW on link `i`. */
  function FlowHandled(s: State, i: nat): State
    requires i < |s.links|
  {
    if !Starts(s, i) then s
    else
      var t := s.(linkCount := s.linkCount + 1, links := s.links[i := s.links[i].(started := true)]);
      if t.linkCount == t.linkLimit then t.(links := Closed(t.links), closing := true) else t
  }

  /** PN_LINK_REMOTE_CLOSE on link `i`. */
  function CloseHandled(s: State, i: nat): State
    requires i < |s.links| && (s.links[i].localClosed ==> s.linkCount > 0)
    requires s.links[i].localClosed && s.linkCount == 1 ==> s.repeatCount > 0
  {
    var l := s.links[i].(remoteClosed := true);
    if !l.localClosed then
      s.(links := s.links[i := l])
    else
      var t := s.(links := s.links[i := l.(freed := true)], linkCount := s.linkCount - 1);
      if t.linkCount > 0 then t
      else if s.repeatCount > 1 then
        t.(repeatCount := s.repeatCount - 1, links := NewLinks(s.repeatCount - 1, s.linkLimit), closing := false,
           created := s.created + [CycleNames(s.repeatCount - 1, s.linkLimit)])
      else
        t.(repeatCount := 0, stop := true)
  }

  datatype Event = Credit(i: nat, n: nat) | Flow(i: nat) | RemoteClose(i: nat)

  /** A link is closed by the peer once; a freed link has no more events. */
  predicate Enabled(s: State, e: Event) {
    e.i < |s.links| && !s.links[e.i].freed && (e.RemoteClose? ==> !s.links[e.i].remoteClosed)
  }

  ghost function Step(s: State, e: Event): State
    requires Inv(s) && Enabled(s, e)
  {
    match e
    case Credit(i, n) => s.(links := s.links[i := s.links[i].(credit := s.links[i].credit + n)])
    case Flow(i) => FlowHandled(s, i)
    case RemoteClose(i) =>
      AssertsHold(s, i);
      CloseHandled(s, i)
  }

  // -------------------------------------------------------------- invariants

  function Started(links: seq<Link>): (n: nat)
    ensures n <= |links|
  {
    if links == [] then 0 else (if links[0].started then 1 else 0) + Started(links[1..])
  }

  function Live(links: seq<Link>): (n: nat)
    ensures n <= |links|
  {
    if links == [] then 0 else (if links[0].freed then 0 else 1) + Live(links[1..])
  }

  /** While filling, the count is the links with a fragment in flight and none is
      closed from this end; while closing, every link has its fragment and is closed
      from this end, and the count is the links not yet freed. */
  ghost predicate Inv(s: State) {
    && |s.links| == s.linkLimit > 0
    && (s.stop <==> s.repeatCount == 0)
    && (s.closing ==>
          && s.linkCount == Live(s.links) && (s.linkCount == 0 <==> s.stop)
          && forall i :: 0 <= i < |s.links| ==> s.links[i].started && s.links[i].localClosed)
    && (!s.closing ==>
          && s.linkCount == Started(s.links) < s.linkLimit && !s.stop
          && forall i :: 0 <= i < |s.links| ==> !s.links[i].localClosed && !s.links[i].freed)
  }

  lemma {:induction false} LiveLink(links: seq<Link>, i: nat)
    requires i < |links| && !links[i].freed
    ensures Live(links) > 0
  {
    if i > 0 {
      LiveLink(links[1..], i - 1);
    }
  }

  /** The handler's two assertions hold whenever a close arrives. */
  lemma AssertsHold(s: State, i: nat)
    requires Inv(s) && i < |s.links| && !s.links[i].freed
    ensures s.links[i].localClosed ==> s.linkCount > 0 && s.repeatCount > 0
  {
    LiveLink(s.links, i);
  }

  lemma {:induction false} Counts(links: seq<Link>, i: nat, l: Link)
    requires i < |links|
    ensures Started(links[i := l])
      == Started(links) - (if links[i].started then 1 else 0) + (if l.started then 1 else 0)
    ensures Live(links[i := l]) == Live(links) - (if links[i].freed then 0 else 1) + (if l.freed then 0 else 1)
  {
    var after := links[i := l];
    if i == 0 {
      assert after[1..] == links[1..];
    } else {
      Counts(links[1..], i - 1, l);
      assert after[1..] == links[1..][i - 1 := l];
    }
  }

  lemma {:induction false} AllStarted(links: seq<Link>)
    ensures Started(links) == |links| ==> forall i :: 0 <= i < |links| ==> links[i].started
  {
    if links != [] {
      AllStarted(links[1..]);
      if Started(links) == |links| {
        forall i | 0 <= i < |links| ensures links[i].started {
          if i > 0 {
            assert links[1..][i - 1].started;
          }
        }
      }
    }
  }

  lemma {:induction false} ClosedLive(links: seq<Link>)
    requires forall i :: 0 <= i < |links| ==> !links[i].freed
    ensures Live(links) == |links| && Live(Closed(links)) == |links|
  {
    if links != [] {
      ClosedLive(links[1..]);
      assert Closed(links)[1..] == Closed(links[1..]);
    }
  }

  lemma {:induction false} NewIdle(cycle: nat, n: nat)
    ensures Started(NewLinks(cycle, n)) == 0
  {
    NoneStarted(NewLinks(cycle, n));
  }

  lemma {:induction false} NoneStarted(links: seq<Link>)
    requires forall i :: 0 <= i < |links| ==> !links[i].started
    ensures Started(links) == 0
  {
    if links != [] {
      NoneStarted(links[1..]);
    }
  }

  lemma FlowKeeps(s: State, i: nat)
    requires Inv(s) && i < |s.links|
    ensures Inv(FlowHandled(s, i))
  {
    if Starts(s, i) {
      var links := s.links[i := s.links[i].(started := true)];
      Counts(s.links, i, links[i]);
      AllStarted(links);
      if s.linkCount + 1 == s.linkLimit {
        ClosedLive(links);
      }
    }
  }

  lemma CloseKeeps(s: State, i: nat)
    requires Inv(s) && Enabled(s, RemoteClose(i))
    ensures Inv(Step(s, RemoteClose(i)))
  {
    AssertsHold(s, i);
    var l := s.links[i].(remoteClosed := true);
    Counts(s.links, i, l);
    Counts(s.links, i, l.(freed := true));
    if s.repeatCount > 0 {
      NewIdle(s.repeatCount - 1, s.linkLimit);
    }
  }

  lemma StepKeeps(s: State, e: Event)
    requires Inv(s) && Enabled(s, e)
    ensures Inv(Step(s, e))
  {
    match e
    case Credit(i, n) => Counts(s.links, i, Step(s, e).links[i]);
    case Flow(i) => FlowKeeps(s, i);
    case RemoteClose(i) => CloseKeeps(s, i);
  }

  // ---------------------------------------------------------- how runs end

  /** An event that moves the run on: a fragment started, or a link freed. */
  predicate Productive(s: State, e: Event) {
    Enabled(s, e) && (match e
      case Credit(_, _) => false
      case Flow(i) => Starts(s, i)
      case RemoteClose(i) => s.links[i].localClosed)
  }

  /** How many productive events are still to come: two for each link of each cycle. */
  function ToCome(s: State): int {
    if s.stop then 0
    else 2 * s.linkLimit * (s.repeatCount - 1)
         + if s.closing then s.linkCount else 2 * s.linkLimit - s.linkCount
  }

  lemma CyclesLeft(n: nat, r: nat)
    requires r >= 1
    ensures 2 * n * r == 2 * n * (r - 1) + 2 * n
  {
  }

  lemma ProductiveStep(s: State, e: Event)
    requires Inv(s) && Enabled(s, e)
    ensures ToCome(Step(s, e)) == ToCome(s) - if Productive(s, e) then 1 else 0
  {
    if e.RemoteClose? {
      AssertsHold(s, e.i);
    }
    if s.repeatCount >= 2 {
      CyclesLeft(s.linkLimit, s.repeatCount - 1);
    }
  }

  ghost predicate Run(s: State, es: seq<Event>, t: State)
    requires Inv(s)
    decreases |es|
  {
    if es == [] then s == t
    else Enabled(s, es[0]) && (StepKeeps(s, es[0]); Run(Step(s, es[0]), es[1..], t))
  }

  ghost function ProductiveCount(s: State, es: seq<Event>): nat
    requires Inv(s)
    decreases |es|
  {
    if es == [] || !Enabled(s, es[0]) then 0
    else
      StepKeeps(s, es[0]);
      (if Productive(s, es[0]) then 1 else 0) + ProductiveCount(Step(s, es[0]), es[1..])
  }

  ghost predicate Initial(s: State)
    ensures Initial(s) ==> Inv(s)
  {
    NewIdle(s.repeatCount, s.linkLimit);
    && s.linkLimit > 0 && s.repeatCount > 0
    && s == State(s.linkLimit, s.repeatCount, 0, NewLinks(s.repeatCount, s.linkLimit), false, false,
                  [CycleNames(s.repeatCount, s.linkLimit)])
  }

  lemma {:induction false} RunCounts(s: State, es: seq<Event>, t: State)
    requires Inv(s) && Run(s, es, t)
    ensures Inv(t) && ToCome(t) == ToCome(s) - ProductiveCount(s, es)
    decreases |es|
  {
    if es != [] {
      StepKeeps(s, es[0]);
      ProductiveStep(s, es[0]);
      RunCounts(Step(s, es[0]), es[1..], t);
    }
  }

  lemma NonNegative(n: nat, r: nat)
    ensures 2 * n * r >= 0
  {
  }

  lemma ToComeWhileRunning(s: State)
    requires Inv(s)
    ensures ToCome(s) >= 0 && (ToCome(s) == 0 <==> s.stop)
  {
    if !s.stop {
      NonNegative(s.linkLimit, s.repeatCount - 1);
    }
  }

  /** Every run stops at exactly its 2 * linkLimit * repeatCount-th productive event, in
      whatever order credit and closes come. */
  lemma StopsAfterAllCycles(s: State, es: seq<Event>, t: State)
    requires Initial(s) && Run(s, es, t)
    ensures ProductiveCount(s, es) <= 2 * s.linkLimit * s.repeatCount
    ensures t.stop <==> ProductiveCount(s, es) == 2 * s.linkLimit * s.repeatCount
  {
    RunCounts(s, es, t);
    CyclesLeft(s.linkLimit, s.repeatCount);
    ToComeWhileRunning(t);
  }

  // ------------------------------------------------- closes that come early

  /** The peer closes a link only in answer to a close. */
  predicate InAnswer(s: State, e: Event) {
    e.RemoteClose? ==> e.i < |s.links| && s.links[e.i].localClosed
  }

  ghost predicate AnsweredRun(s: State, es: seq<Event>, t: State)
    requires Inv(s)
    decreases |es|
  {
    if es == [] then s == t
    else
      Enabled(s, es[0]) && InAnswer(s, es[0])
      && (StepKeeps(s, es[0]); AnsweredRun(Step(s, es[0]), es[1..], t))
  }

  predicate NoneEarly(s: State) {
    forall j :: 0 <= j < |s.links| && s.links[j].remoteClosed ==> s.links[j].freed
  }

  lemma AnswerKeeps(s: State, e: Event)
    requires Inv(s) && NoneEarly(s) && Enabled(s, e) && InAnswer(s, e)
    ensures NoneEarly(Step(s, e))
  {
    if e.RemoteClose? {
      AssertsHold(s, e.i);
    }
  }

  lemma {:induction false} AnsweredRunKeeps(s: State, es: seq<Event>, t: State)
    requires Inv(s) && NoneEarly(s) && AnsweredRun(s, es, t)
    ensures Inv(t) && NoneEarly(t)
    decreases |es|
  {
    if es != [] {
      StepKeeps(s, es[0]);
      AnswerKeeps(s, es[0]);
      AnsweredRunKeeps(Step(s, es[0]), es[1..], t);
    }
  }

  /** In a run in which the peer closes only in answer, until it stops there is a link that
      needs only credit for its fragment, or only the answer to its close. */
  lemma SomethingToWaitFor(s: State, es: seq<Event>, t: State) returns (i: nat)
    requires Initial(s) && AnsweredRun(s, es, t) && !t.stop
    ensures Inv(t) && i < |t.links| && !t.links[i].freed
    ensures if t.closing then Productive(t, RemoteClose(i))
            else !t.links[i].started && Productive(Step(t, Credit(i, 1)), Flow(i))
  {
    AnsweredRunKeeps(s, es, t);
    i := WaitedFor(t);
  }

  lemma WaitedFor(s: State) returns (i: nat)
    requires Inv(s) && NoneEarly(s) && !s.stop
    ensures i < |s.links| && !s.links[i].freed
    ensures if s.closing then Productive(s, RemoteClose(i))
            else !s.links[i].started && Productive(Step(s, Credit(i, 1)), Flow(i))
  {
    if s.closing {
      i := FindLive(s.links);
    } else {
      i := FindIdle(s.links);
      Counts(s.links, i, s.links[i].(credit := s.links[i].credit + 1));
    }
  }

  predicate Early(s: State, i: nat) {
    i < |s.links| && s.links[i].remoteClosed && !s.links[i].freed
  }

  lemma EarlyStays(s: State, e: Event, i: nat)
    requires Inv(s) && Early(s, i) && Enabled(s, e)
    ensures Early(Step(s, e), i)
  {
    if e.RemoteClose? {
      AssertsHold(s, e.i);
      var after := s.links[e.i := s.links[e.i].(remoteClosed := true, freed := true)];
      Counts(s.links, e.i, after[e.i]);
      LiveLink(after, i);
    }
  }

  /** A close that comes early is never answered: its link is never freed, and the run never stops. */
  lemma {:induction false} EarlyCloseNeverStops(s: State, es: seq<Event>, t: State, i: nat)
    requires Inv(s) && Early(s, i) && Run(s, es, t)
    ensures Early(t, i) && !t.stop
    decreases |es|
  {
    if es == [] {
      LiveLink(s.links, i);
    } else {
      StepKeeps(s, es[0]);
      EarlyStays(s, es[0], i);
      EarlyCloseNeverStops(Step(s, es[0]), es[1..], t, i);
    }
  }

  /** One early close from the start is enough. */
  lemma EarlyCloseFromStart(s: State)
    requires Initial(s)
    ensures Enabled(s, RemoteClose(0)) && Inv(Step(s, RemoteClose(0)))
    ensures Run(s, [RemoteClose(0)], Step(s, RemoteClose(0))) && Early(Step(s, RemoteClose(0)), 0)
  {
    StepKeeps(s, RemoteClose(0));
    assert [RemoteClose(0)][1..] == [];
    assert Run(Step(s, RemoteClose(0)), [], Step(s, RemoteClose(0)));
  }

  lemma RunFrom(s: State, e: Event, es: seq<Event>, t: State)
    requires Inv(s) && Enabled(s, e) && Inv(Step(s, e)) && Run(Step(s, e), es, t)
    ensures Run(s, [e] + es, t)
  {
    assert ([e] + es)[1..] == es;
  }

  /** One event in answer, as a run. */
  lemma OneStep(s: State, e: Event) returns (t: State)
    requires Inv(s) && NoneEarly(s) && Enabled(s, e) && InAnswer(s, e)
    ensures t == Step(s, e) && Run(s, [e], t) && Inv(t) && NoneEarly(t)
    ensures ToCome(t) == ToCome(s) - if Productive(s, e) then 1 else 0
  {
    StepKeeps(s, e);
    AnswerKeeps(s, e);
    ProductiveStep(s, e);
    t := Step(s, e);
    assert Run(t, [], t);
    RunFrom(s, e, [], t);
    assert [e] + [] == [e];
  }

  /** What moves a run on: the answer awaited, or credit and then the fragment. */
  lemma MovesOn(s: State) returns (es: seq<Event>, t: State)
    requires Inv(s) && NoneEarly(s) && !s.stop
    ensures Run(s, es, t) && Inv(t) && NoneEarly(t) && ToCome(t) == ToCome(s) - 1
  {
    var i := WaitedFor(s);
    if s.closing {
      t := OneStep(s, RemoteClose(i));
      es := [RemoteClose(i)];
    } else {
      var m := OneStep(s, Credit(i, 1));
      t := OneStep(m, Flow(i));
      RunFrom(s, Credit(i, 1), [Flow(i)], t);
      es := [Credit(i, 1)] + [Flow(i)];
    }
  }

  lemma {:induction false} RunsJoin(s: State, es: seq<Event>, t: State, fs: seq<Event>, u: State)
    requires Inv(s) && Run(s, es, t) && Inv(t) && Run(t, fs, u)
    ensures Run(s, es + fs, u)
    decreases |es|
  {
    if es == [] {
      assert es + fs == fs;
    } else {
      StepKeeps(s, es[0]);
      RunsJoin(Step(s, es[0]), es[1..], t, fs, u);
      RunFrom(s, es[0], es[1..] + fs, u);
      assert es + fs == [es[0]] + (es[1..] + fs);
    }
  }

  lemma {:induction false} StoppingRun(s: State) returns (es: seq<Event>, t: State)
    requires Inv(s) && NoneEarly(s)
    ensures Run(s, es, t) && t.stop
    decreases ToCome(s)
  {
    ToComeWhileRunning(s);
    if s.stop {
      es, t := [], s;
    } else {
      var first, m := MovesOn(s);
      var rest;
      rest, t := StoppingRun(m);
      RunsJoin(s, first, m, rest, t);
      es := first + rest;
    }
  }

  ghost predicate CanStop(s: State)
    requires Inv(s)
  {
    exists es, t :: Run(s, es, t) && t.stop
  }

  /** A run can still come to its stop if and only if no close has come early. */
  lemma CanStopExactly(s: State)
    requires Inv(s)
    ensures CanStop(s) <==> NoneEarly(s)
  {
    if NoneEarly(s) {
      var es, t := StoppingRun(s);
      assert CanStop(s);
    } else {
      var i :| 0 <= i < |s.links| && s.links[i].remoteClosed && !s.links[i].freed;
      forall es, t | Run(s, es, t)
        ensures !t.stop
      {
        EarlyCloseNeverStops(s, es, t, i);
      }
    }
  }

  lemma {:induction false} FindLive(links: seq<Link>) returns (i: nat)
    requires Live(links) > 0
    ensures i < |links| && !links[i].freed
  {
    if !links[0].freed {
      i := 0;
    } else {
      i := FindLive(links[1..]);
      i := i + 1;
    }
  }

  lemma {:induction false} FindIdle(links: seq<Link>) returns (i: nat)
    requires Started(links) < |links|
    ensures i < |links| && !links[i].started
  {
    if !links[0].started {
      i := 0;
    } else {
      i := FindIdle(links[1..]);
      i := i + 1;
    }
  }

  // ------------------------------------------------------- names over a run

  /** Cycle by cycle, counting down. */
  ghost predicate NamesByCycle(s: State, first: nat) {
    && s.repeatCount <= first
    && |s.created| == first - s.repeatCount + (if s.stop then 0 else 1)
    && forall j :: 0 <= j < |s.created| ==> s.created[j] == CycleNames(first - j, s.linkLimit)
  }

  lemma {:induction false} RunNames(s: State, es: seq<Event>, t: State, first: nat)
    requires Inv(s) && NamesByCycle(s, first) && Run(s, es, t)
    ensures NamesByCycle(t, first) && t.linkLimit == s.linkLimit
    decreases |es|
  {
    if es != [] {
      StepKeeps(s, es[0]);
      if es[0].RemoteClose? {
        AssertsHold(s, es[0].i);
      }
      RunNames(Step(s, es[0]), es[1..], t, first);
    }
  }

  /** Over a whole run, every link ever created has a name of its own. */
  lemma AllNamesDiffer(s: State, es: seq<Event>, t: State, j: nat, i: nat, j': nat, i': nat)
    requires Initial(s) && Run(s, es, t)
    requires j < |t.created| && j' < |t.created| && i < s.linkLimit && i' < s.linkLimit && (j != j' || i != i')
    ensures |t.created[j]| == |t.created[j']| == s.linkLimit
    ensures t.created[j][i] != t.created[j'][i']
  {
    RunNames(s, es, t, s.repeatCount);
    var a, b := s.repeatCount - j, s.repeatCount - j';
    assert t.created[j][i] == LinkName(a, i) && t.created[j'][i'] == LinkName(b, i');
    if LinkName(a, i) == LinkName(b, i') {
      NamesDiffer(a, i, b, i');
    }
  }
}
