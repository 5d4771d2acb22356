/**
 Streams that are opened again: when that can leak a connection.

 A connection leaks when it is open, its loop runs, and neither the map nor anyone about to close it
 still knows it. Opening a stream is safe exactly if no connection of the stream is before its own
 removal from the map; the invariant of `StreamForwarder` covers the safe direction, and an explicit
 interleaving leads from every other state to a leak.
 */
module StreamReopening {
  import opened Options
  import opened StreamForwarder

  /** Open connections are exactly those the map points to. */
  ghost predicate NoLeak(s: State) {
    forall c :: c in s.conns ==> (s.conns[c].open <==> Holds(s, c))
  }

  /** Every quiet state that an orderly continuation reaches has exactly the mapped connections open. */
  ghost predicate NeverLeaks(s: State) {
    forall more :: OrderlyRun(s, more) && Quiet(Run(s, more)) ==> NoLeak(Run(s, more))
  }

  lemma QuietNoLeak(s: State)
    requires Inv(s) && Quiet(s)
    ensures NoLeak(s)
  {
    hide ConnOk;
    forall c | c in s.conns
      ensures s.conns[c].open <==> Holds(s, c)
    {
      QuietConn(s, c);
    }
  }

  lemma InvNeverLeaks(s: State)
    requires Inv(s)
    ensures NeverLeaks(s)
  {
    hide Run, OrderlyRun, Inv, Quiet, NoLeak;
    forall more | OrderlyRun(s, more) && Quiet(Run(s, more))
      ensures NoLeak(Run(s, more))
    {
      RunKeepsInv(s, more);
      QuietNoLeak(Run(s, more));
    }
  }

  // ---------------------------------------------------------------- a leaked connection

  /** Open and copying, but out of the map, and nobody is about to close it. */
  ghost predicate Leaked(s: State, x: nat) {
    && x in s.conns && s.conns[x].phase == Copying && s.conns[x].open
    && x !in s.sockets.Values && !Doomed(s, x)
  }

  lemma OthersLeaveItLeaked(s: State, e: Event, x: nat, d: nat)
    requires Leaked(s, x) && d in s.conns && d != x && Owner(e) == Some(d)
    ensures Leaked(OwnerStep(s, d, e), x)
  {
    var s' := OwnerStep(s, d, e);
    assert forall e' :: e' != d ==> Dooms(s', e', x) == Dooms(s, e', x);
    assert !Dooms(s, d, x);
    assert Lookup(s, s.conns[d].stream) != Some(x);
    assert !Dooms(s', d, x);
  }

  /** Nothing but its own loop ever ends a leaked connection. */
  lemma LeakedStays(s: State, e: Event, x: nat)
    requires Leaked(s, x) && Owner(e) != Some(x)
    ensures Leaked(Step(s, e), x)
  {
    hide OwnerStep;
    var s' := Step(s, e);
    if Owner(e).Some? {
      if e.conn in s.conns {
        OthersLeaveItLeaked(s, e, x, e.conn);
      }
    } else {
      assert forall e' :: Dooms(s', e', x) == Dooms(s, e', x);
    }
  }

  // ---------------------------------------------------------------- letting everything else come to rest

  /** Steps that bring a connection to its end from wherever its owner is; those out of turn have no effect. */
  function StepsToEnd(c: nat): seq<Event> {
    [Put(c), SendOpen(c, true), AbandonRemove(c), SendData(c, false), Read(c, [], true),
     EndRemove(c), SendClose(c), CloseLocal(c), FailRemove(c), FailClose(c)]
  }

  /** The first of those steps that the owner still has to take. */
  function Rank(p: Phase): nat {
    match p
    case Dialed => 0
    case Opening => 1
    case Abandoning => 2
    case Sending(_, _) => 3
    case Copying => 4
    case Ending => 5
    case Notifying => 6
    case AbandonClosing => 7
    case EndClosing => 7
    case Failing => 8
    case FailClosing(_) => 9
    case Finished => 10
  }

  lemma EndingStep(s: State, c: nat, i: nat)
    requires c in s.conns && i < 10 && Rank(s.conns[c].phase) >= i
    ensures var s' := Step(s, StepsToEnd(c)[i]);
            s'.conns.Keys == s.conns.Keys && Rank(s'.conns[c].phase) >= i + 1
  {
  }

  lemma FinishedStays(s: State, e: Event, d: nat)
    requires d in s.conns && s.conns[d].phase == Finished
    ensures d in Step(s, e).conns && Step(s, e).conns[d].phase == Finished
  {
  }

  /** What letting others come to rest keeps. */
  ghost predicate Settles(s: State, s': State, x: nat) {
    && Leaked(s', x) && s'.conns.Keys == s.conns.Keys
    && forall d :: d in s.conns && s.conns[d].phase == Finished ==> s'.conns[d].phase == Finished
  }

  lemma {:induction false} EndingFinishes(s: State, c: nat, i: nat, x: nat)
    requires c in s.conns && i <= 10 && Rank(s.conns[c].phase) >= i && Leaked(s, x) && x != c
    ensures var s' := Run(s, StepsToEnd(c)[i..]);
            Settles(s, s', x) && s'.conns[c].phase == Finished
    decreases 10 - i
  {
    hide Step, Leaked;
    if i < 10 {
      var e := StepsToEnd(c)[i];
      var s1 := Step(s, e);
      assert Owner(e) == Some(c);
      EndingStep(s, c, i);
      LeakedStays(s, e, x);
      forall d | d in s.conns && s.conns[d].phase == Finished
        ensures s1.conns[d].phase == Finished
      {
        FinishedStays(s, e, d);
      }
      EndingFinishes(s1, c, i + 1, x);
      assert StepsToEnd(c)[i..][1..] == StepsToEnd(c)[i + 1..];
    } else {
      assert StepsToEnd(c)[10..] == [];
    }
  }

  function Endings(order: seq<nat>): seq<Event> {
    if order == [] then [] else StepsToEnd(order[0]) + Endings(order[1..])
  }

  lemma {:induction false} RunConcat(s: State, a: seq<Event>, b: seq<Event>)
    ensures Run(s, a + b) == Run(Run(s, a), b)
    decreases |a|
  {
    hide Step;
    if a == [] {
      assert a + b == b;
    } else {
      assert (a + b)[1..] == a[1..] + b;
      RunConcat(Step(s, a[0]), a[1..], b);
    }
  }

  lemma {:induction false} EndingsFinish(s: State, order: seq<nat>, x: nat)
    requires Leaked(s, x) && x !in order && forall c :: c in order ==> c in s.conns
    ensures var s' := Run(s, Endings(order));
            Settles(s, s', x) && forall c :: c in order ==> s'.conns[c].phase == Finished
    decreases |order|
  {
    hide Run, Step, Leaked, StepsToEnd;
    if order == [] {
      RunNothing(s);
    } else {
      var s1 := Run(s, StepsToEnd(order[0]));
      StepsToEndWhole(order[0]);
      EndingFinishes(s, order[0], 0, x);
      EndingsFinish(s1, order[1..], x);
      RunConcat(s, StepsToEnd(order[0]), Endings(order[1..]));
      assert order == [order[0]] + order[1..];
    }
  }

  lemma StepsToEndWhole(c: nat)
    ensures StepsToEnd(c)[0..] == StepsToEnd(c)
  {
  }

  lemma {:induction false} SetAsSeq(xs: set<nat>) returns (order: seq<nat>)
    ensures forall x :: x in order <==> x in xs
    decreases |xs|
  {
    if xs == {} {
      order := [];
    } else {
      var x :| x in xs;
      var rest := SetAsSeq(xs - {x});
      order := [x] + rest;
    }
  }

  predicate NoDials(events: seq<Event>) {
    forall i :: 0 <= i < |events| ==> !events[i].Dial?
  }

  lemma {:induction false} EndingsDialNothing(order: seq<nat>)
    ensures NoDials(Endings(order))
  {
    if order != [] {
      EndingsDialNothing(order[1..]);
    }
  }

  /** From any state with a leaked connection everything else can come to rest and leave it leaked. */
  lemma LeakedReachesQuiet(s: State, x: nat) returns (more: seq<Event>)
    requires Leaked(s, x)
    ensures NoDials(more) && Quiet(Run(s, more)) && Leaked(Run(s, more), x)
  {
    hide Run, Step;
    var others := SetAsSeq(s.conns.Keys - {x});
    EndingsFinish(s, others, x);
    EndingsDialNothing(others);
    var s1 := Run(s, Endings(others));
    var doomed := SetAsSeq(s1.closing);
    ClosingsComeToAllClosed(s1, doomed);
    RunConcat(s, Endings(others), Closings(doomed));
    more := Endings(others) + Closings(doomed);
    AllClosedKeeps(s1, x);
    forall c | c in s1.conns && c != x
      ensures s1.conns[c].phase == Finished
    {
      assert c in others;
    }
  }

  lemma AllClosedKeeps(s: State, x: nat)
    requires Leaked(s, x)
    ensures Leaked(AllClosed(s), x)
    ensures AllClosed(s).conns.Keys == s.conns.Keys && AllClosed(s).closing == {}
    ensures forall c :: c in s.conns ==> AllClosed(s).conns[c].phase == s.conns[c].phase
  {
    assert forall e :: Dooms(AllClosed(s), e, x) == Dooms(s, e, x);
  }

  lemma LeakedIsLeak(s: State, x: nat)
    requires Leaked(s, x)
    ensures !NoLeak(s)
  {
    assert !Holds(s, x);
  }

  // ---------------------------------------------------------------- leaks from every unsafe state

  /** The map points to the new connection `d`, while the owner of the old one, `c`, is before its removal. */
  ghost predicate Exposed(s: State, c: nat, d: nat) {
    && c in s.conns && d in s.conns && c != d && s.conns[c].stream == s.conns[d].stream
    && s.conns[d].phase == Copying && s.conns[d].open && !Doomed(s, d)
    && (forall st :: st in s.sockets && s.sockets[st] == d ==> st == s.conns[d].stream)
    && 1 <= Rank(s.conns[c].phase) <= 5
  }

  lemma ExposedStep(s: State, c: nat, d: nat, i: nat)
    requires Exposed(s, c, d) && 1 <= i <= 5 && Rank(s.conns[c].phase) >= i
    ensures var s' := Step(s, StepsToEnd(c)[i]);
            Leaked(s', d) || (Exposed(s', c, d) && Rank(s'.conns[c].phase) >= i + 1)
  {
    var e := StepsToEnd(c)[i];
    var s' := Step(s, e);
    assert e.conn == c;
    assert forall e' :: Dooms(s', e', d) == Dooms(s, e', d);
    EndingStep(s, c, i);
  }

  /** The old owner's removal takes the new connection out of the map and leaves it open. */
  lemma {:induction false} ExposedLeaks(s: State, c: nat, d: nat, i: nat)
    requires c != d && 1 <= i <= 6
    requires Leaked(s, d) || (Exposed(s, c, d) && Rank(s.conns[c].phase) >= i)
    ensures Leaked(Run(s, StepsToEnd(c)[i..6]), d)
    decreases 6 - i
  {
    hide Step, Leaked, Doomed;
    if i < 6 {
      var e := StepsToEnd(c)[i];
      if Leaked(s, d) {
        LeakedStays(s, e, d);
      } else {
        ExposedStep(s, c, d, i);
      }
      assert StepsToEnd(c)[i..6][1..] == StepsToEnd(c)[i + 1..6];
      ExposedLeaks(Step(s, e), c, d, i + 1);
    } else {
      assert StepsToEnd(c)[6..6] == [];
    }
  }

  /** The new connection is dialled; the old one's owner is before its removal and past its dial. */
  ghost predicate Facing(s: State, c: nat, d: nat) {
    && c in s.conns && d in s.conns && c != d && s.conns[c].stream == s.conns[d].stream
    && s.conns[d].phase == Dialed && s.conns[d].open && d !in s.sockets.Values && !Doomed(s, d)
    && 1 <= Rank(s.conns[c].phase) <= 5
  }

  /** An old connection that is only dialled is put into the map before the new one. */
  lemma OldOneFirst(s: State, c: nat, d: nat)
    requires Inv(s) && c in s.conns && Ahead(s.conns[c].phase) && d !in s.conns
    ensures Facing(Step(Step(s, Dial(d, s.conns[c].stream)), Put(c)), c, d)
  {
    hide ConnsOk, OneAhead, SoleHolder;
    var s1 := Step(s, Dial(d, s.conns[c].stream));
    var s2 := Step(s1, Put(c));
    assert forall e :: Dooms(s2, e, d) == Dooms(s, e, d);
  }

  lemma NewOneNext(s: State, c: nat, d: nat)
    requires Facing(s, c, d)
    ensures Exposed(Step(Step(s, Put(d)), SendOpen(d, false)), c, d)
  {
    var s2 := Step(Step(s, Put(d)), SendOpen(d, false));
    assert forall e :: Dooms(s2, e, d) == Dooms(s, e, d);
    assert s2.conns[c].phase == s.conns[c].phase;
  }

  function LeakingSteps(c: nat, d: nat): seq<Event> {
    [Put(c), Put(d), SendOpen(d, false)] + StepsToEnd(c)[1..6]
  }

  /** Opening a stream while a connection of it is before its own removal can leak the new connection: the old
      owner takes it out of the map, reports the stream closed, and the new one stays open and unreachable. */
  lemma ReopenLeaks(s: State, c: nat, d: nat)
    requires Inv(s) && c in s.conns && Ahead(s.conns[c].phase) && d !in s.conns
    ensures var s' := Step(s, Dial(d, s.conns[c].stream));
            && OrderlyRun(s', LeakingSteps(c, d))
            && Leaked(Run(s', LeakingSteps(c, d)), d)
            && !NeverLeaks(s')
  {
    hide Run, Step, OrderlyRun, NeverLeaks, Leaked, Inv;
    var s1 := Step(s, Dial(d, s.conns[c].stream));
    OldOneFirst(s, c, d);
    var s2 := Step(s1, Put(c));
    NewOneNext(s2, c, d);
    var s4 := Step(Step(s2, Put(d)), SendOpen(d, false));
    ExposedLeaks(s4, c, d, 1);
    RunThree(s1, LeakingSteps(c, d));
    assert LeakingSteps(c, d)[3..] == StepsToEnd(c)[1..6];
    WithoutDialsOrderly(s1, LeakingSteps(c, d));
    LeakOfContinuation(s1, LeakingSteps(c, d), d);
  }

  lemma {:induction false} OrderlyConcat(s: State, a: seq<Event>, b: seq<Event>)
    requires OrderlyRun(s, a)
    ensures OrderlyRun(s, a + b) <==> OrderlyRun(Run(s, a), b)
    decreases |a|
  {
    hide Step, Orderly;
    if a == [] {
      assert a + b == b;
    } else {
      assert (a + b)[1..] == a[1..] + b;
      OrderlyConcat(Step(s, a[0]), a[1..], b);
    }
  }

  lemma LeakOfContinuation(s: State, events: seq<Event>, x: nat)
    requires OrderlyRun(s, events) && Leaked(Run(s, events), x)
    ensures !NeverLeaks(s)
  {
    hide Run, OrderlyRun, Quiet, Leaked, NoLeak;
    var s' := Run(s, events);
    var more := LeakedReachesQuiet(s', x);
    WithoutDialsOrderly(s', more);
    OrderlyConcat(s, events, more);
    RunConcat(s, events, more);
    LeakedIsLeak(Run(s, events + more), x);
  }

  // ---------------------------------------------------------------- the exact condition

  /** In every state an orderly run reaches, whatever is going on there, opening a stream can never leak a
      connection exactly if no connection of the stream is before its own removal. */
  lemma OpeningNeverLeaksIff(events: seq<Event>, stream: nat, d: nat)
    requires OrderlyRun(IDLE, events) && d !in Run(IDLE, events).conns
    ensures NeverLeaks(Step(Run(IDLE, events), Dial(d, stream))) <==> NoneAhead(Run(IDLE, events), stream)
  {
    hide Run, Step, OrderlyRun, Inv, NeverLeaks;
    IdleInv();
    RunKeepsInv(IDLE, events);
    var s := Run(IDLE, events);
    DialNeverLeaksIff(s, stream, d);
  }

  lemma DialNeverLeaksIff(s: State, stream: nat, d: nat)
    requires Inv(s) && d !in s.conns
    ensures NeverLeaks(Step(s, Dial(d, stream))) <==> NoneAhead(s, stream)
  {
    hide Run, Step, OrderlyRun, Inv, NeverLeaks;
    if NoneAhead(s, stream) {
      StepKeepsInv(s, Dial(d, stream));
      InvNeverLeaks(Step(s, Dial(d, stream)));
    } else {
      var c :| c in s.conns && s.conns[c].stream == stream && Ahead(s.conns[c].phase);
      ReopenLeaks(s, c, d);
    }
  }

  /** No step of the run makes a leak possible. */
  ghost predicate AlwaysSafe(s: State, events: seq<Event>)
    decreases |events|
  {
    NeverLeaks(s) && (events != [] ==> AlwaysSafe(Step(s, events[0]), events[1..]))
  }

  /** The orderly runs are exactly those in which no step makes a leak possible. */
  lemma {:induction false} OrderlyIffAlwaysSafe(s: State, events: seq<Event>)
    requires Inv(s)
    ensures OrderlyRun(s, events) <==> AlwaysSafe(s, events)
    decreases |events|
  {
    hide Inv, Step, NeverLeaks;
    InvNeverLeaks(s);
    if events != [] {
      var e := events[0];
      if Orderly(s, e) {
        StepKeepsInv(s, e);
        OrderlyIffAlwaysSafe(Step(s, e), events[1..]);
      } else {
        DialNeverLeaksIff(s, e.stream, e.conn);
      }
    }
  }

  // ---------------------------------------------------------------- open, close, open

  function OpenThenClose(stream: nat): seq<Event> {
    [Dial(0, stream), Put(0), SendOpen(0, false), HandlerRemove(stream), HandlerClose(0)]
  }

  lemma OpenThenCloseReaches(stream: nat)
    ensures Run(IDLE, OpenThenClose(stream)) == State(map[], map[0 := Conn(stream, Copying, false, [], [], 0)], {})
  {
    hide Run;
    var es := OpenThenClose(stream);
    RunThree(IDLE, es);
    RaceOpens(stream);
    var s := State(map[stream := 0], map[0 := Conn(stream, Copying, true, [], [], 0)], {});
    assert map[stream := 0] - {stream} == map[];
    var s4 := State(map[], map[0 := Conn(stream, Copying, true, [], [], 0)], {0});
    assert Step(s, HandlerRemove(stream)) == s4;
    assert es[3..] == [HandlerRemove(stream), HandlerClose(0)];
    RunTwo(s, HandlerRemove(stream), HandlerClose(0));
  }

  lemma RunTwo(s: State, a: Event, b: Event)
    ensures Run(s, [a, b]) == Step(Step(s, a), b)
  {
    hide Step;
    assert [a, b][1..] == [b] && [b][1..] == [];
    assert Run(Step(Step(s, a), b), []) == Step(Step(s, a), b);
  }

  /** The broker need not open a live stream twice: OPEN, CLOSE and OPEN again suffice. The broker's CLOSE is
      fully handled and the map holds nothing, but the old loop has not woken up. */
  lemma OpenCloseOpenLeaks(stream: nat)
    ensures var s := Run(IDLE, OpenThenClose(stream));
            && OrderlyRun(IDLE, OpenThenClose(stream))
            && stream !in s.sockets && s.closing == {}
            && !NeverLeaks(Step(s, Dial(1, stream)))
  {
    hide Run, Step, OrderlyRun, NeverLeaks, Inv;
    var es := OpenThenClose(stream);
    OpenThenCloseReaches(stream);
    OnlyFirstDials(stream);
    OpeningNeverLeaksIff(es, stream, 1);
    assert Run(IDLE, es).conns[0].stream == stream && Ahead(Run(IDLE, es).conns[0].phase);
  }

  lemma OnlyFirstDials(stream: nat)
    ensures OrderlyRun(IDLE, OpenThenClose(stream))
  {
    hide Step, Orderly;
    var es := OpenThenClose(stream);
    FirstDialIsOrderly(stream);
    WithoutDialsOrderly(Step(IDLE, es[0]), es[1..]);
  }
}
