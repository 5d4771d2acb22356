/**
 The tunnel agent's stream forwarder.

 Each opened stream has a local connection with its own copy loop. The loops, the frame handlers
 and `DestroyAll` share one map from stream id to connection. `Step` is one locked section, one
 read, one send or one close of any of them, so `Run` over an arbitrary sequence of events is an
 arbitrary interleaving. `Forwarder` holds the uninterrupted code, built from the same steps.
 */
module StreamForwarder {
  import opened Options

  type Data = seq<bv8>

  /** Where the code that owns a connection is: the rest of HandleOpen, then the copy loop. */
  datatype Phase =
    | Dialed
    | Opening
    | Abandoning
    | AbandonClosing
    | Copying
    | Sending(chunk: Data, ended: bool)
    | Failing
    | FailClosing(target: Option<nat>)
    | Ending
    | Notifying
    | EndClosing
    | Finished

  /** `read` is what the local side delivered, `sent` what went out in DATA frames, and `closes` counts
      the CLOSE frames sent for this connection. */
  datatype Conn = Conn(stream: nat, phase: Phase, open: bool, read: Data, sent: Data, closes: nat)

  /** `closing` holds the connections that a handler took out of the map and has yet to close. */
  datatype State = State(sockets: map<nat, nat>, conns: map<nat, Conn>, closing: set<nat>)

  const IDLE := State(map[], map[], {})

  datatype Event =
    | Dial(conn: nat, stream: nat)
    | Put(conn: nat)
    | SendOpen(conn: nat, fails: bool)
    | AbandonRemove(conn: nat)
    | Read(conn: nat, chunk: Data, ended: bool)
    | SendData(conn: nat, fails: bool)
    | FailRemove(conn: nat)
    | FailClose(conn: nat)
    | EndRemove(conn: nat)
    | SendClose(conn: nat)
    | CloseLocal(conn: nat)
    | HandlerRemove(stream: nat)
    | HandlerClose(conn: nat)
    | Destroy

  predicate Holds(s: State, c: nat) {
    c in s.conns && s.conns[c].stream in s.sockets && s.sockets[s.conns[c].stream] == c
  }

  function WithPhase(s: State, c: nat, phase: Phase): State
    requires c in s.conns
  {
    s.(conns := s.conns[c := s.conns[c].(phase := phase)])
  }

  function Remove(s: State, stream: nat): State {
    s.(sockets := s.sockets - {stream})
  }

  function Closed(s: State, c: nat): State {
    if c in s.conns then s.(conns := s.conns[c := s.conns[c].(open := false)]) else s
  }

  function Lookup(s: State, stream: nat): Option<nat> {
    if stream in s.sockets then Some(s.sockets[stream]) else None
  }

  /** The connection whose owner takes the step; the handlers own none. */
  function Owner(e: Event): Option<nat> {
    if e.Dial? || e.HandlerRemove? || e.HandlerClose? || e.Destroy? then None else Some(e.conn)
  }

  /** A step of the code that owns connection `c`. */
  function OwnerStep(s: State, c: nat, e: Event): State
    requires c in s.conns
  {
    var k := s.conns[c];
    match e
    case Put(_) =>
      if k.phase != Dialed then s
      else
        var s' := if k.stream in s.sockets then Closed(s, s.sockets[k.stream]) else s;
        WithPhase(s'.(sockets := s.sockets[k.stream := c]), c, Opening)
    case SendOpen(_, fails) =>
      if k.phase != Opening then s else WithPhase(s, c, if fails then Abandoning else Copying)
    case AbandonRemove(_) =>
      if k.phase != Abandoning then s else WithPhase(Remove(s, k.stream), c, AbandonClosing)
    case Read(_, chunk, ended) =>
      if k.phase != Copying || (!k.open && !(chunk == [] && ended)) then s
      else if chunk == [] then (if ended then WithPhase(s, c, Ending) else s)
      else s.(conns := s.conns[c := k.(phase := Sending(chunk, ended), read := k.read + chunk)])
    case SendData(_, fails) =>
      if !k.phase.Sending? then s
      else if fails then WithPhase(s, c, Failing)
      else s.(conns := s.conns[c := k.(phase := if k.phase.ended then Ending else Copying,
          sent := k.sent + k.phase.chunk)])
    case FailRemove(_) =>
      if k.phase != Failing then s else WithPhase(Remove(s, k.stream), c, FailClosing(Lookup(s, k.stream)))
    case FailClose(_) =>
      if !k.phase.FailClosing? then s
      else WithPhase(if k.phase.target.Some? then Closed(s, k.phase.target.value) else s, c, Finished)
    case EndRemove(_) =>
      if k.phase != Ending then s
      else WithPhase(Remove(s, k.stream), c, if k.stream in s.sockets then Notifying else EndClosing)
    case SendClose(_) =>
      if k.phase != Notifying then s
      else s.(conns := s.conns[c := k.(phase := EndClosing, closes := k.closes + 1)])
    case CloseLocal(_) =>
      if k.phase != AbandonClosing && k.phase != EndClosing then s
      else s.(conns := s.conns[c := k.(phase := Finished, open := false)])
    case Dial(_, _) => s
    case HandlerRemove(_) => s
    case HandlerClose(_) => s
    case Destroy => s
  }

  function Step(s: State, e: Event): State {
    match e
    case Dial(c, stream) =>
      if c in s.conns then s else s.(conns := s.conns[c := Conn(stream, Dialed, true, [], [], 0)])
    case HandlerRemove(stream) =>
      if stream !in s.sockets then s else Remove(s, stream).(closing := s.closing + {s.sockets[stream]})
    case HandlerClose(c) =>
      if c !in s.closing then s else Closed(s, c).(closing := s.closing - {c})
    case Destroy => s.(sockets := map[], closing := s.closing + s.sockets.Values)
    case _ => if e.conn in s.conns then OwnerStep(s, e.conn, e) else s
  }

  function Run(s: State, events: seq<Event>): State
    decreases |events|
  {
    if events == [] then s else Run(Step(s, events[0]), events[1..])
  }

  /** The code that owns the connection has yet to take its stream out of the map and would not close what it
      takes out. */
  predicate Ahead(p: Phase) {
    p.Dialed? || p.Opening? || p.Abandoning? || p.Copying? || p.Sending? || p.Ending?
  }

  /** No connection of the stream is still before its own removal. */
  ghost predicate NoneAhead(s: State, stream: nat) {
    forall c :: c in s.conns && s.conns[c].stream == stream ==> !Ahead(s.conns[c].phase)
  }

  /** No stream id is opened again while a connection of it is still before its own removal. */
  ghost predicate Orderly(s: State, e: Event) {
    e.Dial? && e.conn !in s.conns ==> NoneAhead(s, e.stream)
  }

  ghost predicate OrderlyRun(s: State, events: seq<Event>)
    decreases |events|
  {
    events != [] ==> Orderly(s, events[0]) && OrderlyRun(Step(s, events[0]), events[1..])
  }

  // ---------------------------------------------------------------- the invariant

  ghost predicate Dooms(s: State, e: nat, c: nat) {
    e in s.conns && s.conns[e].phase == FailClosing(Some(c))
  }

  /** A handler, or a loop whose send failed, is about to close the connection. */
  ghost predicate Doomed(s: State, c: nat) {
    c in s.closing || exists e :: Dooms(s, e, c)
  }

  /** `held`: the map points to the connection. `doomed`: someone is about to close it. */
  ghost predicate ConnOk(k: Conn, held: bool, doomed: bool) {
    && (held ==> k.open && !doomed)
    && k.closes <= (if k.phase.EndClosing? || k.phase.Finished? then 1 else 0)
    && k.sent <= k.read
    && (k.closes == 1 ==> k.sent == k.read)
    && match k.phase
       case Dialed => k.open && !held && !doomed && k.sent == k.read
       case Opening => (held || doomed || !k.open) && k.sent == k.read
       case Abandoning => held || doomed || !k.open
       case AbandonClosing => !held
       case Copying => (held || doomed || !k.open) && k.sent == k.read
       case Sending(chunk, _) => (held || doomed || !k.open) && k.sent + chunk == k.read
       case Failing => held || doomed || !k.open
       case FailClosing(_) => !held && (doomed || !k.open)
       case Ending => (held || doomed || !k.open) && k.sent == k.read
       case Notifying => !held && k.sent == k.read
       case EndClosing => !held
       case Finished => !held && (doomed || !k.open)
  }

  ghost predicate ConnsOk(s: State) {
    forall c :: c in s.conns ==> ConnOk(s.conns[c], Holds(s, c), Doomed(s, c))
  }

  ghost predicate MapOk(s: State) {
    && (forall st :: st in s.sockets ==> s.sockets[st] in s.conns && s.conns[s.sockets[st]].stream == st)
    && (forall c :: c in s.closing ==> c in s.conns)
    && (forall e, c :: Dooms(s, e, c) ==> c in s.conns)
  }

  /** At most one connection of a stream is before its own removal. */
  ghost predicate OneAhead(s: State) {
    forall c, d :: c in s.conns && d in s.conns && c != d && s.conns[c].stream == s.conns[d].stream ==>
      !Ahead(s.conns[c].phase) || !Ahead(s.conns[d].phase)
  }

  /** Once put into the map it is the only one the map may point to. */
  ghost predicate SoleHolder(s: State) {
    forall c :: c in s.conns && Ahead(s.conns[c].phase) && !s.conns[c].phase.Dialed? ==>
      s.conns[c].stream in s.sockets ==> Holds(s, c)
  }

  ghost predicate Inv(s: State) {
    ConnsOk(s) && MapOk(s) && OneAhead(s) && SoleHolder(s)
  }

  lemma OwnConnOk(s: State, c: nat)
    requires Inv(s) && c in s.conns
    ensures ConnOk(s.conns[c], Holds(s, c), Doomed(s, c))
  {
    hide ConnOk, Doomed;
  }

  lemma HeldThenDoomed(k: Conn)
    requires ConnOk(k, true, false)
    ensures ConnOk(k, false, true)
  {
  }

  lemma HeldThenClosed(k: Conn)
    requires ConnOk(k, true, false)
    ensures ConnOk(k.(open := false), false, false)
  {
  }

  lemma DoomedThenClosed(k: Conn, held: bool, doomed: bool)
    requires ConnOk(k, held, true)
    ensures !held && ConnOk(k.(open := false), held, doomed)
  {
  }

  lemma HeldIsNotDoomed(s: State, d: nat)
    requires Inv(s) && Holds(s, d)
    ensures !Doomed(s, d) && d !in s.closing && s.conns[d].open && s.conns[d].phase != Finished
  {
    hide Doomed;
    OwnConnOk(s, d);
    assert d in s.closing ==> Doomed(s, d) by { InClosingIsDoomed(s, d); }
  }

  lemma InClosingIsDoomed(s: State, d: nat)
    ensures d in s.closing ==> Doomed(s, d)
  {
  }

  /** Nothing about who is doomed changes unless a loop starts or stops to be the one that closes. */
  lemma SameDoom(s: State, s': State, c: nat)
    requires s'.closing == s.closing && s'.conns.Keys == s.conns.Keys
    requires forall e :: e in s.conns && e != c ==> s'.conns[e].phase == s.conns[e].phase
    requires c in s.conns && !s.conns[c].phase.FailClosing? && !s'.conns[c].phase.FailClosing?
    ensures forall d :: Doomed(s', d) == Doomed(s, d)
    ensures forall e, d :: Dooms(s', e, d) == Dooms(s, e, d)
  {
    assert forall e, d :: Dooms(s', e, d) == Dooms(s, e, d);
  }

  // ---------------------------------------------------------------- steps keep it

  /** The owner changes its own connection and at most takes its own stream out of the map. */
  ghost predicate OwnChange(s: State, c: nat, k: Conn, sockets: map<nat, nat>) {
    && c in s.conns && k.stream == s.conns[c].stream
    && !s.conns[c].phase.FailClosing? && !k.phase.FailClosing?
    && (Ahead(k.phase) ==> Ahead(s.conns[c].phase) && !s.conns[c].phase.Dialed? && !k.phase.Dialed?)
    && (|| sockets == s.sockets
        || (sockets == s.sockets - {k.stream} && (k.stream in s.sockets ==> Holds(s, c))))
    && ConnOk(k, k.stream in sockets && sockets[k.stream] == c, Doomed(s, c))
  }

  lemma OwnChangeKeepsConns(s: State, c: nat, k: Conn, sockets: map<nat, nat>)
    requires Inv(s) && OwnChange(s, c, k, sockets)
    ensures ConnsOk(State(sockets, s.conns[c := k], s.closing))
  {
    hide ConnOk, MapOk, OneAhead, SoleHolder, Doomed;
    var s' := State(sockets, s.conns[c := k], s.closing);
    SameDoom(s, s', c);
    forall d | d in s'.conns
      ensures ConnOk(s'.conns[d], Holds(s', d), Doomed(s', d))
    {
      assert ConnOk(s.conns[d], Holds(s, d), Doomed(s, d));
      assert d != c ==> Holds(s', d) == Holds(s, d);
    }
  }

  lemma OwnChangeKeepsInv(s: State, c: nat, k: Conn, sockets: map<nat, nat>)
    requires Inv(s) && OwnChange(s, c, k, sockets)
    ensures Inv(State(sockets, s.conns[c := k], s.closing))
  {
    hide ConnOk, ConnsOk, Doomed, Dooms;
    OwnChangeKeepsConns(s, c, k, sockets);
    SameDoom(s, State(sockets, s.conns[c := k], s.closing), c);
  }

  /** The owner's change of its connection, with what the invariant gives for it. */
  ghost predicate IsOwnChange(s: State, c: nat, s': State)
    requires c in s.conns
  {
    && c in s'.conns && s'.conns == s.conns[c := s'.conns[c]] && s'.closing == s.closing
    && OwnChange(s, c, s'.conns[c], s'.sockets)
  }

  lemma SoleHolds(s: State, c: nat)
    requires Inv(s) && c in s.conns && Ahead(s.conns[c].phase) && !s.conns[c].phase.Dialed?
    requires s.conns[c].stream in s.sockets
    ensures Holds(s, c)
  {
    hide ConnsOk, MapOk, OneAhead;
  }

  lemma OpenStepIsOwn(s: State, c: nat, e: Event)
    requires Inv(s) && c in s.conns
    requires if e.SendOpen? then s.conns[c].phase.Opening? else e.AbandonRemove? && s.conns[c].phase.Abandoning?
    ensures IsOwnChange(s, c, OwnerStep(s, c, e))
  {
    hide ConnsOk, MapOk, OneAhead, SoleHolder, Doomed;
    OwnConnOk(s, c);
    if s.conns[c].stream in s.sockets {
      SoleHolds(s, c);
    }
  }

  lemma ReadStepIsOwn(s: State, c: nat, e: Event)
    requires Inv(s) && c in s.conns && e.Read? && s.conns[c].phase.Copying?
    ensures IsOwnChange(s, c, OwnerStep(s, c, e))
  {
    hide ConnsOk, MapOk, OneAhead, SoleHolder, Closed, Doomed;
    OwnConnOk(s, c);
  }

  lemma SendStepIsOwn(s: State, c: nat, e: Event)
    requires Inv(s) && c in s.conns && e.SendData? && s.conns[c].phase.Sending?
    ensures IsOwnChange(s, c, OwnerStep(s, c, e))
  {
    hide ConnsOk, MapOk, OneAhead, SoleHolder, Closed, Doomed;
    OwnConnOk(s, c);
  }

  lemma EndStepIsOwn(s: State, c: nat, e: Event)
    requires Inv(s) && c in s.conns
    requires || (e.EndRemove? && s.conns[c].phase.Ending?)
             || (e.SendClose? && s.conns[c].phase.Notifying?)
             || (e.CloseLocal? && (s.conns[c].phase.AbandonClosing? || s.conns[c].phase.EndClosing?))
    ensures IsOwnChange(s, c, OwnerStep(s, c, e))
  {
    hide ConnsOk, MapOk, OneAhead, SoleHolder, Closed, Doomed;
    OwnConnOk(s, c);
    if e.EndRemove? && s.conns[c].stream in s.sockets {
      SoleHolds(s, c);
    }
  }

  /** Putting a connection into the map closes the one the map pointed to, whose owner is already failing. */
  lemma PutKeepsConns(s: State, c: nat)
    requires Inv(s) && c in s.conns && s.conns[c].phase == Dialed
    ensures ConnsOk(OwnerStep(s, c, Put(c)))
  {
    hide ConnOk, Doomed, OneAhead, SoleHolder;
    var s' := OwnerStep(s, c, Put(c));
    var st := s.conns[c].stream;
    SameDoom(s, s', c);
    PutConnOk(s, c);
    forall d | d in s'.conns
      ensures ConnOk(s'.conns[d], Holds(s', d), Doomed(s', d))
    {
      OwnConnOk(s, d);
      if d != c && Holds(s, d) && s.conns[d].stream == st {
        HeldIsNotDoomed(s, d);
        HeldThenClosed(s.conns[d]);
      } else if d != c {
        assert Holds(s', d) == Holds(s, d);
      }
    }
  }

  lemma PutConnOk(s: State, c: nat)
    requires Inv(s) && c in s.conns && s.conns[c].phase == Dialed
    ensures !Holds(s, c) && !Doomed(s, c)
    ensures ConnOk(s.conns[c].(phase := Opening), true, false)
  {
    hide Doomed;
    OwnConnOk(s, c);
  }

  lemma PutKeepsAhead(s: State, c: nat)
    requires Inv(s) && c in s.conns && s.conns[c].phase == Dialed
    ensures OneAhead(OwnerStep(s, c, Put(c))) && SoleHolder(OwnerStep(s, c, Put(c)))
  {
    hide ConnOk, ConnsOk, Doomed, Dooms, MapOk;
  }

  lemma PutKeepsMap(s: State, c: nat)
    requires Inv(s) && c in s.conns && s.conns[c].phase == Dialed
    ensures MapOk(OwnerStep(s, c, Put(c)))
  {
    hide ConnOk, ConnsOk, Doomed, Dooms, OneAhead, SoleHolder;
    SameDoom(s, OwnerStep(s, c, Put(c)), c);
  }

  lemma PutKeepsInv(s: State, c: nat)
    requires Inv(s) && c in s.conns && s.conns[c].phase == Dialed
    ensures Inv(OwnerStep(s, c, Put(c)))
  {
    hide ConnsOk, OneAhead, SoleHolder, MapOk, OwnerStep;
    PutKeepsConns(s, c);
    PutKeepsAhead(s, c);
    PutKeepsMap(s, c);
  }

  /** A failing owner takes whatever the map holds for its stream and is from then on the one to close it. */
  lemma FailRemoveKeepsConns(s: State, c: nat)
    requires Inv(s) && c in s.conns && s.conns[c].phase == Failing
    ensures ConnsOk(OwnerStep(s, c, FailRemove(c)))
  {
    hide OneAhead, SoleHolder, ConnOk;
    var s' := OwnerStep(s, c, FailRemove(c));
    var st := s.conns[c].stream;
    forall d | d in s'.conns
      ensures ConnOk(s'.conns[d], Holds(s', d), Doomed(s', d))
    {
      OwnConnOk(s, d);
      assert forall e :: e != c ==> Dooms(s', e, d) == Dooms(s, e, d);
      assert !Dooms(s, c, d) && (Dooms(s', c, d) <==> Lookup(s, st) == Some(d));
      if Lookup(s, st) == Some(d) {
        assert Holds(s, d) && Doomed(s', d);
        HeldIsNotDoomed(s, d);
        HeldThenDoomed(s.conns[d]);
      } else {
        assert Doomed(s', d) == Doomed(s, d);
        assert Holds(s', d) == Holds(s, d);
      }
      FailingBecomes(s.conns[d], Lookup(s, st), Holds(s', d), Doomed(s', d));
    }
  }

  lemma FailingBecomes(k: Conn, target: Option<nat>, held: bool, doomed: bool)
    ensures k.phase == Failing && !held && ConnOk(k, held, doomed) ==>
            ConnOk(k.(phase := FailClosing(target)), held, doomed)
  {
  }

  lemma FailRemoveKeepsInv(s: State, c: nat)
    requires Inv(s) && c in s.conns && s.conns[c].phase == Failing
    ensures Inv(OwnerStep(s, c, FailRemove(c)))
  {
    hide ConnOk, ConnsOk, Doomed;
    FailRemoveKeepsConns(s, c);
    var s' := OwnerStep(s, c, FailRemove(c));
    forall e, d | Dooms(s', e, d)
      ensures d in s'.conns
    {
      assert e != c ==> Dooms(s, e, d);
    }
  }

  lemma FailCloseKeepsConns(s: State, c: nat)
    requires Inv(s) && c in s.conns && s.conns[c].phase.FailClosing?
    ensures ConnsOk(OwnerStep(s, c, FailClose(c)))
  {
    hide OneAhead, SoleHolder, ConnOk;
    var target := s.conns[c].phase.target;
    var s' := OwnerStep(s, c, FailClose(c));
    assert target.Some? ==> Dooms(s, c, target.value);
    forall d | d in s'.conns
      ensures ConnOk(s'.conns[d], Holds(s', d), Doomed(s', d))
    {
      OwnConnOk(s, d);
      assert forall e :: e != c ==> Dooms(s', e, d) == Dooms(s, e, d);
      assert !Dooms(s', c, d) && (Dooms(s, c, d) <==> target == Some(d));
      assert Holds(s', d) == Holds(s, d);
      if target == Some(d) {
        DoomedThenClosed(s.conns[d], Holds(s, d), Doomed(s', d));
        FinishedOnceClosed(s.conns[d].(open := false), Holds(s, d), Doomed(s', d));
      } else {
        assert Doomed(s', d) == Doomed(s, d);
        FinishedOnceClosed(s.conns[d], Holds(s, d), Doomed(s', d));
      }
    }
  }

  lemma FinishedOnceClosed(k: Conn, held: bool, doomed: bool)
    ensures k.phase.FailClosing? && ConnOk(k, held, doomed) ==> ConnOk(k.(phase := Finished), held, doomed)
  {
  }

  lemma FailCloseKeepsRest(s: State, c: nat)
    requires Inv(s) && c in s.conns && s.conns[c].phase.FailClosing?
    ensures var s' := OwnerStep(s, c, FailClose(c)); MapOk(s') && OneAhead(s') && SoleHolder(s')
  {
    hide ConnOk, ConnsOk, Doomed;
    var s' := OwnerStep(s, c, FailClose(c));
    assert s'.conns.Keys == s.conns.Keys && s'.sockets == s.sockets && s'.closing == s.closing;
    forall d | d in s.conns
      ensures s'.conns[d].stream == s.conns[d].stream && Holds(s', d) == Holds(s, d)
      ensures d != c ==> s'.conns[d].phase == s.conns[d].phase
    {
    }
    hide OwnerStep;
    FailClosePhase(s, c);
    forall e, d | Dooms(s', e, d)
      ensures d in s'.conns
    {
      assert Dooms(s, e, d);
    }
  }

  lemma FailClosePhase(s: State, c: nat)
    requires c in s.conns && s.conns[c].phase.FailClosing?
    ensures OwnerStep(s, c, FailClose(c)).conns[c].phase == Finished
  {
  }

  lemma FailCloseKeepsInv(s: State, c: nat)
    requires Inv(s) && c in s.conns && s.conns[c].phase.FailClosing?
    ensures Inv(OwnerStep(s, c, FailClose(c)))
  {
    hide ConnsOk, MapOk, OneAhead, SoleHolder, OwnerStep;
    FailCloseKeepsConns(s, c);
    FailCloseKeepsRest(s, c);
  }

  /** Whether the owner of the connection is at the event's step. */
  predicate Enabled(p: Phase, e: Event) {
    match e
    case Put(_) => p.Dialed?
    case SendOpen(_, _) => p.Opening?
    case AbandonRemove(_) => p.Abandoning?
    case Read(_, _, _) => p.Copying?
    case SendData(_, _) => p.Sending?
    case FailRemove(_) => p.Failing?
    case FailClose(_) => p.FailClosing?
    case EndRemove(_) => p.Ending?
    case SendClose(_) => p.Notifying?
    case CloseLocal(_) => p.AbandonClosing? || p.EndClosing?
    case Dial(_, _) => false
    case HandlerRemove(_) => false
    case HandlerClose(_) => false
    case Destroy => false
  }

  lemma DisabledRests(s: State, c: nat, e: Event)
    requires c in s.conns && !Enabled(s.conns[c].phase, e)
    ensures OwnerStep(s, c, e) == s
  {
  }

  lemma OwnerStepKeepsInv(s: State, c: nat, e: Event)
    requires Inv(s) && c in s.conns && Owner(e) == Some(c)
    ensures Inv(OwnerStep(s, c, e))
  {
    hide Inv, OwnerStep, OwnChange;
    if !Enabled(s.conns[c].phase, e) {
      DisabledRests(s, c, e);
    } else if e.Put? {
      PutKeepsInv(s, c);
    } else if e.FailRemove? {
      FailRemoveKeepsInv(s, c);
    } else if e.FailClose? {
      FailCloseKeepsInv(s, c);
    } else {
      if e.SendOpen? || e.AbandonRemove? {
        OpenStepIsOwn(s, c, e);
      } else if e.Read? {
        ReadStepIsOwn(s, c, e);
      } else if e.SendData? {
        SendStepIsOwn(s, c, e);
      } else {
        EndStepIsOwn(s, c, e);
      }
      var s' := OwnerStep(s, c, e);
      OwnChangeKeepsInv(s, c, s'.conns[c], s'.sockets);
    }
  }

  lemma DialKeepsInv(s: State, c: nat, stream: nat)
    requires Inv(s) && Orderly(s, Dial(c, stream))
    ensures Inv(Step(s, Dial(c, stream)))
  {
    hide ConnOk, OwnerStep;
    var s' := Step(s, Dial(c, stream));
    if c !in s.conns {
      assert forall e, d :: Dooms(s', e, d) == Dooms(s, e, d);
      forall d | d in s'.conns
        ensures ConnOk(s'.conns[d], Holds(s', d), Doomed(s', d))
      {
        if d == c {
          NewConnOk(stream);
          assert !Holds(s', c) && !Doomed(s', c);
        } else {
          assert Holds(s', d) == Holds(s, d) && Doomed(s', d) == Doomed(s, d);
        }
      }
    }
  }

  lemma NewConnOk(stream: nat)
    ensures ConnOk(Conn(stream, Dialed, true, [], [], 0), false, false)
  {
  }

  lemma RemoveKeepsInv(s: State, stream: nat)
    requires Inv(s)
    ensures Inv(Step(s, HandlerRemove(stream)))
  {
    hide OwnerStep, ConnOk;
    var s' := Step(s, HandlerRemove(stream));
    assert forall e, d :: Dooms(s', e, d) == Dooms(s, e, d);
    forall d | d in s'.conns
      ensures ConnOk(s'.conns[d], Holds(s', d), Doomed(s', d))
    {
      OwnConnOk(s, d);
      if Holds(s, d) && s.conns[d].stream == stream {
        HeldIsNotDoomed(s, d);
        HeldThenDoomed(s.conns[d]);
      } else {
        assert Holds(s', d) == Holds(s, d) && Doomed(s', d) == Doomed(s, d);
      }
    }
  }

  lemma CloseKeepsInv(s: State, c: nat)
    requires Inv(s)
    ensures Inv(Step(s, HandlerClose(c)))
  {
    hide OwnerStep, ConnOk;
    var s' := Step(s, HandlerClose(c));
    assert forall e, d :: Dooms(s', e, d) == Dooms(s, e, d);
    forall d | d in s'.conns
      ensures ConnOk(s'.conns[d], Holds(s', d), Doomed(s', d))
    {
      OwnConnOk(s, d);
      if d == c && c in s.closing {
        DoomedThenClosed(s.conns[d], Holds(s, d), Doomed(s', d));
      } else {
        assert Holds(s', d) == Holds(s, d) && Doomed(s', d) == Doomed(s, d);
      }
    }
  }

  lemma DestroyKeepsInv(s: State)
    requires Inv(s)
    ensures Inv(Step(s, Destroy))
  {
    hide OwnerStep, ConnOk;
    var s' := Step(s, Destroy);
    assert forall e, d :: Dooms(s', e, d) == Dooms(s, e, d);
    forall d | d in s'.conns
      ensures ConnOk(s'.conns[d], Holds(s', d), Doomed(s', d))
    {
      OwnConnOk(s, d);
      if Holds(s, d) {
        HeldIsNotDoomed(s, d);
        HeldThenDoomed(s.conns[d]);
      } else {
        assert d in s'.closing <==> d in s.closing;
        assert Doomed(s', d) == Doomed(s, d);
      }
    }
  }

  lemma StepKeepsInv(s: State, e: Event)
    requires Inv(s) && Orderly(s, e)
    ensures Inv(Step(s, e))
  {
    hide Inv, OwnerStep, Orderly;
    if e.Dial? {
      DialKeepsInv(s, e.conn, e.stream);
    } else if e.HandlerRemove? {
      RemoveKeepsInv(s, e.stream);
    } else if e.HandlerClose? {
      CloseKeepsInv(s, e.conn);
    } else if e.Destroy? {
      DestroyKeepsInv(s);
    } else if e.conn in s.conns {
      OwnerStepKeepsInv(s, e.conn, e);
    }
  }

  lemma {:induction false} RunKeepsInv(s: State, events: seq<Event>)
    requires Inv(s) && OrderlyRun(s, events)
    ensures Inv(Run(s, events))
    decreases |events|
  {
    hide Inv, Step, Orderly;
    if events != [] {
      StepKeepsInv(s, events[0]);
      RunKeepsInv(Step(s, events[0]), events[1..]);
    }
  }

  // ---------------------------------------------------------------- results

  /** Nothing is about to happen unless the network or a local service acts first. */
  ghost predicate Quiet(s: State) {
    && s.closing == {}
    && forall c :: c in s.conns ==> s.conns[c].phase == Finished || (s.conns[c].phase == Copying && s.conns[c].open)
  }

  lemma QuietConn(s: State, c: nat)
    requires Inv(s) && Quiet(s) && c in s.conns
    ensures s.conns[c].open <==> Holds(s, c)
  {
    OwnConnOk(s, c);
    assert forall e :: !Dooms(s, e, c);
  }

  /** Once no step is pending, exactly the connections in the map are open. */
  lemma QuietMeansNoLeak(events: seq<Event>, c: nat)
    requires OrderlyRun(IDLE, events) && Quiet(Run(IDLE, events)) && c in Run(IDLE, events).conns
    ensures Run(IDLE, events).conns[c].open <==> Holds(Run(IDLE, events), c)
  {
    hide Run, OrderlyRun, Inv, Quiet;
    IdleInv();
    RunKeepsInv(IDLE, events);
    QuietConn(Run(IDLE, events), c);
  }

  lemma IdleInv()
    ensures Inv(IDLE)
  {
  }

  /** A stream sends at most one CLOSE frame, and only after every byte read from its local side went out. */
  lemma AtMostOneClose(events: seq<Event>, c: nat)
    requires OrderlyRun(IDLE, events) && c in Run(IDLE, events).conns
    ensures var k := Run(IDLE, events).conns[c];
            && k.closes <= 1
            && (k.closes == 1 ==> k.sent == k.read)
            && k.sent <= k.read
  {
    hide Run, OrderlyRun;
    IdleInv();
    RunKeepsInv(IDLE, events);
    OwnConnOk(Run(IDLE, events), c);
  }

  // ---------------------------------------------------------------- silence after a removal

  /** The connection left the map by other hands than its own loop's ending. */
  ghost predicate Silenced(s: State, c: nat) {
    c in s.conns && !Holds(s, c) && s.conns[c].phase != Dialed && s.conns[c].phase != Notifying
  }

  lemma OwnStepKeepsSilence(s: State, e: Event, c: nat)
    requires Inv(s) && Silenced(s, c)
    ensures Silenced(OwnerStep(s, c, e), c) && OwnerStep(s, c, e).conns[c].closes == s.conns[c].closes
  {
    hide ConnsOk, MapOk, OneAhead, SoleHolder;
    if s.conns[c].phase.Ending? && s.conns[c].stream in s.sockets {
      SoleHolds(s, c);
    }
  }

  lemma OtherStepKeepsSilence(s: State, e: Event, c: nat, d: nat)
    requires d in s.conns && d != c && Silenced(s, c)
    ensures Silenced(OwnerStep(s, d, e), c) && OwnerStep(s, d, e).conns[c].closes == s.conns[c].closes
  {
  }

  lemma StepKeepsSilence(s: State, e: Event, c: nat)
    requires Inv(s) && Silenced(s, c)
    ensures Silenced(Step(s, e), c) && Step(s, e).conns[c].closes == s.conns[c].closes
  {
    hide Inv, OwnerStep;
    if !e.Dial? && !e.HandlerRemove? && !e.HandlerClose? && !e.Destroy? && e.conn in s.conns {
      if e.conn == c {
        OwnStepKeepsSilence(s, e, c);
      } else {
        OtherStepKeepsSilence(s, e, c, e.conn);
      }
    }
  }

  lemma {:induction false} RunKeepsSilence(s: State, events: seq<Event>, c: nat)
    requires Inv(s) && OrderlyRun(s, events) && Silenced(s, c)
    ensures Silenced(Run(s, events), c) && Run(s, events).conns[c].closes == s.conns[c].closes
    decreases |events|
  {
    hide Inv, Step, Orderly, Silenced;
    if events != [] {
      StepKeepsInv(s, events[0]);
      StepKeepsSilence(s, events[0], c);
      RunKeepsSilence(Step(s, events[0]), events[1..], c);
    }
  }

  /** In no orderly continuation does the connection send a further CLOSE frame. */
  ghost predicate SendsNoMoreClose(s: State, c: nat)
    requires c in s.conns
  {
    forall more :: OrderlyRun(s, more) ==> c in Run(s, more).conns && Run(s, more).conns[c].closes == s.conns[c].closes
  }

  lemma SilentIff(s: State, c: nat)
    requires Inv(s) && c in s.conns && !Holds(s, c) && s.conns[c].phase != Dialed
    ensures SendsNoMoreClose(s, c) <==> s.conns[c].phase != Notifying
  {
    hide Inv, Step, Run, OrderlyRun;
    if s.conns[c].phase == Notifying {
      OneStep(s, SendClose(c));
      NotifyingSends(s, c);
    } else {
      forall more | OrderlyRun(s, more)
        ensures c in Run(s, more).conns && Run(s, more).conns[c].closes == s.conns[c].closes
      {
        RunKeepsSilence(s, more, c);
      }
    }
  }

  lemma OneStep(s: State, e: Event)
    requires Orderly(s, e)
    ensures OrderlyRun(s, [e]) && Run(s, [e]) == Step(s, e)
  {
    hide Step, Orderly;
    assert [e][1..] == [];
  }

  lemma NotifyingSends(s: State, c: nat)
    requires c in s.conns && s.conns[c].phase == Notifying
    ensures c in Step(s, SendClose(c)).conns && Step(s, SendClose(c)).conns[c].closes == s.conns[c].closes + 1
  {
  }

  /** After the broker's CLOSE for a stream was handled, its opened connection sends no CLOSE frame of its own
      exactly if its copy loop was not already past its own removal and about to send one. */
  lemma SilentAfterBrokerClose(events: seq<Event>, c: nat)
    requires OrderlyRun(IDLE, events) && c in Run(IDLE, events).conns && Run(IDLE, events).conns[c].phase != Dialed
    ensures var s := Run(IDLE, events);
            var s' := Step(s, HandlerRemove(s.conns[c].stream));
            c in s'.conns && (SendsNoMoreClose(s', c) <==> s.conns[c].phase != Notifying)
  {
    hide Run, OrderlyRun, SendsNoMoreClose, OwnerStep, ConnOk;
    IdleInv();
    RunKeepsInv(IDLE, events);
    var s := Run(IDLE, events);
    RemoveKeepsInv(s, s.conns[c].stream);
    SilentIff(Step(s, HandlerRemove(s.conns[c].stream)), c);
  }

  /** The same after `DestroyAll`, for every opened connection at once. */
  lemma SilentAfterDestroy(events: seq<Event>, c: nat)
    requires OrderlyRun(IDLE, events) && c in Run(IDLE, events).conns && Run(IDLE, events).conns[c].phase != Dialed
    ensures var s := Run(IDLE, events);
            var s' := Step(s, Destroy);
            c in s'.conns && (SendsNoMoreClose(s', c) <==> s.conns[c].phase != Notifying)
  {
    hide Run, OrderlyRun, SendsNoMoreClose, OwnerStep, ConnOk;
    IdleInv();
    RunKeepsInv(IDLE, events);
    var s := Run(IDLE, events);
    DestroyKeepsInv(s);
    SilentIff(Step(s, Destroy), c);
  }

  // ---------------------------------------------------------------- the race on CLOSE

  lemma {:induction false} WithoutDialsOrderly(s: State, events: seq<Event>)
    requires forall i :: 0 <= i < |events| ==> !events[i].Dial?
    ensures OrderlyRun(s, events)
    decreases |events|
  {
    hide Step;
    if events != [] {
      WithoutDialsOrderly(Step(s, events[0]), events[1..]);
    }
  }

  lemma RunSix(s: State, es: seq<Event>)
    requires |es| == 6
    ensures Run(s, es) == Step(Step(Step(Step(Step(Step(s, es[0]), es[1]), es[2]), es[3]), es[4]), es[5])
  {
    hide Step, Run;
    RunThree(s, es);
    RunThree(Step(Step(Step(s, es[0]), es[1]), es[2]), es[3..]);
    RunNothing(Step(Step(Step(Step(Step(Step(s, es[0]), es[1]), es[2]), es[3]), es[4]), es[5]));
    assert es[3..][3..] == [];
  }

  lemma RunThree(s: State, es: seq<Event>)
    requires |es| >= 3
    ensures Run(s, es) == Run(Step(Step(Step(s, es[0]), es[1]), es[2]), es[3..])
  {
    hide Step;
    assert es[1..][1..] == es[2..];
    assert es[2..][1..] == es[3..];
    assert Run(s, es) == Run(Step(s, es[0]), es[1..]);
    assert Run(Step(s, es[0]), es[1..]) == Run(Step(Step(s, es[0]), es[1]), es[2..]);
  }

  lemma RunNothing(s: State)
    ensures Run(s, []) == s
  {
  }

  function RaceSteps(stream: nat): seq<Event> {
    [Dial(0, stream), Put(0), SendOpen(0, false), Read(0, [], true), EndRemove(0), HandlerRemove(stream)]
  }

  lemma RaceOpens(stream: nat)
    ensures Step(Step(Step(IDLE, Dial(0, stream)), Put(0)), SendOpen(0, false)) ==
            State(map[stream := 0], map[0 := Conn(stream, Copying, true, [], [], 0)], {})
  {
    var k := Conn(stream, Dialed, true, [], [], 0);
    assert Step(IDLE, Dial(0, stream)) == State(map[], map[0 := k], {});
    assert Step(State(map[], map[0 := k], {}), Put(0)) == State(map[stream := 0], map[0 := k.(phase := Opening)], {});
  }

  lemma RaceCloses(stream: nat)
    ensures var s := State(map[stream := 0], map[0 := Conn(stream, Copying, true, [], [], 0)], {});
            Step(Step(Step(s, Read(0, [], true)), EndRemove(0)), HandlerRemove(stream)) ==
            State(map[], map[0 := Conn(stream, Notifying, true, [], [], 0)], {})
  {
    var k := Conn(stream, Copying, true, [], [], 0);
    var s := State(map[stream := 0], map[0 := k], {});
    assert Step(s, Read(0, [], true)) == State(map[stream := 0], map[0 := k.(phase := Ending)], {});
    assert map[stream := 0] - {stream} == map[];
    assert Step(State(map[stream := 0], map[0 := k.(phase := Ending)], {}), EndRemove(0))
        == State(map[], map[0 := k.(phase := Notifying)], {});
  }

  /** The race on CLOSE is reachable: the loop is past its removal when the broker's CLOSE arrives. */
  lemma CloseRaceIsReachable(stream: nat)
    ensures OrderlyRun(IDLE, RaceSteps(stream))
    ensures 0 in Run(IDLE, RaceSteps(stream)).conns && !SendsNoMoreClose(Run(IDLE, RaceSteps(stream)), 0)
  {
    hide Run, Step, SendsNoMoreClose, Inv, Orderly;
    var events := RaceSteps(stream);
    RaceOpens(stream);
    RaceCloses(stream);
    RunSix(IDLE, events);
    FirstDialIsOrderly(stream);
    WithoutDialsOrderly(Step(IDLE, events[0]), events[1..]);
    IdleInv();
    RunKeepsInv(IDLE, events);
    SilentIff(Run(IDLE, events), 0);
  }

  lemma FirstDialIsOrderly(stream: nat)
    ensures Orderly(IDLE, Dial(0, stream))
  {
  }

  // ---------------------------------------------------------------- the uninterrupted code

  /** One return of Read, and whether the send of its chunk fails. */
  datatype Reading = Reading(chunk: Data, ended: bool, sendFails: bool)

  /** HandleOpen after a successful dial. */
  function Opened(s: State, c: nat, stream: nat, sendFails: bool): State {
    var s' := Step(Step(Step(s, Dial(c, stream)), Put(c)), SendOpen(c, sendFails));
    if sendFails then Step(Step(s', AbandonRemove(c)), CloseLocal(c)) else s'
  }

  function RemovedAndClosed(s: State, stream: nat): State {
    if stream in s.sockets then Step(Step(s, HandlerRemove(stream)), HandlerClose(s.sockets[stream])) else s
  }

  /** The copy loop of `c` over what its local side delivers, until it returns. */
  function Copied(s: State, c: nat, readings: seq<Reading>): State
    decreases |readings|
  {
    if readings == [] then s
    else
      var r := readings[0];
      var s' := Step(Step(s, Read(c, r.chunk, r.ended)), SendData(c, r.sendFails));
      if r.chunk != [] && r.sendFails then Step(Step(s', FailRemove(c)), FailClose(c))
      else if r.ended then Step(Step(Step(s', EndRemove(c)), SendClose(c)), CloseLocal(c))
      else Copied(s', c, readings[1..])
  }

  // What these compositions of steps come to.

  function OpenedState(s: State, c: nat, stream: nat, sendFails: bool): State {
    var previous := if stream in s.sockets then Closed(s, s.sockets[stream]) else s;
    var k := Conn(stream, Copying, true, [], [], 0);
    if sendFails then State(s.sockets - {stream}, previous.conns[c := k.(phase := Finished, open := false)], s.closing)
    else State(s.sockets[stream := c], previous.conns[c := k], s.closing)
  }

  lemma PutComesTo(s: State, c: nat, stream: nat)
    requires c !in s.conns && (stream in s.sockets ==> s.sockets[stream] in s.conns)
    ensures var previous := if stream in s.sockets then Closed(s, s.sockets[stream]) else s;
            Step(Step(s, Dial(c, stream)), Put(c)) ==
            State(s.sockets[stream := c], previous.conns[c := Conn(stream, Opening, true, [], [], 0)], s.closing)
  {
    var k := Conn(stream, Dialed, true, [], [], 0);
    var previous := if stream in s.sockets then Closed(s, s.sockets[stream]) else s;
    var s1 := Step(s, Dial(c, stream));
    assert s1 == s.(conns := s.conns[c := k]);
    assert previous.conns[c := k][c := k.(phase := Opening)] == previous.conns[c := k.(phase := Opening)];
  }

  lemma OpenSends(t: State, c: nat)
    requires c in t.conns && t.conns[c].phase == Opening
    ensures Step(t, SendOpen(c, false)) == t.(conns := t.conns[c := t.conns[c].(phase := Copying)])
  {
  }

  lemma OpenAbandons(t: State, c: nat)
    requires c in t.conns && t.conns[c].phase == Opening
    ensures Step(Step(Step(t, SendOpen(c, true)), AbandonRemove(c)), CloseLocal(c)) ==
            State(t.sockets - {t.conns[c].stream}, t.conns[c := t.conns[c].(phase := Finished, open := false)],
                t.closing)
  {
    var k := t.conns[c];
    var t1 := t.(conns := t.conns[c := k.(phase := Abandoning)]);
    assert Step(t, SendOpen(c, true)) == t1;
    var t2 := State(t.sockets - {k.stream}, t.conns[c := k.(phase := AbandonClosing)], t.closing);
    assert Step(t1, AbandonRemove(c)) == t2;
  }

  lemma OpenedComesTo(s: State, c: nat, stream: nat, sendFails: bool)
    requires c !in s.conns && (stream in s.sockets ==> s.sockets[stream] in s.conns)
    ensures Opened(s, c, stream, sendFails) == OpenedState(s, c, stream, sendFails)
  {
    hide Step, Closed;
    PutComesTo(s, c, stream);
    var k := Conn(stream, Opening, true, [], [], 0);
    var previous := if stream in s.sockets then Closed(s, s.sockets[stream]) else s;
    var t := State(s.sockets[stream := c], previous.conns[c := k], s.closing);
    if sendFails {
      OpenAbandons(t, c);
      assert s.sockets[stream := c] - {stream} == s.sockets - {stream};
    } else {
      OpenSends(t, c);
    }
  }

  function Dropped(s: State, stream: nat): State {
    if stream in s.sockets then Remove(Closed(s, s.sockets[stream]), stream) else s
  }

  lemma RemovedAndClosedComesTo(s: State, stream: nat)
    requires s.closing == {}
    ensures RemovedAndClosed(s, stream) == Dropped(s, stream)
  {
  }

  function Took(s: State, c: nat, chunk: Data): State
    requires c in s.conns
  {
    var k := s.conns[c];
    s.(conns := s.conns[c := k.(read := k.read + chunk, sent := k.sent + chunk)])
  }

  function FailingState(s: State, c: nat, chunk: Data): State
    requires c in s.conns
  {
    s.(conns := s.conns[c := s.conns[c].(phase := Failing, read := s.conns[c].read + chunk)])
  }

  function FailedAt(s: State, c: nat, chunk: Data): State
    requires c in s.conns
  {
    DroppedKeeps(FailingState(s, c, chunk), s.conns[c].stream, c);
    WithPhase(Dropped(FailingState(s, c, chunk), s.conns[c].stream), c, Finished)
  }

  function EndedAt(s: State, c: nat): State
    requires c in s.conns
  {
    var k := s.conns[c];
    State(s.sockets - {k.stream},
          s.conns[c := k.(phase := Finished, open := false,
              closes := k.closes + if k.stream in s.sockets then 1 else 0)],
          s.closing)
  }

  lemma TakesChunk(s: State, c: nat, r: Reading)
    requires c in s.conns && s.conns[c].phase == Copying && s.conns[c].open
    requires r.chunk != [] ==> !r.sendFails
    ensures Step(Step(s, Read(c, r.chunk, r.ended)), SendData(c, r.sendFails)) ==
            if r.ended then WithPhase(Took(s, c, r.chunk), c, Ending) else Took(s, c, r.chunk)
  {
    var k := s.conns[c];
    if r.chunk == [] {
      assert k.read + r.chunk == k.read && k.sent + r.chunk == k.sent;
      assert s.conns[c := k] == s.conns;
    } else {
      var s1 := s.(conns := s.conns[c := k.(phase := Sending(r.chunk, r.ended), read := k.read + r.chunk)]);
      assert Step(s, Read(c, r.chunk, r.ended)) == s1;
    }
  }

  lemma SendFailsOn(s: State, c: nat, r: Reading)
    requires c in s.conns && s.conns[c].phase == Copying && s.conns[c].open
    requires r.chunk != [] && r.sendFails
    ensures Step(Step(s, Read(c, r.chunk, r.ended)), SendData(c, r.sendFails)) ==
            s.(conns := s.conns[c := s.conns[c].(phase := Failing, read := s.conns[c].read + r.chunk)])
  {
  }

  lemma FailsLoop(s: State, c: nat)
    requires c in s.conns && s.conns[c].phase == Failing
    ensures Step(Step(s, FailRemove(c)), FailClose(c)) ==
            WithPhase(Dropped(s, s.conns[c].stream), c, Finished)
  {
    var k := s.conns[c];
    var s1 := State(s.sockets - {k.stream}, s.conns[c := k.(phase := FailClosing(Lookup(s, k.stream)))], s.closing);
    assert Step(s, FailRemove(c)) == s1;
    assert k.stream !in s.sockets ==> s.sockets - {k.stream} == s.sockets;
  }

  lemma FailsChunk(s: State, c: nat, r: Reading)
    requires c in s.conns && s.conns[c].phase == Copying && s.conns[c].open
    requires r.chunk != [] && r.sendFails
    ensures Step(Step(Step(Step(s, Read(c, r.chunk, r.ended)), SendData(c, r.sendFails)), FailRemove(c)), FailClose(c))
         == FailedAt(s, c, r.chunk)
  {
    hide Step, Dropped, WithPhase;
    SendFailsOn(s, c, r);
    FailsLoop(FailingState(s, c, r.chunk), c);
  }

  lemma EndsLoop(s: State, c: nat)
    requires c in s.conns && s.conns[c].phase == Copying
    ensures Step(Step(Step(WithPhase(s, c, Ending), EndRemove(c)), SendClose(c)), CloseLocal(c)) == EndedAt(s, c)
  {
    var k := s.conns[c];
    var found := k.stream in s.sockets;
    var s1 := Step(WithPhase(s, c, Ending), EndRemove(c));
    assert s1 ==
        State(s.sockets - {k.stream}, s.conns[c := k.(phase := if found then Notifying else EndClosing)], s.closing);
  }

  lemma CopiedStep(s: State, c: nat, readings: seq<Reading>)
    requires c in s.conns && s.conns[c].phase == Copying && s.conns[c].open && readings != []
    ensures Copied(s, c, readings) ==
            var r := readings[0];
            if r.chunk != [] && r.sendFails then FailedAt(s, c, r.chunk)
            else if r.ended then EndedAt(Took(s, c, r.chunk), c)
            else Copied(Took(s, c, r.chunk), c, readings[1..])
  {
    hide Step, WithPhase, FailedAt, EndedAt;
    var r := readings[0];
    if r.chunk != [] && r.sendFails {
      FailsChunk(s, c, r);
    } else {
      TakesChunk(s, c, r);
      EndsLoop(Took(s, c, r.chunk), c);
    }
  }

  class Forwarder {
    var sockets: map<nat, nat>
    var conns: map<nat, Conn>

    ghost function Abs(): State
      reads this
    {
      State(sockets, conns, {})
    }

    method SetPhase(c: nat, phase: Phase)
      requires c in conns
      modifies this`conns
      ensures conns == old(conns)[c := old(conns)[c].(phase := phase)]
    {
      conns := conns[c := conns[c].(phase := phase)];
    }

    method CloseConn(c: nat)
      requires c in conns
      modifies this`conns
      ensures conns == old(conns)[c := old(conns)[c].(open := false)]
    {
      conns := conns[c := conns[c].(open := false)];
    }

    method RemoveStream(stream: nat) returns (conn: Option<nat>)
      modifies this`sockets
      ensures conn == if stream in old(sockets) then Some(old(sockets)[stream]) else None
      ensures sockets == old(sockets) - {stream}
    {
      conn := if stream in sockets then Some(sockets[stream]) else None;
      sockets := sockets - {stream};
    }

    method RemoveAndClose(stream: nat)
      requires stream in sockets ==> sockets[stream] in conns
      modifies this
      ensures Abs() == RemovedAndClosed(old(Abs()), stream)
    {
      RemovedAndClosedComesTo(Abs(), stream);
      var conn := RemoveStream(stream);
      if conn.Some? {
        CloseConn(conn.value);
      }
      assert stream !in old(sockets) ==> sockets == old(sockets);
    }

    /** `target` says whether the requested address is a valid local one. Refusals and failed dials are
        answered with a CLOSE frame. */
    method HandleOpen(c: nat, stream: nat, target: bool, dials: bool, sendFails: bool) returns (refused: bool)
      requires c !in conns && (stream in sockets ==> sockets[stream] in conns)
      modifies this
      ensures refused == (!target || !dials)
      ensures Abs() == if refused then old(Abs()) else Opened(old(Abs()), c, stream, sendFails)
    {
      hide Step, Opened;
      OpenedComesTo(Abs(), c, stream, sendFails);
      if !target {
        return true;
      }
      if !dials {
        return true;
      }
      if stream in sockets {
        CloseConn(sockets[stream]);
      }
      sockets := sockets[stream := c];
      conns := conns[c := Conn(stream, Opening, true, [], [], 0)];
      if sendFails {
        var removed := RemoveStream(stream);
        assert sockets == old(sockets) - {stream};
        conns := conns[c := conns[c].(phase := Finished, open := false)];
        return false;
      }
      conns := conns[c := conns[c].(phase := Copying)];
      refused := false;
    }

    method HandleData(stream: nat, writeFails: bool) returns (known: bool)
      requires stream in sockets ==> sockets[stream] in conns
      modifies this
      ensures known == (stream in old(sockets))
      ensures Abs() == if known && writeFails then RemovedAndClosed(old(Abs()), stream) else old(Abs())
    {
      if stream !in sockets {
        return false;
      }
      if writeFails {
        RemoveAndClose(stream);
      }
      known := true;
    }

    method HandleClose(stream: nat)
      requires stream in sockets ==> sockets[stream] in conns
      modifies this
      ensures Abs() == RemovedAndClosed(old(Abs()), stream)
    {
      RemoveAndClose(stream);
    }

    method DestroyAll()
      requires forall stream :: stream in sockets ==> sockets[stream] in conns
      modifies this
      ensures Abs() == AllClosed(Step(old(Abs()), Destroy))
    {
      hide ClosedAll;
      var all := sockets.Values;
      var todo := all;
      sockets := map[];
      ClosedNone(conns);
      assert all - todo == {};
      while todo != {}
        invariant todo <= all
        invariant sockets == map[]
        invariant conns == ClosedAll(old(conns), all - todo)
        decreases |todo|
      {
        var c :| c in todo;
        ClosedOneMore(old(conns), all - todo, c);
        CloseConn(c);
        assert all - (todo - {c}) == all - todo + {c};
        todo := todo - {c};
      }
      assert all - todo == all;
    }

    /** The loop's ending: CLOSE goes out only if the map still had the stream. */
    method EndCopy(c: nat)
      requires c in conns
      modifies this
      ensures Abs() == EndedAt(old(Abs()), c)
    {
      var removed := RemoveStream(conns[c].stream);
      if removed.Some? {
        conns := conns[c := conns[c].(closes := conns[c].closes + 1)];
      }
      CloseConn(c);
      SetPhase(c, Finished);
    }

    method CopyLocalToTunnel(c: nat, readings: seq<Reading>)
      requires c in conns && conns[c].phase == Copying && conns[c].open
      requires forall stream :: stream in sockets ==> sockets[stream] in conns
      modifies this
      ensures Abs() == Copied(old(Abs()), c, readings)
    {
      hide Step, Copied, Dropped, RemovedAndClosed, EndedAt;
      var stream := conns[c].stream;
      var i := 0;
      while i < |readings|
        invariant 0 <= i <= |readings|
        invariant c in conns && conns[c].phase == Copying && conns[c].open && conns[c].stream == stream
        invariant forall st :: st in sockets ==> sockets[st] in conns
        invariant Copied(Abs(), c, readings[i..]) == Copied(old(Abs()), c, readings)
      {
        var r := readings[i];
        assert readings[i..][0] == r && readings[i..][1..] == readings[i + 1..];
        ghost var before := Abs();
        CopiedStep(before, c, readings[i..]);
        TookNothing(before, c);
        if r.chunk != [] {
          conns := conns[c := conns[c].(read := conns[c].read + r.chunk)];
          if r.sendFails {
            SetPhase(c, Failing);
            ghost var failing := Abs();
            assert failing == FailingState(before, c, r.chunk);
            RemoveAndClose(stream);
            RemovedAndClosedComesTo(failing, stream);
            DroppedKeeps(failing, stream, c);
            SetPhase(c, Finished);
            return;
          }
          conns := conns[c := conns[c].(sent := conns[c].sent + r.chunk)];
        }
        assert Abs() == Took(before, c, r.chunk);
        if r.ended {
          EndCopy(c);
          return;
        }
        i := i + 1;
      }
      assert readings[i..] == [];
      CopiedNothing(Abs(), c);
    }
  }

  lemma DroppedKeeps(s: State, stream: nat, c: nat)
    requires c in s.conns
    ensures c in Dropped(s, stream).conns
  {
  }

  lemma TookNothing(s: State, c: nat)
    requires c in s.conns
    ensures Took(s, c, []) == s
  {
    var k := s.conns[c];
    assert k.read + [] == k.read && k.sent + [] == k.sent;
    assert s.conns[c := k] == s.conns;
  }

  lemma CopiedNothing(s: State, c: nat)
    ensures Copied(s, c, []) == s
  {
  }

  function ClosedAll(conns: map<nat, Conn>, which: set<nat>): map<nat, Conn> {
    map c | c in conns :: if c in which then conns[c].(open := false) else conns[c]
  }

  lemma ClosedNone(conns: map<nat, Conn>)
    ensures ClosedAll(conns, {}) == conns
  {
  }

  lemma ClosedOneMore(conns: map<nat, Conn>, which: set<nat>, c: nat)
    requires c in conns
    ensures var before := ClosedAll(conns, which);
            c in before && ClosedAll(conns, which + {c}) == before[c := before[c].(open := false)]
  {
  }

  /** Every connection a handler took out of the map is closed, in whichever order. */
  function AllClosed(s: State): State {
    State(s.sockets, ClosedAll(s.conns, s.closing), {})
  }

  function Closings(order: seq<nat>): seq<Event> {
    seq(|order|, i requires 0 <= i < |order| => HandlerClose(order[i]))
  }

  lemma {:induction false} ClosingsComeToAllClosed(s: State, order: seq<nat>)
    requires forall c :: c in s.closing ==> c in order
    ensures Run(s, Closings(order)) == AllClosed(s)
    decreases |order|
  {
    hide Step, ClosedAll;
    if order == [] {
      ClosedNone(s.conns);
      assert s.closing == {};
    } else {
      var s' := Step(s, HandlerClose(order[0]));
      assert Closings(order)[1..] == Closings(order[1..]);
      HandlerCloseIsPart(s, order[0]);
      ClosingsComeToAllClosed(s', order[1..]);
    }
  }

  lemma HandlerCloseIsPart(s: State, c: nat)
    ensures var s' := Step(s, HandlerClose(c));
            s'.closing == s.closing - {c} && AllClosed(s') == AllClosed(s)
  {
  }
}
