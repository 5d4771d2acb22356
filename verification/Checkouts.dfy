/**
 Secret-checkout requests under concurrent callers.

 Approve, Reject and Checkin each load the request row, check it, and write it back in a
 separate statement; Create looks for a duplicate and inserts in a separate statement. `Step`
 interleaves those single statements of any number of calls, so `Run` over an arbitrary
 sequence of operations is an arbitrary interleaving. `RequestTable` holds the statements and
 the uninterrupted calls built from them. Times are in milliseconds.
 */
module Checkouts {
  import opened Options
  import opened Texts

  datatype Status = Pending | Approved | Rejected | CheckedIn

  datatype Resource = Secret(id: string) | Connection(id: string)

  datatype Request = Request(
    requester: string,
    resource: Resource,
    status: Status,
    approverId: Option<string>,
    expiresAt: Option<int>,
    durationMinutes: int)

  type Rows = map<string, Request>

  datatype Action = Approve | Reject | Checkin

  // ---------------------------------------------------------------- single statements

  /** The checks between a call's load and its write. `allowed` is the approver check at that moment. */
  predicate MayWrite(rows: Rows, action: Action, checkout: string, actor: string, allowed: bool) {
    && checkout in rows
    && (if action.Checkin? then rows[checkout].status == Approved && (rows[checkout].requester == actor || allowed)
        else rows[checkout].status == Pending && allowed)
  }

  /** Whether the UPDATE statement affects a row: the decisions are guarded, the check-in is not. */
  predicate Affects(rows: Rows, action: Action, checkout: string) {
    checkout in rows && (action.Checkin? || rows[checkout].status == Pending)
  }

  function Written(r: Request, action: Action, actor: string, expiresAt: int): Request {
    match action
    case Approve => r.(status := Approved, approverId := Some(actor), expiresAt := Some(expiresAt))
    case Reject => r.(status := Rejected, approverId := Some(actor))
    case Checkin => r.(status := CheckedIn)
  }

  function Update(rows: Rows, action: Action, checkout: string, actor: string, expiresAt: int): Rows {
    if Affects(rows, action, checkout) then
      rows[checkout := Written(rows[checkout], action, actor, expiresAt)]
    else rows
  }

  function ExpiryFrom(now: int, durationMinutes: int): int {
    now + durationMinutes * 60000
  }

  /** A request of this requester for this resource that is still pending. */
  predicate PendingFor(rows: Rows, id: string, requester: string, resource: Resource) {
    id in rows && rows[id].status == Pending && rows[id].requester == requester && rows[id].resource == resource
  }

  predicate DuplicateExists(rows: Rows, requester: string, resource: Resource) {
    exists id :: id in rows && PendingFor(rows, id, requester, resource)
  }

  function NewRequest(requester: string, resource: Resource, durationMinutes: int): Request {
    Request(requester, resource, Pending, None, None, durationMinutes)
  }

  // ---------------------------------------------------------------- the table and uninterrupted calls

  datatype Outcome = Done(id: string) | Failed(status: int)

  /** Trims an optional id; a blank one counts as absent. */
  function Normalize(value: Option<string>): Option<string> {
    if value.None? || TrimSpace(value.value) == "" then None else Some(TrimSpace(value.value))
  }

  class RequestTable {
    var rows: Rows

    method Exec(action: Action, checkout: string, actor: string, expiresAt: int) returns (affected: nat)
      modifies this
      ensures rows == Update(old(rows), action, checkout, actor, expiresAt)
      ensures affected == if Affects(old(rows), action, checkout) then 1 else 0
    {
      affected := 0;
      if checkout in rows {
        var r := rows[checkout];
        match action
        case Approve =>
          if r.status == Pending {
            rows := rows[checkout := r.(status := Approved, approverId := Some(actor), expiresAt := Some(expiresAt))];
            affected := 1;
          }
        case Reject =>
          if r.status == Pending {
            rows := rows[checkout := r.(status := Rejected, approverId := Some(actor))];
            affected := 1;
          }
        case Checkin =>
          rows := rows[checkout := r.(status := CheckedIn)];
          affected := 1;
      }
    }

    /** Approve, Reject or Checkin without interference. */
    method Decide(action: Action, checkout: string, actor: string, allowed: bool, now: int) returns (o: Outcome)
      modifies this
      ensures o.Done? <==>
        && checkout in old(rows)
        && (action.Checkin? ==>
             && old(rows)[checkout].status == Approved
             && (allowed || actor == old(rows)[checkout].requester))
        && (!action.Checkin? ==> old(rows)[checkout].status == Pending && allowed)
      ensures o.Done? ==> o.id == checkout && checkout in old(rows)
      ensures o.Done? ==>
        var entry := old(rows)[checkout];
        rows == old(rows)[checkout := Written(entry, action, actor, ExpiryFrom(now, entry.durationMinutes))]
      ensures o.Failed? ==> rows == old(rows)
      ensures o.Failed? ==>
        o.status == (if checkout !in rows then 404
                     else if rows[checkout].status != (if action.Checkin? then Approved else Pending) then 400
                     else 403)
    {
      if checkout !in rows {
        return Failed(404);
      }
      var entry := rows[checkout];
      if entry.status != (if action.Checkin? then Approved else Pending) {
        return Failed(400);
      }
      if !(action.Checkin? && entry.requester == actor) {
        if !allowed {
          return Failed(403);
        }
      }
      var expiresAt := now + entry.durationMinutes * 60000;
      var affected := Exec(action, checkout, actor, expiresAt);
      if affected == 0 && !action.Checkin? {
        return Failed(409);
      }
      o := Done(checkout);
    }

    /** Create without interference. `owner` is the owner of the target, None if the target is missing;
        `newId` is fresh. */
    method Create(requester: string, secretId: Option<string>, connectionId: Option<string>, durationMinutes: int,
                  reason: string, owner: Option<string>, newId: string) returns (o: Outcome)
      requires newId !in rows
      modifies this
      ensures var s, c := Normalize(secretId), Normalize(connectionId);
              var resource := if s.Some? then Secret(s.value) else Connection(if c.Some? then c.value else "");
              if s.None? == c.None? || !(1 <= durationMinutes <= 1440) || |TrimSpace(reason)| > 500 then
                o == Failed(400) && rows == old(rows)
              else if owner.None? then o == Failed(404) && rows == old(rows)
              else if owner.value == requester then o == Failed(400) && rows == old(rows)
              else if DuplicateExists(old(rows), requester, resource) then o == Failed(409) && rows == old(rows)
              else o == Done(newId) && rows == old(rows)[newId := NewRequest(requester, resource, durationMinutes)]
    {
      var s, c := Normalize(secretId), Normalize(connectionId);
      if (s.None? && c.None?) || (s.Some? && c.Some?) {
        return Failed(400);
      }
      if durationMinutes < 1 || durationMinutes > 1440 {
        return Failed(400);
      }
      if |TrimSpace(reason)| > 500 {
        return Failed(400);
      }
      if owner.None? {
        return Failed(404);
      }
      if owner.value == requester {
        return Failed(400);
      }
      var resource := if s.Some? then Secret(s.value) else Connection(c.value);
      if exists id :: id in rows && PendingFor(rows, id, requester, resource) {
        return Failed(409);
      }
      rows := rows[newId := NewRequest(requester, resource, durationMinutes)];
      o := Done(newId);
    }
  }

  // ---------------------------------------------------------------- interleavings

  /** A call between its two statements. */
  datatype Call =
    | Loaded(action: Action, checkout: string, actor: string, allowed: bool, durationMinutes: int)
    | Creating(requester: string, resource: Resource, durationMinutes: int)

  /** One write that affected a row: whose, whether the approver check had accepted the actor, and when. */
  datatype Effect = Effect(checkout: string, action: Action, actor: string, allowed: bool, at: int)

  /** `log` records the writes that affected a row. */
  datatype State = State(rows: Rows, calls: map<nat, Call>, log: seq<Effect>)

  datatype Op =
    | Load(call: nat, action: Action, checkout: string, actor: string, allowed: bool)
    | Write(call: nat, now: int)
    | CheckDuplicate(call: nat, requester: string, resource: Resource, durationMinutes: int)
    | Insert(call: nat, id: string)

  function Step(s: State, op: Op): State {
    match op
    case Load(call, action, checkout, actor, allowed) =>
      if call in s.calls || !MayWrite(s.rows, action, checkout, actor, allowed) then s
      else s.(calls := s.calls[call := Loaded(action, checkout, actor, allowed, s.rows[checkout].durationMinutes)])
    case Write(call, now) =>
      if call !in s.calls || !s.calls[call].Loaded? then s
      else
        var c := s.calls[call];
        State(Update(s.rows, c.action, c.checkout, c.actor, ExpiryFrom(now, c.durationMinutes)),
              s.calls - {call},
              if Affects(s.rows, c.action, c.checkout) then
                s.log + [Effect(c.checkout, c.action, c.actor, c.allowed, now)]
              else s.log)
    case CheckDuplicate(call, requester, resource, durationMinutes) =>
      if call in s.calls || DuplicateExists(s.rows, requester, resource) then s
      else s.(calls := s.calls[call := Creating(requester, resource, durationMinutes)])
    case Insert(call, id) =>
      if call !in s.calls || !s.calls[call].Creating? || id in s.rows then s
      else
        var c := s.calls[call];
        s.(rows := s.rows[id := NewRequest(c.requester, c.resource, c.durationMinutes)], calls := s.calls - {call})
  }

  function Run(s: State, ops: seq<Op>): State
    decreases |ops|
  {
    if ops == [] then s else Run(Step(s, ops[0]), ops[1..])
  }

  /** The decisions on a request that took effect. */
  function Decisions(log: seq<Effect>, checkout: string): seq<Effect> {
    if log == [] then []
    else
      var last := log[|log| - 1];
      Decisions(log[..|log| - 1], checkout)
      + (if last.checkout == checkout && !last.action.Checkin? then [last] else [])
  }

  // ---------------------------------------------------------------- the invariant

  predicate IsDecision(r: Request, decisions: seq<Effect>, action: Action) {
    |decisions| == 1 && decisions[0].action == action && r.approverId == Some(decisions[0].actor)
  }

  /** The row agrees with the decisions logged for it. */
  ghost predicate RowCoherent(r: Request, decisions: seq<Effect>) {
    match r.status
    case Pending => r.approverId == None && r.expiresAt == None && decisions == []
    case Rejected => r.expiresAt == None && IsDecision(r, decisions, Reject)
    case _ =>
      IsDecision(r, decisions, Approve) && r.expiresAt == Some(decisions[0].at + 60_000 * r.durationMinutes)
  }

  ghost predicate CallCoherent(rows: Rows, c: Call) {
    c.Loaded? ==>
      && c.checkout in rows
      && c.durationMinutes == rows[c.checkout].durationMinutes
      && (c.allowed || (c.action.Checkin? && rows[c.checkout].requester == c.actor))
      && (c.action.Checkin? ==> rows[c.checkout].status == Approved || rows[c.checkout].status == CheckedIn)
  }

  /** Every write was made by an accepted approver, or was the requester's own check-in. */
  ghost predicate Authorized(rows: Rows, e: Effect) {
    e.checkout in rows && (e.allowed || (e.action.Checkin? && rows[e.checkout].requester == e.actor))
  }

  ghost predicate Inv(s: State) {
    && (forall i :: 0 <= i < |s.log| ==> Authorized(s.rows, s.log[i]))
    && (forall id :: id in s.rows ==> RowCoherent(s.rows[id], Decisions(s.log, id)))
    && (forall id :: id !in s.rows ==> Decisions(s.log, id) == [])
    && (forall call :: call in s.calls ==> CallCoherent(s.rows, s.calls[call]))
  }

  lemma DecisionsSnoc(log: seq<Effect>, e: Effect, checkout: string)
    ensures Decisions(log + [e], checkout) ==
      Decisions(log, checkout) + (if e.checkout == checkout && !e.action.Checkin? then [e] else [])
  {
    assert (log + [e])[..|log|] == log;
  }

  lemma WrittenCoherent(r: Request, decisions: seq<Effect>, e: Effect, expiresAt: int)
    requires RowCoherent(r, decisions) && expiresAt == e.at + 60_000 * r.durationMinutes
    requires if e.action.Checkin? then r.status == Approved || r.status == CheckedIn else r.status == Pending
    ensures RowCoherent(Written(r, e.action, e.actor, expiresAt), decisions + (if e.action.Checkin? then [] else [e]))
  {
    if e.action.Checkin? {
      assert decisions + [] == decisions;
    }
  }

  lemma RowOf(s: State, id: string)
    requires Inv(s)
    ensures if id in s.rows then RowCoherent(s.rows[id], Decisions(s.log, id)) else Decisions(s.log, id) == []
  {
    hide Decisions, RowCoherent, CallCoherent;
  }

  lemma CallOf(s: State, call: nat)
    requires Inv(s) && call in s.calls
    ensures CallCoherent(s.rows, s.calls[call])
  {
    hide Decisions, RowCoherent, CallCoherent;
  }

  lemma WriteKeepsRow(s: State, call: nat, now: int, id: string)
    requires Inv(s) && call in s.calls && s.calls[call].Loaded?
    ensures var s' := Step(s, Write(call, now));
            if id in s'.rows then RowCoherent(s'.rows[id], Decisions(s'.log, id)) else Decisions(s'.log, id) == []
  {
    hide Inv, Decisions, RowCoherent, Written;
    var c := s.calls[call];
    var e := Effect(c.checkout, c.action, c.actor, c.allowed, now);
    CallOf(s, call);
    RowOf(s, id);
    DecisionsSnoc(s.log, e, id);
    if Affects(s.rows, c.action, c.checkout) && id == c.checkout {
      WrittenCoherent(s.rows[id], Decisions(s.log, id), e, ExpiryFrom(now, c.durationMinutes));
      assert e.action.Checkin? ==> Decisions(s.log, id) + [] == Decisions(s.log, id);
    } else {
      assert Decisions(s.log, id) + [] == Decisions(s.log, id);
    }
  }

  lemma WriteKeepsInv(s: State, call: nat, now: int)
    requires Inv(s)
    ensures Inv(Step(s, Write(call, now)))
  {
    hide Decisions, RowCoherent;
    if call in s.calls && s.calls[call].Loaded? {
      var c, s' := s.calls[call], Step(s, Write(call, now));
      assert CallCoherent(s.rows, c);
      forall id
        ensures if id in s'.rows then RowCoherent(s'.rows[id], Decisions(s'.log, id)) else Decisions(s'.log, id) == []
      {
        WriteKeepsRow(s, call, now, id);
      }
      forall k | k in s'.calls
        ensures CallCoherent(s'.rows, s'.calls[k])
      {
        assert CallCoherent(s.rows, s.calls[k]);
      }
    }
  }

  lemma StepKeepsInv(s: State, op: Op)
    requires Inv(s)
    ensures Inv(Step(s, op))
  {
    hide Decisions;
    match op
    case Load(_, _, _, _, _) =>
    case Write(call, now) => WriteKeepsInv(s, call, now);
    case CheckDuplicate(_, _, _, _) =>
    case Insert(_, _) =>
  }

  /** In every interleaving, a request is decided at most once: it is pending exactly while no decision has
      taken effect; then it carries the deciding user, and an expiry exactly if the decision was to approve. */
  lemma {:induction false} RunKeepsInv(s: State, ops: seq<Op>)
    requires Inv(s)
    ensures Inv(Run(s, ops))
    decreases |ops|
  {
    if ops != [] {
      StepKeepsInv(s, ops[0]);
      RunKeepsInv(Step(s, ops[0]), ops[1..]);
    }
  }

  const START := State(map[], map[], [])

  /** For any interleaving of any number of calls from an empty table: at most one decision ever takes effect
      on a request; its approver is set exactly once decided, to the deciding user, and its expiry exactly if
      that decision was to approve, to durationMinutes after that write; a pending request has none of these. */
  lemma DecidedAtMostOnce(ops: seq<Op>, id: string)
    requires id in Run(START, ops).rows
    ensures var s := Run(START, ops);
            var r, decisions := s.rows[id], Decisions(s.log, id);
            && |decisions| <= 1
            && (r.status.Pending? <==> decisions == [])
            && (decisions != [] ==> r.approverId == Some(decisions[0].actor))
            && (decisions == [] ==> r.approverId == None)
            && r.expiresAt == (if decisions != [] && decisions[0].action == Approve
                               then Some(decisions[0].at + 60_000 * r.durationMinutes) else None)
            && (r.status.Rejected? <==> decisions != [] && decisions[0].action == Reject)
  {
    hide Run, Decisions;
    assert Inv(START) by { StartInv(); }
    RunKeepsInv(START, ops);
    assert RowCoherent(Run(START, ops).rows[id], Decisions(Run(START, ops).log, id));
  }

  lemma StartInv()
    ensures Inv(START)
  {
  }

  /** For any interleaving, every write that took effect was made by an actor whom the approver check had accepted
      when the request was loaded, or was the check-in of the requester. */
  lemma EveryWriteIsAuthorized(ops: seq<Op>, i: nat)
    requires i < |Run(START, ops).log|
    ensures var s := Run(START, ops);
            var e := s.log[i];
            && e.checkout in s.rows
            && (e.action.Checkin? ==> e.allowed || e.actor == s.rows[e.checkout].requester)
            && (!e.action.Checkin? ==> e.allowed)
  {
    hide Run, RowCoherent, CallCoherent, Decisions;
    assert Inv(START) by { StartInv(); }
    RunKeepsInv(START, ops);
    assert Authorized(Run(START, ops).rows, Run(START, ops).log[i]);
  }

  /** What a load remembers of the approver check is what the check said. */
  lemma LoadRemembersTheCheck(s: State, call: nat, action: Action, checkout: string, actor: string, allowed: bool)
    requires call !in s.calls
    ensures var calls := Step(s, Load(call, action, checkout, actor, allowed)).calls;
            call in calls ==>
              && calls[call].Loaded? && calls[call].allowed == allowed && calls[call].actor == actor
              && calls[call].action == action && calls[call].checkout == checkout
  {
  }

  lemma RunTwo(s: State, first: Op, second: Op)
    ensures Run(s, [first, second]) == Step(Step(s, first), second)
  {
    hide Step;
    assert [first, second][1..] == [second] && [second][1..] == [];
    assert Run(Step(Step(s, first), second), []) == Step(Step(s, first), second);
  }

  /** The uninterrupted calls are the interleavings in which nothing comes between their two statements. */
  lemma UninterruptedCalls(rows: Rows, action: Action, checkout: string, actor: string, allowed: bool, now: int,
                           requester: string, resource: Resource, durationMinutes: int, newId: string)
    requires newId !in rows
    ensures Run(State(rows, map[], []), [Load(0, action, checkout, actor, allowed), Write(0, now)]).rows ==
            if MayWrite(rows, action, checkout, actor, allowed) then
              rows[checkout := Written(rows[checkout], action, actor, ExpiryFrom(now, rows[checkout].durationMinutes))]
            else rows
    ensures var create := [CheckDuplicate(0, requester, resource, durationMinutes), Insert(0, newId)];
            Run(State(rows, map[], []), create).rows ==
            if DuplicateExists(rows, requester, resource) then rows
            else rows[newId := NewRequest(requester, resource, durationMinutes)]
  {
    hide Run, DuplicateExists, Written;
    RunTwo(State(rows, map[], []), Load(0, action, checkout, actor, allowed), Write(0, now));
    RunTwo(State(rows, map[], []), CheckDuplicate(0, requester, resource, durationMinutes), Insert(0, newId));
  }

  // ---------------------------------------------------------------- how a row may evolve

  /** The life of a request: pending until one decision, then fixed but for the check-in of an approved one. */
  ghost predicate Evolves(r: Request, r': Request) {
    && r'.requester == r.requester && r'.resource == r.resource && r'.durationMinutes == r.durationMinutes
    && (!r.status.Pending? ==> r'.approverId == r.approverId && r'.expiresAt == r.expiresAt)
    && (match r.status
        case Pending => true
        case Approved => r'.status == Approved || r'.status == CheckedIn
        case Rejected => r'.status == Rejected
        case CheckedIn => r'.status == CheckedIn)
  }

  lemma StepEvolves(s: State, op: Op, id: string)
    requires Inv(s) && id in s.rows
    ensures id in Step(s, op).rows && Evolves(s.rows[id], Step(s, op).rows[id])
  {
    hide Decisions;
    if op.Write? && op.call in s.calls {
      assert CallCoherent(s.rows, s.calls[op.call]);
    }
  }

  /** Once decided, a request keeps its approver and expiry for good, and no interleaving of the unguarded
      check-in ever moves a pending or rejected request. */
  lemma {:induction false} RunEvolves(s: State, ops: seq<Op>, id: string)
    requires Inv(s) && id in s.rows
    ensures id in Run(s, ops).rows && Evolves(s.rows[id], Run(s, ops).rows[id])
    decreases |ops|
  {
    hide Inv;
    if ops != [] {
      StepKeepsInv(s, ops[0]);
      StepEvolves(s, ops[0], id);
      RunEvolves(Step(s, ops[0]), ops[1..], id);
    }
  }

  /** Of two calls that both passed their checks on a pending request, the second write to come changes
      nothing, whichever decisions they are. */
  lemma LoserChangesNothing(s: State, first: nat, second: nat, t1: int, t2: int)
    requires Inv(s) && first != second && first in s.calls && second in s.calls
    requires s.calls[first].Loaded? && s.calls[second].Loaded? && s.calls[first].checkout == s.calls[second].checkout
    requires !s.calls[first].action.Checkin? && !s.calls[second].action.Checkin?
    ensures var s1 := Step(s, Write(first, t1));
            var s2 := Step(s1, Write(second, t2));
            s2.rows == s1.rows && s2.log == s1.log
  {
    hide Decisions;
    assert CallCoherent(s.rows, s.calls[first]);
  }

  // ---------------------------------------------------------------- duplicate requests

  /** Both are pending requests of one requester for one resource. */
  predicate SamePending(rows: Rows, a: string, b: string)
    requires b in rows
  {
    PendingFor(rows, a, rows[b].requester, rows[b].resource) && rows[b].status == Pending
  }

  ghost predicate UniquePending(rows: Rows) {
    forall a, b :: a in rows && b in rows && SamePending(rows, a, b) ==> a == b
  }

  ghost predicate AlwaysUnique(s: State, ops: seq<Op>)
    decreases |ops|
  {
    UniquePending(s.rows) && (ops != [] ==> AlwaysUnique(Step(s, ops[0]), ops[1..]))
  }

  predicate Inserts(s: State, op: Op) {
    op.Insert? && op.call in s.calls && s.calls[op.call].Creating? && op.id !in s.rows
  }

  /** The insert finds no pending request of its own requester and resource. */
  ghost predicate InsertClear(s: State, op: Op) {
    Inserts(s, op) ==> !DuplicateExists(s.rows, s.calls[op.call].requester, s.calls[op.call].resource)
  }

  ghost predicate InsertsClear(s: State, ops: seq<Op>)
    decreases |ops|
  {
    ops != [] ==> InsertClear(s, ops[0]) && InsertsClear(Step(s, ops[0]), ops[1..])
  }

  lemma InsertUniqueIff(s: State, op: Op)
    requires UniquePending(s.rows) && Inserts(s, op)
    ensures UniquePending(Step(s, op).rows) <==> InsertClear(s, op)
  {
    var s' := Step(s, op);
    var c := s.calls[op.call];
    if DuplicateExists(s.rows, c.requester, c.resource) {
      var id :| id in s.rows && PendingFor(s.rows, id, c.requester, c.resource);
      assert SamePending(s'.rows, id, op.id);
    } else {
      forall a, b | a in s'.rows && b in s'.rows && SamePending(s'.rows, a, b)
        ensures a == b
      {
        assert a != op.id ==> !PendingFor(s.rows, a, c.requester, c.resource);
        assert b != op.id ==> !PendingFor(s.rows, b, c.requester, c.resource);
        if a != op.id && b != op.id {
          assert SamePending(s.rows, a, b);
        }
      }
    }
  }

  lemma StepUniqueIff(s: State, op: Op)
    requires Inv(s) && UniquePending(s.rows)
    ensures UniquePending(Step(s, op).rows) <==> InsertClear(s, op)
  {
    hide Inv, Step;
    if Inserts(s, op) {
      InsertUniqueIff(s, op);
    } else {
      var s' := Step(s, op);
      forall a, b | a in s'.rows && b in s'.rows && SamePending(s'.rows, a, b)
        ensures a == b
      {
        StepEvolvesBack(s, op, a);
        StepEvolvesBack(s, op, b);
        assert SamePending(s.rows, a, b);
      }
    }
  }

  lemma StepEvolvesBack(s: State, op: Op, id: string)
    requires Inv(s) && !Inserts(s, op) && id in Step(s, op).rows
    ensures id in s.rows && Evolves(s.rows[id], Step(s, op).rows[id])
    ensures Step(s, op).rows[id].status == Pending ==> s.rows[id].status == Pending
  {
    assert id in s.rows;
    StepEvolves(s, op, id);
  }

  /** The duplicate check promises at most one pending request per requester and resource. Interleaved
      with other creates that holds throughout a run exactly if every insert of the run still finds no
      such request, which the check alone does not ensure. */
  lemma {:induction false} UniqueIffInsertsClear(s: State, ops: seq<Op>)
    requires Inv(s) && UniquePending(s.rows)
    ensures AlwaysUnique(s, ops) <==> InsertsClear(s, ops)
    decreases |ops|
  {
    hide Inv, UniquePending, InsertClear;
    if ops != [] {
      StepUniqueIff(s, ops[0]);
      StepKeepsInv(s, ops[0]);
      if InsertClear(s, ops[0]) {
        UniqueIffInsertsClear(Step(s, ops[0]), ops[1..]);
      } else {
        NotUniqueNow(Step(s, ops[0]), ops[1..]);
      }
    }
  }

  lemma NotUniqueNow(s: State, ops: seq<Op>)
    requires !UniquePending(s.rows)
    ensures !AlwaysUnique(s, ops)
  {
  }

  function RaceOf(requester: string, resource: Resource): seq<Op> {
    [CheckDuplicate(0, requester, resource, 60), CheckDuplicate(1, requester, resource, 60),
     Insert(0, "a"), Insert(1, "b")]
  }

  /** Two concurrent creates of the same request both pass the check and both insert. */
  lemma DuplicateRace(requester: string, resource: Resource)
    ensures var end := Run(START, RaceOf(requester, resource));
            && PendingFor(end.rows, "a", requester, resource) && PendingFor(end.rows, "b", requester, resource)
            && !UniquePending(end.rows)
  {
    var s0 := START;
    var ops := RaceOf(requester, resource);
    var s1 := Step(s0, ops[0]);
    var s2 := Step(s1, ops[1]);
    var s3 := Step(s2, ops[2]);
    var s4 := Step(s3, ops[3]);
    assert "a" != "b" by {
      assert "a"[0] != "b"[0];
    }
    assert ops[1..][0] == ops[1] && ops[1..][1..] == ops[2..] && ops[2..][0] == ops[2];
    assert ops[2..][1..] == ops[3..] && ops[3..][0] == ops[3] && ops[3..][1..] == [];
    assert Run(s0, ops) == Run(s1, ops[1..]) == Run(s2, ops[2..]) == Run(s3, ops[3..]) == Run(s4, []) == s4;
    assert SamePending(s4.rows, "a", "b");
  }

  predicate SameCreate(c: Call, d: Call) {
    c.Creating? && d.Creating? && c.requester == d.requester && c.resource == d.resource
  }

  /** At most one create per requester and resource is between its check and its insert. */
  ghost predicate Serial(s: State) {
    forall a, b :: a in s.calls && b in s.calls && SameCreate(s.calls[a], s.calls[b]) ==> a == b
  }

  ghost predicate AlwaysSerial(s: State, ops: seq<Op>)
    decreases |ops|
  {
    Serial(s) && (ops != [] ==> AlwaysSerial(Step(s, ops[0]), ops[1..]))
  }

  /** Every create that passed the check still sees no duplicate. */
  ghost predicate ChecksStand(s: State) {
    forall call :: call in s.calls && s.calls[call].Creating? ==>
      !DuplicateExists(s.rows, s.calls[call].requester, s.calls[call].resource)
  }

  lemma SerialStep(s: State, op: Op)
    requires Inv(s) && Serial(s) && ChecksStand(s)
    ensures ChecksStand(Step(s, op)) && InsertClear(s, op)
  {
    var s' := Step(s, op);
    forall call | call in s'.calls && s'.calls[call].Creating?
      ensures !DuplicateExists(s'.rows, s'.calls[call].requester, s'.calls[call].resource)
    {
      var c := s'.calls[call];
      forall id | id in s'.rows
        ensures !PendingFor(s'.rows, id, c.requester, c.resource)
      {
        if Inserts(s, op) {
          assert call in s.calls && call != op.call && !SameCreate(s.calls[call], s.calls[op.call]);
          assert id != op.id ==> !PendingFor(s.rows, id, c.requester, c.resource);
        } else {
          StepEvolvesBack(s, op, id);
          assert !PendingFor(s.rows, id, c.requester, c.resource);
        }
      }
    }
  }

  /** Creates of the same request that do not overlap keep pending requests unique, whatever else
      interleaves with them. */
  lemma {:induction false} SerialCreatesStayUnique(s: State, ops: seq<Op>)
    requires Inv(s) && UniquePending(s.rows) && ChecksStand(s) && AlwaysSerial(s, ops)
    ensures InsertsClear(s, ops) && AlwaysUnique(s, ops)
    decreases |ops|
  {
    hide Inv, UniquePending, InsertClear, ChecksStand, Serial;
    if ops != [] {
      SerialStep(s, ops[0]);
      StepKeepsInv(s, ops[0]);
      StepUniqueIff(s, ops[0]);
      SerialCreatesStayUnique(Step(s, ops[0]), ops[1..]);
    }
  }

  /** No create begins during the run. */
  predicate StartsNoCreate(ops: seq<Op>) {
    forall i :: 0 <= i < |ops| ==> !ops[i].CheckDuplicate?
  }

  lemma {:induction false} NoNewCreateStaysSerial(s: State, ops: seq<Op>)
    requires Serial(s) && StartsNoCreate(ops)
    ensures AlwaysSerial(s, ops)
    decreases |ops|
  {
    if ops != [] {
      NoNewCreateStep(s, ops[0]);
      NoNewCreateStaysSerial(Step(s, ops[0]), ops[1..]);
    }
  }

  lemma NoNewCreateStep(s: State, op: Op)
    requires Serial(s) && !op.CheckDuplicate?
    ensures Serial(Step(s, op))
  {
    var s' := Step(s, op);
    forall a, b | a in s'.calls && b in s'.calls && SameCreate(s'.calls[a], s'.calls[b])
      ensures a == b
    {
      assert a in s.calls && b in s.calls && SameCreate(s.calls[a], s.calls[b]);
    }
  }

  lemma {:induction false} LongerThanAll(ids: set<string>) returns (n: nat)
    ensures forall id :: id in ids ==> |id| < n
    decreases |ids|
  {
    if ids == {} {
      n := 0;
    } else {
      var id :| id in ids;
      var m := LongerThanAll(ids - {id});
      n := if |id| < m then m else |id| + 1;
    }
  }

  function Repeated(n: nat): string {
    seq(n, _ => 'x')
  }

  lemma SecondInsertDuplicates(s: State, a: nat, b: nat, first: string, second: string)
    requires Inv(s) && a in s.calls && b in s.calls && a != b && SameCreate(s.calls[a], s.calls[b])
    requires first !in s.rows && second !in s.rows && first != second
    ensures !InsertsClear(s, [Insert(a, first), Insert(b, second)])
  {
    var ops := [Insert(a, first), Insert(b, second)];
    var s1 := Step(s, ops[0]);
    assert ops[1..] == [ops[1]];
    assert PendingFor(s1.rows, first, s.calls[b].requester, s.calls[b].resource);
    assert !InsertClear(s1, ops[1]);
    assert !InsertsClear(s1, ops[1..]);
  }

  /** Whatever calls are in flight in a state whose checks stand, every continuation that starts no new create
      keeps pending requests unique if and only if no two creates of the same request are in flight. */
  lemma ContinuationsUniqueIffSerial(s: State)
    requires Inv(s) && UniquePending(s.rows) && ChecksStand(s)
    ensures (forall more :: StartsNoCreate(more) ==> AlwaysUnique(s, more)) <==> Serial(s)
  {
    hide Inv, UniquePending, ChecksStand, AlwaysUnique, InsertsClear;
    if Serial(s) {
      forall more | StartsNoCreate(more)
        ensures AlwaysUnique(s, more)
      {
        NoNewCreateStaysSerial(s, more);
        SerialCreatesStayUnique(s, more);
      }
    } else {
      var a, b :| a in s.calls && b in s.calls && SameCreate(s.calls[a], s.calls[b]) && a != b;
      var n := LongerThanAll(s.rows.Keys);
      var first, second := Repeated(n), Repeated(n + 1);
      assert |first| == n && |second| == n + 1;
      SecondInsertDuplicates(s, a, b, first, second);
      var more := [Insert(a, first), Insert(b, second)];
      UniqueIffInsertsClear(s, more);
      assert StartsNoCreate(more);
    }
  }

  /** An optional id counts exactly if something is left of it when it is trimmed. */
  lemma NormalizeMeans(value: Option<string>, id: string)
    ensures Normalize(value) == Some(id) <==> value.Some? && TrimSpace(value.value) == id && id != ""
  {
  }
}
