/** Who may read a session recording: the access clauses appended to a query's own conditions. */
module RecordingAccess {
  import opened Arrangements
  import opened Options
  import opened Sql
  import opened FilterConditions
  import opened Paging

  /** `ownOnly` is the resolved visibility; None when none was resolved. */
  datatype Access = Access(userId: string, tenantId: string, ownOnly: Option<bool>)

  const SESSION_SCOPE := [SessionTenantId, TeamTenantId]

  /** A blank tenant scope falls back to the session's own tenant column. */
  function ScopeOrDefault(scope: seq<Column>): seq<Column> {
    if scope == [] then [SessionTenantId] else scope
  }

  predicate OwnerFiltered(a: Access) {
    a.tenantId == "" || (a.ownOnly.Some? && a.ownOnly.value)
  }

  function AccessConds(a: Access, scope: seq<Column>, conds: seq<Cond>): seq<Cond> {
    conds
    + Opt(a.tenantId != "", InTenantScope(ScopeOrDefault(scope), a.tenantId, a.userId))
    + Opt(OwnerFiltered(a), Is(RecordingUserId, Text(a.userId)))
  }

  /** The recording belongs to the tenant, or to the caller outside any team; under own-only visibility,
      and without a tenant, only to the caller. */
  predicate Visible(a: Access, scope: seq<Column>, row: Row) {
    && (a.tenantId != "" ==>
         || Coalesce(row, ScopeOrDefault(scope)) == Text(a.tenantId)
         || (Get(row, TeamScopeId).Null? && Get(row, RecordingUserId) == Text(a.userId)))
    && (OwnerFiltered(a) ==> Get(row, RecordingUserId) == Text(a.userId))
  }

  /** Appends the access arguments to the caller's list and returns the clauses that use them. The
      list so far is the compilation of the conditions `before`. */
  method Clauses(a: Access, args: seq<Cell>, scope: seq<Column>, ghost before: seq<Cond>)
    returns (conditions: seq<seq<Token>>, extended: seq<Cell>)
    requires args == Compile(before, 1).1
    ensures (Compile(before, 1).0 + conditions, extended) == Compile(AccessConds(a, scope, before), 1)
  {
    hide Compile, Opt;
    conditions, extended := [], args;
    ghost var c0 := Compile(before, 1).0;
    assert c0 + [] == c0;
    ghost var tenantCond := InTenantScope(ScopeOrDefault(scope), a.tenantId, a.userId);
    CompileOpt(before, a.tenantId != "", tenantCond, 1);
    CompileOpt(before + Opt(a.tenantId != "", tenantCond), OwnerFiltered(a), Is(RecordingUserId, Text(a.userId)), 1);
    if a.tenantId != "" {
      var tenantScope := scope;
      if tenantScope == [] {
        tenantScope := [SessionTenantId];
      }
      extended := extended + [Text(a.tenantId)];
      var tenantIndex := |extended|;
      extended := extended + [Text(a.userId)];
      var userIndex := |extended|;
      conditions := conditions + [[Paren([Atom(CoalesceEqual(tenantScope, tenantIndex)), OR,
                                          Atom(IsNull(TeamScopeId)), AND, Atom(Equal(RecordingUserId, userIndex))])]];
      assert extended == args + Bound(tenantCond);
      assert conditions == [Clause(tenantCond, 1 + |args|)];
    }
    assert (c0 + conditions, extended) == Compile(before + Opt(a.tenantId != "", tenantCond), 1);
    ghost var c1 := conditions;
    if a.tenantId == "" || (a.ownOnly.Some? && a.ownOnly.value) {
      extended := extended + [Text(a.userId)];
      conditions := conditions + [[Atom(Equal(RecordingUserId, |extended|))]];
      assert c0 + conditions == c0 + c1 + [[Atom(Equal(RecordingUserId, |extended|))]];
    }
  }

  method JoinConditions(conditions: seq<seq<Token>>) returns (result: seq<Token>)
    ensures result == JoinAnd(conditions)
  {
    if |conditions| == 0 {
      return [];
    }
    result := conditions[0];
    for i := 1 to |conditions|
      invariant result == JoinAnd(conditions[..i])
    {
      assert conditions[..i + 1][..i] == conditions[..i];
      result := result + [AND] + conditions[i];
    }
    assert conditions[..|conditions|] == conditions;
  }

  lemma AccessMeaning(a: Access, scope: seq<Column>, conds: seq<Cond>, row: Row)
    ensures AllHold(AccessConds(a, scope, conds), row) <==> AllHold(conds, row) && Visible(a, scope, row)
    ensures AllWellTyped(conds) && (forall i :: 0 <= i < |scope| ==> IsTextColumn(scope[i])) ==>
      AllWellTyped(AccessConds(a, scope, conds))
  {
    var tenantCond := InTenantScope(ScopeOrDefault(scope), a.tenantId, a.userId);
    OptHolds(conds, a.tenantId != "", tenantCond, row);
    OptHolds(conds + Opt(a.tenantId != "", tenantCond), OwnerFiltered(a), Is(RecordingUserId, Text(a.userId)), row);
  }

  /** The conditions a recording query ends up with accept exactly the rows its own conditions accept
      and the caller may see, with dense placeholders. */
  lemma AccessFilterMeaning(a: Access, scope: seq<Column>, conds: seq<Cond>, row: Row, args: seq<Cell>)
    requires Typed(row) && conds != [] && AllWellTyped(conds) && forall i :: 0 <= i < |scope| ==> IsTextColumn(scope[i])
    requires Compile(AccessConds(a, scope, conds), 1).1 <= args
    ensures var (clauses, bound) := Compile(AccessConds(a, scope, conds), 1);
            && (Accepts(JoinAnd(clauses), row, args) <==> AllHold(conds, row) && Visible(a, scope, row))
            && Dense(Holes(JoinAnd(clauses)), 1, |bound|)
  {
    hide AccessConds, Visible;
    var all := AccessConds(a, scope, conds);
    AccessMeaning(a, scope, conds, row);
    CompileMeaning(all, 1, row, args);
    CompileDense(all, 1);
    AccessCondsNotEmpty(a, scope, conds);
    JoinMeaning(Compile(all, 1).0, row, args);
  }

  /** Who sees a recording, in full: without a tenant, its owner; with one, everyone whose tenant is that of the
      session or, where the session has none, that of its team, and the owner of a recording outside any team; but
      only the owner where visibility is resolved to one's own. A blank scope is the session's own tenant. */
  lemma VisibleIff(a: Access, row: Row)
    ensures var own := Get(row, RecordingUserId) == Text(a.userId);
            var ofSession, ofTeam := Get(row, SessionTenantId), Get(row, TeamTenantId);
            var tenant := if ofSession != Null then ofSession else ofTeam;
            && (a.tenantId == "" ==> (Visible(a, SESSION_SCOPE, row) <==> own))
            && (a.tenantId != "" && a.ownOnly == Some(true) ==>
                 (Visible(a, SESSION_SCOPE, row) <==>
                   own && (tenant == Text(a.tenantId) || Get(row, TeamScopeId) == Null)))
            && (a.tenantId != "" && a.ownOnly != Some(true) ==>
                 (Visible(a, SESSION_SCOPE, row) <==>
                   tenant == Text(a.tenantId) || (own && Get(row, TeamScopeId) == Null)))
            && (a.tenantId != "" && a.ownOnly != Some(true) ==>
                 (Visible(a, [], row) <==>
                   ofSession == Text(a.tenantId) || (own && Get(row, TeamScopeId) == Null)))
  {
    assert SESSION_SCOPE[1..] == [TeamTenantId] && [TeamTenantId][1..] == [] && [SessionTenantId][1..] == [];
    assert Coalesce(row, [TeamTenantId]) == Get(row, TeamTenantId);
    assert Coalesce(row, [SessionTenantId]) == Get(row, SessionTenantId);
  }

  lemma AccessCondsNotEmpty(a: Access, scope: seq<Column>, conds: seq<Cond>)
    requires conds != []
    ensures AccessConds(a, scope, conds) != []
  {
  }

  function RecordingMatch(sessionID: string, a: Access): Row -> bool {
    (row: Row) => Get(row, SessionId) == Text(sessionID) && Visible(a, SESSION_SCOPE, row)
  }

  lemma RecordingFilter(sessionID: string, a: Access, row: Row, args: seq<Cell>)
    requires Typed(row)
    requires Compile(AccessConds(a, SESSION_SCOPE, [Is(SessionId, Text(sessionID))]), 1).1 <= args
    ensures Accepts(JoinAnd(Compile(AccessConds(a, SESSION_SCOPE, [Is(SessionId, Text(sessionID))]), 1).0), row, args)
            <==> RecordingMatch(sessionID, a)(row)
  {
    hide AccessConds, Visible;
    var own := [Is(SessionId, Text(sessionID))];
    assert AllHold(own, row) <==> Holds(own[0], row);
    AccessFilterMeaning(a, SESSION_SCOPE, own, row, args);
  }

  lemma CompileSingle(c: Cond)
    ensures Compile([c], 1) == ([Clause(c, 1)], Bound(c))
  {
    assert [c][..0] == [];
    assert [] + [Clause(c, 1)] == [Clause(c, 1)] && [] + Bound(c) == Bound(c);
  }

  lemma RecordingSelect(table: seq<Row>, sessionID: string, a: Access, args: seq<Cell>)
    requires forall i :: 0 <= i < |table| ==> Typed(table[i])
    requires args == Compile(AccessConds(a, SESSION_SCOPE, [Is(SessionId, Text(sessionID))]), 1).1
    ensures Select(table, JoinAnd(Compile(AccessConds(a, SESSION_SCOPE, [Is(SessionId, Text(sessionID))]), 1).0), args)
         == Keep(table, RecordingMatch(sessionID, a))
  {
    hide AccessConds, Compile, Select, Keep, RecordingMatch, JoinAnd, Typed;
    var text := JoinAnd(Compile(AccessConds(a, SESSION_SCOPE, [Is(SessionId, Text(sessionID))]), 1).0);
    forall i | 0 <= i < |table|
      ensures Accepts(text, table[i], args) <==> RecordingMatch(sessionID, a)(table[i])
    {
      RecordingFilter(sessionID, a, table[i], args);
    }
    SelectIsKeep(table, text, args, RecordingMatch(sessionID, a));
  }

  /** The head of an arrangement has the least key. */
  lemma FirstHasLeastKey(rows: seq<Row>, key: Row -> int, arranged: seq<Row>)
    requires Arranges(rows, key, arranged)
    ensures |arranged| == |rows|
    ensures rows != [] ==> arranged[0] in rows && forall row :: row in rows ==> key(arranged[0]) <= key(row)
  {
    assert |arranged| == |multiset(arranged)| && |rows| == |multiset(rows)|;
    if rows != [] {
      assert arranged[0] in multiset(rows);
      forall row | row in rows
        ensures key(arranged[0]) <= key(row)
      {
        assert row in multiset(arranged);
        var i :| 0 <= i < |arranged| && arranged[i] == row;
      }
    }
  }

  /** The recording query: a newest recording of the session among those the caller may see, if there is any.
      `table` is the recordings joined with their connections, sessions and teams. */
  method GetSessionRecording(table: seq<Row>, sessionID: string, a: Access, order: Orderer<Row>)
    returns (found: Option<Row>)
    requires forall i :: 0 <= i < |table| ==> Typed(table[i])
    requires OrdersBy(order, NewestFirst())
    ensures var rows := Keep(table, RecordingMatch(sessionID, a));
            && (found.None? <==> rows == [])
            && (found.Some? ==> found.value in rows)
            && (found.Some? ==>
                 forall row :: row in rows && Get(row, CreatedAt).Time? && Get(found.value, CreatedAt).Time? ==>
                   Get(row, CreatedAt).at <= Get(found.value, CreatedAt).at)
  {
    CompileSingle(Is(SessionId, Text(sessionID)));
    hide AccessConds, Compile, Select, Keep, RecordingMatch, NewestFirst;
    var conditions, args := [[Atom(Equal(SessionId, 1))]], [Text(sessionID)];
    var more, extended := Clauses(a, args, SESSION_SCOPE, [Is(SessionId, Text(sessionID))]);
    conditions := conditions + more;
    var text := JoinConditions(conditions);
    RecordingSelect(table, sessionID, a, extended);
    var rows := Select(table, text, extended);
    FirstHasLeastKey(rows, NewestFirst(), order(rows));
    var page := LimitOffset(order(rows), 1, 0);
    found := if page == [] then None else Some(page[0]);
    if found.Some? {
      forall row | row in rows && Get(row, CreatedAt).Time? && Get(found.value, CreatedAt).Time?
        ensures Get(row, CreatedAt).at <= Get(found.value, CreatedAt).at
      {
        NewestFirstMeans(found.value, row);
      }
    }
  }
}
