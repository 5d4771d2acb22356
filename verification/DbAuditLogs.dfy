/** The database-audit filter builder: tenant first, arguments appended before they are numbered. */
module DbAuditLogs {
  import opened Options
  import opened Sql
  import opened FilterConditions
  import opened Texts

  datatype DbAuditQuery = DbAuditQuery(
    userId: string,
    connectionId: string,
    queryType: string,
    blocked: Option<bool>,
    startDate: Option<int>,
    endDate: Option<int>,
    search: string)

  function IdConds(q: DbAuditQuery, tenantID: string): seq<Cond> {
    []
    + Opt(true, Is(TenantId, Text(tenantID)))
    + Opt(q.userId != "", Is(UserId, Text(q.userId)))
    + Opt(q.connectionId != "", Is(ConnectionId, Text(q.connectionId)))
    + Opt(q.queryType != "", IsLabel(QueryType, q.queryType, DbQueryType))
  }

  function DetailConds(q: DbAuditQuery, conds: seq<Cond>): seq<Cond> {
    conds
    + Opt(q.blocked.Some?, Is(Blocked, Bool(q.blocked.Some? && q.blocked.value)))
    + Opt(q.startDate.Some?, NotBefore(CreatedAt, GetOr(q.startDate, 0)))
    + Opt(q.endDate.Some?, NotAfter(CreatedAt, GetOr(q.endDate, 0)))
    + Opt(q.search != "", DbSearch(TrimSpace(q.search)))
  }

  function DbConds(q: DbAuditQuery, tenantID: string): seq<Cond> {
    DetailConds(q, IdConds(q, tenantID))
  }

  predicate MatchesIds(q: DbAuditQuery, tenantID: string, row: Row) {
    && Get(row, TenantId) == Text(tenantID)
    && (q.userId != "" ==> Get(row, UserId) == Text(q.userId))
    && (q.connectionId != "" ==> Get(row, ConnectionId) == Text(q.connectionId))
    && (q.queryType != "" ==> Get(row, QueryType) == Text(q.queryType))
  }

  predicate MatchesDetails(q: DbAuditQuery, row: Row) {
    && (q.blocked.Some? ==> Get(row, Blocked) == Bool(q.blocked.value))
    && (q.startDate.Some? ==> Get(row, CreatedAt).Time? && q.startDate.value <= Get(row, CreatedAt).at)
    && (q.endDate.Some? ==> Get(row, CreatedAt).Time? && Get(row, CreatedAt).at <= q.endDate.value)
    && (q.search != "" ==>
         var term := TrimSpace(q.search);
         || TextLike(row, QueryText, term)
         || (Get(row, TablesAccessed).Texts? && Lower(term) in Get(row, TablesAccessed).items)
         || TextLike(row, BlockReason, term))
  }

  /** What a database-audit query means for a row of the tenant. */
  predicate MatchesDb(q: DbAuditQuery, tenantID: string, row: Row) {
    MatchesIds(q, tenantID, row) && MatchesDetails(q, row)
  }

  method BuildFilters(q: DbAuditQuery, tenantID: string) returns (text: seq<Token>, args: seq<Cell>)
    ensures var (clauses, bound) := Compile(DbConds(q, tenantID), 1);
            text == JoinAnd(clauses) && args == bound
  {
    hide Compile, Clause, Bound, Opt;
    var b := new AppendThenNumber();
    b.AddIf(true, Is(TenantId, Text(tenantID)));
    b.AddIf(q.userId != "", Is(UserId, Text(q.userId)));
    b.AddIf(q.connectionId != "", Is(ConnectionId, Text(q.connectionId)));
    b.AddIf(q.queryType != "", IsLabel(QueryType, q.queryType, DbQueryType));
    b.AddIf(q.blocked.Some?, Is(Blocked, Bool(q.blocked.Some? && q.blocked.value)));
    b.AddIf(q.startDate.Some?, NotBefore(CreatedAt, GetOr(q.startDate, 0)));
    b.AddIf(q.endDate.Some?, NotAfter(CreatedAt, GetOr(q.endDate, 0)));
    b.AddIf(q.search != "", DbSearch(TrimSpace(q.search)));
    text, args := JoinAnd(b.clauses), b.args;
  }

  /** The query type is left out or spelled as a label. */
  predicate TypeRuns(q: DbAuditQuery) {
    q.queryType == "" || q.queryType in Labels(DbQueryType)
  }

  lemma IdMeaning(q: DbAuditQuery, tenantID: string, row: Row)
    ensures AllHold(IdConds(q, tenantID), row) <==> MatchesIds(q, tenantID, row)
    ensures AllWellShaped(IdConds(q, tenantID))
    ensures AllWellTyped(IdConds(q, tenantID)) <==> TypeRuns(q)
  {
    hide Opt, Labels;
    var c0: seq<Cond> := [];
    var c1 := c0 + Opt(true, Is(TenantId, Text(tenantID)));
    var c2 := c1 + Opt(q.userId != "", Is(UserId, Text(q.userId)));
    var c3 := c2 + Opt(q.connectionId != "", Is(ConnectionId, Text(q.connectionId)));
    assert AllHold(c0, row) && AllWellTyped(c0) && AllWellShaped(c0);
    hide AllHold, AllWellTyped, AllWellShaped;
    OptHolds(c0, true, Is(TenantId, Text(tenantID)), row);
    OptHolds(c1, q.userId != "", Is(UserId, Text(q.userId)), row);
    OptHolds(c2, q.connectionId != "", Is(ConnectionId, Text(q.connectionId)), row);
    OptHolds(c3, q.queryType != "", IsLabel(QueryType, q.queryType, DbQueryType), row);
  }

  lemma DetailMeaning(q: DbAuditQuery, conds: seq<Cond>, row: Row)
    ensures AllHold(DetailConds(q, conds), row) <==> AllHold(conds, row) && MatchesDetails(q, row)
    ensures AllWellTyped(DetailConds(q, conds)) <==> AllWellTyped(conds)
    ensures AllWellShaped(conds) ==> AllWellShaped(DetailConds(q, conds))
  {
    hide Opt, AllHold, AllWellTyped, AllWellShaped, Match, TrimSpace, Lower;
    var c1 := conds + Opt(q.blocked.Some?, Is(Blocked, Bool(q.blocked.Some? && q.blocked.value)));
    var c2 := c1 + Opt(q.startDate.Some?, NotBefore(CreatedAt, GetOr(q.startDate, 0)));
    var c3 := c2 + Opt(q.endDate.Some?, NotAfter(CreatedAt, GetOr(q.endDate, 0)));
    OptHolds(conds, q.blocked.Some?, Is(Blocked, Bool(q.blocked.Some? && q.blocked.value)), row);
    OptHolds(c1, q.startDate.Some?, NotBefore(CreatedAt, GetOr(q.startDate, 0)), row);
    OptHolds(c2, q.endDate.Some?, NotAfter(CreatedAt, GetOr(q.endDate, 0)), row);
    OptHolds(c3, q.search != "", DbSearch(TrimSpace(q.search)), row);
  }

  lemma {:induction false} CompileLength(conds: seq<Cond>, from: nat)
    ensures |Compile(conds, from).0| == |conds|
  {
    if conds != [] {
      CompileLength(conds[..|conds| - 1], from);
    }
  }

  /** The WHERE clause accepts exactly the tenant's rows that the query describes, with placeholders
      $1, ..., $k for its k arguments; and it is an SQL error, on every row, exactly if the query type is neither
      empty nor a label of its enum. */
  lemma DbFilterMeaning(q: DbAuditQuery, tenantID: string, row: Row, args: seq<Cell>)
    requires Typed(row) && Compile(DbConds(q, tenantID), 1).1 <= args
    ensures var text := JoinAnd(Compile(DbConds(q, tenantID), 1).0);
            && (Eval(text, row, args) == Failed <==> !TypeRuns(q))
            && (TypeRuns(q) ==> (Accepts(text, row, args) <==> MatchesDb(q, tenantID, row)))
    ensures Dense(Holes(JoinAnd(Compile(DbConds(q, tenantID), 1).0)), 1, |Compile(DbConds(q, tenantID), 1).1|)
  {
    hide MatchesIds, MatchesDetails, DetailConds, IdConds, TypeRuns;
    var conds := DbConds(q, tenantID);
    IdMeaning(q, tenantID, row);
    DetailMeaning(q, IdConds(q, tenantID), row);
    CompileFailsIff(conds, 1, row, args);
    CompileDense(conds, 1);
    DbCondsNotEmpty(q, tenantID);
    JoinFails(Compile(conds, 1).0, row, args);
    if TypeRuns(q) {
      CompileMeaning(conds, 1, row, args);
      JoinMeaning(Compile(conds, 1).0, row, args);
    }
  }

  // ---------------------------------------------------------------- requests

  /** The query type of a request: trimmed, upper-cased, and refused unless it is then a label. */
  function ParseQueryType(raw: string): Option<string> {
    var text := TrimSpace(raw);
    if text == "" then Some("")
    else if Upper(text) in Labels(DbQueryType) then Some(Upper(text)) else None
  }

  /** Every query type that a request can carry runs, and every label can be asked for, in any letter case. */
  lemma ParsedTypesRun(raw: string, q: DbAuditQuery)
    ensures ParseQueryType(raw).Some? ==> TypeRuns(q.(queryType := ParseQueryType(raw).value))
    ensures Upper(TrimSpace(raw)) in Labels(DbQueryType) ==> ParseQueryType(raw) == Some(Upper(TrimSpace(raw)))
  {
    hide Labels, Upper;
    EmptyIsNoLabel();
    if TrimSpace(raw) == "" {
      assert Upper("") == "" by { UpperOfNothing(); }
    }
  }

  lemma UpperOfNothing()
    ensures Upper("") == ""
  {
  }

  lemma EmptyIsNoLabel()
    ensures "" !in Labels(DbQueryType)
  {
    assert forall i :: 0 <= i < |Labels(DbQueryType)| ==> |Labels(DbQueryType)[i]| > 0;
  }

  lemma DbCondsNotEmpty(q: DbAuditQuery, tenantID: string)
    ensures DbConds(q, tenantID) != []
  {
    assert |IdConds(q, tenantID)| >= 1;
  }
}
