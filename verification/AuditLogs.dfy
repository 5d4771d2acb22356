/**
 The audit-log filter builder.

 The builder grows its clause and argument lists one set field at a time. It is proved to emit the
 compilation of `AuditConds`, whose meaning is `Matches`.
 */
module AuditLogs {
  import opened Options
  import opened Sql
  import opened FilterConditions

  datatype AuditQuery = AuditQuery(
    userId: string,
    action: Option<string>,
    startDate: Option<int>,
    endDate: Option<int>,
    targetType: string,
    ipAddress: string,
    gatewayId: string,
    geoCountry: string,
    flaggedOnly: bool,
    search: string,
    sortBy: string,
    sortOrder: string,
    page: nat,
    limit: nat)

  const EMPTY_QUERY := AuditQuery("", None, None, None, "", "", "", "", false, "", "", "", 1, 50)

  /** The conditions on who did what and when. */
  function ActorConds(q: AuditQuery, conds: seq<Cond>): seq<Cond> {
    conds
    + Opt(q.userId != "", Is(UserId, Text(q.userId)))
    + Opt(q.action.Some?, Is(Action, Text(GetOr(q.action, ""))))
    + Opt(q.startDate.Some?, NotBefore(CreatedAt, GetOr(q.startDate, 0)))
    + Opt(q.endDate.Some?, NotAfter(CreatedAt, GetOr(q.endDate, 0)))
  }

  /** The conditions on the target and the origin. */
  function OriginConds(q: AuditQuery, conds: seq<Cond>): seq<Cond> {
    conds
    + Opt(q.targetType != "", Is(TargetType, Text(q.targetType)))
    + Opt(q.ipAddress != "", Like(IpAddress, q.ipAddress))
    + Opt(q.gatewayId != "", Is(GatewayId, Text(q.gatewayId)))
    + Opt(q.geoCountry != "", Is(GeoCountry, Text(q.geoCountry)))
  }

  /** The conditions on flags and free text. */
  function TextConds(q: AuditQuery, conds: seq<Cond>): seq<Cond> {
    conds
    + Opt(q.flaggedOnly, HasItems(Flags))
    + Opt(q.search != "", AuditSearch(q.search))
  }

  /** The conditions a query asks for, one per set field. */
  function AuditConds(q: AuditQuery): seq<Cond> {
    TextConds(q, OriginConds(q, ActorConds(q, [])))
  }

  predicate MatchesActor(q: AuditQuery, row: Row) {
    && (q.userId != "" ==> Get(row, UserId) == Text(q.userId))
    && (q.action.Some? ==> Get(row, Action) == Text(q.action.value))
    && (q.startDate.Some? ==> Get(row, CreatedAt).Time? && q.startDate.value <= Get(row, CreatedAt).at)
    && (q.endDate.Some? ==> Get(row, CreatedAt).Time? && Get(row, CreatedAt).at <= q.endDate.value)
  }

  predicate MatchesOrigin(q: AuditQuery, row: Row) {
    && (q.targetType != "" ==> Get(row, TargetType) == Text(q.targetType))
    && (q.ipAddress != "" ==> TextLike(row, IpAddress, q.ipAddress))
    && (q.gatewayId != "" ==> Get(row, GatewayId) == Text(q.gatewayId))
    && (q.geoCountry != "" ==> Get(row, GeoCountry) == Text(q.geoCountry))
  }

  predicate MatchesText(q: AuditQuery, row: Row) {
    && (q.flaggedOnly ==> Get(row, Flags).Texts? && Get(row, Flags).items != [])
    && (q.search != "" ==>
         || TextLikeOrEmpty(row, TargetType, q.search)
         || TextLikeOrEmpty(row, TargetId, q.search)
         || TextLikeOrEmpty(row, IpAddress, q.search)
         || TextLikeOrEmpty(row, Details, q.search))
  }

  /** What a query record means for a row, field by field. */
  predicate Matches(q: AuditQuery, row: Row) {
    MatchesActor(q, row) && MatchesOrigin(q, row) && MatchesText(q, row)
  }

  method BuildAuditFilters(q: AuditQuery, startIndex: nat) returns (text: seq<Token>, args: seq<Cell>)
    ensures var (clauses, bound) := Compile(AuditConds(q), startIndex);
            text == AndTail(clauses) && args == bound
  {
    hide Compile, Clause, Bound, Opt, AndTail, JoinAnd;
    var b := new NumberThenAppend(startIndex);
    b.AddIf(q.userId != "", Is(UserId, Text(q.userId)));
    b.AddIf(q.action.Some?, Is(Action, Text(GetOr(q.action, ""))));
    b.AddIf(q.startDate.Some?, NotBefore(CreatedAt, GetOr(q.startDate, 0)));
    b.AddIf(q.endDate.Some?, NotAfter(CreatedAt, GetOr(q.endDate, 0)));
    assert b.conds == ActorConds(q, []);
    hide ActorConds;
    b.AddIf(q.targetType != "", Is(TargetType, Text(q.targetType)));
    b.AddIf(q.ipAddress != "", Like(IpAddress, q.ipAddress));
    b.AddIf(q.gatewayId != "", Is(GatewayId, Text(q.gatewayId)));
    b.AddIf(q.geoCountry != "", Is(GeoCountry, Text(q.geoCountry)));
    assert b.conds == OriginConds(q, ActorConds(q, []));
    hide OriginConds;
    b.AddIf(q.flaggedOnly, HasItems(Flags));
    b.AddIf(q.search != "", AuditSearch(q.search));
    text, args := AndTail(b.clauses), b.args;
  }

  // ---------------------------------------------------------------- meaning

  lemma ActorMeaning(q: AuditQuery, conds: seq<Cond>, row: Row)
    ensures AllHold(ActorConds(q, conds), row) <==> AllHold(conds, row) && MatchesActor(q, row)
    ensures AllWellTyped(conds) ==> AllWellTyped(ActorConds(q, conds))
  {
    hide Opt, AllHold, AllWellTyped;
    var c1 := conds + Opt(q.userId != "", Is(UserId, Text(q.userId)));
    var c2 := c1 + Opt(q.action.Some?, Is(Action, Text(GetOr(q.action, ""))));
    var c3 := c2 + Opt(q.startDate.Some?, NotBefore(CreatedAt, GetOr(q.startDate, 0)));
    OptHolds(conds, q.userId != "", Is(UserId, Text(q.userId)), row);
    OptHolds(c1, q.action.Some?, Is(Action, Text(GetOr(q.action, ""))), row);
    OptHolds(c2, q.startDate.Some?, NotBefore(CreatedAt, GetOr(q.startDate, 0)), row);
    OptHolds(c3, q.endDate.Some?, NotAfter(CreatedAt, GetOr(q.endDate, 0)), row);
  }

  lemma OriginMeaning(q: AuditQuery, conds: seq<Cond>, row: Row)
    ensures AllHold(OriginConds(q, conds), row) <==> AllHold(conds, row) && MatchesOrigin(q, row)
    ensures AllWellTyped(conds) ==> AllWellTyped(OriginConds(q, conds))
  {
    hide Opt, AllHold, AllWellTyped, Match;
    var c1 := conds + Opt(q.targetType != "", Is(TargetType, Text(q.targetType)));
    var c2 := c1 + Opt(q.ipAddress != "", Like(IpAddress, q.ipAddress));
    var c3 := c2 + Opt(q.gatewayId != "", Is(GatewayId, Text(q.gatewayId)));
    OptHolds(conds, q.targetType != "", Is(TargetType, Text(q.targetType)), row);
    OptHolds(c1, q.ipAddress != "", Like(IpAddress, q.ipAddress), row);
    OptHolds(c2, q.gatewayId != "", Is(GatewayId, Text(q.gatewayId)), row);
    OptHolds(c3, q.geoCountry != "", Is(GeoCountry, Text(q.geoCountry)), row);
  }

  lemma TextMeaning(q: AuditQuery, conds: seq<Cond>, row: Row)
    ensures AllHold(TextConds(q, conds), row) <==> AllHold(conds, row) && MatchesText(q, row)
    ensures AllWellTyped(conds) ==> AllWellTyped(TextConds(q, conds))
  {
    hide Opt, AllHold, AllWellTyped, Match, TextLikeOrEmpty;
    OptHolds(conds, q.flaggedOnly, HasItems(Flags), row);
    OptHolds(conds + Opt(q.flaggedOnly, HasItems(Flags)), q.search != "", AuditSearch(q.search), row);
  }

  /** The emitted conditions are the query record's meaning, each set field once. */
  lemma CondsMeanQuery(q: AuditQuery, row: Row)
    ensures AllHold(AuditConds(q), row) <==> Matches(q, row)
    ensures AllWellTyped(AuditConds(q))
  {
    hide MatchesActor, MatchesOrigin, MatchesText, ActorConds, OriginConds, TextConds;
    ActorMeaning(q, [], row);
    OriginMeaning(q, ActorConds(q, []), row);
    TextMeaning(q, OriginConds(q, ActorConds(q, [])), row);
  }

  /** The builder's filter, continued from any condition and numbered from any start index, accepts
      exactly the rows the query record describes, and its placeholders are the dense range of its
      arguments. */
  lemma AuditFilterMeaning(first: seq<seq<Token>>, q: AuditQuery, startIndex: nat, row: Row, args: seq<Cell>)
    requires first != [] && Closed(first) && Typed(row)
    requires BoundAt(args, startIndex, Compile(AuditConds(q), startIndex).1)
    ensures Closed(first + Compile(AuditConds(q), startIndex).0)
    ensures JoinAnd(first) + AndTail(Compile(AuditConds(q), startIndex).0) ==
            JoinAnd(first + Compile(AuditConds(q), startIndex).0)
    ensures AllTrue(first + Compile(AuditConds(q), startIndex).0, row, args) <==>
            AllTrue(first, row, args) && Matches(q, row)
    ensures var (clauses, bound) := Compile(AuditConds(q), startIndex);
            Dense(Holes(JoinAnd(clauses)), startIndex, |bound|)
  {
    hide AuditConds, Matches;
    CondsMeanQuery(q, row);
    ContinuedMeaning(first, AuditConds(q), startIndex, row, args);
    CompileDense(AuditConds(q), startIndex);
  }
}
