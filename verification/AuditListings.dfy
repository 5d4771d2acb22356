/**
 The three audit listings: composed filters, ORDER BY, LIMIT and OFFSET.

 The order in which a query returns rows of equal sort key is the database's choice, so every listing takes
 an `Orderer` that may break ties as it likes; `rank` is the declaration order of the action labels.
 */
module AuditListings {
  import opened Arrangements
  import opened AuditLogs
  import opened FilterConditions
  import opened Options
  import opened Paging
  import opened Sql
  import opened Texts

  /** A result page as the services return it. */
  datatype Listing = Listing(data: seq<Row>, total: nat, totalPages: nat)

  /** The sort key of `ORDER BY field direction`: rows come by ascending key. */
  function SortKey(q: AuditQuery, rank: string -> int): Row -> int {
    (row: Row) =>
      var value := if q.sortBy == "action" then (if Get(row, Action).Text? then rank(Get(row, Action).text) else 0)
                   else if Get(row, CreatedAt).Time? then Get(row, CreatedAt).at else 0;
      if SameText(q.sortOrder, "asc") then value else -value
  }

  function PageListing(rows: seq<Row>, order: Orderer<Row>, page: nat, limit: nat): Listing
    requires page >= 1 && limit >= 1
  {
    Listing(PageOf(order(rows), page, limit), |rows|, TotalPages(|rows|, limit))
  }

  /** `SELECT ... WHERE text ORDER BY ... LIMIT $i OFFSET $j`. */
  function Query(
    table: seq<Row>, text: seq<Token>, order: Orderer<Row>, limitHole: nat, offsetHole: nat, args: seq<Cell>)
    : seq<Row>
    requires 1 <= limitHole <= |args| && args[limitHole - 1].Int? && args[limitHole - 1].value >= 0
    requires 1 <= offsetHole <= |args| && args[offsetHole - 1].Int? && args[offsetHole - 1].value >= 0
  {
    LimitOffset(order(Select(table, text, args)), args[limitHole - 1].value, args[offsetHole - 1].value)
  }

  ghost predicate AllTyped(table: seq<Row>) {
    forall i :: 0 <= i < |table| ==> Typed(table[i])
  }

  function CallerMatch(userID: string, q: AuditQuery): Row -> bool {
    (row: Row) => Matches(EMPTY_QUERY.(userId := userID), row) && Matches(q, row)
  }

  function ScopedMatch(scope: Column, value: string, q: AuditQuery): Row -> bool {
    (row: Row) => Get(row, scope) == Text(value) && Matches(q, row)
  }

  lemma TrueClause(row: Row, args: seq<Cell>)
    ensures var first := [[Atom(OneIsOne)]];
            Closed(first) && AllTrue(first, row, args) && JoinAnd(first) == [Atom(OneIsOne)]
  {
  }

  /** The two filters of ListAuditLogs, for any argument list that starts with both argument groups. */
  lemma CallerFilter(userID: string, q: AuditQuery, row: Row, args: seq<Cell>)
    requires Typed(row)
    requires var (c1, a1) := Compile(AuditConds(EMPTY_QUERY.(userId := userID)), 1);
             var (c2, a2) := Compile(AuditConds(q), |a1| + 1);
             a1 + a2 <= args
    ensures var (c1, a1) := Compile(AuditConds(EMPTY_QUERY.(userId := userID)), 1);
            var (c2, a2) := Compile(AuditConds(q), |a1| + 1);
            Accepts([Atom(OneIsOne)] + AndTail(c1) + AndTail(c2), row, args) <==> CallerMatch(userID, q)(row)
  {
    TrueClause(row, args);
    hide AuditConds, Matches, Compile, JoinAnd, AndTail, Eval, EvalToken, AllTrue, Typed;
    var user := EMPTY_QUERY.(userId := userID);
    var (c1, a1) := Compile(AuditConds(user), 1);
    var (c2, a2) := Compile(AuditConds(q), |a1| + 1);
    var first := [[Atom(OneIsOne)]];
    BoundSplit(args, 1, a1, a2);
    AuditFilterMeaning(first, user, 1, row, args);
    AuditFilterMeaning(first + c1, q, |a1| + 1, row, args);
    JoinMeaning(first + c1 + c2, row, args);
  }

  function CallerText(userID: string, q: AuditQuery): seq<Token> {
    var (c1, a1) := Compile(AuditConds(EMPTY_QUERY.(userId := userID)), 1);
    [Atom(OneIsOne)] + AndTail(c1) + AndTail(Compile(AuditConds(q), |a1| + 1).0)
  }

  function CallerArgs(userID: string, q: AuditQuery): seq<Cell> {
    var a1 := Compile(AuditConds(EMPTY_QUERY.(userId := userID)), 1).1;
    a1 + Compile(AuditConds(q), |a1| + 1).1
  }

  lemma CallerSelect(table: seq<Row>, userID: string, q: AuditQuery, args: seq<Cell>)
    requires AllTyped(table) && CallerArgs(userID, q) <= args
    ensures Select(table, CallerText(userID, q), args) == Keep(table, CallerMatch(userID, q))
  {
    hide AuditConds, Matches, Compile, AndTail, Accepts, Typed, Select, Keep, CallerMatch;
    forall i | 0 <= i < |table|
      ensures Accepts(CallerText(userID, q), table[i], args) <==> CallerMatch(userID, q)(table[i])
    {
      CallerFilter(userID, q, table[i], args);
    }
    SelectIsKeep(table, CallerText(userID, q), args, CallerMatch(userID, q));
  }

  lemma OrderArranges(rows: seq<Row>, order: Orderer<Row>, key: Row -> int)
    requires OrdersBy(order, key)
    ensures Arranges(rows, key, order(rows))
  {
  }

  method ListAuditLogs(table: seq<Row>, userID: string, q: AuditQuery, order: Orderer<Row>, rank: string -> int)
    returns (r: Listing)
    requires AllTyped(table) && q.page >= 1 && q.limit >= 1 && OrdersBy(order, SortKey(q, rank))
    ensures var rows := Keep(table, CallerMatch(userID, q));
            r == PageListing(rows, order, q.page, q.limit) && Arranges(rows, SortKey(q, rank), order(rows))
  {
    hide AuditConds, Matches, Compile, AndTail, Select, Keep, CallerMatch, AllTyped, OrdersBy, Arranges, SortKey;
    var baseSQL, args := BuildAuditFilters(EMPTY_QUERY.(userId := userID), 1);
    var filterSQL, filterArgs := BuildAuditFilters(q, |args| + 1);
    args := args + filterArgs;
    var text := [Atom(OneIsOne)] + baseSQL + filterSQL;
    assert text == CallerText(userID, q) && args == CallerArgs(userID, q);
    var bound := args + [Int(q.limit), Int((q.page - 1) * q.limit)];
    var items := Query(table, text, order, |args| + 1, |args| + 2, bound);
    var total := |Select(table, text, args)|;
    CallerSelect(table, userID, q, bound);
    CallerSelect(table, userID, q, args);
    OrderArranges(Keep(table, CallerMatch(userID, q)), order, SortKey(q, rank));
    hide CallerText, CallerArgs;
    r := Listing(items, total, TotalPages(total, q.limit));
  }

  /** A scope on $1 followed by the filter numbered from $2. */
  lemma ScopedFilter(scope: Column, value: string, q: AuditQuery, row: Row, args: seq<Cell>)
    requires Typed(row) && IsTextColumn(scope)
    requires [Text(value)] + Compile(AuditConds(q), 2).1 <= args
    ensures Accepts([Atom(Equal(scope, 1))] + AndTail(Compile(AuditConds(q), 2).0), row, args)
            <==> ScopedMatch(scope, value, q)(row)
  {
    hide AuditConds, Matches;
    var (clauses, bound) := Compile(AuditConds(q), 2);
    var first := [[Atom(Equal(scope, 1))]];
    assert args[0] == Text(value);
    BoundSplit(args, 1, [Text(value)], bound);
    AuditFilterMeaning(first, q, 2, row, args);
    JoinMeaning(first + clauses, row, args);
    assert JoinAnd(first) == [Atom(Equal(scope, 1))];
    assert AllTrue(first, row, args) <==> EvalToken(first[0][0], row, args) == True;
  }

  lemma ScopedSelect(table: seq<Row>, scope: Column, value: string, q: AuditQuery, args: seq<Cell>)
    requires AllTyped(table) && IsTextColumn(scope) && [Text(value)] + Compile(AuditConds(q), 2).1 <= args
    ensures Select(table, [Atom(Equal(scope, 1))] + AndTail(Compile(AuditConds(q), 2).0), args)
         == Keep(table, ScopedMatch(scope, value, q))
  {
    hide AuditConds, Matches, Compile, AndTail, Accepts, Typed, Select, Keep, ScopedMatch;
    var text := [Atom(Equal(scope, 1))] + AndTail(Compile(AuditConds(q), 2).0);
    forall i | 0 <= i < |table|
      ensures Accepts(text, table[i], args) <==> ScopedMatch(scope, value, q)(table[i])
    {
      ScopedFilter(scope, value, q, table[i], args);
    }
    SelectIsKeep(table, text, args, ScopedMatch(scope, value, q));
  }

  /** The common tail of the tenant and connection listings. */
  method ListScoped(table: seq<Row>, scope: Column, value: string, filter: AuditQuery, order: Orderer<Row>,
                    page: nat, limit: nat)
    returns (r: Listing)
    requires AllTyped(table) && IsTextColumn(scope) && page >= 1 && limit >= 1
    ensures r == PageListing(Keep(table, ScopedMatch(scope, value, filter)), order, page, limit)
  {
    hide AuditConds, Matches, Compile, AndTail, Select, Keep, ScopedMatch, AllTyped;
    var baseArgs := [Text(value)];
    var filterSQL, filterArgs := BuildAuditFilters(filter, |baseArgs| + 1);
    var args := baseArgs + filterArgs;
    var text := [Atom(Equal(scope, 1))] + filterSQL;
    var bound := args + [Int(limit), Int((page - 1) * limit)];
    var items := Query(table, text, order, |args| + 1, |args| + 2, bound);
    var total := |Select(table, text, args)|;
    ScopedSelect(table, scope, value, filter, bound);
    ScopedSelect(table, scope, value, filter, args);
    r := Listing(items, total, TotalPages(total, limit));
  }

  // ---------------------------------------------------------------- the tenant listing

  datatype Membership = Membership(tenantId: string, userId: string, accepted: bool)

  /** The rows that one audit row contributes to its join with the accepted memberships of its user. */
  function JoinRow(row: Row, members: seq<Membership>): seq<Row> {
    if members == [] then []
    else
      var last := members[|members| - 1];
      JoinRow(row, members[..|members| - 1])
      + (if last.accepted && Get(row, UserId) == Text(last.userId)
         then [row[MemberTenantId := Text(last.tenantId)]] else [])
  }

  function Joined(table: seq<Row>, members: seq<Membership>): seq<Row> {
    if table == [] then [] else Joined(table[..|table| - 1], members) + JoinRow(table[|table| - 1], members)
  }

  /** A user belongs to a tenant once. */
  ghost predicate OnePerTenant(members: seq<Membership>) {
    forall i, j :: 0 <= i < j < |members| ==>
      members[i].tenantId != members[j].tenantId || members[i].userId != members[j].userId
  }

  predicate AcceptedIn(members: seq<Membership>, tenantID: string, row: Row) {
    exists i :: 0 <= i < |members| && members[i].accepted && members[i].tenantId == tenantID
                && Get(row, UserId) == Text(members[i].userId)
  }

  function WithTenant(tenantID: string): Row -> Row {
    (row: Row) => row[MemberTenantId := Text(tenantID)]
  }

  function MapRows(rows: seq<Row>, f: Row -> Row): seq<Row> {
    if rows == [] then [] else MapRows(rows[..|rows| - 1], f) + [f(rows[|rows| - 1])]
  }

  function TenantMatch(members: seq<Membership>, tenantID: string, q: AuditQuery): Row -> bool {
    (row: Row) => AcceptedIn(members, tenantID, row) && Matches(q, row)
  }

  lemma MatchesIgnoresTenant(q: AuditQuery, row: Row, tenantID: string)
    ensures Matches(q, row[MemberTenantId := Text(tenantID)]) <==> Matches(q, row)
  {
    hide TextLike, TextLikeOrEmpty;
    var joined := row[MemberTenantId := Text(tenantID)];
    assert forall col: Column {:trigger Get(joined, col)} ::
        col != MemberTenantId ==> Get(joined, col) == Get(row, col);
    LikeIgnoresTenant(row, tenantID, q.ipAddress);
    LikeIgnoresTenant(row, tenantID, q.search);
  }

  lemma LikeIgnoresTenant(row: Row, tenantID: string, term: string)
    ensures var joined := row[MemberTenantId := Text(tenantID)];
            && (TextLike(joined, IpAddress, term) <==> TextLike(row, IpAddress, term))
            && (TextLikeOrEmpty(joined, TargetType, term) <==> TextLikeOrEmpty(row, TargetType, term))
            && (TextLikeOrEmpty(joined, TargetId, term) <==> TextLikeOrEmpty(row, TargetId, term))
            && (TextLikeOrEmpty(joined, IpAddress, term) <==> TextLikeOrEmpty(row, IpAddress, term))
            && (TextLikeOrEmpty(joined, Details, term) <==> TextLikeOrEmpty(row, Details, term))
  {
    hide Match, Around;
  }

  lemma KeepSnoc(rows: seq<Row>, last: Row, p: Row -> bool)
    ensures Keep(rows + [last], p) == Keep(rows, p) + (if p(last) then [last] else [])
  {
    assert (rows + [last])[..|rows|] == rows;
  }

  lemma {:induction false} KeepConcat(a: seq<Row>, b: seq<Row>, p: Row -> bool)
    ensures Keep(a + b, p) == Keep(a, p) + Keep(b, p)
    decreases |b|
  {
    hide Keep;
    if b == [] {
      assert a + b == a;
      KeepNothing(p);
    } else {
      var init, last := b[..|b| - 1], b[|b| - 1];
      assert a + b == (a + init) + [last] && b == init + [last];
      KeepConcat(a, init, p);
      KeepSnoc(a + init, last, p);
      KeepSnoc(init, last, p);
    }
  }

  lemma KeepNothing(p: Row -> bool)
    ensures Keep([], p) == []
  {
  }

  lemma AcceptedSnoc(members: seq<Membership>, tenantID: string, row: Row)
    requires members != []
    ensures var last := members[|members| - 1];
            AcceptedIn(members, tenantID, row) <==>
              || AcceptedIn(members[..|members| - 1], tenantID, row)
              || (last.accepted && last.tenantId == tenantID && Get(row, UserId) == Text(last.userId))
  {
    var init := members[..|members| - 1];
    assert forall i :: 0 <= i < |init| ==> members[i] == init[i];
  }

  lemma {:induction false} KeepJoinRow(row: Row, members: seq<Membership>, tenantID: string, q: AuditQuery)
    requires OnePerTenant(members)
    ensures Keep(JoinRow(row, members), ScopedMatch(MemberTenantId, tenantID, q)) ==
            if TenantMatch(members, tenantID, q)(row) then [row[MemberTenantId := Text(tenantID)]] else []
    decreases |members|
  {
    hide Keep, Matches, AcceptedIn;
    var p := ScopedMatch(MemberTenantId, tenantID, q);
    KeepNothing(p);
    if members == [] {
      assert !AcceptedIn(members, tenantID, row) by { NobodyAccepted(tenantID, row); }
    } else {
      var init, last := members[..|members| - 1], members[|members| - 1];
      KeepJoinRow(row, init, tenantID, q);
      AcceptedSnoc(members, tenantID, row);
      AcceptedOnce(members, tenantID, row);
      MatchesIgnoresTenant(q, row, last.tenantId);
      if last.accepted && Get(row, UserId) == Text(last.userId) {
        KeepSnoc(JoinRow(row, init), row[MemberTenantId := Text(last.tenantId)], p);
      } else {
        assert JoinRow(row, init) + [] == JoinRow(row, init);
      }
    }
  }

  lemma NobodyAccepted(tenantID: string, row: Row)
    ensures !AcceptedIn([], tenantID, row)
  {
  }

  lemma AcceptedOnce(members: seq<Membership>, tenantID: string, row: Row)
    requires members != [] && OnePerTenant(members)
    ensures var last := members[|members| - 1];
            last.tenantId == tenantID && Get(row, UserId) == Text(last.userId) ==>
              !AcceptedIn(members[..|members| - 1], tenantID, row)
  {
  }

  /** The tenant listing shows each audit row of an accepted member that the query accepts, exactly once. */
  lemma {:induction false} TenantRowsAreMembersRows(
    table: seq<Row>, members: seq<Membership>, tenantID: string, q: AuditQuery)
    requires OnePerTenant(members)
    ensures Keep(Joined(table, members), ScopedMatch(MemberTenantId, tenantID, q)) ==
            MapRows(Keep(table, TenantMatch(members, tenantID, q)), WithTenant(tenantID))
    decreases |table|
  {
    hide Keep, Matches, AcceptedIn, JoinRow, TenantMatch, ScopedMatch, OnePerTenant;
    var p, r := ScopedMatch(MemberTenantId, tenantID, q), TenantMatch(members, tenantID, q);
    KeepNothing(p);
    KeepNothing(r);
    if table != [] {
      var init, last := table[..|table| - 1], table[|table| - 1];
      TenantRowsAreMembersRows(init, members, tenantID, q);
      KeepConcat(Joined(init, members), JoinRow(last, members), p);
      KeepJoinRow(last, members, tenantID, q);
      assert table == init + [last];
      KeepSnoc(init, last, r);
      var kept := Keep(init, r);
      assert (kept + [last])[..|kept|] == kept && kept + [] == kept;
    }
  }

  lemma {:induction false} JoinRowTyped(row: Row, members: seq<Membership>)
    requires Typed(row)
    ensures AllTyped(JoinRow(row, members))
  {
    if members != [] {
      JoinRowTyped(row, members[..|members| - 1]);
      WithTenantTyped(row, members[|members| - 1].tenantId);
    }
  }

  lemma WithTenantTyped(row: Row, tenantID: string)
    requires Typed(row)
    ensures Typed(row[MemberTenantId := Text(tenantID)])
  {
    var joined := row[MemberTenantId := Text(tenantID)];
    assert forall col: Column {:trigger Get(joined, col)} ::
        col != MemberTenantId ==> Get(joined, col) == Get(row, col);
  }

  lemma {:induction false} JoinedTyped(table: seq<Row>, members: seq<Membership>)
    requires AllTyped(table)
    ensures AllTyped(Joined(table, members))
  {
    hide Typed;
    if table != [] {
      JoinedTyped(table[..|table| - 1], members);
      JoinRowTyped(table[|table| - 1], members);
    }
  }

  method ListTenantAuditLogs(table: seq<Row>, members: seq<Membership>, tenantID: string, q: AuditQuery,
                             order: Orderer<Row>, rank: string -> int)
    returns (r: Listing)
    requires AllTyped(table) && OnePerTenant(members) && q.page >= 1 && q.limit >= 1
    requires OrdersBy(order, SortKey(q, rank))
    ensures var rows := MapRows(Keep(table, TenantMatch(members, tenantID, q)), WithTenant(tenantID));
            r == PageListing(rows, order, q.page, q.limit) && Arranges(rows, SortKey(q, rank), order(rows))
  {
    OrderArranges(MapRows(Keep(table, TenantMatch(members, tenantID, q)), WithTenant(tenantID)), order,
                  SortKey(q, rank));
    hide AllTyped, OrdersBy, Keep, Joined, Arranges, SortKey;
    JoinedTyped(table, members);
    TenantRowsAreMembersRows(table, members, tenantID, q);
    r := ListScoped(Joined(table, members), MemberTenantId, tenantID, q, order, q.page, q.limit);
  }

  /** The connection listing drops the target-type filter. */
  method ListConnectionAuditLogs(table: seq<Row>, connectionID: string, q: AuditQuery, order: Orderer<Row>,
                                 rank: string -> int)
    returns (r: Listing)
    requires AllTyped(table) && q.page >= 1 && q.limit >= 1 && OrdersBy(order, SortKey(q, rank))
    ensures var rows := Keep(table, ScopedMatch(TargetId, connectionID, q.(targetType := "")));
            r == PageListing(rows, order, q.page, q.limit) && Arranges(rows, SortKey(q, rank), order(rows))
  {
    OrderArranges(Keep(table, ScopedMatch(TargetId, connectionID, q.(targetType := ""))), order, SortKey(q, rank));
    hide AllTyped, OrdersBy, Keep, Arranges, SortKey;
    var connectionFilter := q.(targetType := "");
    r := ListScoped(table, TargetId, connectionID, connectionFilter, order, q.page, q.limit);
  }

  // ---------------------------------------------------------------- who sees what

  predicate SeenByCaller(userID: string, q: AuditQuery, row: Row) {
    CallerMatch(userID, q)(row)
  }

  /** The caller's listing never leaves the caller's own rows, whatever the query asks for, exactly for callers
      with an id, which authentication guarantees. */
  lemma OwnRowsOnlyIffIdentified(userID: string)
    ensures (forall q, row {:trigger SeenByCaller(userID, q, row)} ::
               Typed(row) && SeenByCaller(userID, q, row) ==> Get(row, UserId) == Text(userID))
            <==> userID != ""
  {
    if userID == "" {
      var row: Row := map[];
      assert Typed(row) && SeenByCaller(userID, EMPTY_QUERY, row);
    }
  }

  /** Rows carry a primary key. */
  ghost predicate KeyedById(table: seq<Row>) {
    forall i, j :: 0 <= i < j < |table| ==> Get(table[i], Id) != Get(table[j], Id)
  }

  lemma {:induction false} KeepKeyed(table: seq<Row>, p: Row -> bool)
    requires KeyedById(table)
    ensures KeyedById(Keep(table, p)) && Distinct(Keep(table, p))
    ensures forall row :: row in Keep(table, p) ==> row in table
  {
    if table != [] {
      var init := table[..|table| - 1];
      KeepKeyed(init, p);
      forall row | row in init
        ensures row in table && Get(row, Id) != Get(table[|table| - 1], Id)
      {
        var i :| 0 <= i < |init| && init[i] == row;
        assert table[i] == row;
      }
    }
  }

  /** A caller who reads all pages of the listing, each by its own query, gets every matching row of the caller's
      exactly once however the database breaks ties, if and only if no page boundary inside the result falls
      between rows of equal sort key. */
  lemma CallerPagesCoverIff(table: seq<Row>, userID: string, q: AuditQuery, rank: string -> int, arranged: seq<Row>)
    requires KeyedById(table) && q.limit >= 1 && userID != ""
    requires Arranges(Keep(table, CallerMatch(userID, q)), SortKey(q, rank), arranged)
    ensures var rows := Keep(table, CallerMatch(userID, q));
            && (PagesAlwaysCover(rows, SortKey(q, rank), q.limit) <==>
                 CleanBoundaries(arranged, SortKey(q, rank), q.limit))
            && forall i :: 0 <= i < |rows| ==> Get(rows[i], UserId) == Text(userID)
  {
    hide PagesAlwaysCover, CleanBoundaries, Arranges, SortKey, Keep, KeyedById;
    var rows := Keep(table, CallerMatch(userID, q));
    KeepKeyed(table, CallerMatch(userID, q));
    PagesCoverIff(rows, SortKey(q, rank), q.limit, arranged);
    KeepHasProperty(table, CallerMatch(userID, q));
    forall i | 0 <= i < |rows|
      ensures Get(rows[i], UserId) == Text(userID)
    {
      assert CallerMatch(userID, q)(rows[i]);
    }
  }

  function Logged(id: string, userID: string, at: int): Row {
    map[Id := Text(id), UserId := Text(userID), Action := Text("LOGIN"), CreatedAt := Time(at)]
  }

  /** The failing family at its smallest: two log-ins sorted by action, one to a page. Two queries that both
      order correctly can show the first row on both pages and the second on none. */
  lemma TiedRowsAreLost(userID: string, rank: string -> int)
    requires userID != ""
    ensures var q := EMPTY_QUERY.(sortBy := "action", limit := 1);
            var rows := [Logged("a", userID, 1), Logged("b", userID, 2)];
            var queries := TiedQueries(rows, 1, 1);
            && KeyedById(rows)
            && Keep(rows, CallerMatch(userID, q)) == rows
            && AllArrange(rows, SortKey(q, rank), queries)
            && PagesFrom(queries, 1) == [rows[0], rows[0]]
  {
    var q := EMPTY_QUERY.(sortBy := "action", limit := 1);
    var rows := [Logged("a", userID, 1), Logged("b", userID, 2)];
    KeepBoth(userID, q, rows);
    hide CallerMatch, Keep, SortKey, Logged, PagesFrom, TiedQueries;
    LoggedKeys("a", "b", userID, 1, 2, q, rank);
    TwoTiedRows(rows[0], rows[1], SortKey(q, rank));
  }

  lemma LoggedKeys(a: string, b: string, userID: string, s: int, t: int, q: AuditQuery, rank: string -> int)
    requires q.sortBy == "action"
    ensures SortKey(q, rank)(Logged(a, userID, s)) == SortKey(q, rank)(Logged(b, userID, t))
    ensures Get(Logged(a, userID, s), Id) == Text(a) && Get(Logged(b, userID, t), Id) == Text(b)
    ensures "a" != "b"
  {
    hide SameText;
    assert "a"[0] != "b"[0];
    assert Get(Logged(a, userID, s), Action) == Get(Logged(b, userID, t), Action) == Text("LOGIN");
  }

  lemma KeepBoth(userID: string, q: AuditQuery, rows: seq<Row>)
    requires userID != "" && q == EMPTY_QUERY.(sortBy := "action", limit := 1)
    requires rows == [Logged("a", userID, 1), Logged("b", userID, 2)]
    ensures Keep(rows, CallerMatch(userID, q)) == rows
  {
    assert rows[..1] == [rows[0]] && rows[..1][..0] == [];
    assert CallerMatch(userID, q)(rows[0]) && CallerMatch(userID, q)(rows[1]);
    assert Keep(rows[..1], CallerMatch(userID, q)) == [rows[0]];
  }

  // ---------------------------------------------------------------- what the order means

  predicate Ascends(order: string) {
    SameText(order, "asc")
  }

  /** The rows come by time unless the query asks for the action, and latest or last-declared first unless it asks for
      ascending order; so a query that asks for nothing gets the newest first. */
  lemma OrderMeans(q: AuditQuery, rank: string -> int, rows: seq<Row>, arranged: seq<Row>, i: nat, j: nat)
    requires Arranges(rows, SortKey(q, rank), arranged) && i <= j < |arranged|
    requires Get(arranged[i], CreatedAt).Time? && Get(arranged[j], CreatedAt).Time?
    requires Get(arranged[i], Action).Text? && Get(arranged[j], Action).Text?
    ensures var s, t := Get(arranged[i], CreatedAt).at, Get(arranged[j], CreatedAt).at;
            var a, b := rank(Get(arranged[i], Action).text), rank(Get(arranged[j], Action).text);
            && (q.sortBy != "action" && !Ascends(q.sortOrder) ==> s >= t)
            && (q.sortBy != "action" && Ascends(q.sortOrder) ==> s <= t)
            && (q.sortBy == "action" && !Ascends(q.sortOrder) ==> a >= b)
            && (q.sortBy == "action" && Ascends(q.sortOrder) ==> a <= b)
  {
    hide SameText;
  }

  lemma OnlyAscAscends()
    ensures Ascends("asc") && Ascends("ASC") && !Ascends("desc") && !Ascends("")
  {
    assert LowerChar("ASC"[0]) == 'a' && LowerChar("ASC"[1]) == 's' && LowerChar("ASC"[2]) == 'c';
    assert |"desc"| != |"asc"|;
  }
}
