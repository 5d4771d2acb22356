/**
 Row conditions and their compilation to SQL clauses with numbered placeholders.

 `Holds` says in plain two-valued logic what a condition means for a row. `Clause` is the
 SQL text a builder emits for it and `Bound` the arguments it binds. `CompileMeaning` and
 `CompileDense` are proved once for every list of conditions and every start index; each
 builder then only has to be shown to emit the compilation of its own conditions.
 */
module FilterConditions {
  import opened Sql
  import opened Texts

  datatype Cond =
    | Is(col: Column, value: Cell)
    | NotBefore(col: Column, at: int)
    | NotAfter(col: Column, at: int)
    | Like(col: Column, term: string)
    | HasItems(col: Column)
    | IsLabel(col: Column, text: string, e: Enum)
    | AuditSearch(term: string)
    | DbSearch(term: string)
    | InTenantScope(scope: seq<Column>, tenant: string, user: string)

  /** The row respects the column types of its table. */
  ghost predicate Typed(row: Row) {
    forall col: Column {:trigger Get(row, col)} ::
      var cell := Get(row, col);
      cell.Null? ||
      (if IsArrayColumn(col) then cell.Texts?
       else if col.CreatedAt? then cell.Time?
       else if col.Blocked? then cell.Bool?
       else cell.Text?)
  }

  predicate IsTextColumn(col: Column) {
    !IsArrayColumn(col) && !col.CreatedAt? && !col.Blocked?
  }

  predicate IsArrayColumn(col: Column) {
    col.Flags? || col.TablesAccessed?
  }

  /** The condition compares a column with a value of the column's type. */
  predicate WellTyped(c: Cond) {
    match c
    case Is(col, value) => if col.Blocked? then value.Bool? else IsTextColumn(col) && value.Text?
    case NotBefore(col, _) => col.CreatedAt?
    case NotAfter(col, _) => col.CreatedAt?
    case Like(col, _) => IsTextColumn(col)
    case HasItems(col) => IsArrayColumn(col)
    case IsLabel(col, text, e) => IsTextColumn(col) && text in Labels(e)
    case InTenantScope(scope, _, _) => forall i :: 0 <= i < |scope| ==> IsTextColumn(scope[i])
    case _ => true
  }

  /** The column's text, a NULL never matching. */
  predicate TextLike(row: Row, col: Column, term: string) {
    Get(row, col).Text? && Match(Around(term), Get(row, col).text)
  }

  /** The column's text, a NULL reading as the empty text. */
  predicate TextLikeOrEmpty(row: Row, col: Column, term: string) {
    Match(Around(term), if Get(row, col).Text? then Get(row, col).text else "")
  }

  predicate Holds(c: Cond, row: Row) {
    match c
    case Is(col, value) => Get(row, col) == value
    case NotBefore(col, at) => Get(row, col).Time? && Get(row, col).at >= at
    case NotAfter(col, at) => Get(row, col).Time? && Get(row, col).at <= at
    case Like(col, term) => TextLike(row, col, term)
    case HasItems(col) => Get(row, col).Texts? && Get(row, col).items != []
    case IsLabel(col, text, _) => Get(row, col) == Text(text)
    case AuditSearch(term) =>
      || TextLikeOrEmpty(row, TargetType, term)
      || TextLikeOrEmpty(row, TargetId, term)
      || TextLikeOrEmpty(row, IpAddress, term)
      || TextLikeOrEmpty(row, Details, term)
    case DbSearch(term) =>
      || TextLike(row, QueryText, term)
      || (Get(row, TablesAccessed).Texts? && Lower(term) in Get(row, TablesAccessed).items)
      || TextLike(row, BlockReason, term)
    case InTenantScope(scope, tenant, user) =>
      || Coalesce(row, scope) == Text(tenant)
      || (Get(row, TeamScopeId).Null? && Get(row, RecordingUserId) == Text(user))
  }

  /** The clause of a condition whose first argument has number n. */
  function Clause(c: Cond, n: nat): seq<Token> {
    match c
    case Is(col, _) => [Atom(Equal(col, n))]
    case NotBefore(col, _) => [Atom(AtLeast(col, n))]
    case NotAfter(col, _) => [Atom(AtMost(col, n))]
    case Like(col, _) => [Atom(ILike(col, n))]
    case HasItems(col) => [Atom(NonEmptyArray(col))]
    case IsLabel(col, _, e) => [Atom(EqualEnum(col, n, e))]
    case AuditSearch(_) =>
      [Paren([Atom(ILikeOrEmpty(TargetType, n)), OR, Atom(ILikeOrEmpty(TargetId, n)), OR,
              Atom(ILikeOrEmpty(IpAddress, n)), OR, Atom(ILikeOrEmpty(Details, n))])]
    case DbSearch(_) =>
      [Paren([Atom(ILike(QueryText, n)), OR, Atom(ArrayHas(TablesAccessed, n + 1)), OR,
              Atom(ILike(BlockReason, n + 2))])]
    case InTenantScope(scope, _, _) =>
      [Paren([Atom(CoalesceEqual(scope, n)), OR, Atom(IsNull(TeamScopeId)), AND, Atom(Equal(RecordingUserId, n + 1))])]
  }

  /** The arguments a condition binds. */
  function Bound(c: Cond): seq<Cell> {
    match c
    case Is(_, value) => [value]
    case NotBefore(_, at) => [Time(at)]
    case NotAfter(_, at) => [Time(at)]
    case Like(_, term) => [Text(Around(term))]
    case HasItems(_) => []
    case IsLabel(_, text, _) => [Text(text)]
    case AuditSearch(term) => [Text(Around(term))]
    case DbSearch(term) => [Text(Around(term)), Text(Lower(term)), Text(Around(term))]
    case InTenantScope(_, tenant, user) => [Text(tenant), Text(user)]
  }

  /** The clauses and arguments of a list of conditions, numbered upwards from `from`. */
  function Compile(conds: seq<Cond>, from: nat): (seq<seq<Token>>, seq<Cell>) {
    if conds == [] then ([], [])
    else
      var (clauses, args) := Compile(conds[..|conds| - 1], from);
      var c := conds[|conds| - 1];
      (clauses + [Clause(c, from + |args|)], args + Bound(c))
  }

  function Opt(wanted: bool, c: Cond): seq<Cond> {
    if wanted then [c] else []
  }

  lemma CompileOpt(conds: seq<Cond>, wanted: bool, c: Cond, from: nat)
    ensures var (clauses, args) := Compile(conds, from);
            Compile(conds + Opt(wanted, c), from) ==
            if wanted then (clauses + [Clause(c, from + |args|)], args + Bound(c)) else (clauses, args)
  {
    if wanted {
      assert (conds + [c])[..|conds|] == conds;
    } else {
      assert conds + [] == conds;
    }
  }

  lemma ClauseShape(c: Cond, n: nat)
    ensures |Clause(c, n)| == 1 && (Clause(c, n)[0].Atom? || Clause(c, n)[0].Paren?)
  {
  }

  // ---------------------------------------------------------------- meaning of one clause

  /** `args` holds the given arguments at the placeholders $n, $(n+1), ... */
  ghost predicate BoundAt(args: seq<Cell>, n: nat, bound: seq<Cell>) {
    1 <= n && n - 1 + |bound| <= |args| && forall i :: 0 <= i < |bound| ==> args[n - 1 + i] == bound[i]
  }

  lemma {:induction false} CoalesceTyped(row: Row, cols: seq<Column>)
    requires Typed(row) && forall i :: 0 <= i < |cols| ==> IsTextColumn(cols[i])
    ensures Coalesce(row, cols).Null? || Coalesce(row, cols).Text?
    decreases |cols|
  {
    if cols != [] {
      CoalesceTyped(row, cols[1..]);
    }
  }

  lemma EvalOr(a: Token, rest: seq<Token>, row: Row, args: seq<Cell>)
    requires |rest| >= 1
    ensures Eval([a, OR] + rest, row, args) == TruthOr(EvalToken(a, row, args), Eval(rest, row, args))
    ensures Eval([a], row, args) == EvalToken(a, row, args)
  {
    hide EvalPred;
    assert ([a, OR] + rest)[1..] == [OR] + rest;
    assert ([OR] + rest)[2..] == rest[1..];
  }

  lemma EvalOfThree(a: Token, b: Token, c: Token, row: Row, args: seq<Cell>)
    requires b != OR
    ensures Eval([a, OR, b, OR, c], row, args)
         == TruthOr(EvalToken(a, row, args), TruthOr(EvalToken(b, row, args), EvalToken(c, row, args)))
    ensures Eval([a, OR, b, AND, c], row, args)
         == TruthOr(EvalToken(a, row, args), TruthAnd(EvalToken(b, row, args), EvalToken(c, row, args)))
  {
    hide EvalPred, Eval;
    EvalOr(a, [b, OR, c], row, args);
    EvalOr(b, [c], row, args);
    EvalOr(c, [c], row, args);
    EvalOr(a, [b, AND, c], row, args);
    AndLast([b], c, row, args);
    assert [a, OR] + [b, OR, c] == [a, OR, b, OR, c] && [b, OR] + [c] == [b, OR, c];
    assert [a, OR] + [b, AND, c] == [a, OR, b, AND, c] && [b] + [AND, c] == [b, AND, c];
  }

  lemma EvalOfFour(a: Token, b: Token, c: Token, d: Token, row: Row, args: seq<Cell>)
    requires c != OR
    ensures Eval([a, OR, b, OR, c, OR, d], row, args)
         == TruthOr(EvalToken(a, row, args),
             TruthOr(EvalToken(b, row, args), TruthOr(EvalToken(c, row, args), EvalToken(d, row, args))))
  {
    hide EvalPred, Eval;
    EvalOr(a, [b, OR, c, OR, d], row, args);
    EvalOfThree(b, c, d, row, args);
    assert [a, OR] + [b, OR, c, OR, d] == [a, OR, b, OR, c, OR, d];
  }

  lemma ILikeMeaning(col: Column, n: nat, row: Row, args: seq<Cell>, term: string)
    requires Typed(row) && IsTextColumn(col) && 1 <= n <= |args| && args[n - 1] == Text(Around(term))
    ensures EvalToken(Atom(ILike(col, n)), row, args) != Failed
    ensures EvalToken(Atom(ILike(col, n)), row, args) == True <==> TextLike(row, col, term)
    ensures EvalToken(Atom(ILikeOrEmpty(col, n)), row, args) != Failed
    ensures EvalToken(Atom(ILikeOrEmpty(col, n)), row, args) == True <==> TextLikeOrEmpty(row, col, term)
  {
  }

  lemma AuditSearchMeaning(term: string, n: nat, row: Row, args: seq<Cell>)
    requires Typed(row) && BoundAt(args, n, Bound(AuditSearch(term)))
    ensures EvalToken(Clause(AuditSearch(term), n)[0], row, args) == True <==> Holds(AuditSearch(term), row)
    ensures EvalToken(Clause(AuditSearch(term), n)[0], row, args) != Failed
  {
    hide EvalPred, Eval, TextLikeOrEmpty, Match, Around, Typed;
    assert Bound(AuditSearch(term))[0] == args[n - 1];
    ILikeMeaning(TargetType, n, row, args, term);
    ILikeMeaning(TargetId, n, row, args, term);
    ILikeMeaning(IpAddress, n, row, args, term);
    ILikeMeaning(Details, n, row, args, term);
    EvalOfFour(Atom(ILikeOrEmpty(TargetType, n)), Atom(ILikeOrEmpty(TargetId, n)),
               Atom(ILikeOrEmpty(IpAddress, n)), Atom(ILikeOrEmpty(Details, n)), row, args);
  }

  lemma ArrayHasMeaning(n: nat, row: Row, args: seq<Cell>, item: string)
    requires Typed(row) && 1 <= n <= |args| && args[n - 1] == Text(item)
    ensures EvalToken(Atom(ArrayHas(TablesAccessed, n)), row, args) != Failed
    ensures EvalToken(Atom(ArrayHas(TablesAccessed, n)), row, args) == True <==>
      Get(row, TablesAccessed).Texts? && item in Get(row, TablesAccessed).items
  {
  }

  lemma DbSearchMeaning(term: string, n: nat, row: Row, args: seq<Cell>)
    requires Typed(row) && BoundAt(args, n, Bound(DbSearch(term)))
    ensures EvalToken(Clause(DbSearch(term), n)[0], row, args) == True <==> Holds(DbSearch(term), row)
    ensures EvalToken(Clause(DbSearch(term), n)[0], row, args) != Failed
  {
    hide EvalPred, Eval, TextLike, Match, Around, Lower, Typed, Get;
    var bound := Bound(DbSearch(term));
    assert bound[0] == args[n - 1] && bound[1] == args[n] && bound[2] == args[n + 1];
    ILikeMeaning(QueryText, n, row, args, term);
    ArrayHasMeaning(n + 1, row, args, Lower(term));
    ILikeMeaning(BlockReason, n + 2, row, args, term);
    EvalOfThree(Atom(ILike(QueryText, n)), Atom(ArrayHas(TablesAccessed, n + 1)), Atom(ILike(BlockReason, n + 2)),
                row, args);
  }

  lemma ScopeAtomsMeaning(c: Cond, n: nat, row: Row, args: seq<Cell>)
    requires c.InTenantScope? && WellTyped(c) && Typed(row)
    requires 1 <= n < |args| && args[n - 1] == Text(c.tenant) && args[n] == Text(c.user)
    ensures EvalToken(Atom(CoalesceEqual(c.scope, n)), row, args) != Failed
    ensures EvalToken(Atom(CoalesceEqual(c.scope, n)), row, args) == True <==> Coalesce(row, c.scope) == Text(c.tenant)
    ensures EvalToken(Atom(IsNull(TeamScopeId)), row, args) == FromBool(Get(row, TeamScopeId).Null?)
    ensures EvalToken(Atom(Equal(RecordingUserId, n + 1)), row, args) != Failed
    ensures EvalToken(Atom(Equal(RecordingUserId, n + 1)), row, args) == True <==>
            Get(row, RecordingUserId) == Text(c.user)
  {
    CoalesceTyped(row, c.scope);
  }

  lemma TenantScopeMeaning(c: Cond, n: nat, row: Row, args: seq<Cell>)
    requires c.InTenantScope? && WellTyped(c) && Typed(row) && BoundAt(args, n, Bound(c))
    ensures EvalToken(Clause(c, n)[0], row, args) == True <==> Holds(c, row)
    ensures EvalToken(Clause(c, n)[0], row, args) != Failed
  {
    hide EvalPred, Eval, Typed, Get, Coalesce;
    assert Bound(c)[0] == args[n - 1] && Bound(c)[1] == args[n];
    ScopeAtomsMeaning(c, n, row, args);
    EvalOfThree(Atom(CoalesceEqual(c.scope, n)), Atom(IsNull(TeamScopeId)), Atom(Equal(RecordingUserId, n + 1)),
                row, args);
  }

  /** The clause of a condition is true of a row exactly when the condition holds: NULL columns,
      precedence and placeholder numbers included. */
  lemma ClauseMeaning(c: Cond, n: nat, row: Row, args: seq<Cell>)
    requires WellTyped(c) && Typed(row) && BoundAt(args, n, Bound(c))
    ensures EvalToken(Clause(c, n)[0], row, args) == True <==> Holds(c, row)
    ensures EvalToken(Clause(c, n)[0], row, args) != Failed
  {
    hide Eval, Match, Around, Coalesce, TextLikeOrEmpty;
    match c
    case AuditSearch(term) => AuditSearchMeaning(term, n, row, args);
    case DbSearch(term) => DbSearchMeaning(term, n, row, args);
    case InTenantScope(_, _, _) => TenantScopeMeaning(c, n, row, args);
    case HasItems(_) =>
    case Is(_, value) => assert Bound(c)[0] == args[n - 1];
    case NotBefore(_, at) => assert Bound(c)[0] == args[n - 1];
    case NotAfter(_, at) => assert Bound(c)[0] == args[n - 1];
    case Like(_, term) => assert Bound(c)[0] == args[n - 1];
    case IsLabel(_, _, _) => assert Bound(c)[0] == args[n - 1];
  }

  /** A condition of the right shape: only the text of an enum comparison may still be anything. */
  predicate WellShaped(c: Cond) {
    if c.IsLabel? then IsTextColumn(c.col) else WellTyped(c)
  }

  /** Exactly a text that is no label of its enum makes a clause an SQL error, on every row. */
  lemma ClauseFailsIff(c: Cond, n: nat, row: Row, args: seq<Cell>)
    requires WellShaped(c) && Typed(row) && BoundAt(args, n, Bound(c))
    ensures EvalToken(Clause(c, n)[0], row, args) == Failed <==> !WellTyped(c)
  {
    if WellTyped(c) {
      ClauseMeaning(c, n, row, args);
    } else {
      assert Bound(c)[0] == args[n - 1];
    }
  }

  lemma HolesJoined(a: Token, connective: Token, rest: seq<Token>)
    requires connective.OR? || connective.AND?
    ensures Holes([a, connective] + rest) == TokenHoles(a) + Holes(rest)
    ensures Holes([a]) == TokenHoles(a)
  {
    var tail := [connective] + rest;
    assert tail[1..] == rest;
    assert Holes(tail) == {} + Holes(rest);
    assert ([a, connective] + rest)[1..] == tail;
    assert [a][1..] == [];
  }

  lemma HolesOfThree(a: Token, x: Token, b: Token, y: Token, c: Token)
    requires (x.OR? || x.AND?) && (y.OR? || y.AND?)
    ensures Holes([a, x, b, y, c]) == TokenHoles(a) + (TokenHoles(b) + TokenHoles(c))
  {
    HolesJoined(a, x, [b, y, c]);
    HolesJoined(b, y, [c]);
    HolesJoined(c, y, []);
    assert [a, x, b, y, c] == [a, x] + [b, y, c];
    assert [b, y, c] == [b, y] + [c];
  }

  lemma AuditSearchHoles(a: Token, b: Token, c: Token, d: Token, n: nat)
    requires TokenHoles(a) == TokenHoles(b) == TokenHoles(c) == TokenHoles(d) == {n}
    ensures Holes([a, OR, b, OR, c, OR, d]) == {n}
  {
    HolesJoined(a, OR, [b, OR, c, OR, d]);
    HolesOfThree(b, OR, c, OR, d);
    assert [a, OR, b, OR, c, OR, d] == [a, OR] + [b, OR, c, OR, d];
  }

  lemma ClauseDense(c: Cond, n: nat)
    ensures Dense(Holes(Clause(c, n)), n, |Bound(c)|)
  {
    HolesJoined(Clause(c, n)[0], OR, []);
    hide Holes;
    match c
    case AuditSearch(_) =>
      AuditSearchHoles(Atom(ILikeOrEmpty(TargetType, n)), Atom(ILikeOrEmpty(TargetId, n)),
                       Atom(ILikeOrEmpty(IpAddress, n)), Atom(ILikeOrEmpty(Details, n)), n);
    case DbSearch(_) =>
      HolesOfThree(Atom(ILike(QueryText, n)), OR, Atom(ArrayHas(TablesAccessed, n + 1)), OR,
          Atom(ILike(BlockReason, n + 2)));
    case InTenantScope(scope, _, _) =>
      HolesOfThree(Atom(CoalesceEqual(scope, n)), OR, Atom(IsNull(TeamScopeId)), AND,
          Atom(Equal(RecordingUserId, n + 1)));
    case Is(_, _) =>
    case NotBefore(_, _) =>
    case NotAfter(_, _) =>
    case Like(_, _) =>
    case HasItems(_) =>
    case IsLabel(_, _, _) =>
  }

  // ---------------------------------------------------------------- meaning of a compilation

  predicate AllHold(conds: seq<Cond>, row: Row) {
    forall i :: 0 <= i < |conds| ==> Holds(conds[i], row)
  }

  lemma AllHoldSnoc(conds: seq<Cond>, c: Cond, row: Row)
    ensures AllHold(conds + [c], row) <==> AllHold(conds, row) && Holds(c, row)
  {
    assert forall i :: 0 <= i < |conds| ==> (conds + [c])[i] == conds[i];
    assert (conds + [c])[|conds|] == c;
  }

  lemma BoundSplit(args: seq<Cell>, n: nat, first: seq<Cell>, second: seq<Cell>)
    requires BoundAt(args, n, first + second)
    ensures BoundAt(args, n, first) && BoundAt(args, n + |first|, second)
  {
    assert forall i :: 0 <= i < |first| ==> (first + second)[i] == first[i];
    assert forall i :: 0 <= i < |second| ==> (first + second)[|first| + i] == second[i];
  }

  lemma AllTrueSnoc(clauses: seq<seq<Token>>, clause: seq<Token>, row: Row, args: seq<Cell>)
    requires Closed(clauses) && |clause| == 1 && (clause[0].Atom? || clause[0].Paren?)
    ensures Closed(clauses + [clause])
    ensures AllTrue(clauses + [clause], row, args) <==>
            AllTrue(clauses, row, args) && EvalToken(clause[0], row, args) == True
  {
    var all := clauses + [clause];
    assert forall i :: 0 <= i < |clauses| ==> all[i] == clauses[i];
    assert all[|clauses|] == clause;
  }

  /** Every row condition survives compilation, for every list of conditions, start index and argument
      list that holds the emitted arguments at their numbers. */
  lemma {:induction false} CompileMeaning(conds: seq<Cond>, from: nat, row: Row, args: seq<Cell>)
    requires forall i :: 0 <= i < |conds| ==> WellTyped(conds[i])
    requires Typed(row) && BoundAt(args, from, Compile(conds, from).1)
    ensures |Compile(conds, from).0| == |conds| && Closed(Compile(conds, from).0)
    ensures AllTrue(Compile(conds, from).0, row, args) <==> AllHold(conds, row)
  {
    hide Match, EvalToken, Holds, Clause, Bound, Typed, BoundAt;
    if conds != [] {
      var init, c := conds[..|conds| - 1], conds[|conds| - 1];
      var (clauses, bound) := Compile(init, from);
      var n := from + |bound|;
      BoundSplit(args, from, bound, Bound(c));
      ClauseShape(c, n);
      CompileMeaning(init, from, row, args);
      ClauseMeaning(c, n, row, args);
      AllTrueSnoc(clauses, Clause(c, n), row, args);
      AllHoldSnoc(init, c, row);
      assert conds == init + [c];
    }
  }

  lemma SomeFailsSnoc(clauses: seq<seq<Token>>, clause: seq<Token>, row: Row, args: seq<Cell>)
    requires Closed(clauses) && |clause| == 1 && (clause[0].Atom? || clause[0].Paren?)
    ensures Closed(clauses + [clause])
    ensures SomeFails(clauses + [clause], row, args) <==>
              SomeFails(clauses, row, args) || EvalToken(clause[0], row, args) == Failed
  {
    var all := clauses + [clause];
    assert forall i :: 0 <= i < |clauses| ==> all[i] == clauses[i];
    assert all[|clauses|] == clause;
  }

  predicate AllWellShaped(conds: seq<Cond>) {
    forall i :: 0 <= i < |conds| ==> WellShaped(conds[i])
  }

  /** A compilation has a failing clause exactly if one of its conditions compares an enum with a text that is
      none of its labels. */
  lemma {:induction false} CompileFailsIff(conds: seq<Cond>, from: nat, row: Row, args: seq<Cell>)
    requires AllWellShaped(conds) && Typed(row) && BoundAt(args, from, Compile(conds, from).1)
    ensures |Compile(conds, from).0| == |conds| && Closed(Compile(conds, from).0)
    ensures SomeFails(Compile(conds, from).0, row, args) <==> !AllWellTyped(conds)
  {
    hide EvalToken, WellShaped, WellTyped, Clause, Bound, Typed, BoundAt;
    if conds != [] {
      var init, c := conds[..|conds| - 1], conds[|conds| - 1];
      var (clauses, bound) := Compile(init, from);
      var n := from + |bound|;
      BoundSplit(args, from, bound, Bound(c));
      ClauseShape(c, n);
      CompileFailsIff(init, from, row, args);
      ClauseFailsIff(c, n, row, args);
      SomeFailsSnoc(clauses, Clause(c, n), row, args);
      assert conds == init + [c];
      assert AllWellTyped(conds) <==> AllWellTyped(init) && WellTyped(c);
    }
  }

  /** The emitted placeholders are exactly the dense range of the emitted arguments. */
  lemma {:induction false} CompileDense(conds: seq<Cond>, from: nat)
    ensures var (clauses, bound) := Compile(conds, from);
            Dense(Holes(JoinAnd(clauses)), from, |bound|)
  {
    hide Clause, Bound;
    if conds != [] {
      var init, c := conds[..|conds| - 1], conds[|conds| - 1];
      var (clauses, bound) := Compile(init, from);
      CompileDense(init, from);
      ClauseDense(c, from + |bound|);
      var all := clauses + [Clause(c, from + |bound|)];
      if clauses != [] {
        assert all[..|all| - 1] == clauses;
        HolesConcat(JoinAnd(clauses) + [AND], Clause(c, from + |bound|));
        HolesConcat(JoinAnd(clauses), [AND]);
      }
    }
  }

  predicate AllWellTyped(conds: seq<Cond>) {
    forall i :: 0 <= i < |conds| ==> WellTyped(conds[i])
  }

  /** Appending an optional condition conjoins it. */
  lemma OptHolds(conds: seq<Cond>, wanted: bool, c: Cond, row: Row)
    ensures AllHold(conds + Opt(wanted, c), row) <==> AllHold(conds, row) && (wanted ==> Holds(c, row))
    ensures AllWellTyped(conds + Opt(wanted, c)) <==> AllWellTyped(conds) && (wanted ==> WellTyped(c))
    ensures AllWellShaped(conds + Opt(wanted, c)) <==> AllWellShaped(conds) && (wanted ==> WellShaped(c))
  {
    if wanted {
      AllHoldSnoc(conds, c, row);
      assert forall i :: 0 <= i < |conds| ==> (conds + [c])[i] == conds[i];
      assert (conds + [c])[|conds|] == c;
    } else {
      assert conds + [] == conds;
    }
  }

  lemma AllTrueConcat(a: seq<seq<Token>>, b: seq<seq<Token>>, row: Row, args: seq<Cell>)
    requires Closed(a) && Closed(b)
    ensures Closed(a + b) && (AllTrue(a + b, row, args) <==> AllTrue(a, row, args) && AllTrue(b, row, args))
  {
    assert forall i :: 0 <= i < |a| ==> (a + b)[i] == a[i];
    assert forall i :: 0 <= i < |b| ==> (a + b)[|a| + i] == b[i];
  }

  /** A condition text continued by a compiled filter accepts what both accept. */
  lemma ContinuedMeaning(first: seq<seq<Token>>, conds: seq<Cond>, from: nat, row: Row, args: seq<Cell>)
    requires first != [] && Closed(first) && AllWellTyped(conds)
    requires Typed(row) && BoundAt(args, from, Compile(conds, from).1)
    ensures Closed(first + Compile(conds, from).0)
    ensures JoinAnd(first) + AndTail(Compile(conds, from).0) == JoinAnd(first + Compile(conds, from).0)
    ensures AllTrue(first + Compile(conds, from).0, row, args) <==> AllTrue(first, row, args) && AllHold(conds, row)
  {
    hide Match, EvalToken, Holds, Clause, Bound, Typed, AllTrue, AllHold, BoundAt, Compile;
    var clauses := Compile(conds, from).0;
    CompileMeaning(conds, from, row, args);
    TailMeaning(first, clauses);
    AllTrueConcat(first, clauses, row, args);
  }

  // ---------------------------------------------------------------- tables

  /** The rows of the table for which the condition text is true. */
  function Select(table: seq<Row>, text: seq<Token>, args: seq<Cell>): seq<Row> {
    if table == [] then []
    else
      var last := table[|table| - 1];
      Select(table[..|table| - 1], text, args) + (if Accepts(text, last, args) then [last] else [])
  }

  /** The rows of the table with property p. */
  function Keep(table: seq<Row>, p: Row -> bool): seq<Row> {
    if table == [] then []
    else
      var last := table[|table| - 1];
      Keep(table[..|table| - 1], p) + (if p(last) then [last] else [])
  }

  lemma {:induction false} SelectIsKeep(table: seq<Row>, text: seq<Token>, args: seq<Cell>, p: Row -> bool)
    requires forall i :: 0 <= i < |table| ==> (Accepts(text, table[i], args) <==> p(table[i]))
    ensures Select(table, text, args) == Keep(table, p)
  {
    if table != [] {
      SelectIsKeep(table[..|table| - 1], text, args, p);
    }
  }

  lemma {:induction false} KeepHasProperty(table: seq<Row>, p: Row -> bool)
    ensures forall i :: 0 <= i < |Keep(table, p)| ==> p(Keep(table, p)[i])
  {
    if table != [] {
      KeepHasProperty(table[..|table| - 1], p);
    }
  }

  /** The sort key of `ORDER BY "createdAt" DESC`. */
  function NewestFirst(): Row -> int {
    (row: Row) => if Get(row, CreatedAt).Time? then -Get(row, CreatedAt).at else 0
  }

  lemma NewestFirstMeans(a: Row, b: Row)
    requires Get(a, CreatedAt).Time? && Get(b, CreatedAt).Time?
    ensures NewestFirst()(a) <= NewestFirst()(b) <==> Get(b, CreatedAt).at <= Get(a, CreatedAt).at
  {
  }

  // ---------------------------------------------------------------- builders

  /** A builder that numbers a clause before it appends the clause's arguments. */
  class NumberThenAppend {
    const startIndex: nat
    var clauses: seq<seq<Token>>
    var args: seq<Cell>
    ghost var conds: seq<Cond>

    ghost predicate Valid()
      reads this
    {
      (clauses, args) == Compile(conds, startIndex)
    }

    constructor (startIndex: nat)
      ensures Valid() && conds == [] && this.startIndex == startIndex
    {
      this.startIndex := startIndex;
      clauses, args, conds := [], [], [];
    }

    method AddIf(wanted: bool, c: Cond)
      requires Valid()
      modifies this
      ensures Valid() && conds == old(conds) + Opt(wanted, c)
    {
      CompileOpt(conds, wanted, c, startIndex);
      if wanted {
        clauses := clauses + [Clause(c, startIndex + |args|)];
        args := args + Bound(c);
      }
      conds := conds + Opt(wanted, c);
    }
  }

  /** A builder that appends the arguments first and numbers the clause from the new length. */
  class AppendThenNumber {
    var clauses: seq<seq<Token>>
    var args: seq<Cell>
    ghost var conds: seq<Cond>

    ghost predicate Valid()
      reads this
    {
      (clauses, args) == Compile(conds, 1)
    }

    constructor ()
      ensures Valid() && conds == []
    {
      clauses, args, conds := [], [], [];
    }

    method AddIf(wanted: bool, c: Cond)
      requires Valid()
      modifies this
      ensures Valid() && conds == old(conds) + Opt(wanted, c)
    {
      CompileOpt(conds, wanted, c, 1);
      if wanted {
        args := args + Bound(c);
        clauses := clauses + [Clause(c, |args| - |Bound(c)| + 1)];
      }
      conds := conds + Opt(wanted, c);
    }
  }
}
