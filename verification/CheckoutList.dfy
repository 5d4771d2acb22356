/** The checkout list filter: arguments are numbered as they are added, and one may be used twice. */
module CheckoutList {
  import opened Arrangements
  import opened FilterConditions
  import opened Options
  import opened Paging
  import opened Sql
  import opened Texts

  datatype ListRole = AsRequester | AsApprover | AsEither

  /** What the list shows a user. */
  predicate Listed(
    user: string, role: ListRole, status: string, secrets: seq<string>, connections: seq<string>, row: Row)
  {
    && (match role
        case AsRequester => Get(row, RequesterId) == Text(user)
        case AsApprover =>
          && Get(row, RequesterId).Text? && Get(row, RequesterId).text != user
          && (|| (Get(row, SecretId).Text? && Get(row, SecretId).text in secrets)
              || (Get(row, ConnectionId).Text? && Get(row, ConnectionId).text in connections))
        case AsEither => Get(row, RequesterId) == Text(user) || Get(row, ApproverId) == Text(user))
    && (status != "" ==> Get(row, Status) == Text(status))
  }

  /** `(col = ANY($any) AND "requesterId" <> $self)`. */
  function OthersIn(col: Column, any: nat, self: nat): Token {
    Paren([Atom(EqualAny(col, any)), AND, Atom(NotEqual(RequesterId, self))])
  }

  /** `(a OR b)`, or `(a)`. */
  function OrOf(conditions: seq<Token>): Token
    requires 1 <= |conditions| <= 2
  {
    if |conditions| == 1 then Paren([conditions[0]]) else Paren([conditions[0], OR, conditions[1]])
  }

  lemma OthersInMeaning(col: Column, any: nat, self: nat, row: Row, args: seq<Cell>, ids: seq<string>, user: string)
    requires Typed(row) && IsTextColumn(col)
    requires 1 <= any <= |args| && args[any - 1] == Texts(ids) && 1 <= self <= |args| && args[self - 1] == Text(user)
    ensures EvalToken(OthersIn(col, any, self), row, args) != Sql.Failed
    ensures EvalToken(OthersIn(col, any, self), row, args) == True <==>
      && Get(row, col).Text? && Get(row, col).text in ids
      && Get(row, RequesterId).Text? && Get(row, RequesterId).text != user
  {
    AndLast([Atom(EqualAny(col, any))], Atom(NotEqual(RequesterId, self)), row, args);
    assert [Atom(EqualAny(col, any))] + [AND, Atom(NotEqual(RequesterId, self))]
        == [Atom(EqualAny(col, any)), AND, Atom(NotEqual(RequesterId, self))];
  }

  lemma OrOfMeaning(a: Token, b: Token, row: Row, args: seq<Cell>)
    ensures EvalToken(OrOf([a]), row, args) == EvalToken(a, row, args)
    ensures EvalToken(OrOf([a, b]), row, args) == TruthOr(EvalToken(a, row, args), EvalToken(b, row, args))
    ensures TokenHoles(OrOf([a])) == TokenHoles(a)
    ensures TokenHoles(OrOf([a, b])) == TokenHoles(a) + TokenHoles(b)
  {
    hide EvalPred;
    EvalOr(a, [b], row, args);
    EvalOr(b, [b], row, args);
    HolesJoined(a, OR, [b]);
    HolesJoined(b, OR, []);
    assert [a, OR] + [b] == [a, OR, b];
  }

  lemma OthersInHoles(col: Column, any: nat, self: nat)
    ensures TokenHoles(OthersIn(col, any, self)) == {any, self}
  {
    HolesJoined(Atom(EqualAny(col, any)), AND, [Atom(NotEqual(RequesterId, self))]);
    HolesJoined(Atom(NotEqual(RequesterId, self)), AND, []);
    assert [Atom(EqualAny(col, any)), AND] + [Atom(NotEqual(RequesterId, self))]
        == [Atom(EqualAny(col, any)), AND, Atom(NotEqual(RequesterId, self))];
  }

  lemma EqualMeaning(col: Column, n: nat, row: Row, args: seq<Cell>, value: string)
    requires Typed(row) && IsTextColumn(col) && 1 <= n <= |args| && args[n - 1] == Text(value)
    ensures EvalToken(Atom(Equal(col, n)), row, args) != Sql.Failed
    ensures EvalToken(Atom(Equal(col, n)), row, args) == True <==> Get(row, col) == Text(value)
  {
  }

  /** The status is left out or spelled exactly as a label of its enum. */
  predicate StatusRuns(status: string) {
    status == "" || status in Labels(CheckoutStatus)
  }

  lemma StatusMeaning(n: nat, row: Row, args: seq<Cell>, status: string)
    requires Typed(row) && 1 <= n <= |args| && args[n - 1] == Text(status) && status != ""
    ensures EvalToken(Atom(EqualEnum(Status, n, CheckoutStatus)), row, args) == Sql.Failed <==> !StatusRuns(status)
    ensures StatusRuns(status) ==>
              (EvalToken(Atom(EqualEnum(Status, n, CheckoutStatus)), row, args) == True <==>
                  Get(row, Status) == Text(status))
  {
    hide Labels;
  }

  /** A base condition and, if a status is asked for, the status condition. */
  function StatusText(base: Token, status: string, n: nat): seq<Token> {
    if status != "" then [base, AND, Atom(EqualEnum(Status, n, CheckoutStatus))] else [base]
  }

  lemma WithStatus(base: Token, status: string, n: nat, row: Row, args: seq<Cell>)
    requires Typed(row) && (base.Atom? || base.Paren?)
    requires status != "" ==> 1 <= n <= |args| && args[n - 1] == Text(status)
    ensures var text := StatusText(base, status, n);
            && (Eval(text, row, args) == Sql.Failed <==>
                 EvalToken(base, row, args) == Sql.Failed || !StatusRuns(status))
            && (StatusRuns(status) ==>
                 (Accepts(text, row, args) <==>
                   EvalToken(base, row, args) == True && (status != "" ==> Get(row, Status) == Text(status))))
  {
    var last := Atom(EqualEnum(Status, n, CheckoutStatus));
    if status != "" {
      StatusMeaning(n, row, args, status);
    }
    hide EvalPred, Eval, EvalToken, Typed, Labels;
    EvalOr(base, [base], row, args);
    AndLast([base], last, row, args);
    assert [base] + [AND, last] == [base, AND, last];
  }

  lemma StatusHoles(base: Token, status: string, n: nat)
    ensures Holes(StatusText(base, status, n)) == TokenHoles(base) + (if status != "" then {n} else {})
  {
    var last := Atom(EqualEnum(Status, n, CheckoutStatus));
    HolesJoined(base, AND, [last]);
    HolesJoined(last, AND, []);
    assert [base, AND] + [last] == [base, AND, last];
  }

  /** The base condition and arguments for each role, as one term. */
  function BaseOf(role: ListRole, secrets: seq<string>, connections: seq<string>): Token
    requires role.AsApprover? ==> secrets != [] || connections != []
  {
    match role
    case AsRequester => Atom(Equal(RequesterId, 1))
    case AsApprover =>
      OrOf((if secrets != [] then [OthersIn(SecretId, 2, 1)] else [])
           + (if connections != [] then [OthersIn(ConnectionId, if secrets != [] then 3 else 2, 1)] else []))
    case AsEither => Paren([Atom(Equal(RequesterId, 1)), OR, Atom(Equal(ApproverId, 1))])
  }

  function BaseArgs(user: string, role: ListRole, secrets: seq<string>, connections: seq<string>): seq<Cell> {
    if role.AsApprover? then
      [Text(user)]
      + (if secrets != [] then [Texts(secrets)] else [])
      + (if connections != [] then [Texts(connections)] else [])
    else [Text(user)]
  }

  lemma BaseMeaning(
    user: string, role: ListRole, secrets: seq<string>, connections: seq<string>, row: Row, args: seq<Cell>)
    requires Typed(row) && (role.AsApprover? ==> secrets != [] || connections != [])
    requires BaseArgs(user, role, secrets, connections) <= args
    ensures EvalToken(BaseOf(role, secrets, connections), row, args) == True <==>
      Listed(user, role, "", secrets, connections, row)
    ensures EvalToken(BaseOf(role, secrets, connections), row, args) != Sql.Failed
  {
    assert args[0] == Text(user);
    EqualMeaning(RequesterId, 1, row, args, user);
    EqualMeaning(ApproverId, 1, row, args, user);
    match role
    case AsRequester =>
    case AsEither =>
      OrOfMeaning(Atom(Equal(RequesterId, 1)), Atom(Equal(ApproverId, 1)), row, args);
    case AsApprover =>
      ApproverMeaning(user, secrets, connections, row, args);
  }

  lemma ApproverMeaning(user: string, secrets: seq<string>, connections: seq<string>, row: Row, args: seq<Cell>)
    requires Typed(row) && (secrets != [] || connections != [])
    requires BaseArgs(user, AsApprover, secrets, connections) <= args
    ensures EvalToken(BaseOf(AsApprover, secrets, connections), row, args) == True <==>
      Listed(user, AsApprover, "", secrets, connections, row)
    ensures EvalToken(BaseOf(AsApprover, secrets, connections), row, args) != Sql.Failed
  {
    hide EvalPred, Eval, EvalToken, OthersIn, OrOf, Typed;
    assert args[0] == Text(user);
    var c := if secrets != [] then 3 else 2;
    var a, b := OthersIn(SecretId, 2, 1), OthersIn(ConnectionId, c, 1);
    if secrets != [] {
      assert args[1] == Texts(secrets);
      OthersInMeaning(SecretId, 2, 1, row, args, secrets, user);
    }
    if connections != [] {
      assert args[c - 1] == Texts(connections);
      OthersInMeaning(ConnectionId, c, 1, row, args, connections, user);
    }
    BaseForms(secrets, connections);
    OrOfMeaning(a, b, row, args);
    OrOfMeaning(b, a, row, args);
  }

  lemma BaseForms(secrets: seq<string>, connections: seq<string>)
    requires secrets != [] || connections != []
    ensures var a, b := OthersIn(SecretId, 2, 1), OthersIn(ConnectionId, if secrets != [] then 3 else 2, 1);
            BaseOf(AsApprover, secrets, connections)
            == OrOf(if connections == [] then [a] else if secrets == [] then [b] else [a, b])
  {
    hide OthersIn, OrOf;
    var a, b := OthersIn(SecretId, 2, 1), OthersIn(ConnectionId, if secrets != [] then 3 else 2, 1);
    assert [a] + [b] == [a, b] && [a] + [] == [a] && [] + [b] == [b];
  }

  lemma ApproverHoles(secrets: seq<string>, connections: seq<string>)
    requires secrets != [] || connections != []
    ensures TokenHoles(BaseOf(AsApprover, secrets, connections)) ==
            if secrets != [] && connections != [] then {1, 2, 3} else {1, 2}
  {
    hide OthersIn, OrOf, TokenHoles, BaseOf;
    var c := if secrets != [] then 3 else 2;
    var a, b := OthersIn(SecretId, 2, 1), OthersIn(ConnectionId, c, 1);
    OthersInHoles(SecretId, 2, 1);
    OthersInHoles(ConnectionId, c, 1);
    OrOfMeaning(a, b, map[], []);
    OrOfMeaning(b, a, map[], []);
    BaseForms(secrets, connections);
    assert {2, 1} + {3, 1} == {1, 2, 3};
  }

  lemma EitherHoles()
    ensures TokenHoles(Paren([Atom(Equal(RequesterId, 1)), OR, Atom(Equal(ApproverId, 1))])) == {1}
  {
    hide OthersIn, BaseOf;
    var a, b := Atom(Equal(RequesterId, 1)), Atom(Equal(ApproverId, 1));
    OrOfMeaning(a, b, map[], []);
    assert TokenHoles(a) == {1} && TokenHoles(b) == {1};
    assert OrOf([a, b]) == Paren([a, OR, b]);
  }

  lemma RoleHoles(role: ListRole, secrets: seq<string>, connections: seq<string>)
    requires !role.AsApprover?
    ensures TokenHoles(BaseOf(role, secrets, connections)) == {1}
  {
    hide OrOf, OthersIn;
    EitherHoles();
  }

  lemma BaseHoles(role: ListRole, secrets: seq<string>, connections: seq<string>)
    requires role.AsApprover? ==> secrets != [] || connections != []
    ensures Dense(TokenHoles(BaseOf(role, secrets, connections)), 1, |BaseArgs("", role, secrets, connections)|)
  {
    hide BaseOf, TokenHoles;
    if role.AsApprover? {
      ApproverHoles(secrets, connections);
    } else {
      RoleHoles(role, secrets, connections);
    }
  }

  function FilterOf(user: string, role: ListRole, status: string, secrets: seq<string>, connections: seq<string>)
    : (seq<Token>, seq<Cell>)
    requires role.AsApprover? ==> secrets != [] || connections != []
  {
    var base, args := BaseOf(role, secrets, connections), BaseArgs(user, role, secrets, connections);
    (StatusText(base, status, |args| + 1), args + (if status != "" then [Text(status)] else []))
  }

  /** Exactly when the filter runs, and what it accepts. A status that is no label of its enum is an SQL error on
      every row; with any other, the filter accepts exactly the rows that the list is meant to show. */
  lemma ListFilterMeaning(
    user: string, role: ListRole, status: string, secrets: seq<string>, connections: seq<string>, row: Row)
    requires Typed(row) && (role.AsApprover? ==> secrets != [] || connections != [])
    ensures var (text, args) := FilterOf(user, role, status, secrets, connections);
            && (Eval(text, row, args) == Sql.Failed <==> !StatusRuns(status))
            && (StatusRuns(status) ==>
                 (Accepts(text, row, args) <==> Listed(user, role, status, secrets, connections, row)))
  {
    var (text, args) := FilterOf(user, role, status, secrets, connections);
    var n := |BaseArgs(user, role, secrets, connections)| + 1;
    hide Accepts, Typed, BaseOf, EvalToken, StatusRuns, BaseArgs;
    assert BaseArgs(user, role, secrets, connections) <= args;
    BaseMeaning(user, role, secrets, connections, row, args);
    BaseIsOperand(role, secrets, connections);
    WithStatus(BaseOf(role, secrets, connections), status, n, row, args);
  }

  lemma BaseIsOperand(role: ListRole, secrets: seq<string>, connections: seq<string>)
    requires role.AsApprover? ==> secrets != [] || connections != []
    ensures var base := BaseOf(role, secrets, connections); base.Atom? || base.Paren?
  {
  }

  lemma ListFilterDense(user: string, role: ListRole, status: string, secrets: seq<string>, connections: seq<string>)
    requires role.AsApprover? ==> secrets != [] || connections != []
    ensures var (text, args) := FilterOf(user, role, status, secrets, connections);
            Dense(Holes(text), 1, |args|)
  {
    var (text, args) := FilterOf(user, role, status, secrets, connections);
    var n := |BaseArgs(user, role, secrets, connections)| + 1;
    hide BaseOf, Holes, TokenHoles, Accepts, Eval, EvalToken, StatusText;
    BaseHoles(role, secrets, connections);
    StatusHoles(BaseOf(role, secrets, connections), status, n);
  }

  /** None when the caller can approve nothing: the list is then empty without a query. */
  method BuildListFilter(user: string, role: ListRole, status: string, secrets: seq<string>, connections: seq<string>)
    returns (filter: Option<(seq<Token>, seq<Cell>)>)
    ensures filter.None? <==> role.AsApprover? && secrets == [] && connections == []
    ensures filter.Some? ==> filter.value == FilterOf(user, role, status, secrets, connections)
  {
    hide OthersIn;
    var args: seq<Cell> := [Text(user)];
    var base: Token;
    match role {
      case AsRequester =>
        base := Atom(Equal(RequesterId, |args|));
      case AsApprover =>
        var self := |args|;
        var orConditions: seq<Token> := [];
        if |secrets| > 0 {
          args := args + [Texts(secrets)];
          orConditions := orConditions + [OthersIn(SecretId, |args|, self)];
        }
        if |connections| > 0 {
          args := args + [Texts(connections)];
          orConditions := orConditions + [OthersIn(ConnectionId, |args|, self)];
        }
        if |orConditions| == 0 {
          return None;
        }
        base := OrOf(orConditions);
      case AsEither =>
        base := Paren([Atom(Equal(RequesterId, |args|)), OR, Atom(Equal(ApproverId, |args|))]);
    }
    assert base == BaseOf(role, secrets, connections) && args == BaseArgs(user, role, secrets, connections);
    assert args + [] == args;
    var text := [base];
    if status != "" {
      args := args + [Text(status)];
      text := text + [AND, Atom(EqualEnum(Status, |args|, CheckoutStatus))];
      assert text == [base, AND, Atom(EqualEnum(Status, |args|, CheckoutStatus))];
    }
    filter := Some((text, args));
  }

  // ---------------------------------------------------------------- requests

  /** The status check of a request; it looks at an upper-cased copy. */
  predicate IsValidStatus(status: string) {
    Upper(TrimSpace(status)) in Labels(CheckoutStatus)
  }

  /** The status that an admitted request passes on: trimmed, but in its own letter case. */
  function ParseStatus(raw: string): Option<string> {
    var status := TrimSpace(raw);
    if status != "" && !IsValidStatus(status) then None else Some(status)
  }

  lemma {:induction false} LabelsAreUpper(text: string)
    requires text in Labels(CheckoutStatus)
    ensures text != "" && Trimmed(text) && Upper(text) == text
  {
    var labels := Labels(CheckoutStatus);
    var i :| 0 <= i < |labels| && labels[i] == text;
    assert forall j :: 0 <= j < |labels[i]| ==> UpperChar(labels[i][j]) == labels[i][j];
  }

  lemma TrimIsStable(raw: string)
    ensures TrimSpace(TrimSpace(raw)) == TrimSpace(raw)
  {
    hide TrimSpace, Trimmed;
    TrimSpaceTrims(raw);
    TrimSpaceTrims(TrimSpace(raw));
  }

  /** A request's status is admitted although the query then fails exactly if it is a label in a letter case of
      its own. */
  lemma AdmittedStatusFailsIff(raw: string)
    ensures ParseStatus(raw).Some? && !StatusRuns(ParseStatus(raw).value) <==>
            Upper(TrimSpace(raw)) in Labels(CheckoutStatus) && Upper(TrimSpace(raw)) != TrimSpace(raw)
  {
    hide Labels, TrimSpace, Upper;
    var status := TrimSpace(raw);
    TrimIsStable(raw);
    if status in Labels(CheckoutStatus) {
      LabelsAreUpper(status);
    }
    if Upper(status) in Labels(CheckoutStatus) {
      LabelsAreUpper(Upper(status));
      assert Upper(status) != "";
      assert status == "" ==> Upper(status) == "" by { UpperOfEmpty(); }
    }
  }

  lemma UpperOfEmpty()
    ensures Upper("") == ""
  {
  }

  /** `status=pending` is admitted, and the list then fails on every row whatever the role. */
  lemma LowerCaseStatusFails(user: string, role: ListRole, secrets: seq<string>, connections: seq<string>, row: Row)
    requires Typed(row) && (role.AsApprover? ==> secrets != [] || connections != [])
    ensures ParseStatus("pending") == Some("pending")
    ensures var (text, args) := FilterOf(user, role, "pending", secrets, connections);
            Eval(text, row, args) == Sql.Failed
  {
    assert Upper("pending") == "PENDING";
    assert TrimSpace("pending") == "pending" by { TrimSpaceTrims("pending"); }
    assert Labels(CheckoutStatus)[0] == "PENDING";
    AdmittedStatusFailsIff("pending");
    ListFilterMeaning(user, role, "pending", secrets, connections, row);
  }

  // ---------------------------------------------------------------- the list

  datatype ListReply = DatabaseError | Page(data: seq<Row>, total: nat)

  function ListMatch(
    user: string, role: ListRole, status: string, secrets: seq<string>, connections: seq<string>): Row -> bool
  {
    (row: Row) => Listed(user, role, status, secrets, connections, row)
  }

  lemma OthersInCasts(col: Column, any: nat, self: nat, args: seq<Cell>)
    ensures TokenCastsOk(OthersIn(col, any, self), args)
  {
    var inner := [Atom(EqualAny(col, any)), AND, Atom(NotEqual(RequesterId, self))];
    assert inner[1..] == [AND, Atom(NotEqual(RequesterId, self))];
    assert inner[1..][1..] == [Atom(NotEqual(RequesterId, self))];
    assert inner[1..][1..][1..] == [];
    assert CastsOk(inner[1..][1..], args) && CastsOk(inner[1..], args);
  }

  lemma OrOfCasts(a: Token, b: Token, args: seq<Cell>)
    requires TokenCastsOk(a, args) && TokenCastsOk(b, args)
    ensures TokenCastsOk(OrOf([a]), args) && TokenCastsOk(OrOf([a, b]), args)
  {
    assert [a, OR, b][1..] == [OR, b] && [OR, b][1..] == [b] && [b][1..] == [] && [a][1..] == [];
    assert CastsOk([b], args) && CastsOk([OR, b], args);
  }

  lemma BaseCasts(role: ListRole, secrets: seq<string>, connections: seq<string>, args: seq<Cell>)
    requires role.AsApprover? ==> secrets != [] || connections != []
    ensures TokenCastsOk(BaseOf(role, secrets, connections), args)
  {
    var c := if secrets != [] then 3 else 2;
    if role.AsApprover? {
      hide OthersIn, OrOf, BaseOf;
      OthersInCasts(SecretId, 2, 1, args);
      OthersInCasts(ConnectionId, c, 1, args);
      OrOfCasts(OthersIn(SecretId, 2, 1), OthersIn(ConnectionId, c, 1), args);
      OrOfCasts(OthersIn(ConnectionId, c, 1), OthersIn(SecretId, 2, 1), args);
      BaseForms(secrets, connections);
    } else {
      OrOfCasts(Atom(Equal(RequesterId, 1)), Atom(Equal(ApproverId, 1)), args);
      assert OrOf([Atom(Equal(RequesterId, 1)), Atom(Equal(ApproverId, 1))])
          == Paren([Atom(Equal(RequesterId, 1)), OR, Atom(Equal(ApproverId, 1))]);
    }
  }

  /** The only cast in the filter is that of the status. */
  lemma FilterCasts(user: string, role: ListRole, status: string, secrets: seq<string>, connections: seq<string>)
    requires role.AsApprover? ==> secrets != [] || connections != []
    ensures var (text, args) := FilterOf(user, role, status, secrets, connections);
            CastsOk(text, args) <==> StatusRuns(status)
  {
    var (text, args) := FilterOf(user, role, status, secrets, connections);
    var base := BaseOf(role, secrets, connections);
    BaseCasts(role, secrets, connections, args);
    hide BaseOf, Labels, BaseArgs;
    assert [base][1..] == [];
    if status != "" {
      var last := Atom(EqualEnum(Status, |args|, CheckoutStatus));
      assert text == [base, AND, last];
      assert text[1..] == [AND, last] && [AND, last][1..] == [last] && [last][1..] == [];
      assert CastsOk([last], args) <==> StatusRuns(status);
      assert CastsOk([AND, last], args) <==> StatusRuns(status);
    }
  }

  lemma ListSelect(
    table: seq<Row>, user: string, role: ListRole, status: string, secrets: seq<string>, connections: seq<string>)
    requires forall i :: 0 <= i < |table| ==> Typed(table[i])
    requires StatusRuns(status) && (role.AsApprover? ==> secrets != [] || connections != [])
    ensures var (text, args) := FilterOf(user, role, status, secrets, connections);
            Select(table, text, args) == Keep(table, ListMatch(user, role, status, secrets, connections))
  {
    var (text, args) := FilterOf(user, role, status, secrets, connections);
    hide FilterOf, Accepts, Listed, Select, Keep, Typed, StatusRuns;
    forall i | 0 <= i < |table|
      ensures Accepts(text, table[i], args) <==> ListMatch(user, role, status, secrets, connections)(table[i])
    {
      ListFilterMeaning(user, role, status, secrets, connections, table[i]);
    }
    SelectIsKeep(table, text, args, ListMatch(user, role, status, secrets, connections));
  }

  /** The checkout list: empty without a query for an approver of nothing, an error for a status that is no label,
      and otherwise a page of exactly the listed requests, newest first, with their number. */
  method List(table: seq<Row>, user: string, role: ListRole, status: string, secrets: seq<string>,
              connections: seq<string>, limit: nat, offset: nat, order: Orderer<Row>)
    returns (reply: ListReply)
    requires (forall i :: 0 <= i < |table| ==> Typed(table[i])) && OrdersBy(order, NewestFirst())
    ensures role.AsApprover? && secrets == [] && connections == [] ==> reply == Page([], 0)
    ensures !(role.AsApprover? && secrets == [] && connections == []) ==>
              if StatusRuns(status) then
                var rows := Keep(table, ListMatch(user, role, status, secrets, connections));
                && reply == Page(LimitOffset(order(rows), limit, offset), |rows|)
                && Arranges(rows, NewestFirst(), order(rows))
              else reply == DatabaseError
  {
    hide FilterOf, StatusRuns, ListMatch, Select, Keep, NewestFirst;
    var filter := BuildListFilter(user, role, status, secrets, connections);
    if filter.None? {
      return Page([], 0);
    }
    var (text, args) := filter.value;
    FilterCasts(user, role, status, secrets, connections);
    if !CastsOk(text, args) {
      return DatabaseError;
    }
    ListSelect(table, user, role, status, secrets, connections);
    var rows := Select(table, text, args);
    reply := Page(LimitOffset(order(rows), limit, offset), |rows|);
  }
}
