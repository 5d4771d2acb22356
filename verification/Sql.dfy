/**
 The fragment of SQL that the filter builders emit, and what it means.

 A condition text is a sequence of tokens whose parentheses are already matched; `Eval`
 gives it the precedence of SQL (AND binds tighter than OR) and three-valued truth, so an
 unparenthesised OR or a NULL column has its real effect. `$n` is the n-th bound argument.
 */
module Sql {
  import opened Texts

  /** A column value or a bound argument. */
  datatype Cell =
    | Null
    | Text(text: string)
    | Time(at: int)
    | Bool(flag: bool)
    | Int(value: int)
    | Texts(items: seq<string>)

  /** The columns of the audit log, database audit log, session recording and checkout tables, with
      the joined columns the listings add. */
  datatype Column =
    | UserId | Action | CreatedAt | TargetType | TargetId | IpAddress | GatewayId | GeoCountry | Flags | Details
    | TenantId | ConnectionId | QueryType | Blocked | QueryText | TablesAccessed | BlockReason
    | SessionId | RecordingUserId | SessionTenantId | TeamTenantId | TeamScopeId | MemberTenantId
    | RequesterId | ApproverId | SecretId | Status | Id

  type Row = map<Column, Cell>

  function Get(row: Row, col: Column): Cell {
    if col in row then row[col] else Null
  }

  /** `Failed` is an SQL error: bad syntax, an unbound placeholder or a type clash. */
  datatype Truth = True | False | Unknown | Failed

  /** The enum types that arguments are cast to. */
  datatype Enum = CheckoutStatus | DbQueryType

  function Labels(e: Enum): seq<string> {
    match e
    case CheckoutStatus => ["PENDING", "APPROVED", "REJECTED", "EXPIRED", "CHECKED_IN"]
    case DbQueryType => ["SELECT", "INSERT", "UPDATE", "DELETE", "DDL", "OTHER"]
  }

  datatype Pred =
    | OneIsOne                                        // 1 = 1
    | Equal(col: Column, n: nat)                      // col = $n
    | NotEqual(col: Column, n: nat)                   // col <> $n
    | AtLeast(col: Column, n: nat)                    // col >= $n
    | AtMost(col: Column, n: nat)                     // col <= $n
    | ILike(col: Column, n: nat)                      // col ILIKE $n
    | ILikeOrEmpty(col: Column, n: nat)               // COALESCE(col, '') ILIKE $n
    | NonEmptyArray(col: Column)                      // cardinality(col) > 0
    | ArrayHas(col: Column, n: nat)                   // EXISTS (SELECT 1 FROM unnest(col) AS t WHERE t = $n)
    | IsNull(col: Column)                             // col IS NULL
    | EqualAny(col: Column, n: nat)                   // col = ANY($n)
    | EqualEnum(col: Column, n: nat, e: Enum)         // col = $n::"CheckoutStatus", col = $n::"DbQueryType"
    | CoalesceEqual(cols: seq<Column>, n: nat)        // COALESCE(cols...) = $n

  datatype Token = Atom(p: Pred) | Paren(inner: seq<Token>) | AND | OR

  // ---------------------------------------------------------------- ILIKE

  predicate SameText(a: string, b: string) {
    |a| == |b| && forall i :: 0 <= i < |a| ==> LowerChar(a[i]) == LowerChar(b[i])
  }

  /** SQL pattern matching: % is any run, _ any character, backslash takes the next one literally. */
  predicate Match(pattern: string, text: string)
    decreases |pattern| + |text|
  {
    if pattern == "" then text == ""
    else if pattern[0] == '%' then Match(pattern[1..], text) || (text != "" && Match(pattern, text[1..]))
    else if text == "" then false
    else if pattern[0] == '_' then Match(pattern[1..], text[1..])
    else if pattern[0] == '\\' then
      |pattern| > 1 && LowerChar(pattern[1]) == LowerChar(text[0]) && Match(pattern[2..], text[1..])
    else LowerChar(pattern[0]) == LowerChar(text[0]) && Match(pattern[1..], text[1..])
  }

  // ---------------------------------------------------------------- evaluation

  function FromBool(b: bool): Truth {
    if b then True else False
  }

  function TruthAnd(a: Truth, b: Truth): Truth {
    if a.Failed? || b.Failed? then Failed
    else if a.False? || b.False? then False
    else if a.Unknown? || b.Unknown? then Unknown
    else True
  }

  function TruthOr(a: Truth, b: Truth): Truth {
    if a.Failed? || b.Failed? then Failed
    else if a.True? || b.True? then True
    else if a.Unknown? || b.Unknown? then Unknown
    else False
  }

  function TruthNot(a: Truth): Truth {
    match a
    case True => False
    case False => True
    case _ => a
  }

  function EqualCells(a: Cell, b: Cell): Truth {
    if a.Null? || b.Null? then Unknown
    else if (a.Text? && b.Text?) || (a.Time? && b.Time?) || (a.Bool? && b.Bool?) then FromBool(a == b)
    else Failed
  }

  function LikeCells(a: Cell, b: Cell): Truth {
    if a.Null? || b.Null? then Unknown
    else if a.Text? && b.Text? then FromBool(Match(b.text, a.text))
    else Failed
  }

  function Coalesce(row: Row, cols: seq<Column>): Cell {
    if cols == [] then Null
    else if !Get(row, cols[0]).Null? then Get(row, cols[0])
    else Coalesce(row, cols[1..])
  }

  function EvalPred(p: Pred, row: Row, args: seq<Cell>): Truth {
    match p
    case OneIsOne => True
    case NonEmptyArray(col) =>
      var cell := Get(row, col);
      if cell.Null? then Unknown else if cell.Texts? then FromBool(|cell.items| > 0) else Failed
    case IsNull(col) => FromBool(Get(row, col).Null?)
    case _ =>
      if !(1 <= p.n <= |args|) then Failed
      else
        var arg := args[p.n - 1];
        match p
        case Equal(col, _) => EqualCells(Get(row, col), arg)
        case NotEqual(col, _) => TruthNot(EqualCells(Get(row, col), arg))
        case AtLeast(col, _) =>
          var cell := Get(row, col);
          if cell.Null? || arg.Null? then Unknown
          else if cell.Time? && arg.Time? then FromBool(cell.at >= arg.at) else Failed
        case AtMost(col, _) =>
          var cell := Get(row, col);
          if cell.Null? || arg.Null? then Unknown
          else if cell.Time? && arg.Time? then FromBool(cell.at <= arg.at) else Failed
        case ILike(col, _) => LikeCells(Get(row, col), arg)
        case ILikeOrEmpty(col, _) => LikeCells(if Get(row, col).Null? then Text("") else Get(row, col), arg)
        case ArrayHas(col, _) =>
          var cell := Get(row, col);
          if cell.Null? then False
          else if cell.Texts? && arg.Text? then FromBool(arg.text in cell.items) else Failed
        case EqualAny(col, _) =>
          var cell := Get(row, col);
          if cell.Null? || arg.Null? then Unknown
          else if cell.Text? && arg.Texts? then FromBool(cell.text in arg.items) else Failed
        case EqualEnum(col, _, e) =>
          if arg.Text? && arg.text in Labels(e) then EqualCells(Get(row, col), arg) else Failed
        case CoalesceEqual(cols, _) => EqualCells(Coalesce(row, cols), arg)
  }

  function EvalToken(t: Token, row: Row, args: seq<Cell>): Truth
    decreases t
  {
    match t
    case Atom(p) => EvalPred(p, row, args)
    case Paren(inner) => Eval(inner, row, args)
    case _ => Failed
  }

  function Eval(text: seq<Token>, row: Row, args: seq<Cell>): Truth
    decreases text
  {
    if text == [] then Failed else EvalChain(EvalToken(text[0], row, args), text[1..], row, args)
  }

  /** The value of a text whose current AND chain has the value `chain` so far. */
  function EvalChain(chain: Truth, rest: seq<Token>, row: Row, args: seq<Cell>): Truth
    decreases rest
  {
    if rest == [] then chain
    else if |rest| == 1 then Failed
    else match rest[0]
      case AND => EvalChain(TruthAnd(chain, EvalToken(rest[1], row, args)), rest[2..], row, args)
      case OR => TruthOr(chain, EvalChain(EvalToken(rest[1], row, args), rest[2..], row, args))
      case _ => Failed
  }

  /** A WHERE clause keeps the rows for which its condition is true, not merely unknown. */
  predicate Accepts(text: seq<Token>, row: Row, args: seq<Cell>) {
    Eval(text, row, args) == True
  }

  // ---------------------------------------------------------------- casts

  predicate TokenCastsOk(t: Token, args: seq<Cell>)
    decreases t
  {
    match t
    case Atom(p) =>
      p.EqualEnum? ==> 1 <= p.n <= |args| && args[p.n - 1].Text? && args[p.n - 1].text in Labels(p.e)
    case Paren(inner) => CastsOk(inner, args)
    case _ => true
  }

  /** Every argument that is cast to an enum spells one of its labels. A query whose casts fail is refused before
      it looks at any row. */
  predicate CastsOk(text: seq<Token>, args: seq<Cell>)
    decreases text
  {
    text == [] || (TokenCastsOk(text[0], args) && CastsOk(text[1..], args))
  }

  // ---------------------------------------------------------------- placeholders

  function PredHoles(p: Pred): set<nat> {
    if p.OneIsOne? || p.NonEmptyArray? || p.IsNull? then {} else {p.n}
  }

  function TokenHoles(t: Token): set<nat>
    decreases t
  {
    match t
    case Atom(p) => PredHoles(p)
    case Paren(inner) => Holes(inner)
    case _ => {}
  }

  /** The placeholders a text uses. */
  function Holes(text: seq<Token>): set<nat>
    decreases text
  {
    if text == [] then {} else TokenHoles(text[0]) + Holes(text[1..])
  }

  /** The placeholders are exactly $from, ..., $(from + count - 1). */
  ghost predicate Dense(holes: set<nat>, from: nat, count: nat) {
    forall n: nat :: n in holes <==> from <= n < from + count
  }

  lemma {:induction false} HolesConcat(a: seq<Token>, b: seq<Token>)
    ensures Holes(a + b) == Holes(a) + Holes(b)
  {
    if a == [] {
      assert a + b == b;
    } else {
      assert (a + b)[1..] == a[1..] + b;
      HolesConcat(a[1..], b);
    }
  }

  // ---------------------------------------------------------------- conjunctions

  /** The clauses joined by AND. */
  function JoinAnd(clauses: seq<seq<Token>>): seq<Token> {
    if clauses == [] then []
    else if |clauses| == 1 then clauses[0]
    else JoinAnd(clauses[..|clauses| - 1]) + [AND] + clauses[|clauses| - 1]
  }

  /** The continuation `AND c1 AND c2 ...`; empty when there are no clauses. */
  function AndTail(clauses: seq<seq<Token>>): seq<Token> {
    if clauses == [] then [] else [AND] + JoinAnd(clauses)
  }

  /** Every clause is one operand: an atom or one matched pair of parentheses. */
  predicate Closed(clauses: seq<seq<Token>>) {
    forall i :: 0 <= i < |clauses| ==> |clauses[i]| == 1 && (clauses[i][0].Atom? || clauses[i][0].Paren?)
  }

  predicate AllTrue(clauses: seq<seq<Token>>, row: Row, args: seq<Cell>)
    requires Closed(clauses)
  {
    forall i :: 0 <= i < |clauses| ==> EvalToken(clauses[i][0], row, args) == True
  }

  /** Appending `AND t` to a text without a top-level OR conjoins t. */
  lemma {:induction false} ChainConcat(chain: Truth, rest: seq<Token>, t: Token, row: Row, args: seq<Cell>)
    requires |rest| % 2 == 0 && forall i :: 0 <= i < |rest| ==> rest[i] != OR
    ensures EvalChain(chain, rest + [AND, t], row, args) ==
            TruthAnd(EvalChain(chain, rest, row, args), EvalToken(t, row, args))
    decreases |rest|
  {
    hide EvalPred, Match;
    var all := rest + [AND, t];
    if rest == [] {
      assert all[2..] == [];
    } else {
      assert all[2..] == rest[2..] + [AND, t];
      if rest[0] == AND {
        ChainConcat(TruthAnd(chain, EvalToken(rest[1], row, args)), rest[2..], t, row, args);
      }
    }
  }

  lemma AndLast(text: seq<Token>, t: Token, row: Row, args: seq<Cell>)
    requires |text| % 2 == 1 && forall i :: 0 <= i < |text| ==> text[i] != OR
    ensures Eval(text + [AND, t], row, args) == TruthAnd(Eval(text, row, args), EvalToken(t, row, args))
  {
    hide EvalPred, Match;
    assert (text + [AND, t])[1..] == text[1..] + [AND, t];
    ChainConcat(EvalToken(text[0], row, args), text[1..], t, row, args);
  }

  lemma {:induction false} JoinShape(clauses: seq<seq<Token>>)
    requires clauses != [] && Closed(clauses)
    ensures |JoinAnd(clauses)| == 2 * |clauses| - 1
    ensures forall i :: 0 <= i < |JoinAnd(clauses)| ==> JoinAnd(clauses)[i] != OR
  {
    if |clauses| > 1 {
      JoinShape(clauses[..|clauses| - 1]);
    }
  }

  /** A conjunction of closed clauses accepts a row exactly when every clause is true of it. */
  lemma {:induction false} JoinMeaning(clauses: seq<seq<Token>>, row: Row, args: seq<Cell>)
    requires clauses != [] && Closed(clauses)
    ensures Accepts(JoinAnd(clauses), row, args) <==> AllTrue(clauses, row, args)
  {
    hide EvalPred, Match;
    if |clauses| == 1 {
      assert JoinAnd(clauses) == [clauses[0][0]];
      assert Eval([clauses[0][0]], row, args) == EvalToken(clauses[0][0], row, args);
    } else {
      var init, last := clauses[..|clauses| - 1], clauses[|clauses| - 1];
      JoinMeaning(init, row, args);
      JoinShape(init);
      AndLast(JoinAnd(init), last[0], row, args);
      assert JoinAnd(clauses) == JoinAnd(init) + [AND, last[0]];
      assert clauses == init + [last];
      assert AllTrue(clauses, row, args) <==> AllTrue(init, row, args) && EvalToken(last[0], row, args) == True;
    }
  }

  ghost predicate SomeFails(clauses: seq<seq<Token>>, row: Row, args: seq<Cell>)
    requires Closed(clauses)
  {
    exists i :: 0 <= i < |clauses| && EvalToken(clauses[i][0], row, args) == Failed
  }

  /** A conjunction of closed clauses is an error exactly if one of them is: SQL does not promise to look at the
      others first. */
  lemma {:induction false} JoinFails(clauses: seq<seq<Token>>, row: Row, args: seq<Cell>)
    requires clauses != [] && Closed(clauses)
    ensures Eval(JoinAnd(clauses), row, args) == Failed <==> SomeFails(clauses, row, args)
  {
    hide EvalPred, Match;
    if |clauses| == 1 {
      assert JoinAnd(clauses) == [clauses[0][0]];
      assert Eval([clauses[0][0]], row, args) == EvalToken(clauses[0][0], row, args);
    } else {
      var init, last := clauses[..|clauses| - 1], clauses[|clauses| - 1];
      JoinFails(init, row, args);
      JoinShape(init);
      AndLast(JoinAnd(init), last[0], row, args);
      assert JoinAnd(clauses) == JoinAnd(init) + [AND, last[0]];
      assert clauses == init + [last];
      assert SomeFails(clauses, row, args) <==>
        SomeFails(init, row, args) || EvalToken(last[0], row, args) == Failed;
    }
  }

  lemma JoinSnoc(clauses: seq<seq<Token>>, last: seq<Token>)
    ensures JoinAnd(clauses + [last]) == if clauses == [] then last else JoinAnd(clauses) + [AND] + last
  {
    assert (clauses + [last])[..|clauses|] == clauses;
  }

  lemma TailSnoc(clauses: seq<seq<Token>>, last: seq<Token>)
    ensures AndTail(clauses + [last]) == AndTail(clauses) + ([AND] + last)
  {
    hide JoinAnd;
    JoinSnoc(clauses, last);
    assert |clauses + [last]| > 0;
    if clauses == [] {
      assert [] + ([AND] + last) == [AND] + last;
    } else {
      var text := JoinAnd(clauses);
      assert AndTail(clauses + [last]) == [AND] + (text + [AND] + last);
      assert [AND] + (text + [AND] + last) == ([AND] + text) + ([AND] + last);
    }
  }

  /** A condition followed by `AND c1 AND c2 ...` is the conjunction of all of them. */
  lemma {:induction false} TailMeaning(first: seq<seq<Token>>, more: seq<seq<Token>>)
    requires first != []
    ensures JoinAnd(first) + AndTail(more) == JoinAnd(first + more)
    decreases |more|
  {
    hide JoinAnd;
    if more == [] {
      assert first + more == first;
    } else {
      hide AndTail;
      var init, last := more[..|more| - 1], more[|more| - 1];
      assert init + [last] == more && (first + init) + [last] == first + more;
      TailMeaning(first, init);
      TailSnoc(init, last);
      JoinSnoc(first + init, last);
    }
  }

  // ---------------------------------------------------------------- ILIKE '%term%'

  predicate IsMeta(c: char) {
    c == '%' || c == '_' || c == '\\'
  }

  predicate Plain(term: string) {
    forall i :: 0 <= i < |term| ==> !IsMeta(term[i])
  }

  /** The pattern the builders bind for a search term. */
  function Around(term: string): string {
    "%" + term + "%"
  }

  /** Literal, case-insensitive containment: what a search box promises. */
  predicate Contains(text: string, term: string) {
    exists k :: 0 <= k <= |text| - |term| && ContainsAt(text, term, k)
  }

  predicate ContainsAt(text: string, term: string, k: nat)
    requires k <= |text| - |term|
  {
    SameText(text[k..k + |term|], term)
  }

  lemma {:induction false} PercentMatchesAll(text: string)
    ensures Match("%", text)
    decreases |text|
  {
    assert "%"[1..] == "";
    if text != "" {
      PercentMatchesAll(text[1..]);
    }
  }

  lemma {:induction false} LeadingPercent(pattern: string, text: string)
    ensures Match("%" + pattern, text) <==> exists k :: 0 <= k <= |text| && Match(pattern, text[k..])
    decreases |text|
  {
    assert ("%" + pattern)[1..] == pattern;
    assert text[0..] == text;
    if text != "" {
      LeadingPercent(pattern, text[1..]);
      assert forall k :: 1 <= k <= |text| ==> text[k..] == text[1..][k - 1..];
    }
  }

  lemma SameTextCons(a: string, b: string)
    requires |a| == |b| > 0
    ensures SameText(a, b) <==> LowerChar(a[0]) == LowerChar(b[0]) && SameText(a[1..], b[1..])
  {
    assert forall i :: 1 <= i < |a| ==> a[i] == a[1..][i - 1] && b[i] == b[1..][i - 1];
  }

  lemma {:induction false} PlainPrefix(term: string, text: string)
    requires Plain(term)
    ensures Match(term + "%", text) <==> |text| >= |term| && SameText(text[..|term|], term)
    decreases |term|
  {
    if term == "" {
      assert term + "%" == "%";
      PercentMatchesAll(text);
    } else {
      assert (term + "%")[1..] == term[1..] + "%";
      if text != "" {
        PlainPrefix(term[1..], text[1..]);
        if |text| >= |term| {
          assert text[..|term|][1..] == text[1..][..|term| - 1];
          SameTextCons(text[..|term|], term);
        }
      }
    }
  }

  lemma PlainSearch(term: string, text: string)
    requires Plain(term)
    ensures Match(Around(term), text) <==> Contains(text, term)
  {
    assert Around(term) == "%" + (term + "%");
    LeadingPercent(term + "%", text);
    forall k | 0 <= k <= |text|
      ensures Match(term + "%", text[k..]) <==> k <= |text| - |term| && ContainsAt(text, term, k)
    {
      PlainPrefix(term, text[k..]);
      if k <= |text| - |term| {
        assert text[k..][..|term|] == text[k..k + |term|];
      }
    }
  }

  /** A text that the unescaped term matches although it does not spell it out. */
  function Instance(term: string): string {
    if term == "" then ""
    else if term[0] == '%' then Instance(term[1..])
    else if term[0] == '_' then "x" + Instance(term[1..])
    else if term[0] == '\\' then (if |term| == 1 then "%" else [term[1]] + Instance(term[2..]))
    else [term[0]] + Instance(term[1..])
  }

  lemma {:induction false} InstanceMatches(term: string)
    ensures Match(term + "%", Instance(term))
    decreases |term|
  {
    var pattern := term + "%";
    if term == "" {
      PercentMatchesAll("");
      assert pattern == "%";
    } else {
      assert pattern[1..] == term[1..] + "%";
      InstanceMatches(term[1..]);
      if term[0] == '\\' {
        if |term| == 1 {
          assert pattern[2..] == "" && "%"[1..] == "";
        } else {
          assert pattern[2..] == term[2..] + "%";
          InstanceMatches(term[2..]);
          assert Instance(term)[1..] == Instance(term[2..]);
        }
      } else if term[0] != '%' {
        assert Instance(term)[1..] == Instance(term[1..]);
      }
    }
  }

  lemma {:induction false} InstanceDiffers(term: string)
    ensures |Instance(term)| <= |term|
    ensures !Plain(term) ==> !SameText(Instance(term), term)
    decreases |term|
  {
    if term != "" {
      InstanceDiffers(term[1..]);
      if |term| > 1 {
        InstanceDiffers(term[2..]);
      }
      if |Instance(term)| == |term| {
        SameTextCons(Instance(term), term);
        assert !IsMeta(term[0]) && !Plain(term) ==> !Plain(term[1..]) by {
          assert forall i :: 1 <= i < |term| ==> term[i] == term[1..][i - 1];
        }
      }
    }
  }

  /** The builders bind the term without escaping it: `ILIKE '%term%'` is literal containment on every
      text if and only if the term holds none of the three pattern characters. */
  lemma SearchIsContainmentIffPlain(term: string)
    ensures (forall text :: Match(Around(term), text) <==> Contains(text, term)) <==> Plain(term)
  {
    if Plain(term) {
      forall text ensures Match(Around(term), text) <==> Contains(text, term) {
        PlainSearch(term, text);
      }
    } else {
      var text := Instance(term);
      InstanceMatches(term);
      InstanceDiffers(term);
      assert Around(term) == "%" + (term + "%");
      assert text[0..] == text;
      LeadingPercent(term + "%", text);
      assert Match(Around(term), text);
      forall k | 0 <= k <= |text| - |term|
        ensures !ContainsAt(text, term, k)
      {
        assert text[k..k + |term|] == text;
      }
    }
  }
}
