/**
 The leading-comment stripper and the SQL branch of query classification.

 `StripLeadingSQLComments` is the scanner with its index and nested loops; `Strip` is its
 specification on the remaining text.
 */
module SqlComments {
  predicate IsBlank(c: char) {
    c == ' ' || c == '\t' || c == '\n' || c == '\r'
  }

  predicate StartsWith2(s: string, a: char, b: char) {
    |s| >= 2 && s[0] == a && s[1] == b
  }

  /** The text after the current line. */
  function AfterLine(s: string): (r: string)
    ensures |r| <= |s|
  {
    if s == "" then "" else if s[0] == '\n' then s[1..] else AfterLine(s[1..])
  }

  /** The text after the closing of a block comment. Without one, the scan stops at the last character. */
  function AfterBlock(s: string): (r: string)
    ensures |r| <= |s|
  {
    if |s| < 2 then s else if StartsWith2(s, '*', '/') then s[2..] else AfterBlock(s[1..])
  }

  function Strip(s: string): string
    decreases |s|
  {
    if s == "" then ""
    else if IsBlank(s[0]) then Strip(s[1..])
    else if StartsWith2(s, '-', '-') then Strip(AfterLine(s[2..]))
    else if StartsWith2(s, '/', '*') then Strip(AfterBlock(s[2..]))
    else s
  }

  lemma StripStep(s: string)
    ensures s != "" && IsBlank(s[0]) ==> Strip(s) == Strip(s[1..])
    ensures StartsWith2(s, '-', '-') ==> Strip(s) == Strip(AfterLine(s[2..]))
    ensures StartsWith2(s, '/', '*') ==> Strip(s) == Strip(AfterBlock(s[2..]))
    ensures Bare(s) ==> Strip(s) == s
  {
  }

  method StripLeadingSQLComments(sql: string) returns (r: string)
    ensures r == Strip(sql)
  {
    hide Strip;
    var i := 0;
    while i < |sql|
      invariant 0 <= i <= |sql|
      invariant Strip(sql[i..]) == Strip(sql)
      decreases |sql| - i
    {
      var rest := sql[i..];
      StripStep(rest);
      if IsBlank(sql[i]) {
        assert rest[1..] == sql[i + 1..];
        i := i + 1;
        continue;
      }
      if i + 1 < |sql| && sql[i] == '-' && sql[i + 1] == '-' {
        assert rest[2..] == sql[i + 2..];
        i := i + 2;
        while i < |sql| && sql[i] != '\n'
          invariant 0 <= i <= |sql|
          invariant AfterLine(sql[i..]) == AfterLine(rest[2..])
          invariant |sql| - i <= |rest| - 2
        {
          assert sql[i..][1..] == sql[i + 1..];
          i := i + 1;
        }
        if i < |sql| {
          assert sql[i..][1..] == sql[i + 1..];
          i := i + 1;
        }
        assert sql[i..] == AfterLine(rest[2..]);
        continue;
      }
      if i + 1 < |sql| && sql[i] == '/' && sql[i + 1] == '*' {
        assert rest[2..] == sql[i + 2..];
        i := i + 2;
        while i + 1 < |sql| && !(sql[i] == '*' && sql[i + 1] == '/')
          invariant 0 <= i <= |sql|
          invariant AfterBlock(sql[i..]) == AfterBlock(rest[2..])
          invariant |sql| - i <= |rest| - 2
        {
          assert sql[i..][1..] == sql[i + 1..];
          i := i + 1;
        }
        if i + 1 < |sql| {
          assert sql[i..][2..] == sql[i + 2..];
          i := i + 2;
        }
        assert sql[i..] == AfterBlock(rest[2..]);
        continue;
      }
      break;
    }
    r := sql[i..];
    StripStep(r);
  }

  // ---------------------------------------------------------------- what is left

  /** The text starts with neither white space nor a comment opener. */
  predicate Bare(s: string) {
    s != "" ==> !IsBlank(s[0]) && !StartsWith2(s, '-', '-') && !StartsWith2(s, '/', '*')
  }

  ghost predicate IsSuffix(r: string, s: string) {
    |r| <= |s| && r == s[|s| - |r|..]
  }

  lemma SuffixOfTail(r: string, s: string)
    requires s != "" && IsSuffix(r, s[1..])
    ensures IsSuffix(r, s)
  {
    assert s[1..][|s| - 1 - |r|..] == s[|s| - |r|..];
  }

  lemma {:induction false} AfterLineIsSuffix(s: string)
    ensures IsSuffix(AfterLine(s), s)
  {
    if s != "" && s[0] != '\n' {
      AfterLineIsSuffix(s[1..]);
    }
  }

  lemma {:induction false} AfterBlockIsSuffix(s: string)
    ensures IsSuffix(AfterBlock(s), s)
  {
    if |s| >= 2 && !StartsWith2(s, '*', '/') {
      AfterBlockIsSuffix(s[1..]);
      SuffixOfTail(AfterBlock(s[1..]), s);
    }
  }

  /** Stripping returns a suffix of the text that starts with neither white space nor a comment opener,
      and changes exactly the texts that do. */
  lemma {:induction false} StripLeavesBareSuffix(s: string)
    ensures IsSuffix(Strip(s), s) && Bare(Strip(s))
    ensures Bare(s) <==> Strip(s) == s
    decreases |s|
  {
    if s != "" {
      if IsBlank(s[0]) {
        StripLeavesBareSuffix(s[1..]);
      } else if StartsWith2(s, '-', '-') {
        AfterLineIsSuffix(s[2..]);
        StripLeavesBareSuffix(AfterLine(s[2..]));
      } else if StartsWith2(s, '/', '*') {
        AfterBlockIsSuffix(s[2..]);
        StripLeavesBareSuffix(AfterBlock(s[2..]));
      }
    }
  }

  lemma StripIsIdempotent(s: string)
    ensures Strip(Strip(s)) == Strip(s)
  {
    StripLeavesBareSuffix(s);
    StripLeavesBareSuffix(Strip(s));
  }

  // ---------------------------------------------------------------- ignorable prefixes

  /** One ignorable piece of SQL text. */
  datatype Piece = Space(c: char) | Line(body: string) | Block(body: string)

  /** No closing of a block comment inside the body, nor across its end. */
  predicate Unclosed(body: string) {
    forall i :: 0 <= i < |body| ==> !StartsWith2((body + "*/")[i..], '*', '/')
  }

  predicate WellFormed(p: Piece) {
    match p
    case Space(c) => IsBlank(c)
    case Line(body) => '\n' !in body
    case Block(body) => Unclosed(body)
  }

  function Render(p: Piece): string {
    match p
    case Space(c) => [c]
    case Line(body) => "--" + body + "\n"
    case Block(body) => "/*" + body + "*/"
  }

  function RenderAll(ps: seq<Piece>): string {
    if ps == [] then "" else Render(ps[0]) + RenderAll(ps[1..])
  }

  lemma {:induction false} LineEnds(body: string, s: string)
    requires '\n' !in body
    ensures AfterLine(body + "\n" + s) == s
  {
    var text := body + "\n" + s;
    if body == "" {
      assert text[1..] == s;
    } else {
      assert text[1..] == body[1..] + "\n" + s;
      LineEnds(body[1..], s);
    }
  }

  lemma {:induction false} BlockEnds(body: string, s: string)
    requires Unclosed(body)
    ensures AfterBlock(body + "*/" + s) == s
  {
    var text := body + "*/" + s;
    if body == "" {
      assert text[2..] == s;
    } else {
      assert (body + "*/")[0..] == body + "*/";
      assert text[0] == (body + "*/")[0] && text[1] == (body + "*/")[1];
      assert text[1..] == body[1..] + "*/" + s;
      forall i | 0 <= i < |body[1..]|
        ensures !StartsWith2((body[1..] + "*/")[i..], '*', '/')
      {
        assert (body[1..] + "*/")[i..] == (body + "*/")[i + 1..];
      }
      BlockEnds(body[1..], s);
    }
  }

  lemma StripPiece(p: Piece, s: string)
    requires WellFormed(p)
    ensures Strip(Render(p) + s) == Strip(s)
  {
    var text := Render(p) + s;
    match p
    case Space(c) => assert text[1..] == s;
    case Line(body) =>
      assert text[2..] == body + "\n" + s;
      LineEnds(body, s);
    case Block(body) =>
      assert text[2..] == body + "*/" + s;
      BlockEnds(body, s);
  }

  /** Any sequence of white space, newline-ended line comments and closed block comments in front of a
      text is stripped as if it were not there. */
  lemma {:induction false} StripIgnoresPrefix(ps: seq<Piece>, s: string)
    requires forall i :: 0 <= i < |ps| ==> WellFormed(ps[i])
    ensures Strip(RenderAll(ps) + s) == Strip(s)
  {
    if ps == [] {
      assert RenderAll(ps) + s == s;
    } else {
      assert RenderAll(ps) + s == Render(ps[0]) + (RenderAll(ps[1..]) + s);
      StripPiece(ps[0], RenderAll(ps[1..]) + s);
      StripIgnoresPrefix(ps[1..], s);
    }
  }

  lemma {:induction false} UnclosedScan(body: string)
    requires body != "" && forall i :: 0 <= i < |body| ==> !StartsWith2(body[i..], '*', '/')
    ensures AfterBlock(body) == [body[|body| - 1]]
  {
    if |body| == 1 {
      assert body == [body[0]];
    } else {
      assert body[0..] == body;
      forall i | 0 <= i < |body[1..]|
        ensures !StartsWith2(body[1..][i..], '*', '/')
      {
        assert body[1..][i..] == body[i + 1..];
      }
      UnclosedScan(body[1..]);
    }
  }

  /** A block comment that is never closed is not swallowed whole: its last character survives, unless
      it is white space. */
  lemma UnclosedBlockLeavesItsLastCharacter(body: string)
    requires body != "" && forall i :: 0 <= i < |body| ==> !StartsWith2(body[i..], '*', '/')
    ensures var last := body[|body| - 1];
            Strip("/*" + body) == if IsBlank(last) then "" else [last]
  {
    hide Strip, AfterBlock;
    UnclosedScan(body);
    StripOpener(body);
    StripSingle(body[|body| - 1]);
  }

  lemma StripOpener(body: string)
    ensures Strip("/*" + body) == Strip(AfterBlock(body))
  {
    hide AfterBlock;
    var text := "/*" + body;
    assert text[2..] == body;
    assert text[0] == '/' && text[1] == '*';
  }

  lemma StripSingle(c: char)
    ensures Strip([c]) == if IsBlank(c) then "" else [c]
  {
    hide AfterBlock, AfterLine;
    assert [c][1..] == "";
    assert Strip("") == "";
  }

  // ---------------------------------------------------------------- classification

  datatype Pattern =
    | DdlPattern | SelectPattern | InsertPattern | UpdatePattern | DeletePattern | WithPattern
    | CteSelect | CteInsert | CteUpdate | CteDelete
    | ExplainPattern | ShowPattern | SetPattern | GrantPattern | MergePattern | CallPattern

  datatype QueryType = SELECT | INSERT | UPDATE | DELETE | DDL | OTHER

  /** The SQL branch of classification; `found` is the regex engine on the fixed patterns. */
  function ClassifySQL(found: (Pattern, string) -> bool, sql: string): QueryType {
    var trimmed := Strip(sql);
    if found(DdlPattern, trimmed) then DDL
    else if found(SelectPattern, trimmed) then SELECT
    else if found(InsertPattern, trimmed) then INSERT
    else if found(UpdatePattern, trimmed) then UPDATE
    else if found(DeletePattern, trimmed) then DELETE
    else if found(WithPattern, trimmed) then
      if found(CteSelect, trimmed) then SELECT
      else if found(CteInsert, trimmed) then INSERT
      else if found(CteUpdate, trimmed) then UPDATE
      else if found(CteDelete, trimmed) then DELETE
      else SELECT
    else if found(ExplainPattern, trimmed) then SELECT
    else if found(ShowPattern, trimmed) then SELECT
    else if found(SetPattern, trimmed) then DDL
    else if found(GrantPattern, trimmed) then DDL
    else if found(MergePattern, trimmed) then UPDATE
    else if found(CallPattern, trimmed) then OTHER
    else OTHER
  }

  /** Comments and white space in front of a statement cannot change its class. */
  lemma ClassIgnoresPrefix(found: (Pattern, string) -> bool, ps: seq<Piece>, sql: string)
    requires forall i :: 0 <= i < |ps| ==> WellFormed(ps[i])
    ensures ClassifySQL(found, RenderAll(ps) + sql) == ClassifySQL(found, sql)
  {
    hide Strip, RenderAll, WellFormed;
    StripIgnoresPrefix(ps, sql);
  }

  // ---------------------------------------------------------------- the class is that of the first pattern found

  /** The patterns of statements in the order in which they are tried, with their classes; WITH has its own list. */
  const STATEMENTS := [
    (DdlPattern, DDL), (SelectPattern, SELECT), (InsertPattern, INSERT), (UpdatePattern, UPDATE),
    (DeletePattern, DELETE), (WithPattern, SELECT), (ExplainPattern, SELECT), (ShowPattern, SELECT),
    (SetPattern, DDL), (GrantPattern, DDL), (MergePattern, UPDATE), (CallPattern, OTHER)]

  /** What follows the common table expressions of a WITH statement. */
  const CTES := [(CteSelect, SELECT), (CteInsert, INSERT), (CteUpdate, UPDATE), (CteDelete, DELETE)]

  /** Entry `i` is the first of the list whose pattern is found. */
  ghost predicate FirstFound(list: seq<(Pattern, QueryType)>, found: (Pattern, string) -> bool, text: string, i: nat) {
    i < |list| && found(list[i].0, text) && forall j :: 0 <= j < i ==> !found(list[j].0, text)
  }

  ghost predicate NoneFound(list: seq<(Pattern, QueryType)>, found: (Pattern, string) -> bool, text: string) {
    forall i :: 0 <= i < |list| ==> !found(list[i].0, text)
  }

  lemma ClassOfStripped(found: (Pattern, string) -> bool, sql: string, i: nat)
    ensures var text := Strip(sql);
            && (FirstFound(STATEMENTS, found, text, i) && STATEMENTS[i].0 != WithPattern ==>
                 ClassifySQL(found, sql) == STATEMENTS[i].1)
            && (NoneFound(STATEMENTS, found, text) ==> ClassifySQL(found, sql) == OTHER)
  {
    hide Strip;
    var text := Strip(sql);
    if FirstFound(STATEMENTS, found, text, i) {
      assert i <= 0 || !found(STATEMENTS[0].0, text);
      assert i <= 1 || !found(STATEMENTS[1].0, text);
      assert i <= 2 || !found(STATEMENTS[2].0, text);
      assert i <= 3 || !found(STATEMENTS[3].0, text);
      assert i <= 4 || !found(STATEMENTS[4].0, text);
      assert i <= 5 || !found(STATEMENTS[5].0, text);
      assert i <= 6 || !found(STATEMENTS[6].0, text);
      assert i <= 7 || !found(STATEMENTS[7].0, text);
      assert i <= 8 || !found(STATEMENTS[8].0, text);
      assert i <= 9 || !found(STATEMENTS[9].0, text);
      assert i <= 10 || !found(STATEMENTS[10].0, text);
    }
    if NoneFound(STATEMENTS, found, text) {
      assert !found(STATEMENTS[0].0, text) && !found(STATEMENTS[1].0, text) && !found(STATEMENTS[2].0, text);
      assert !found(STATEMENTS[3].0, text) && !found(STATEMENTS[4].0, text) && !found(STATEMENTS[5].0, text);
      assert !found(STATEMENTS[6].0, text) && !found(STATEMENTS[7].0, text) && !found(STATEMENTS[8].0, text);
      assert !found(STATEMENTS[9].0, text) && !found(STATEMENTS[10].0, text) && !found(STATEMENTS[11].0, text);
    }
  }

  lemma ClassOfWith(found: (Pattern, string) -> bool, sql: string, i: nat, k: nat)
    requires FirstFound(STATEMENTS, found, Strip(sql), i) && STATEMENTS[i].0 == WithPattern
    ensures FirstFound(CTES, found, Strip(sql), k) ==> ClassifySQL(found, sql) == CTES[k].1
    ensures NoneFound(CTES, found, Strip(sql)) ==> ClassifySQL(found, sql) == SELECT
  {
    hide Strip;
    var text := Strip(sql);
    assert i == 5;
    assert !found(STATEMENTS[0].0, text) && !found(STATEMENTS[1].0, text) && !found(STATEMENTS[2].0, text);
    assert !found(STATEMENTS[3].0, text) && !found(STATEMENTS[4].0, text);
    if FirstFound(CTES, found, text, k) {
      assert k <= 0 || !found(CTES[0].0, text);
      assert k <= 1 || !found(CTES[1].0, text);
      assert k <= 2 || !found(CTES[2].0, text);
    }
    if NoneFound(CTES, found, text) {
      assert !found(CTES[0].0, text) && !found(CTES[1].0, text) && !found(CTES[2].0, text) && !found(CTES[3].0, text);
    }
  }

  /** For every pattern engine, every statement and any white space and comments in front of it: the class is that
      of the first pattern of the list that is found in the bare statement; for WITH, that of the first pattern of
      its own list, or SELECT; and OTHER if nothing is found. */
  lemma ClassIsThatOfFirstFound(found: (Pattern, string) -> bool, ps: seq<Piece>, sql: string, i: nat, k: nat)
    requires forall j :: 0 <= j < |ps| ==> WellFormed(ps[j])
    ensures var answer, text := ClassifySQL(found, RenderAll(ps) + sql), Strip(sql);
            && (NoneFound(STATEMENTS, found, text) ==> answer == OTHER)
            && (FirstFound(STATEMENTS, found, text, i) && STATEMENTS[i].0 != WithPattern ==> answer == STATEMENTS[i].1)
            && (FirstFound(STATEMENTS, found, text, i) && STATEMENTS[i].0 == WithPattern ==>
                 && (FirstFound(CTES, found, text, k) ==> answer == CTES[k].1)
                 && (NoneFound(CTES, found, text) ==> answer == SELECT))
  {
    hide ClassifySQL, Strip, RenderAll, WellFormed, NoneFound;
    ClassIgnoresPrefix(found, ps, sql);
    ClassOfStripped(found, sql, i);
    if FirstFound(STATEMENTS, found, Strip(sql), i) && STATEMENTS[i].0 == WithPattern {
      ClassOfWith(found, sql, i, k);
    }
  }

  /** A data definition is one whatever else is found in it. */
  lemma DdlFirst(found: (Pattern, string) -> bool, sql: string)
    ensures found(DdlPattern, Strip(sql)) ==> ClassifySQL(found, sql) == DDL
  {
    hide Strip;
  }

  /** A statement on which only the DELETE pattern is found is a DELETE. */
  lemma OnlyDelete(found: (Pattern, string) -> bool, sql: string)
    requires forall p: Pattern :: found(p, Strip(sql)) <==> p == DeletePattern
    ensures ClassifySQL(found, sql) == DELETE
  {
    hide Strip;
  }

  /** OTHER is exactly what carries none of the patterns but CALL. */
  lemma OtherIff(found: (Pattern, string) -> bool, sql: string)
    ensures ClassifySQL(found, sql) == OTHER <==>
            forall i :: 0 <= i < |STATEMENTS| && STATEMENTS[i].0 != CallPattern ==> !found(STATEMENTS[i].0, Strip(sql))
  {
    hide Strip;
    var text := Strip(sql);
    if forall i :: 0 <= i < |STATEMENTS| && STATEMENTS[i].0 != CallPattern ==> !found(STATEMENTS[i].0, text) {
      assert !found(STATEMENTS[0].0, text) && !found(STATEMENTS[1].0, text) && !found(STATEMENTS[2].0, text);
      assert !found(STATEMENTS[3].0, text) && !found(STATEMENTS[4].0, text) && !found(STATEMENTS[5].0, text);
      assert !found(STATEMENTS[6].0, text) && !found(STATEMENTS[7].0, text) && !found(STATEMENTS[8].0, text);
      assert !found(STATEMENTS[9].0, text) && !found(STATEMENTS[10].0, text);
    }
  }
}
