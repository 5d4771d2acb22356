/**
 The SQL firewall: connection rules, policy modes, stable priority sort, first-match evaluation.

 The regex engine is a parameter: `re(pattern, text)` says that the pattern compiles and is
 found in the text, ignoring case.
 */
module Firewall {
  import opened Options
  import opened Texts

  datatype Rule = Rule(name: string, pattern: string, action: string, scope: Option<string>, priority: int)

  datatype RuleSetting = RuleSetting(name: string, pattern: string, action: string, scope: string,
      enabled: Option<bool>, priority: int)

  datatype Settings = Settings(firewallEnabled: Option<bool>, policyMode: string, rules: seq<RuleSetting>)

  datatype Mode = Inherit | Merge | Override

  datatype Query = Query(text: string, database: string, table: string)

  datatype Evaluation = Evaluation(allowed: bool, action: string, ruleName: string, matched: bool)

  type Regex = (string, string) -> bool

  datatype Builtin = Builtin(name: string, pattern: string, action: string)

  const BUILTINS := [
    Builtin("Drop Table", "\\bDROP\\s+TABLE\\b", "BLOCK"),
    Builtin("Truncate", "\\bTRUNCATE\\b", "BLOCK"),
    Builtin("Drop Database", "\\bDROP\\s+DATABASE\\b", "BLOCK"),
    Builtin("Bulk SELECT without WHERE", "^\\s*SELECT\\s+\\*\\s+FROM\\s+\\S+\\s*;?\\s*$", "ALERT")]

  function NormalizeMode(value: string): Mode {
    var mode := Lower(TrimSpace(value));
    if mode == "merge" then Merge else if mode == "override" then Override else Inherit
  }

  // ---------------------------------------------------------------- connection rules

  predicate Usable(item: RuleSetting) {
    GetOr(item.enabled, true) && TrimSpace(item.name) != "" && TrimSpace(item.pattern) != ""
  }

  function RuleOf(item: RuleSetting): Rule {
    var action, scope := Upper(TrimSpace(item.action)), TrimSpace(item.scope);
    Rule(TrimSpace(item.name), TrimSpace(item.pattern),
         if action == "" then "BLOCK" else action,
         if scope == "" then None else Some(scope),
         item.priority)
  }

  /** The usable settings in order, as rules. */
  function ConnectionRules(items: seq<RuleSetting>): seq<Rule> {
    if items == [] then []
    else
      var last := items[|items| - 1];
      ConnectionRules(items[..|items| - 1]) + (if Usable(last) then [RuleOf(last)] else [])
  }

  method BuildConnectionFirewallRules(items: seq<RuleSetting>) returns (rules: seq<Rule>)
    ensures rules == ConnectionRules(items)
  {
    rules := [];
    for i := 0 to |items|
      invariant rules == ConnectionRules(items[..i])
    {
      assert items[..i + 1][..i] == items[..i];
      var item := items[i];
      if !GetOr(item.enabled, true) {
        continue;
      }
      var name, pattern := TrimSpace(item.name), TrimSpace(item.pattern);
      if name == "" || pattern == "" {
        continue;
      }
      var action := Upper(TrimSpace(item.action));
      if action == "" {
        action := "BLOCK";
      }
      var scope := TrimSpace(item.scope);
      rules := rules + [Rule(name, pattern, action, if scope == "" then None else Some(scope), item.priority)];
    }
    assert items[..|items|] == items;
  }

  // ---------------------------------------------------------------- stable sort

  predicate Descending(rules: seq<Rule>) {
    forall i, j :: 0 <= i < j < |rules| ==> rules[i].priority >= rules[j].priority
  }

  /** The rules of one priority, in order. */
  function OfPriority(rules: seq<Rule>, priority: int): seq<Rule> {
    if rules == [] then []
    else (if rules[0].priority == priority then [rules[0]] else []) + OfPriority(rules[1..], priority)
  }

  function InsertRule(x: Rule, rules: seq<Rule>): seq<Rule> {
    if rules == [] || x.priority >= rules[0].priority then [x] + rules else [rules[0]] + InsertRule(x, rules[1..])
  }

  /** The stable sort by descending priority. */
  function SortRules(rules: seq<Rule>): seq<Rule> {
    if rules == [] then [] else InsertRule(rules[0], SortRules(rules[1..]))
  }

  lemma PriorityCons(x: Rule, rules: seq<Rule>, k: int)
    ensures OfPriority([x] + rules, k) == (if x.priority == k then [x] else []) + OfPriority(rules, k)
  {
    assert ([x] + rules)[1..] == rules;
  }

  lemma {:induction false} InsertKeepsPriority(x: Rule, rules: seq<Rule>, k: int)
    ensures OfPriority(InsertRule(x, rules), k) == OfPriority([x] + rules, k)
  {
    if rules != [] && x.priority < rules[0].priority {
      InsertKeepsPriority(x, rules[1..], k);
      PriorityCons(x, rules, k);
      PriorityCons(x, rules[1..], k);
      PriorityCons(rules[0], InsertRule(x, rules[1..]), k);
    }
  }

  lemma {:induction false} InsertSorts(x: Rule, rules: seq<Rule>)
    requires Descending(rules)
    ensures Descending(InsertRule(x, rules))
    ensures forall r :: r in InsertRule(x, rules) ==> r == x || r in rules
  {
    if rules != [] && x.priority < rules[0].priority {
      var rest := InsertRule(x, rules[1..]);
      InsertSorts(x, rules[1..]);
      forall j | 0 <= j < |rest| ensures rules[0].priority >= rest[j].priority {
        assert rest[j] in rest;
      }
    }
  }

  /** The sort orders by descending priority and keeps the rules of each priority in their order. */
  lemma {:induction false} SortIsStable(rules: seq<Rule>)
    ensures Descending(SortRules(rules))
    ensures forall k :: OfPriority(SortRules(rules), k) == OfPriority(rules, k)
  {
    if rules != [] {
      SortIsStable(rules[1..]);
      InsertSorts(rules[0], SortRules(rules[1..]));
      forall k ensures OfPriority(SortRules(rules), k) == OfPriority(rules, k) {
        InsertKeepsPriority(rules[0], SortRules(rules[1..]), k);
        PriorityCons(rules[0], SortRules(rules[1..]), k);
      }
    }
  }

  lemma {:induction false} PriorityOccurs(rules: seq<Rule>, k: int)
    ensures OfPriority(rules, k) != [] <==> exists r :: r in rules && r.priority == k
  {
    if rules != [] {
      PriorityOccurs(rules[1..], k);
      assert rules == [rules[0]] + rules[1..];
    }
  }

  /** Those two facts determine the result, so any stable sort gives it. */
  lemma {:induction false} StableSortIsUnique(s: seq<Rule>, t: seq<Rule>)
    requires Descending(s) && Descending(t) && forall k :: OfPriority(s, k) == OfPriority(t, k)
    ensures s == t
    decreases |s|
  {
    if s != [] {
      PriorityOccurs(s, s[0].priority);
      PriorityOccurs(t, s[0].priority);
      assert s[0] in s;
      PriorityOccurs(s, t[0].priority);
      PriorityOccurs(t, t[0].priority);
      assert t[0] in t;
      assert OfPriority(s, s[0].priority)[0] == s[0] && OfPriority(t, t[0].priority)[0] == t[0];
      forall k ensures OfPriority(s[1..], k) == OfPriority(t[1..], k) {
        assert OfPriority(s, k) == OfPriority(t, k);
        assert OfPriority(s, k)[if s[0].priority == k then 1 else 0..] == OfPriority(s[1..], k);
        assert OfPriority(t, k)[if t[0].priority == k then 1 else 0..] == OfPriority(t[1..], k);
      }
      StableSortIsUnique(s[1..], t[1..]);
    }
  }

  function ResolveRules(tenantRules: seq<Rule>, settings: Settings): seq<Rule> {
    var connectionRules := ConnectionRules(settings.rules);
    match NormalizeMode(settings.policyMode)
    case Override => SortRules(connectionRules)
    case Merge => SortRules(connectionRules + tenantRules)
    case Inherit => tenantRules
  }

  // ---------------------------------------------------------------- evaluation

  predicate MatchesScoped(re: Regex, pattern: string, scope: string, q: Query) {
    var trimmed := Lower(TrimSpace(scope));
    && (trimmed != "" ==> Lower(TrimSpace(q.database)) == trimmed || Lower(TrimSpace(q.table)) == trimmed)
    && re(pattern, q.text)
  }

  predicate Hits(re: Regex, q: Query, rule: Rule) {
    MatchesScoped(re, rule.pattern, if rule.scope.Some? then rule.scope.value else "", q)
  }

  function FirstMatch(rules: seq<Rule>, re: Regex, q: Query): Option<Rule> {
    if rules == [] then None else if Hits(re, q, rules[0]) then Some(rules[0]) else FirstMatch(rules[1..], re, q)
  }

  function FirstBuiltin(builtins: seq<Builtin>, re: Regex, q: Query): Evaluation {
    if builtins == [] then Evaluation(true, "", "", false)
    else if re(builtins[0].pattern, q.text) then
      Evaluation(builtins[0].action != "BLOCK", builtins[0].action, "[Built-in] " + builtins[0].name, true)
    else FirstBuiltin(builtins[1..], re, q)
  }

  /** The outcome a rule dictates, or the built-ins' if no rule matched. */
  function Decide(rule: Option<Rule>, re: Regex, q: Query): Evaluation {
    match rule
    case Some(r) => var action := Upper(TrimSpace(r.action)); Evaluation(action != "BLOCK", action, r.name, true)
    case None => FirstBuiltin(BUILTINS, re, q)
  }

  /** The whole evaluation of a query. */
  function Evaluate(tenantRules: seq<Rule>, settings: Settings, re: Regex, q: Query): Evaluation {
    if !GetOr(settings.firewallEnabled, true) then Evaluation(true, "", "", false)
    else Decide(FirstMatch(ResolveRules(tenantRules, settings), re, q), re, q)
  }

  method EvaluateFirewall(tenantRules: seq<Rule>, settings: Settings, re: Regex, q: Query) returns (e: Evaluation)
    ensures e == Evaluate(tenantRules, settings, re, q)
  {
    hide Hits, SortRules;
    if !GetOr(settings.firewallEnabled, true) {
      return Evaluation(true, "", "", false);
    }
    var connectionRules := BuildConnectionFirewallRules(settings.rules);
    var rules := tenantRules;
    match NormalizeMode(settings.policyMode) {
      case Override => rules := SortRules(connectionRules);
      case Merge => rules := SortRules(connectionRules + tenantRules);
      case Inherit =>
    }
    for i := 0 to |rules|
      invariant FirstMatch(rules, re, q) == FirstMatch(rules[i..], re, q)
    {
      if Hits(re, q, rules[i]) {
        var action := Upper(TrimSpace(rules[i].action));
        return Evaluation(action != "BLOCK", action, rules[i].name, true);
      }
    }
    for i := 0 to |BUILTINS|
      invariant FirstBuiltin(BUILTINS, re, q) == FirstBuiltin(BUILTINS[i..], re, q)
    {
      if re(BUILTINS[i].pattern, q.text) {
        return Evaluation(BUILTINS[i].action != "BLOCK", BUILTINS[i].action, "[Built-in] " + BUILTINS[i].name, true);
      }
    }
    e := Evaluation(true, "", "", false);
  }

  // ---------------------------------------------------------------- who decides

  /** The matching rule of highest priority, the earliest among equals. */
  function BestMatch(rules: seq<Rule>, re: Regex, q: Query): Option<Rule> {
    if rules == [] then None
    else
      var rest := BestMatch(rules[1..], re, q);
      if Hits(re, q, rules[0]) && (rest.None? || rules[0].priority >= rest.value.priority) then Some(rules[0]) else rest
  }

  /** BestMatch is what its name says. */
  lemma {:induction false} BestMatchIsBest(rules: seq<Rule>, re: Regex, q: Query)
    ensures BestMatch(rules, re, q).None? <==> forall i :: 0 <= i < |rules| ==> !Hits(re, q, rules[i])
    ensures BestMatch(rules, re, q).Some? ==> exists i :: 0 <= i < |rules| && BestAt(rules, re, q, i)
  {
    hide Hits;
    if rules != [] {
      var rest := rules[1..];
      BestMatchIsBest(rest, re, q);
      assert forall i :: 0 < i < |rules| ==> rules[i] == rest[i - 1];
      var best := BestMatch(rest, re, q);
      if Hits(re, q, rules[0]) && (best.None? || rules[0].priority >= best.value.priority) {
        assert BestAt(rules, re, q, 0);
      } else if best.Some? {
        var i :| 0 <= i < |rest| && BestAt(rest, re, q, i);
        assert BestAt(rules, re, q, i + 1);
      }
    }
  }

  /** Position i holds the best match: it matches, and every other match ranks lower or comes later. */
  ghost predicate BestAt(rules: seq<Rule>, re: Regex, q: Query, i: nat)
    requires i < |rules|
  {
    && BestMatch(rules, re, q) == Some(rules[i]) && Hits(re, q, rules[i])
    && forall j :: 0 <= j < |rules| && Hits(re, q, rules[j]) ==>
         rules[j].priority < rules[i].priority || (rules[j].priority == rules[i].priority && i <= j)
  }

  /** The higher of two candidates; a tie goes to the first. */
  function Higher(a: Option<Rule>, b: Option<Rule>): Option<Rule> {
    if a.None? then b else if b.None? || a.value.priority >= b.value.priority then a else b
  }

  lemma {:induction false} BestOfConcat(a: seq<Rule>, b: seq<Rule>, re: Regex, q: Query)
    ensures BestMatch(a + b, re, q) == Higher(BestMatch(a, re, q), BestMatch(b, re, q))
    decreases |a|
  {
    hide Hits;
    if a == [] {
      assert a + b == b;
    } else {
      assert (a + b)[1..] == a[1..] + b;
      BestOfConcat(a[1..], b, re, q);
    }
  }

  /** In a list sorted by priority, the first match is the best one. */
  lemma {:induction false} FirstIsBest(rules: seq<Rule>, re: Regex, q: Query)
    requires Descending(rules)
    ensures FirstMatch(rules, re, q) == BestMatch(rules, re, q)
    ensures BestMatch(rules, re, q).Some? ==> rules != [] && BestMatch(rules, re, q).value.priority <= rules[0].priority
  {
    hide Hits;
    if rules != [] {
      FirstIsBest(rules[1..], re, q);
    }
  }

  lemma {:induction false} BestOfInsert(x: Rule, rules: seq<Rule>, re: Regex, q: Query)
    requires Descending(rules)
    ensures BestMatch(InsertRule(x, rules), re, q) ==
            Higher(if Hits(re, q, x) then Some(x) else None, BestMatch(rules, re, q))
  {
    hide Hits;
    if rules == [] || x.priority >= rules[0].priority {
      assert ([x] + rules)[1..] == rules;
    } else {
      var all := InsertRule(x, rules);
      assert all[1..] == InsertRule(x, rules[1..]);
      BestOfInsert(x, rules[1..], re, q);
    }
  }

  /** Stable sorting does not change the best match. */
  lemma {:induction false} SortKeepsBest(rules: seq<Rule>, re: Regex, q: Query)
    ensures BestMatch(SortRules(rules), re, q) == BestMatch(rules, re, q)
  {
    hide Hits;
    if rules != [] {
      SortKeepsBest(rules[1..], re, q);
      SortIsStable(rules[1..]);
      BestOfInsert(rules[0], SortRules(rules[1..]), re, q);
    }
  }

  /** Merge mode: the deciding rule is the connection list's best match or the tenant list's first match,
      whichever has the higher priority, ties going to the connection rule. The tenant list comes from
      the database ordered by descending priority. */
  lemma MergeDecides(tenantRules: seq<Rule>, settings: Settings, re: Regex, q: Query)
    requires NormalizeMode(settings.policyMode).Merge? && Descending(tenantRules)
    ensures FirstMatch(ResolveRules(tenantRules, settings), re, q)
         == Higher(BestMatch(ConnectionRules(settings.rules), re, q), FirstMatch(tenantRules, re, q))
  {
    hide Hits, BestMatch, FirstMatch, SortRules, NormalizeMode;
    var all := ConnectionRules(settings.rules) + tenantRules;
    SortIsStable(all);
    FirstIsBest(SortRules(all), re, q);
    SortKeepsBest(all, re, q);
    BestOfConcat(ConnectionRules(settings.rules), tenantRules, re, q);
    FirstIsBest(tenantRules, re, q);
  }

  /** In merge mode the built-ins decide exactly the queries that no usable connection rule and no tenant rule
      matches. */
  lemma MergeLeavesToBuiltinsIff(tenantRules: seq<Rule>, settings: Settings, re: Regex, q: Query)
    requires NormalizeMode(settings.policyMode).Merge? && Descending(tenantRules)
    ensures FirstMatch(ResolveRules(tenantRules, settings), re, q).None? <==>
      && (forall i :: 0 <= i < |ConnectionRules(settings.rules)| ==> !Hits(re, q, ConnectionRules(settings.rules)[i]))
      && (forall i :: 0 <= i < |tenantRules| ==> !Hits(re, q, tenantRules[i]))
  {
    hide Hits, BestMatch, FirstMatch, ResolveRules, NormalizeMode, ConnectionRules;
    MergeDecides(tenantRules, settings, re, q);
    BestMatchIsBest(ConnectionRules(settings.rules), re, q);
    FirstIsBest(tenantRules, re, q);
    BestMatchIsBest(tenantRules, re, q);
  }

  /** Override mode: the connection list's best match decides and the tenant's rules have no say. */
  lemma OverrideDecides(tenantRules: seq<Rule>, settings: Settings, re: Regex, q: Query)
    requires NormalizeMode(settings.policyMode).Override?
    ensures FirstMatch(ResolveRules(tenantRules, settings), re, q) == BestMatch(ConnectionRules(settings.rules), re, q)
  {
    hide Hits, BestMatch, FirstMatch, SortRules, NormalizeMode;
    var rules := ConnectionRules(settings.rules);
    SortIsStable(rules);
    FirstIsBest(SortRules(rules), re, q);
    SortKeepsBest(rules, re, q);
  }

  /** Merging settings without a usable rule decides every query as inheriting does. */
  lemma {:induction false} EmptyMergeInherits(tenantRules: seq<Rule>, settings: Settings, re: Regex, q: Query)
    requires NormalizeMode(settings.policyMode).Merge? && Descending(tenantRules)
    requires forall i :: 0 <= i < |settings.rules| ==> !Usable(settings.rules[i])
    ensures FirstMatch(ResolveRules(tenantRules, settings), re, q)
         == FirstMatch(ResolveRules(tenantRules, settings.(policyMode := "inherit")), re, q)
  {
    NoUsableRules(settings.rules);
    MergeDecides(tenantRules, settings, re, q);
    InheritMode();
  }

  lemma InheritMode()
    ensures NormalizeMode("inherit").Inherit?
  {
    assert Lower(TrimSpace("inherit"))[0] == 'i';
  }

  lemma {:induction false} NoUsableRules(items: seq<RuleSetting>)
    requires forall i :: 0 <= i < |items| ==> !Usable(items[i])
    ensures ConnectionRules(items) == []
  {
    hide Usable;
    if items != [] {
      NoUsableRules(items[..|items| - 1]);
    }
  }

  // ---------------------------------------------------------------- what is refused

  /** The action BLOCK in any letter case and between any white space. */
  predicate Blocks(action: string) {
    Upper(TrimSpace(action)) == "BLOCK"
  }

  predicate IsOn(settings: Settings) {
    settings.firewallEnabled != Some(false)
  }

  /** The rules that have a say under the mode, the connection's before the tenant's. */
  function Candidates(tenantRules: seq<Rule>, settings: Settings): seq<Rule> {
    match Lower(TrimSpace(settings.policyMode))
    case "merge" => ConnectionRules(settings.rules) + tenantRules
    case "override" => ConnectionRules(settings.rules)
    case _ => tenantRules
  }

  /** Rule `i` matches, and every other matching rule has a lower priority, or the same and a later place. */
  ghost predicate Ranks(rules: seq<Rule>, re: Regex, q: Query, i: nat) {
    && i < |rules| && Hits(re, q, rules[i])
    && forall j :: 0 <= j < |rules| && Hits(re, q, rules[j]) ==>
         rules[j].priority < rules[i].priority || (rules[j].priority == rules[i].priority && i <= j)
  }

  ghost predicate NothingHits(rules: seq<Rule>, re: Regex, q: Query) {
    forall i :: 0 <= i < |rules| ==> !Hits(re, q, rules[i])
  }

  lemma RanksIsBest(rules: seq<Rule>, re: Regex, q: Query, i: nat)
    ensures Ranks(rules, re, q, i) ==> i < |rules| && BestMatch(rules, re, q) == Some(rules[i])
    ensures NothingHits(rules, re, q) <==> BestMatch(rules, re, q).None?
    ensures NothingHits(rules, re, q) <==> forall k :: !Ranks(rules, re, q, k)
  {
    hide Hits, BestMatch;
    BestMatchIsBest(rules, re, q);
    if BestMatch(rules, re, q).Some? {
      var k :| 0 <= k < |rules| && BestAt(rules, re, q, k);
      assert Ranks(rules, re, q, k);
      if Ranks(rules, re, q, i) {
        assert i == k;
      }
    }
  }

  lemma ModeOf(mode: string)
    ensures NormalizeMode(mode).Merge? <==> Lower(TrimSpace(mode)) == "merge"
    ensures NormalizeMode(mode).Override? <==> Lower(TrimSpace(mode)) == "override"
  {
    assert "merge"[0] != "override"[0];
  }

  /** The first match of the resolved rules is the best of the candidates, in every mode. */
  lemma FirstMatchIsBestCandidate(tenantRules: seq<Rule>, settings: Settings, re: Regex, q: Query)
    requires Descending(tenantRules)
    ensures FirstMatch(ResolveRules(tenantRules, settings), re, q) ==
            BestMatch(Candidates(tenantRules, settings), re, q)
  {
    hide Hits, BestMatch, FirstMatch, SortRules, NormalizeMode, Descending, ConnectionRules;
    ModeOf(settings.policyMode);
    var connectionRules := ConnectionRules(settings.rules);
    match NormalizeMode(settings.policyMode)
    case Merge =>
      MergeDecides(tenantRules, settings, re, q);
      BestOfConcat(connectionRules, tenantRules, re, q);
      FirstIsBest(tenantRules, re, q);
    case Override => OverrideDecides(tenantRules, settings, re, q);
    case Inherit => FirstIsBest(tenantRules, re, q);
  }

  /** What the deciding rule does: with the firewall on, the best-ranked match refuses the query exactly if its action
      is BLOCK, and the answer carries its name and its action. */
  lemma RankedRuleDecides(tenantRules: seq<Rule>, settings: Settings, re: Regex, q: Query, i: nat)
    requires Descending(tenantRules) && IsOn(settings) && Ranks(Candidates(tenantRules, settings), re, q, i)
    ensures var rule := Candidates(tenantRules, settings)[i];
            var e := Evaluate(tenantRules, settings, re, q);
            && (e.allowed <==> !Blocks(rule.action))
            && e.matched && e.ruleName == rule.name && e.action == Upper(TrimSpace(rule.action))
  {
    hide Candidates, ResolveRules, FirstMatch, BestMatch, Hits, Upper, TrimSpace;
    FirstMatchIsBestCandidate(tenantRules, settings, re, q);
    RanksIsBest(Candidates(tenantRules, settings), re, q, i);
  }

  /** The built-in rules, spelled out. */
  function BuiltinVerdict(re: Regex, text: string): Evaluation {
    if re("\\bDROP\\s+TABLE\\b", text) then Evaluation(false, "BLOCK", "[Built-in] " + "Drop Table", true)
    else if re("\\bTRUNCATE\\b", text) then Evaluation(false, "BLOCK", "[Built-in] " + "Truncate", true)
    else if re("\\bDROP\\s+DATABASE\\b", text) then Evaluation(false, "BLOCK", "[Built-in] " + "Drop Database", true)
    else if re("^\\s*SELECT\\s+\\*\\s+FROM\\s+\\S+\\s*;?\\s*$", text)
    then Evaluation(true, "ALERT", "[Built-in] " + "Bulk SELECT without WHERE", true)
    else Evaluation(true, "", "", false)
  }

  /** What the built-ins do: dropping or truncating a table and dropping a database are refused, a bulk SELECT
      without WHERE is let through with an alert, the first of them that is found deciding; anything else passes
      unremarked. */
  lemma BuiltinsDecide(tenantRules: seq<Rule>, settings: Settings, re: Regex, q: Query)
    requires Descending(tenantRules) && IsOn(settings) && NothingHits(Candidates(tenantRules, settings), re, q)
    ensures Evaluate(tenantRules, settings, re, q) ==
            BuiltinVerdict(re, q.text)
  {
    BuiltinsInOrder(re, q);
    hide Candidates, ResolveRules, FirstMatch, BestMatch, Hits, FirstBuiltin;
    FirstMatchIsBestCandidate(tenantRules, settings, re, q);
    RanksIsBest(Candidates(tenantRules, settings), re, q, 0);
  }

  lemma BuiltinsInOrder(re: Regex, q: Query)
    ensures FirstBuiltin(BUILTINS, re, q) ==
            BuiltinVerdict(re, q.text)
  {
    hide FirstBuiltin;
    var b := BUILTINS;
    assert "ALERT"[0] != "BLOCK"[0];
    assert b[3..][1..] == [] && b[2..][1..] == b[3..] && b[1..][1..] == b[2..] && b[0..] == b;
    FirstBuiltinStep(b, 3, re, q);
    FirstBuiltinStep(b, 2, re, q);
    FirstBuiltinStep(b, 1, re, q);
    FirstBuiltinStep(b, 0, re, q);
  }

  lemma FirstBuiltinStep(b: seq<Builtin>, i: nat, re: Regex, q: Query)
    requires i < |b|
    ensures FirstBuiltin(b[i..], re, q) ==
            if re(b[i].pattern, q.text) then
              Evaluation(b[i].action != "BLOCK", b[i].action, "[Built-in] " + b[i].name, true)
            else FirstBuiltin(b[i + 1..], re, q)
    ensures FirstBuiltin(b[|b|..], re, q) == Evaluation(true, "", "", false)
  {
    assert b[i..][1..] == b[i + 1..];
  }

  predicate BuiltinBlocks(re: Regex, q: Query) {
    re("\\bDROP\\s+TABLE\\b", q.text) || re("\\bTRUNCATE\\b", q.text) || re("\\bDROP\\s+DATABASE\\b", q.text)
  }

  /** Exactly which queries are refused, in every mode: the firewall is on, and the best-ranked matching candidate
      blocks, or no candidate matches and a blocking built-in is found. */
  lemma RefusedIff(tenantRules: seq<Rule>, settings: Settings, re: Regex, q: Query)
    requires Descending(tenantRules)
    ensures var rules := Candidates(tenantRules, settings);
            !Evaluate(tenantRules, settings, re, q).allowed <==>
              && IsOn(settings)
              && (|| (exists i: nat :: Ranks(rules, re, q, i) && Blocks(rules[i].action))
                  || (NothingHits(rules, re, q) && BuiltinBlocks(re, q)))
  {
    hide Candidates, Ranks, Blocks, Evaluate, NothingHits, Descending;
    var rules := Candidates(tenantRules, settings);
    if IsOn(settings) {
      RanksIsBest(rules, re, q, 0);
      if NothingHits(rules, re, q) {
        BuiltinsDecide(tenantRules, settings, re, q);
      } else {
        var k: nat :| Ranks(rules, re, q, k);
        RankedRuleDecides(tenantRules, settings, re, q, k);
        forall i: nat | Ranks(rules, re, q, i)
          ensures i < |rules| && k < |rules| && rules[i] == rules[k]
        {
          RanksIsBest(rules, re, q, i);
          RanksIsBest(rules, re, q, k);
        }
      }
    } else {
      OffMeansAllowed(tenantRules, settings, re, q);
    }
  }

  lemma OffMeansAllowed(tenantRules: seq<Rule>, settings: Settings, re: Regex, q: Query)
    requires !IsOn(settings)
    ensures Evaluate(tenantRules, settings, re, q) == Evaluation(true, "", "", false)
  {
  }

  /** Each connection setting gives at most one rule, in order: none if it is switched off or its name or pattern is
      blank, else its trimmed parts, blocking unless an action is given, unscoped if the scope is blank. */
  lemma RulesOfSettings(items: seq<RuleSetting>, last: RuleSetting)
    ensures ConnectionRules([]) == []
    ensures var name, pattern, scope := TrimSpace(last.name), TrimSpace(last.pattern), TrimSpace(last.scope);
            var action := Upper(TrimSpace(last.action));
            ConnectionRules(items + [last]) == ConnectionRules(items) +
              if last.enabled == Some(false) || name == "" || pattern == "" then []
              else [Rule(name, pattern, if action != "" then action else "BLOCK",
                         if scope != "" then Some(scope) else None, last.priority)]
  {
    assert (items + [last])[..|items|] == items;
  }

  /** When a rule matches: its pattern is found, and its scope, unless blank, names the query's database or table,
      letter case and outer white space aside. */
  lemma HitsIff(re: Regex, q: Query, rule: Rule)
    ensures Hits(re, q, rule) <==>
              && re(rule.pattern, q.text)
              && (rule.scope.Some? && TrimSpace(rule.scope.value) != "" ==>
                   Lower(TrimSpace(rule.scope.value)) in {Lower(TrimSpace(q.database)), Lower(TrimSpace(q.table))})
  {
    assert forall s: string :: |Lower(s)| == |s|;
    assert TrimSpace("") == "";
  }
}
