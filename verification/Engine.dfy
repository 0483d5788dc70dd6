/** internal/rule/engine.go: validation, canonical form and first-match evaluation of a rule definition. */
module Engine {
  import opened Wrappers
  import opened Platform

  const MAX_DEFINITION_BYTES := 262144
  const MAX_FACTS_BYTES := 262144
  const MAX_RULES := 100
  const MAX_EXPRESSION_BYTES := 4096

  datatype Path = Root | Rules | RuleName(index: nat)
    | RuleCondition(index: nat) | RuleResult(index: nat) | DefaultResult

  datatype IssueCode =
    | InvalidSize | InvalidJson | MultipleValues | InvalidCount | Required | Duplicate | InvalidResult
    | EngineError | InvalidExpression | InvalidResultType | InvalidProgram

  datatype Issue = Issue(path: Path, code: IssueCode)

  datatype CompiledRule = CompiledRule(name: string, condition: string, result: string)

  datatype Compiled = Compiled(rules: seq<CompiledRule>, defaultResult: string, text: string, checksum: string)

  datatype Evaluation = Evaluation(matched: bool, matchedRule: string, result: string)

  datatype EvaluationError = InvalidFacts | RuleFailed

  /******* Shape validation *******/

  predicate RepeatsName(w: Platform, rules: seq<DefinitionRule>, i: nat)
    requires i < |rules|
  {
    exists j :: 0 <= j < i && w.trim(rules[j].name) == w.trim(rules[i].name)
  }

  predicate BadCondition(w: Platform, condition: string) {
    w.trim(condition) == "" || |condition| > MAX_EXPRESSION_BYTES
  }

  function NameIssues(w: Platform, rules: seq<DefinitionRule>, i: nat): seq<Issue>
    requires i < |rules|
  {
    if w.trim(rules[i].name) == "" then [Issue(RuleName(i), Required)]
    else if RepeatsName(w, rules, i) then [Issue(RuleName(i), Duplicate)]
    else []
  }

  function ConditionSizeIssues(w: Platform, rules: seq<DefinitionRule>, i: nat): seq<Issue>
    requires i < |rules|
  {
    if BadCondition(w, rules[i].condition) then [Issue(RuleCondition(i), InvalidSize)] else []
  }

  function ResultIssues(w: Platform, rules: seq<DefinitionRule>, i: nat): seq<Issue>
    requires i < |rules|
  {
    if w.isObject(rules[i].result) then [] else [Issue(RuleResult(i), InvalidResult)]
  }

  function RuleIssues(w: Platform, rules: seq<DefinitionRule>, i: nat): seq<Issue>
    requires i < |rules|
  {
    NameIssues(w, rules, i) + ConditionSizeIssues(w, rules, i) + ResultIssues(w, rules, i)
  }

  function RulesIssues(w: Platform, rules: seq<DefinitionRule>, n: nat): seq<Issue>
    requires n <= |rules|
  {
    if n == 0 then [] else RulesIssues(w, rules, n - 1) + RuleIssues(w, rules, n - 1)
  }

  predicate BadCount(d: Definition) {
    |d.rules| == 0 || |d.rules| > MAX_RULES
  }

  function CountIssues(d: Definition): seq<Issue> {
    if BadCount(d) then [Issue(Rules, InvalidCount)] else []
  }

  function DefaultIssues(w: Platform, d: Definition): seq<Issue> {
    if w.isObject(d.defaultResult) then [] else [Issue(DefaultResult, InvalidResult)]
  }

  function ShapeIssues(w: Platform, d: Definition): seq<Issue> {
    CountIssues(d) + RulesIssues(w, d.rules, |d.rules|) + DefaultIssues(w, d)
  }

  /** `seen` holds exactly the trimmed names of the rules before `n`. */
  ghost predicate NamesSeen(w: Platform, rules: seq<DefinitionRule>, n: nat, seen: set<string>)
    requires n <= |rules|
  {
    forall name :: name in seen <==> exists j :: 0 <= j < n && w.trim(rules[j].name) == name
  }

  /** The body of the loop in validateShape. */
  method ValidateRule(w: Platform, rules: seq<DefinitionRule>, index: nat, seen: set<string>)
    returns (found: seq<Issue>, seen': set<string>)
    requires index < |rules| && NamesSeen(w, rules, index, seen)
    ensures found == RuleIssues(w, rules, index)
    ensures NamesSeen(w, rules, index + 1, seen')
  {
    var item := rules[index];
    var name := w.trim(item.name);
    found := [];
    if name == "" {
      found := found + [Issue(RuleName(index), Required)];
    } else if name in seen {
      found := found + [Issue(RuleName(index), Duplicate)];
    }
    assert found == NameIssues(w, rules, index);
    seen' := seen + {name};
    assert NamesSeen(w, rules, index + 1, seen');
    if w.trim(item.condition) == "" || |item.condition| > MAX_EXPRESSION_BYTES {
      found := found + [Issue(RuleCondition(index), InvalidSize)];
    }
    if !w.isObject(item.result) {
      found := found + [Issue(RuleResult(index), InvalidResult)];
    }
  }

  method ValidateRules(w: Platform, rules: seq<DefinitionRule>) returns (issues: seq<Issue>)
    ensures issues == RulesIssues(w, rules, |rules|)
  {
    issues := [];
    var seen: set<string> := {};
    for index := 0 to |rules|
      invariant issues == RulesIssues(w, rules, index)
      invariant NamesSeen(w, rules, index, seen)
    {
      var found;
      found, seen := ValidateRule(w, rules, index, seen);
      issues := issues + found;
    }
  }

  method ValidateShape(w: Platform, d: Definition) returns (issues: seq<Issue>)
    ensures issues == ShapeIssues(w, d) && Rising(issues, |d.rules|)
    ensures forall issue :: issue in issues <==> Describes(w, d, issue)
  {
    issues := [];
    if |d.rules| == 0 || |d.rules| > MAX_RULES {
      issues := issues + [Issue(Rules, InvalidCount)];
    }
    var found := ValidateRules(w, d.rules);
    issues := issues + found;
    if !w.isObject(d.defaultResult) {
      issues := issues + [Issue(DefaultResult, InvalidResult)];
    }
    ShapeIssuesRise(w, d);
    forall issue ensures issue in issues <==> Describes(w, d, issue) {
      ShapeIssuesExact(w, d, issue);
    }
  }

  /** What an issue of shape validation accuses the definition of. */
  ghost predicate Describes(w: Platform, d: Definition, issue: Issue) {
    match issue
    case Issue(Rules, InvalidCount) => BadCount(d)
    case Issue(RuleName(i), Required) => i < |d.rules| && w.trim(d.rules[i].name) == ""
    case Issue(RuleName(i), Duplicate) =>
      i < |d.rules| && w.trim(d.rules[i].name) != "" && RepeatsName(w, d.rules, i)
    case Issue(RuleCondition(i), InvalidSize) => i < |d.rules| && BadCondition(w, d.rules[i].condition)
    case Issue(RuleResult(i), InvalidResult) => i < |d.rules| && !w.isObject(d.rules[i].result)
    case Issue(DefaultResult, InvalidResult) => !w.isObject(d.defaultResult)
    case _ => false
  }

  /** The definitions shape validation is meant to let through. */
  ghost predicate WellShaped(w: Platform, d: Definition) {
    && 1 <= |d.rules| <= 100
    && (forall i :: 0 <= i < |d.rules| ==> w.trim(d.rules[i].name) != "")
    && (forall i, j :: 0 <= i < j < |d.rules| ==> w.trim(d.rules[i].name) != w.trim(d.rules[j].name))
    && (forall i :: 0 <= i < |d.rules| ==>
          w.trim(d.rules[i].condition) != "" && |d.rules[i].condition| <= 4096)
    && ObjectResults(w, d)
  }

  /** `issue` accuses one of the rules before `n`, rightly. */
  ghost predicate DescribesRule(w: Platform, d: Definition, n: nat, issue: Issue) {
    && (issue.path.RuleName? || issue.path.RuleCondition? || issue.path.RuleResult?)
    && issue.path.index < n
    && Describes(w, d, issue)
  }

  lemma RuleIssuesExact(w: Platform, d: Definition, i: nat, issue: Issue)
    requires i < |d.rules|
    ensures issue in RuleIssues(w, d.rules, i) <==> DescribesRule(w, d, i + 1, issue) && issue.path.index == i
  {
    hide RepeatsName, BadCondition;
  }

  lemma {:induction false} RulesIssuesExact(w: Platform, d: Definition, n: nat, issue: Issue)
    requires n <= |d.rules|
    ensures issue in RulesIssues(w, d.rules, n) <==> DescribesRule(w, d, n, issue)
  {
    hide RuleIssues, Describes;
    if n > 0 {
      RulesIssuesExact(w, d, n - 1, issue);
      RuleIssuesExact(w, d, n - 1, issue);
    }
  }

  /** Each reported issue is true, and each true accusation is reported. */
  lemma ShapeIssuesExact(w: Platform, d: Definition, issue: Issue)
    ensures issue in ShapeIssues(w, d) <==> Describes(w, d, issue)
  {
    RulesIssuesExact(w, d, |d.rules|, issue);
    hide RulesIssues, RepeatsName, BadCondition;
  }

  lemma ShapeAccepts(w: Platform, d: Definition)
    ensures ShapeIssues(w, d) == [] <==> WellShaped(w, d)
  {
    if ShapeIssues(w, d) == [] {
      forall issue ensures !Describes(w, d, issue) {
        ShapeIssuesExact(w, d, issue);
      }
      assert !Describes(w, d, Issue(Rules, InvalidCount));
      assert !Describes(w, d, Issue(DefaultResult, InvalidResult));
      forall i | 0 <= i < |d.rules|
        ensures w.trim(d.rules[i].name) != "" && !RepeatsName(w, d.rules, i)
        ensures !BadCondition(w, d.rules[i].condition) && w.isObject(d.rules[i].result)
      {
        assert !Describes(w, d, Issue(RuleName(i), Required));
        assert !Describes(w, d, Issue(RuleName(i), Duplicate));
        assert !Describes(w, d, Issue(RuleCondition(i), InvalidSize));
        assert !Describes(w, d, Issue(RuleResult(i), InvalidResult));
      }
    } else {
      var issue := ShapeIssues(w, d)[0];
      ShapeIssuesExact(w, d, issue);
    }
  }

  /** Where an issue on `n` rules stands: first the count, then each rule's name, condition, result, then default. */
  function Position(path: Path, n: nat): int {
    match path
    case Root => -2
    case Rules => -1
    case RuleName(i) => 3 * i
    case RuleCondition(i) => 3 * i + 1
    case RuleResult(i) => 3 * i + 2
    case DefaultResult => 3 * n
  }

  /** Issues come in the order of what they accuse, and nothing is accused twice. */
  ghost predicate Rising(issues: seq<Issue>, n: nat) {
    forall i, j :: 0 <= i < j < |issues| ==> Position(issues[i].path, n) < Position(issues[j].path, n)
  }

  lemma RisingAppend(a: seq<Issue>, b: seq<Issue>, n: nat)
    requires Rising(a, n) && Rising(b, n)
    requires forall x, y :: x in a && y in b ==> Position(x.path, n) < Position(y.path, n)
    ensures Rising(a + b, n)
  {
    hide Position;
    var c := a + b;
    forall i, j | 0 <= i < j < |c| ensures Position(c[i].path, n) < Position(c[j].path, n) {
      if i < |a| && j >= |a| {
        assert c[i] in a && c[j] in b;
      }
    }
  }

  lemma {:induction false} RulesIssuesRise(w: Platform, d: Definition, n: nat)
    requires n <= |d.rules|
    ensures Rising(RulesIssues(w, d.rules, n), |d.rules|)
    ensures forall issue :: issue in RulesIssues(w, d.rules, n) ==> 0 <= Position(issue.path, |d.rules|) < 3 * n
  {
    hide RuleIssues, Rising, Position;
    if n == 0 {
      assert RulesIssues(w, d.rules, n) == [];
      NoIssuesRise(|d.rules|);
    } else {
      RulesIssuesRise(w, d, n - 1);
      RuleIssuesRise(w, d, n - 1);
      RisingAppend(RulesIssues(w, d.rules, n - 1), RuleIssues(w, d.rules, n - 1), |d.rules|);
    }
  }

  lemma NoIssuesRise(n: nat)
    ensures Rising([], n)
  {}

  lemma RuleIssuesRise(w: Platform, d: Definition, i: nat)
    requires i < |d.rules|
    ensures Rising(RuleIssues(w, d.rules, i), |d.rules|)
    ensures forall issue :: issue in RuleIssues(w, d.rules, i) ==>
      3 * i <= Position(issue.path, |d.rules|) < 3 * i + 3
  {
    hide RepeatsName, BadCondition;
  }

  lemma ShapeIssuesRise(w: Platform, d: Definition)
    ensures Rising(ShapeIssues(w, d), |d.rules|)
  {
    hide RulesIssues, BadCount;
    RulesIssuesRise(w, d, |d.rules|);
    RisingAppend(CountIssues(d), RulesIssues(w, d.rules, |d.rules|), |d.rules|);
    RisingAppend(CountIssues(d) + RulesIssues(w, d.rules, |d.rules|), DefaultIssues(w, d), |d.rules|);
  }

  /******* Compilation *******/

  function ConditionIssue(verdict: ConditionCheck): IssueCode
    requires !verdict.Usable?
  {
    match verdict
    case BadExpression => InvalidExpression
    case NotBoolean => InvalidResultType
    case BadProgram => InvalidProgram
  }

  function ConditionIssues(w: Platform, rules: seq<DefinitionRule>, n: nat): seq<Issue>
    requires n <= |rules|
  {
    if n == 0 then []
    else
      var verdict := w.check(rules[n - 1].condition);
      ConditionIssues(w, rules, n - 1)
      + if verdict.Usable? then [] else [Issue(RuleCondition(n - 1), ConditionIssue(verdict))]
  }

  function CompileRule(w: Platform, rule: DefinitionRule): CompiledRule {
    CompiledRule(rule.name, rule.condition, w.canonical(rule.result))
  }

  function CompileRules(w: Platform, rules: seq<DefinitionRule>): (r: seq<CompiledRule>)
    ensures |r| == |rules|
  {
    seq(|rules|, i requires 0 <= i < |rules| => CompileRule(w, rules[i]))
  }

  /** The compiled form rule by rule, wherever the definition is acceptable as a whole. */
  function Compile(w: Platform, raw: string): Result<Compiled, seq<Issue>> {
    if |raw| == 0 || |raw| > MAX_DEFINITION_BYTES then Failure([Issue(Root, InvalidSize)])
    else
      match w.decode(raw)
      case Malformed => Failure([Issue(Root, InvalidJson)])
      case Trailing => Failure([Issue(Root, MultipleValues)])
      case Single(d) => CompileDecoded(w, d)
  }

  function CompileDecoded(w: Platform, d: Definition): Result<Compiled, seq<Issue>> {
    if ShapeIssues(w, d) != [] then Failure(ShapeIssues(w, d))
    else if !w.environment then Failure([Issue(Root, EngineError)])
    else if ConditionIssues(w, d.rules, |d.rules|) != [] then Failure(ConditionIssues(w, d.rules, |d.rules|))
    else
      match w.marshal(d)
      case None => Failure([Issue(Root, InvalidJson)])
      case Some(text) =>
        Success(Compiled(CompileRules(w, d.rules), w.canonical(d.defaultResult), text, w.digest(text)))
  }

  /** The loop of CompileDefinition: a rule that fails leaves no compiled rule behind, only its issue. */
  method CompileConditions(w: Platform, rules: seq<DefinitionRule>)
    returns (compiled: seq<CompiledRule>, issues: seq<Issue>)
    ensures issues == ConditionIssues(w, rules, |rules|) && Rising(issues, |rules|)
    ensures forall issue :: issue in issues <==> FaultyCondition(w, rules, |rules|, issue)
    ensures issues == [] ==> compiled == CompileRules(w, rules)
  {
    compiled, issues := [], [];
    for index := 0 to |rules|
      invariant issues == ConditionIssues(w, rules, index)
      invariant issues == [] ==> compiled == CompileRules(w, rules[..index])
    {
      var item := rules[index];
      var verdict := w.check(item.condition);
      if verdict.BadExpression? {
        issues := issues + [Issue(RuleCondition(index), InvalidExpression)];
        continue;
      }
      if verdict.NotBoolean? {
        issues := issues + [Issue(RuleCondition(index), InvalidResultType)];
        continue;
      }
      if verdict.BadProgram? {
        issues := issues + [Issue(RuleCondition(index), InvalidProgram)];
        continue;
      }
      compiled := compiled + [CompiledRule(item.name, item.condition, w.canonical(item.result))];
      assert rules[..index + 1] == rules[..index] + [item];
      assert issues == [] ==> compiled == CompileRules(w, rules[..index + 1]);
    }
    assert rules[..|rules|] == rules;
    ConditionIssuesRise(w, rules, |rules|);
    forall issue ensures issue in issues <==> FaultyCondition(w, rules, |rules|, issue) {
      ConditionIssuesExact(w, rules, |rules|, issue);
    }
  }

  method CompileDefinition(w: Platform, raw: string) returns (r: Result<Compiled, seq<Issue>>)
    ensures r == Compile(w, raw) && CompilesTo(w, raw, r)
    ensures r.Failure? ==> r.error != []
  {
    hide CompilesTo, ShapeIssues, ConditionIssues;
    CompileExact(w, raw);
    if |raw| == 0 || |raw| > MAX_DEFINITION_BYTES {
      return Failure([Issue(Root, InvalidSize)]);
    }
    var decoded := w.decode(raw);
    if decoded.Malformed? {
      return Failure([Issue(Root, InvalidJson)]);
    }
    if decoded.Trailing? {
      return Failure([Issue(Root, MultipleValues)]);
    }
    var d := decoded.definition;
    var issues := ValidateShape(w, d);
    if |issues| > 0 {
      return Failure(issues);
    }
    if !w.environment {
      return Failure([Issue(Root, EngineError)]);
    }
    var rules;
    rules, issues := CompileConditions(w, d.rules);
    if |issues| > 0 {
      return Failure(issues);
    }
    var text := w.marshal(d);
    if text.None? {
      return Failure([Issue(Root, InvalidJson)]);
    }
    r := Success(Compiled(rules, w.canonical(d.defaultResult), text.value, w.digest(text.value)));
  }

  lemma {:induction false} ConditionsUsable(w: Platform, rules: seq<DefinitionRule>, n: nat)
    requires n <= |rules|
    ensures ConditionIssues(w, rules, n) == [] <==> forall i :: 0 <= i < n ==> w.check(rules[i].condition).Usable?
  {
    if n > 0 {
      ConditionsUsable(w, rules, n - 1);
    }
  }

  /** The code of an unusable condition. */
  ghost predicate Faults(verdict: ConditionCheck, code: IssueCode) {
    || (verdict.BadExpression? && code == InvalidExpression)
    || (verdict.NotBoolean? && code == InvalidResultType)
    || (verdict.BadProgram? && code == InvalidProgram)
  }

  /** `issue` accuses one of the conditions before `n`, rightly and by its own code. */
  ghost predicate FaultyCondition(w: Platform, rules: seq<DefinitionRule>, n: nat, issue: Issue)
    requires n <= |rules|
  {
    issue.path.RuleCondition? && issue.path.index < n && Faults(w.check(rules[issue.path.index].condition), issue.code)
  }

  /** Each unusable condition is reported at its own index, with its own code, and nothing else is. */
  lemma {:induction false} ConditionIssuesExact(w: Platform, rules: seq<DefinitionRule>, n: nat, issue: Issue)
    requires n <= |rules|
    ensures issue in ConditionIssues(w, rules, n) <==> FaultyCondition(w, rules, n, issue)
  {
    if n > 0 {
      ConditionIssuesExact(w, rules, n - 1, issue);
    }
  }

  lemma {:induction false} ConditionIssuesRise(w: Platform, rules: seq<DefinitionRule>, n: nat)
    requires n <= |rules|
    ensures Rising(ConditionIssues(w, rules, n), |rules|)
    ensures forall issue :: issue in ConditionIssues(w, rules, n) ==> issue.path.RuleCondition? && issue.path.index < n
  {
    if n > 0 {
      ConditionIssuesRise(w, rules, n - 1);
      var last := if w.check(rules[n - 1].condition).Usable? then []
                  else [Issue(RuleCondition(n - 1), ConditionIssue(w.check(rules[n - 1].condition)))];
      RisingAppend(ConditionIssues(w, rules, n - 1), last, |rules|);
    }
  }

  ghost predicate UsableConditions(w: Platform, d: Definition) {
    forall i :: 0 <= i < |d.rules| ==> w.check(d.rules[i].condition).Usable?
  }

  /** What a definition compiles to, member by member. */
  ghost predicate CompiledFrom(w: Platform, d: Definition, c: Compiled) {
    && |c.rules| == |d.rules|
    && (forall i :: 0 <= i < |d.rules| ==>
          && c.rules[i].name == d.rules[i].name && c.rules[i].condition == d.rules[i].condition
          && c.rules[i].result == w.canonical(d.rules[i].result))
    && c.defaultResult == w.canonical(d.defaultResult)
    && w.marshal(d) == Some(c.text) && c.checksum == w.digest(c.text)
  }

  /** Which answer each text gets: the first stage it fails at and everything wrong there, or its compiled form. */
  ghost predicate CompilesTo(w: Platform, raw: string, r: Result<Compiled, seq<Issue>>) {
    if |raw| == 0 || |raw| > 262144 then r == Failure([Issue(Root, InvalidSize)])
    else if w.decode(raw).Malformed? then r == Failure([Issue(Root, InvalidJson)])
    else if w.decode(raw).Trailing? then r == Failure([Issue(Root, MultipleValues)])
    else
      var d := w.decode(raw).definition;
      if !WellShaped(w, d) then
        r.Failure? && Rising(r.error, |d.rules|) && forall issue :: issue in r.error <==> Describes(w, d, issue)
      else if !w.environment then r == Failure([Issue(Root, EngineError)])
      else if !UsableConditions(w, d) then
        && r.Failure? && Rising(r.error, |d.rules|)
        && forall issue :: issue in r.error <==> FaultyCondition(w, d.rules, |d.rules|, issue)
      else if w.marshal(d).None? then r == Failure([Issue(Root, InvalidJson)])
      else r.Success? && CompiledFrom(w, d, r.value)
  }

  lemma CompileExact(w: Platform, raw: string)
    ensures CompilesTo(w, raw, Compile(w, raw))
  {
    hide ShapeIssues, ConditionIssues, WellShaped, Describes, Rising;
    if w.decode(raw).Single? {
      var d := w.decode(raw).definition;
      ShapeAccepts(w, d);
      ShapeIssuesRise(w, d);
      ConditionsUsable(w, d.rules, |d.rules|);
      ConditionIssuesRise(w, d.rules, |d.rules|);
      forall issue ensures issue in ShapeIssues(w, d) <==> Describes(w, d, issue) {
        ShapeIssuesExact(w, d, issue);
      }
      forall issue ensures issue in ConditionIssues(w, d.rules, |d.rules|)
          <==> FaultyCondition(w, d.rules, |d.rules|, issue) {
        ConditionIssuesExact(w, d.rules, |d.rules|, issue);
      }
    }
  }

  /** Exactly which texts compile. */
  lemma CompileAccepts(w: Platform, raw: string)
    ensures Compile(w, raw).Success? <==>
      && 1 <= |raw| <= MAX_DEFINITION_BYTES
      && w.decode(raw).Single?
      && WellShaped(w, w.decode(raw).definition)
      && w.environment
      && (forall i :: 0 <= i < |w.decode(raw).definition.rules| ==>
            w.check(w.decode(raw).definition.rules[i].condition).Usable?)
      && w.marshal(w.decode(raw).definition).Some?
  {
    if w.decode(raw).Single? {
      var d := w.decode(raw).definition;
      ShapeAccepts(w, d);
      ConditionsUsable(w, d.rules, |d.rules|);
    }
  }

  /******* Canonical form *******/

  lemma CompactedCompilesAlike(w: Platform, d: Definition)
    requires Lawful(w) && ObjectResults(w, d)
    ensures CompileRules(w, Compacted(w, d).rules) == CompileRules(w, d.rules)
    ensures w.canonical(Compacted(w, d).defaultResult) == w.canonical(d.defaultResult)
    ensures WellShaped(w, d) ==> WellShaped(w, Compacted(w, d))
  {
    var c := Compacted(w, d);
    forall i | 0 <= i < |d.rules| ensures CompileRule(w, c.rules[i]) == CompileRule(w, d.rules[i]) {
      assert w.isObject(d.rules[i].result);
    }
    assert CompileRules(w, c.rules) == CompileRules(w, d.rules);
  }

  /** The canonical text of an accepted definition is accepted again, as itself, exactly when it still fits. */
  lemma CanonicalFixedPoint(w: Platform, raw: string)
    requires Lawful(w) && Compile(w, raw).Success?
    ensures var c := Compile(w, raw).value;
      Compile(w, c.text) == Success(c) <==> |c.text| <= MAX_DEFINITION_BYTES
    ensures var c := Compile(w, raw).value;
      |c.text| > MAX_DEFINITION_BYTES ==> Compile(w, c.text) == Failure([Issue(Root, InvalidSize)])
  {
    hide Compile, CompileDecoded, Lawful, Reencodes, ObjectResults;
    CanonicalDecodes(w, raw);
    var d := w.decode(raw).definition;
    CompactedDecodesAlike(w, d);
    DecodedThenCompiled(w, Compile(w, raw).value.text, Compacted(w, d));
  }

  /** The canonical text reads back as the compacted definition. */
  lemma CanonicalDecodes(w: Platform, raw: string)
    requires Lawful(w) && Compile(w, raw).Success?
    ensures w.decode(raw).Single?
    ensures var c, d := Compile(w, raw).value, w.decode(raw).definition;
      && CompileDecoded(w, d) == Success(c) && ObjectResults(w, d) && Reencodes(w, d)
      && w.decode(c.text) == Single(Compacted(w, d)) && c.text != ""
  {
    hide ShapeIssues, ConditionIssues, WellShaped, CompileRules, Compacted, ObjectResults;
    CompileAccepts(w, raw);
    var d := w.decode(raw).definition;
    ResultsAreObjects(w, d);
    assert Reencodes(w, d);
  }

  lemma ResultsAreObjects(w: Platform, d: Definition)
    requires WellShaped(w, d)
    ensures ObjectResults(w, d)
  {}

  lemma DecodedThenCompiled(w: Platform, raw: string, d: Definition)
    requires w.decode(raw) == Single(d)
    ensures Compile(w, raw) == if 1 <= |raw| <= MAX_DEFINITION_BYTES then CompileDecoded(w, d)
                               else Failure([Issue(Root, InvalidSize)])
  {
    hide CompileDecoded;
  }

  lemma CompactedDecodesAlike(w: Platform, d: Definition)
    requires Lawful(w) && CompileDecoded(w, d).Success? && ObjectResults(w, d) && Reencodes(w, d)
    ensures CompileDecoded(w, Compacted(w, d)) == CompileDecoded(w, d)
  {
    hide ShapeIssues, ConditionIssues, CompileRules, WellShaped, Compacted, Lawful, ObjectResults;
    ShapeAccepts(w, d);
    ShapeAccepts(w, Compacted(w, d));
    CompactedCompilesAlike(w, d);
    CompactedChecksAlike(w, d, |d.rules|);
  }

  lemma {:induction false} CompactedChecksAlike(w: Platform, d: Definition, n: nat)
    requires n <= |d.rules|
    ensures ConditionIssues(w, Compacted(w, d).rules, n) == ConditionIssues(w, d.rules, n)
  {
    if n > 0 {
      CompactedChecksAlike(w, d, n - 1);
    }
  }

  /** One checksum, one compiled definition, whichever of the texts with that checksum was submitted. */
  lemma SameChecksumSameCompiled(w: Platform, raw1: string, raw2: string)
    requires Lawful(w)
    ensures var c1, c2 := Compile(w, raw1), Compile(w, raw2);
      c1.Success? && c2.Success? && c1.value.checksum == c2.value.checksum ==> c1 == c2
  {
    var c1, c2 := Compile(w, raw1), Compile(w, raw2);
    if c1.Success? && c2.Success? && c1.value.checksum == c2.value.checksum {
      SameTextSameCompiled(w, raw1, raw2);
    }
  }

  lemma SameTextSameCompiled(w: Platform, raw1: string, raw2: string)
    requires Lawful(w) && Compile(w, raw1).Success? && Compile(w, raw2).Success?
    requires Compile(w, raw1).value.checksum == Compile(w, raw2).value.checksum
    ensures Compile(w, raw1) == Compile(w, raw2)
  {
    CompileAccepts(w, raw1);
    CompileAccepts(w, raw2);
    hide ShapeIssues, ConditionIssues;
    var d1, d2 := w.decode(raw1).definition, w.decode(raw2).definition;
    assert w.marshal(d1) == w.marshal(d2);
    assert ObjectResults(w, d1) && ObjectResults(w, d2);
    assert Reencodes(w, d1) && Reencodes(w, d2);
    assert Compacted(w, d1) == Compacted(w, d2);
    CompactedCompilesAlike(w, d1);
    CompactedCompilesAlike(w, d2);
  }

  /******* Evaluation *******/

  function Decide(w: Platform, c: Compiled, facts: Facts, i: nat): Result<Evaluation, EvaluationError>
    requires i <= |c.rules|
    decreases |c.rules| - i
  {
    if i == |c.rules| then Success(Evaluation(false, "", c.defaultResult))
    else
      match w.run(c.rules[i].condition, facts)
      case True => Success(Evaluation(true, c.rules[i].name, c.rules[i].result))
      case False => Decide(w, c, facts, i + 1)
      case _ => Failure(RuleFailed)
  }

  function EvaluateCompiled(w: Platform, c: Compiled, factsText: string): Result<Evaluation, EvaluationError> {
    if |factsText| == 0 || |factsText| > MAX_FACTS_BYTES || w.facts(factsText).None? then Failure(InvalidFacts)
    else Decide(w, c, w.facts(factsText).value, 0)
  }

  method EvaluateDefinition(w: Platform, c: Compiled, factsText: string)
    returns (r: Result<Evaluation, EvaluationError>)
    ensures r == EvaluateCompiled(w, c, factsText)
  {
    if |factsText| == 0 || |factsText| > MAX_FACTS_BYTES {
      return Failure(InvalidFacts);
    }
    var facts := w.facts(factsText);
    if facts.None? {
      return Failure(InvalidFacts);
    }
    for i := 0 to |c.rules|
      invariant Decide(w, c, facts.value, 0) == Decide(w, c, facts.value, i)
    {
      var verdict := w.run(c.rules[i].condition, facts.value);
      if verdict.Fault? || verdict.NotABool? {
        return Failure(RuleFailed);
      }
      if verdict.True? {
        return Success(Evaluation(true, c.rules[i].name, c.rules[i].result));
      }
    }
    r := Success(Evaluation(false, "", c.defaultResult));
  }

  /** Rule `i` is the first of the source definition whose condition is not false. */
  ghost predicate Decisive(w: Platform, d: Definition, facts: Facts, i: int) {
    && 0 <= i < |d.rules|
    && (forall j :: 0 <= j < i ==> w.run(d.rules[j].condition, facts).False?)
    && !w.run(d.rules[i].condition, facts).False?
  }

  /** What the source definition answers when its rule decides. */
  ghost function Answer(w: Platform, rule: DefinitionRule, facts: Facts): Result<Evaluation, EvaluationError> {
    if w.run(rule.condition, facts).True?
    then Success(Evaluation(true, rule.name, w.canonical(rule.result)))
    else Failure(RuleFailed)
  }

  /** The answer the source definition asks for: its decisive rule's, or the default when there is none. */
  ghost predicate Means(w: Platform, d: Definition, facts: Facts, r: Result<Evaluation, EvaluationError>) {
    && (forall i :: Decisive(w, d, facts, i) ==> r == Answer(w, d.rules[i], facts))
    && ((forall i :: 0 <= i < |d.rules| ==> w.run(d.rules[i].condition, facts).False?)
        ==> r == Success(Evaluation(false, "", w.canonical(d.defaultResult))))
  }

  lemma {:induction false} DecideMeans(w: Platform, c: Compiled, d: Definition, facts: Facts, i: nat)
    requires c.rules == CompileRules(w, d.rules) && c.defaultResult == w.canonical(d.defaultResult)
    requires i <= |d.rules| && forall j :: 0 <= j < i ==> w.run(d.rules[j].condition, facts).False?
    ensures Means(w, d, facts, Decide(w, c, facts, i))
    decreases |d.rules| - i
  {
    if i < |d.rules| {
      if w.run(d.rules[i].condition, facts).False? {
        DecideMeans(w, c, d, facts, i + 1);
      } else {
        forall k | Decisive(w, d, facts, k) ensures k == i {}
      }
    }
  }

  /** Compiling and then evaluating gives the first-match answer of the definition that was submitted. */
  lemma FirstMatch(w: Platform, raw: string, factsText: string)
    requires Compile(w, raw).Success?
    requires 1 <= |factsText| <= MAX_FACTS_BYTES && w.facts(factsText).Some?
    ensures w.decode(raw).Single?
    ensures Means(w, w.decode(raw).definition, w.facts(factsText).value,
                  EvaluateCompiled(w, Compile(w, raw).value, factsText))
  {
    DecideMeans(w, Compile(w, raw).value, w.decode(raw).definition, w.facts(factsText).value, 0);
  }

  /** Two definitions that agree up to their decisive rule: what follows it, and the default, is never consulted. */
  ghost predicate AgreeUpTo(w: Platform, d1: Definition, d2: Definition, facts: Facts, i: int) {
    Decisive(w, d1, facts, i) && i < |d2.rules| && forall j :: 0 <= j <= i ==> d1.rules[j] == d2.rules[j]
  }

  lemma SuffixIrrelevant(w: Platform, raw1: string, raw2: string, factsText: string, i: nat)
    ensures var c1, c2, facts := Compile(w, raw1), Compile(w, raw2), w.facts(factsText);
      c1.Success? && c2.Success? && facts.Some? && w.decode(raw1).Single? && w.decode(raw2).Single?
      && AgreeUpTo(w, w.decode(raw1).definition, w.decode(raw2).definition, facts.value, i)
      ==> EvaluateCompiled(w, c1.value, factsText) == EvaluateCompiled(w, c2.value, factsText)
  {
    var c1, c2, facts := Compile(w, raw1), Compile(w, raw2), w.facts(factsText);
    if c1.Success? && c2.Success? && facts.Some? && w.decode(raw1).Single? && w.decode(raw2).Single?
      && AgreeUpTo(w, w.decode(raw1).definition, w.decode(raw2).definition, facts.value, i)
      && 1 <= |factsText| <= MAX_FACTS_BYTES {
      FirstMatch(w, raw1, factsText);
      FirstMatch(w, raw2, factsText);
      hide Compile, EvaluateCompiled;
      assert Decisive(w, w.decode(raw2).definition, facts.value, i);
    }
  }
}
