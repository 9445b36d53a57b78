/** Compiling the merged rules' patterns and picking the rule for an invocation. */
module Matcher {
  import opened Base
  import opened Errors
  import opened RegexLib
  import opened ConfigTypes

  /** What a rule is matched against. */
  datatype MatchContext = MatchContext(binaryPath: Path, cwd: Path, args: seq<string>)

  /** A rule whose patterns have been compiled. */
  datatype CompiledRule = CompiledRule(
    rule: Rule,
    binaryRegex: Option<Regex>,
    cwdRegex: Option<Regex>,
    source: Path)

  /** `compile_regex`: a pattern the engine rejects is an `InvalidRegex` naming it. */
  function CompileRegex(engine: RegexEngine, pattern: string): (r: Result<Regex, TrampError>)
    ensures r.Ok? <==> engine.accepts(pattern)
    ensures r.Ok? ==> r.value.source == pattern
    ensures r.Err? ==> r.error == InvalidRegex(pattern, EngineRejected)
  {
    match Compile(engine, pattern)
    case Some(re) => Ok(re)
    case None => Err(InvalidRegex(pattern, EngineRejected))
  }

  function CompileOptional(engine: RegexEngine, pattern: Option<string>): Result<Option<Regex>, TrampError>
  {
    match pattern
    case None => Ok(None)
    case Some(p) =>
      match CompileRegex(engine, p)
      case Ok(re) => Ok(Some(re))
      case Err(e) => Err(e)
  }

  /** A pattern that is absent or accepted by the engine. */
  predicate Compiles(engine: RegexEngine, pattern: Option<string>)
  {
    pattern.None? || engine.accepts(pattern.value)
  }

  predicate RuleCompiles(engine: RegexEngine, rws: RuleWithSource)
  {
    Compiles(engine, rws.rule.binaryPattern) && Compiles(engine, rws.rule.cwdPattern)
  }

  /** `CompiledRule::from_rule_with_source`: the binary pattern is compiled before the
      cwd pattern, and the first one that fails is the error. */
  function FromRuleWithSource(engine: RegexEngine, rws: RuleWithSource): (r: Result<CompiledRule, TrampError>)
    ensures r.Ok? <==> RuleCompiles(engine, rws)
    ensures r.Ok? ==> r.value.rule == rws.rule && r.value.source == rws.source
    ensures r.Ok? ==> (r.value.binaryRegex.Some? <==> rws.rule.binaryPattern.Some?) &&
                      (r.value.cwdRegex.Some? <==> rws.rule.cwdPattern.Some?)
    ensures r.Ok? && r.value.binaryRegex.Some? ==> r.value.binaryRegex.value.source == rws.rule.binaryPattern.value
    ensures r.Ok? && r.value.cwdRegex.Some? ==> r.value.cwdRegex.value.source == rws.rule.cwdPattern.value
    ensures r.Err? && !Compiles(engine, rws.rule.binaryPattern) ==>
      r.error == InvalidRegex(rws.rule.binaryPattern.value, EngineRejected)
    ensures r.Err? && Compiles(engine, rws.rule.binaryPattern) ==>
      r.error == InvalidRegex(rws.rule.cwdPattern.value, EngineRejected)
  {
    match CompileOptional(engine, rws.rule.binaryPattern)
    case Err(e) => Err(e)
    case Ok(binaryRegex) =>
      match CompileOptional(engine, rws.rule.cwdPattern)
      case Err(e) => Err(e)
      case Ok(cwdRegex) => Ok(CompiledRule(rws.rule, binaryRegex, cwdRegex, rws.source))
  }

  /** `compile_rules`: all rules compile, in order, or the first failing rule's error. */
  function CompileRules(engine: RegexEngine, rules: seq<RuleWithSource>): (r: Result<seq<CompiledRule>, TrampError>)
    ensures r.Ok? <==> forall i :: 0 <= i < |rules| ==> RuleCompiles(engine, rules[i])
    ensures r.Ok? ==> |r.value| == |rules|
  {
    if |rules| == 0 then Ok([])
    else
      var head := FromRuleWithSource(engine, rules[0]);
      if head.Err? then Err(head.error)
      else
        var tail := CompileRules(engine, rules[1..]);
        assert forall i :: 1 <= i < |rules| ==> rules[1..][i - 1] == rules[i];
        if tail.Err? then Err(tail.error)
        else Ok([head.value] + tail.value)
  }

  /** The compiled rules are the rules, each compiled, in the configured order. */
  lemma {:induction false} CompileRulesInOrder(engine: RegexEngine, rules: seq<RuleWithSource>)
    requires CompileRules(engine, rules).Ok?
    ensures forall i :: 0 <= i < |rules| ==>
      CompileRules(engine, rules).value[i] == FromRuleWithSource(engine, rules[i]).value
  {
    if |rules| > 0 {
      CompileRulesInOrder(engine, rules[1..]);
      var compiled := CompileRules(engine, rules).value;
      var tail := CompileRules(engine, rules[1..]).value;
      assert compiled == [FromRuleWithSource(engine, rules[0]).value] + tail;
      forall i | 1 <= i < |rules|
        ensures compiled[i] == FromRuleWithSource(engine, rules[i]).value
      {
        assert compiled[i] == tail[i - 1] && rules[1..][i - 1] == rules[i];
      }
    }
  }

  /** A failure is the error of the first rule that does not compile. */
  lemma {:induction false} CompileRulesFirstError(engine: RegexEngine, rules: seq<RuleWithSource>)
    requires CompileRules(engine, rules).Err?
    ensures exists i :: (0 <= i < |rules| && !RuleCompiles(engine, rules[i]) &&
                         (forall j :: 0 <= j < i ==> RuleCompiles(engine, rules[j])) &&
                         CompileRules(engine, rules).error == FromRuleWithSource(engine, rules[i]).error)
  {
    var e := CompileRules(engine, rules).error;
    if RuleCompiles(engine, rules[0]) {
      CompileRulesFirstError(engine, rules[1..]);
      var i :| 0 <= i < |rules[1..]| && !RuleCompiles(engine, rules[1..][i]) &&
        (forall j :: 0 <= j < i ==> RuleCompiles(engine, rules[1..][j])) &&
        CompileRules(engine, rules[1..]).error == FromRuleWithSource(engine, rules[1..][i]).error;
      assert rules[1..][i] == rules[i + 1];
      assert forall j :: 1 <= j < i + 1 ==> rules[1..][j - 1] == rules[j];
      assert !RuleCompiles(engine, rules[i + 1]) && forall j :: 0 <= j < i + 1 ==> RuleCompiles(engine, rules[j]);
    } else {
      assert e == FromRuleWithSource(engine, rules[0]).error;
    }
  }

  /** Whether an optional compiled pattern lets a path through. */
  predicate Admits(engine: RegexEngine, re: Option<Regex>, p: Path)
  {
    re.None? || engine.isMatch(re.value.source, PathString(p))
  }

  /** `CompiledRule::matches`: the binary test, then the cwd test, each skipped when the
      rule has no such pattern. */
  predicate Matches(engine: RegexEngine, rule: CompiledRule, ctx: MatchContext)
  {
    if rule.binaryRegex.Some? && !engine.isMatch(rule.binaryRegex.value.source, PathString(ctx.binaryPath)) then false
    else if rule.cwdRegex.Some? && !engine.isMatch(rule.cwdRegex.value.source, PathString(ctx.cwd)) then false
    else true
  }

  /** A rule matches exactly when each of its patterns is absent or matches its path. */
  lemma {:induction false} MatchesIsConjunction(engine: RegexEngine, rule: CompiledRule, ctx: MatchContext)
    ensures Matches(engine, rule, ctx) <==>
      Admits(engine, rule.binaryRegex, ctx.binaryPath) && Admits(engine, rule.cwdRegex, ctx.cwd)
  {
  }

  /** Stated on the configured rule: pattern texts of a compiled rule are those of its rule. */
  lemma {:induction false} CompiledMatchesRulePatterns(engine: RegexEngine, rws: RuleWithSource, ctx: MatchContext)
    requires FromRuleWithSource(engine, rws).Ok?
    ensures Matches(engine, FromRuleWithSource(engine, rws).value, ctx) <==>
      (rws.rule.binaryPattern.None? || engine.isMatch(rws.rule.binaryPattern.value, PathString(ctx.binaryPath))) &&
      (rws.rule.cwdPattern.None? || engine.isMatch(rws.rule.cwdPattern.value, PathString(ctx.cwd)))
  {
  }

  /** The arguments never influence matching. */
  lemma {:induction false} MatchesIgnoresArgs(engine: RegexEngine, rule: CompiledRule, ctx: MatchContext, args: seq<string>)
    ensures Matches(engine, rule, ctx) == Matches(engine, rule, ctx.(args := args))
  {
  }

  /** A rule with neither pattern matches every invocation. */
  lemma {:induction false} NoPatternsMatchAll(engine: RegexEngine, rws: RuleWithSource, ctx: MatchContext)
    requires rws.rule.binaryPattern.None? && rws.rule.cwdPattern.None?
    ensures FromRuleWithSource(engine, rws).Ok?
    ensures Matches(engine, FromRuleWithSource(engine, rws).value, ctx)
  {
  }

  /** `find_matching_rule`: the first rule in list order that matches. */
  function FindMatchingRule(engine: RegexEngine, rules: seq<CompiledRule>, ctx: MatchContext): (r: Option<nat>)
    ensures r.None? <==> forall i :: 0 <= i < |rules| ==> !Matches(engine, rules[i], ctx)
    ensures r.Some? ==> r.value < |rules| && Matches(engine, rules[r.value], ctx)
    ensures r.Some? ==> forall j :: 0 <= j < r.value ==> !Matches(engine, rules[j], ctx)
  {
    if |rules| == 0 then None
    else if Matches(engine, rules[0], ctx) then Some(0)
    else
      match FindMatchingRule(engine, rules[1..], ctx)
      case None => None
      case Some(i) => Some(i + 1)
  }

  /** The chosen rule is the first matching one: two rules that both match never let the
      later one win. */
  lemma {:induction false} FirstMatchWins(engine: RegexEngine, rules: seq<CompiledRule>, ctx: MatchContext, i: nat, j: nat)
    requires i < j < |rules| && Matches(engine, rules[i], ctx) && Matches(engine, rules[j], ctx)
    ensures FindMatchingRule(engine, rules, ctx).Some?
    ensures FindMatchingRule(engine, rules, ctx).value <= i
  {
  }
}
