/** The configuration records and their validation. */
module ConfigTypes {
  import opened Base
  import opened Errors
  import opened Strings

  /** An absolute filesystem path as its components below the root; `[]` is the root. */
  type Path = seq<string>

  /** `Path::parent`: drops the last component; the root has none. */
  function Parent(p: Path): (q: Path)
    requires p != []
    ensures |q| == |p| - 1 && q == p[..|p| - 1]
  {
    p[..|p| - 1]
  }

  /** The text a path displays as (`to_string_lossy`): its components after a leading '/',
      separated by '/'. */
  function PathString(p: Path): (r: string)
    ensures |r| >= 1 && r[0] == '/'
    ensures p == [] ==> r == "/"
  {
    "/" + Join(p, "/")
  }

  /** One `[[rules]]` entry. Hook paths are the text handed to the shell. */
  datatype Rule = Rule(
    binaryPattern: Option<string>,
    cwdPattern: Option<string>,
    argRewrite: Option<string>,
    commandRewrite: Option<string>,
    alternateCommand: Option<string>,
    preHook: Option<string>,
    postHook: Option<string>,
    interceptHook: Option<string>)

  /** The contents of one `.tramp.toml`. */
  datatype Config = Config(
    root: bool,
    noExternalLookup: bool,
    rootConfigLookupDisableEnvVar: Option<string>,
    rules: seq<Rule>)

  datatype LoadedConfig = LoadedConfig(config: Config, path: Path)

  datatype RuleWithSource = RuleWithSource(rule: Rule, source: Path)

  datatype MergedConfig = MergedConfig(rules: seq<RuleWithSource>, noExternalLookup: bool)

  /** The record a file with no keys deserialises to (every field at its default). */
  function EmptyConfig(): (c: Config)
    ensures !c.root && !c.noExternalLookup && c.rootConfigLookupDisableEnvVar == None && c.rules == []
  {
    Config(false, false, None, [])
  }

  const ArgRewriteName: string := "arg_rewrite"
  const CommandRewriteName: string := "command_rewrite"
  const AlternateCommandName: string := "alternate_command"

  /** The names of the rewrite fields that are set, in declaration order. */
  function SetRewriteFields(rule: Rule): seq<string>
  {
    (if rule.argRewrite.Some? then [ArgRewriteName] else []) +
    (if rule.commandRewrite.Some? then [CommandRewriteName] else []) +
    (if rule.alternateCommand.Some? then [AlternateCommandName] else [])
  }

  function RewriteFieldCount(rule: Rule): nat
  {
    (if rule.argRewrite.Some? then 1 else 0) +
    (if rule.commandRewrite.Some? then 1 else 0) +
    (if rule.alternateCommand.Some? then 1 else 0)
  }

  /** `Rule::validate`: at most one of the three rewrite strategies may be set; otherwise
      the error names the first two that are, in the order arg, command, alternate. */
  function ValidateRule(rule: Rule): (r: Result<(), TrampError>)
    ensures r.Ok? <==> RewriteFieldCount(rule) <= 1
    ensures rule.argRewrite.Some? && rule.commandRewrite.Some? ==>
      r == Err(MutuallyExclusive("arg_rewrite", "command_rewrite"))
    ensures rule.argRewrite.Some? && rule.commandRewrite.None? && rule.alternateCommand.Some? ==>
      r == Err(MutuallyExclusive("arg_rewrite", "alternate_command"))
    ensures rule.argRewrite.None? && rule.commandRewrite.Some? && rule.alternateCommand.Some? ==>
      r == Err(MutuallyExclusive("command_rewrite", "alternate_command"))
  {
    var named := SetRewriteFields(rule);
    if |named| > 1 then Err(MutuallyExclusive(named[0], named[1])) else Ok(())
  }

  /** Validation looks only at the rewrite fields: patterns and hooks never matter. */
  lemma {:induction false} ValidateIgnoresPatternsAndHooks(rule: Rule, b: Option<string>, c: Option<string>,
                                        pre: Option<string>, post: Option<string>, intercept: Option<string>)
    ensures ValidateRule(rule.(binaryPattern := b, cwdPattern := c, preHook := pre,
                               postHook := post, interceptHook := intercept)) == ValidateRule(rule)
  {
  }

  /** `Config::validate`: every rule in turn; the first failure is returned. */
  function ValidateConfig(config: Config): (r: Result<(), TrampError>)
  {
    ValidateRules(config.rules)
  }

  function ValidateRules(rules: seq<Rule>): (r: Result<(), TrampError>)
    ensures r.Ok? <==> forall i :: 0 <= i < |rules| ==> ValidateRule(rules[i]).Ok?
    ensures r.Err? ==> exists i :: 0 <= i < |rules| && ValidateRule(rules[i]) == Err(r.error) &&
                                   forall j :: 0 <= j < i ==> ValidateRule(rules[j]).Ok?
  {
    if |rules| == 0 then Ok(())
    else match ValidateRule(rules[0])
      case Err(e) => Err(e)
      case Ok(_) =>
        var rest := ValidateRules(rules[1..]);
        assert forall i :: 1 <= i < |rules| ==> rules[i] == rules[1..][i - 1];
        if rest.Err? then
          var i :| 0 <= i < |rules| - 1 && ValidateRule(rules[1..][i]) == Err(rest.error) &&
                   forall j :: 0 <= j < i ==> ValidateRule(rules[1..][j]).Ok?;
          assert ValidateRule(rules[i + 1]) == Err(rest.error);
          rest
        else rest
  }

  /** The empty configuration validates and declares nothing. */
  lemma {:induction false} EmptyConfigValid()
    ensures ValidateConfig(EmptyConfig()) == Ok(())
  {
  }

  /** A rule with all three hooks, and no rewrite, is valid. */
  lemma {:induction false} AllHooksValid(pre: string, post: string, intercept: string)
    ensures ValidateRule(Rule(None, None, None, None, None, Some(pre), Some(post), Some(intercept))).Ok?
  {
  }
}
