/** One interception, from the command line to the exit code: the command is resolved,
    the rules are loaded and compiled, the first matching rule rewrites the invocation,
    and the hooks and the final command run around each other. */
module Lifecycle {
  import opened Base
  import opened Errors
  import opened Strings
  import opened RegexLib
  import opened ConfigTypes
  import opened Cascade
  import opened Matcher
  import opened Rewriter
  import opened Hooks
  import opened Exec

  /** Everything outside the process that an interception consults: the configuration
      files, the environment, the home and working directories, which paths exist, and
      how programs and hooks run. */
  datatype World = World(
    files: FileSystem,
    env: Environment,
    home: Option<Path>,
    cwd: Path,
    present: Probe,
    spawn: Spawner,
    runHook: HookRunner,
    regex: RegexEngine)

  /** Why an interception stopped: the error `handle_command` returns, with the context
      it adds to the cause. */
  datatype Failure =
    | UnknownCommand(name: string)
    | ConfigFailed(cause: TrampError)
    | CompileFailed(cause: TrampError)
    | AlternateMissing(name: string)
    | BadArgRewrite(rewrite: string, cause: TrampError)
    | BadCommandRewrite(rewrite: string, cause: TrampError)
    | RewrittenMissing(name: string)
    | PreHookFailed(hook: string, cause: TrampError)
    | InterceptFailed(hook: string, cause: TrampError)
    | ExecuteFailed(binary: Path, cause: TrampError)

  /** A failure that happens before any process is started. */
  predicate IsSetupFailure(f: Failure)
  {
    !(f.PreHookFailed? || f.InterceptFailed? || f.ExecuteFailed?)
  }

  /** What an interception does to the outside world, in order: starting a hook (which
      gets the environment built from `context`), starting the final command, and warning
      that a post-hook failed. */
  datatype Action =
    | StartHook(hook: string, context: HookContext)
    | StartCommand(binary: Path, args: seq<string>)
    | WarnPostHook(cause: TrampError)

  /** The variables tramp sets for a started hook (on top of its own inherited environment). */
  function HookEnvironment(a: Action): map<string, string>
    requires a.StartHook?
  {
    EnvStrings(HookEnv(a.context))
  }

  /** The exit code (or the error) of an interception, and what it did on the way. */
  datatype Run = Run(result: Result<u8, Failure>, trace: seq<Action>)

  function Resolve(w: World, command: string): Option<Path>
  {
    Resolved(command, w.present, w.env, w.cwd)
  }

  // ---------------------------------------------------------------------------
  // Applying a rule

  /** `apply_rule`, as a specification: an alternate command replaces the binary; failing
      that, an argument rewrite replaces the arguments; failing that, a command rewrite
      rewrites both as one line and resolves the new binary; a rule with none of the three
      leaves the invocation as it is. */
  function RuleApplied(w: World, binary: Path, args: seq<string>, rule: Rule)
    : (r: Result<(Path, seq<string>), Failure>)
    ensures r.Ok? && r.value.0 != binary ==>
      w.present(r.value.0) && (rule.alternateCommand.Some? || rule.commandRewrite.Some?)
    ensures r.Ok? && r.value.1 != args ==>
      rule.alternateCommand.None? && (rule.argRewrite.Some? || rule.commandRewrite.Some?)
    ensures SetRewriteFields(rule) == [] ==> r == Ok((binary, args))
  {
    if rule.alternateCommand.Some? then
      var alternate := rule.alternateCommand.value;
      match Resolve(w, alternate)
      case None => Err(AlternateMissing(alternate))
      case Some(p) => Ok((p, args))
    else if rule.argRewrite.Some? then
      var rewrite := rule.argRewrite.value;
      match Parse(w.regex, rewrite)
      case Err(e) => Err(BadArgRewrite(rewrite, e))
      case Ok(sub) => Ok((binary, RewriteArgs(w.regex, args, sub)))
    else if rule.commandRewrite.Some? then
      var rewrite := rule.commandRewrite.value;
      match Parse(w.regex, rewrite)
      case Err(e) => Err(BadCommandRewrite(rewrite, e))
      case Ok(sub) =>
        var rewritten := RewriteCommand(w.regex, PathString(binary), args, sub);
        match Resolve(w, rewritten.0)
        case None => Err(RewrittenMissing(rewritten.0))
        case Some(p) => Ok((p, rewritten.1))
    else Ok((binary, args))
  }

  /** `apply_rule`: the same decisions, looking commands up with the search loop. */
  method ApplyRule(w: World, binary: Path, args: seq<string>, rule: Rule)
    returns (r: Result<(Path, seq<string>), Failure>)
    ensures r == RuleApplied(w, binary, args, rule)
  {
    if rule.alternateCommand.Some? {
      var alternate := rule.alternateCommand.value;
      var found := ResolveCommand(alternate, w.present, w.env, w.cwd);
      if found.None? {
        return Err(AlternateMissing(alternate));
      }
      return Ok((found.value, args));
    }
    if rule.argRewrite.Some? {
      var rewrite := rule.argRewrite.value;
      var sub := Parse(w.regex, rewrite);
      if sub.Err? {
        return Err(BadArgRewrite(rewrite, sub.error));
      }
      return Ok((binary, RewriteArgs(w.regex, args, sub.value)));
    }
    if rule.commandRewrite.Some? {
      var rewrite := rule.commandRewrite.value;
      var sub := Parse(w.regex, rewrite);
      if sub.Err? {
        return Err(BadCommandRewrite(rewrite, sub.error));
      }
      var rewritten := RewriteCommand(w.regex, PathString(binary), args, sub.value);
      var found := ResolveCommand(rewritten.0, w.present, w.env, w.cwd);
      if found.None? {
        return Err(RewrittenMissing(rewritten.0));
      }
      return Ok((found.value, rewritten.1));
    }
    return Ok((binary, args));
  }

  /** An alternate command wins over both rewrites: the binary becomes the resolved
      alternate and the arguments stay; an alternate that cannot be resolved is an error. */
  lemma {:induction false} AlternateWins(w: World, binary: Path, args: seq<string>, rule: Rule)
    requires rule.alternateCommand.Some?
    ensures RuleApplied(w, binary, args, rule) ==
      RuleApplied(w, binary, args, rule.(argRewrite := None, commandRewrite := None))
    ensures RuleApplied(w, binary, args, rule).Ok? <==> Resolve(w, rule.alternateCommand.value).Some?
    ensures RuleApplied(w, binary, args, rule).Ok? ==>
      RuleApplied(w, binary, args, rule).value == (Resolve(w, rule.alternateCommand.value).value, args)
    ensures RuleApplied(w, binary, args, rule).Err? ==>
      RuleApplied(w, binary, args, rule).error == AlternateMissing(rule.alternateCommand.value)
  {
  }

  /** An argument rewrite wins over a command rewrite: the binary stays and the arguments
      are rewritten; a rewrite that does not parse is an error carrying the parse error. */
  lemma {:induction false} ArgRewriteWins(w: World, binary: Path, args: seq<string>, rule: Rule)
    requires rule.alternateCommand.None? && rule.argRewrite.Some?
    ensures RuleApplied(w, binary, args, rule) == RuleApplied(w, binary, args, rule.(commandRewrite := None))
    ensures RuleApplied(w, binary, args, rule).Ok? <==> Parse(w.regex, rule.argRewrite.value).Ok?
    ensures RuleApplied(w, binary, args, rule).Ok? ==>
      RuleApplied(w, binary, args, rule).value ==
        (binary, RewriteArgs(w.regex, args, Parse(w.regex, rule.argRewrite.value).value))
    ensures RuleApplied(w, binary, args, rule).Err? ==>
      RuleApplied(w, binary, args, rule).error ==
        BadArgRewrite(rule.argRewrite.value, Parse(w.regex, rule.argRewrite.value).error)
  {
  }

  /** A command rewrite succeeds only when its new first word names an existing command. */
  lemma {:induction false} CommandRewriteResolves(w: World, binary: Path, args: seq<string>, rule: Rule)
    requires rule.alternateCommand.None? && rule.argRewrite.None? && rule.commandRewrite.Some?
    requires Parse(w.regex, rule.commandRewrite.value).Ok?
    ensures var rewritten := RewriteCommand(w.regex, PathString(binary), args, Parse(w.regex, rule.commandRewrite.value).value);
      var r := RuleApplied(w, binary, args, rule);
      (r.Ok? <==> Resolve(w, rewritten.0).Some?) &&
      (r.Ok? ==> r.value == (Resolve(w, rewritten.0).value, rewritten.1)) &&
      (r.Err? ==> r.error == RewrittenMissing(rewritten.0))
  {
  }

  /** A command rewrite that leaves the command line alone leads back to the same binary. */
  lemma {:induction false} CommandRewriteIdentity(w: World, binary: Path, args: seq<string>, rule: Rule, sub: Substitution)
    requires rule.alternateCommand.None? && rule.argRewrite.None? && rule.commandRewrite.Some?
    requires Parse(w.regex, rule.commandRewrite.value) == Ok(sub)
    requires Apply(w.regex, sub, Join([PathString(binary)] + args, " ")) == Join([PathString(binary)] + args, " ")
    requires IsWord(PathString(binary)) && forall k :: 0 <= k < |args| ==> IsWord(args[k])
    requires forall k :: 0 <= k < |binary| ==> IsComponent(binary[k])
    requires w.present(binary)
    ensures RuleApplied(w, binary, args, rule) == Ok((binary, args))
  {
    RewriteCommandIdentity(w.regex, PathString(binary), args, sub);
    ResolvedPathString(binary, w.present, w.env, w.cwd);
  }

  // ---------------------------------------------------------------------------
  // The interception, as a specification

  function PreContext(w: World, binary: Path, args: seq<string>): HookContext
  {
    HookContext(binary, args, w.cwd, Pre, None, None, None)
  }

  function InterceptContext(w: World, binary: Path, args: seq<string>, finalBinary: Path, finalArgs: seq<string>)
    : HookContext
  {
    HookContext(binary, args, w.cwd, Intercept, Some(finalBinary), Some(finalArgs), None)
  }

  function PostContext(w: World, binary: Path, args: seq<string>, finalBinary: Path, finalArgs: seq<string>, code: i32)
    : HookContext
  {
    HookContext(binary, args, w.cwd, Post, Some(finalBinary), Some(finalArgs), Some(code))
  }

  /** `handle_command`, as a specification. `args` is the command line after `tramp`:
      the command's name, then its arguments. */
  function Invocation(w: World, args: seq<string>): Run
    requires |args| >= 1
  {
    var name, rest := args[0], args[1..];
    match Resolve(w, name)
    case None => Run(Err(UnknownCommand(name)), [])
    case Some(binary) =>
      match LoadMergedConfig(w.cwd, w.files, w.env, w.home)
      case Err(e) => Run(Err(ConfigFailed(e)), [])
      case Ok(config) =>
        match CompileRules(w.regex, config.rules)
        case Err(e) => Run(Err(CompileFailed(e)), [])
        case Ok(rules) => Dispatch(w, binary, rest, rules)
  }

  /** The first matching rule, if any, decides what runs. */
  function Dispatch(w: World, binary: Path, args: seq<string>, rules: seq<CompiledRule>): Run
  {
    match FindMatchingRule(w.regex, rules, MatchContext(binary, w.cwd, args))
    case None => Execution(w, binary, args, binary, args, None)
    case Some(i) => WithRule(w, binary, args, rules[i].rule)
  }

  /** What follows once `rule` matched: the rewrite, then the hooks and the command. */
  function WithRule(w: World, binary: Path, args: seq<string>, rule: Rule): Run
  {
    match RuleApplied(w, binary, args, rule)
    case Err(f) => Run(Err(f), [])
    case Ok(applied) => Hooked(w, binary, args, applied.0, applied.1, rule)
  }

  /** The pre-hook, whose failure stops the interception, then the rest. */
  function Hooked(w: World, binary: Path, args: seq<string>, finalBinary: Path, finalArgs: seq<string>, rule: Rule)
    : Run
  {
    match rule.preHook
    case None => AfterPreHook(w, binary, args, finalBinary, finalArgs, rule)
    case Some(hook) =>
      var ctx := PreContext(w, binary, args);
      var start := StartHook(hook, ctx);
      match ExecutePreHook(w.runHook, hook, ctx)
      case Err(e) => Run(Err(PreHookFailed(hook, e)), [start])
      case Ok(_) =>
        var run := AfterPreHook(w, binary, args, finalBinary, finalArgs, rule);
        Run(run.result, [start] + run.trace)
  }

  /** The intercept hook in place of the command, or the command with its post-hook. */
  function AfterPreHook(w: World, binary: Path, args: seq<string>, finalBinary: Path, finalArgs: seq<string>,
                        rule: Rule): Run
  {
    match rule.interceptHook
    case Some(hook) => Interception(w, binary, args, finalBinary, finalArgs, hook)
    case None => Execution(w, binary, args, finalBinary, finalArgs, rule.postHook)
  }

  /** The intercept hook, told what would have run; its exit code is the result. */
  function Interception(w: World, binary: Path, args: seq<string>, finalBinary: Path, finalArgs: seq<string>,
                        hook: string): Run
  {
    var ctx := InterceptContext(w, binary, args, finalBinary, finalArgs);
    var started := [StartHook(hook, ctx)];
    match ExecuteInterceptHook(w.runHook, hook, ctx)
    case Err(e) => Run(Err(InterceptFailed(hook, e)), started)
    case Ok(code) => Run(Ok(AsU8(code)), started)
  }

  /** The final command, then its post-hook. */
  function Execution(w: World, binary: Path, args: seq<string>, finalBinary: Path, finalArgs: seq<string>,
                     postHook: Option<string>): Run
  {
    var started := [StartCommand(finalBinary, finalArgs)];
    match ExecuteCommand(w.spawn, finalBinary, finalArgs, w.cwd)
    case Err(e) => Run(Err(ExecuteFailed(finalBinary, e)), started)
    case Ok(status) =>
      var code := status.GetOr(1);
      match postHook
      case None => Run(Ok(AsU8(code)), started)
      case Some(hook) =>
        Run(Ok(AsU8(code)), started + PostHookRun(w, hook, PostContext(w, binary, args, finalBinary, finalArgs, code)))
  }

  /** The post-hook, whose failure is only reported. */
  function PostHookRun(w: World, hook: string, ctx: HookContext): seq<Action>
  {
    var start := StartHook(hook, ctx);
    match ExecutePostHook(w.runHook, hook, ctx)
    case Err(e) => [start, WarnPostHook(e)]
    case Ok(_) => [start]
  }

  // ---------------------------------------------------------------------------
  // What an interception promises

  predicate IsStart(a: Action, kind: HookType)
  {
    a.StartHook? && a.context.hookType == kind
  }

  /** The order of what an interception does: an optional pre-hook, then either the
      intercept hook or the command, the post-hook only after the command, and the
      warning about the post-hook last. */
  predicate Ordered(t: seq<Action>)
  {
    var rest := if |t| > 0 && IsStart(t[0], Pre) then t[1..] else t;
    |rest| <= 3 &&
    (|rest| == 1 ==> rest[0].StartCommand? || IsStart(rest[0], Intercept)) &&
    (|rest| >= 2 ==> rest[0].StartCommand? && IsStart(rest[1], Post)) &&
    (|rest| == 3 ==> rest[2].WarnPostHook?)
  }

  /** What an interception returns once it has started `binary` with `args`: the exit
      code cut to eight bits, 1 when a signal ended the program, or the failure to run it. */
  function CommandOutcome(w: World, binary: Path, args: seq<string>): Result<u8, Failure>
  {
    match w.spawn(binary, args, w.cwd)
    case SpawnNotFound => Err(ExecuteFailed(binary, CommandNotFound(PathString(binary))))
    case SpawnError => Err(ExecuteFailed(binary, CommandFailed(PathString(binary))))
    case Exited(code) => Ok(AsU8(code.GetOr(1)))
  }

  /** What an interception returns once it has started the intercept hook: the hook's exit
      code cut to eight bits (a signal reads as -1), or the failure to start it. */
  function InterceptOutcome(w: World, hook: string, env: map<string, string>): Result<u8, Failure>
  {
    match w.runHook(hook, env, w.cwd)
    case SpawnFailed => Err(InterceptFailed(hook, HookFailed(hook)))
    case Finished(code) => Ok(AsU8(code.GetOr(-1)))
  }

  /** The result is the outcome of the command, or of the intercept hook, that was started. */
  ghost predicate Decided(w: World, r: Run)
  {
    (forall k :: 0 <= k < |r.trace| && r.trace[k].StartCommand? ==>
      r.result == CommandOutcome(w, r.trace[k].binary, r.trace[k].args)) &&
    (forall k :: 0 <= k < |r.trace| && IsStart(r.trace[k], Intercept) ==>
      r.result == InterceptOutcome(w, r.trace[k].hook, HookEnvironment(r.trace[k])))
  }

  /** Anything after the pre-hook happens exactly when the pre-hook exited with 0; when it
      did not, the interception fails with the pre-hook's error. */
  predicate PreHookGates(w: World, r: Run)
  {
    |r.trace| > 0 && IsStart(r.trace[0], Pre) ==>
      (|r.trace| > 1 <==> w.runHook(r.trace[0].hook, HookEnvironment(r.trace[0]), w.cwd) == Finished(Some(0))) &&
      (|r.trace| == 1 ==> r.result.Err? && r.result.error.PreHookFailed?)
  }

  /** A post-hook's context names the command that ran, its arguments, and the exit code
      it ended with. */
  predicate SeesCommand(w: World, command: Action, hook: Action)
    requires command.StartCommand? && hook.StartHook?
  {
    var outcome := w.spawn(command.binary, command.args, w.cwd);
    outcome.Exited? &&
    hook.context.executedBinary == Some(command.binary) &&
    hook.context.executedArgs == Some(command.args) &&
    hook.context.exitCode == Some(outcome.code.GetOr(1))
  }

  ghost predicate PostHookInformed(w: World, r: Run)
  {
    forall k :: 0 <= k < |r.trace| && IsStart(r.trace[k], Post) ==>
      k > 0 && r.trace[k - 1].StartCommand? && SeesCommand(w, r.trace[k - 1], r.trace[k])
  }

  /** The post-hook finds the command that ran and its exit code in its environment. */
  lemma {:induction false} PostHookEnvironment(w: World, command: Action, hook: Action)
    requires command.StartCommand? && hook.StartHook? && SeesCommand(w, command, hook)
    ensures var env := HookEnvironment(hook);
      var outcome := w.spawn(command.binary, command.args, w.cwd);
      Name(ExitCode) in env && env[Name(ExitCode)] == IntToString(outcome.code.GetOr(1)) &&
      Name(ExecutedBinary) in env && env[Name(ExecutedBinary)] == PathString(command.binary) &&
      Name(ExecutedArgs) in env && env[Name(ExecutedArgs)] == Join(command.args, " ")
  {
    HookEnvOptional(hook.context);
  }

  /** Every hook's context holds the original invocation (not the rewritten one) and the
      working directory; only hooks after the pre-hook hold the final command, and only the
      post-hook holds an exit code. */
  predicate Told(a: Action, binary: Path, args: seq<string>, cwd: Path)
    requires a.StartHook?
  {
    var c := a.context;
    c.originalBinary == binary && c.originalArgs == args && c.cwd == cwd &&
    (c.executedBinary.Some? <==> c.hookType != Pre) &&
    (c.executedArgs.Some? <==> c.hookType != Pre) &&
    (c.exitCode.Some? <==> c.hookType == Post)
  }

  ghost predicate HooksTold(t: seq<Action>, binary: Path, args: seq<string>, cwd: Path)
  {
    forall k :: 0 <= k < |t| && t[k].StartHook? ==> Told(t[k], binary, args, cwd)
  }

  /** What a told hook finds in its environment: the original invocation, the working
      directory and its own type; the final command unless it is the pre-hook, and an exit
      code only if it is the post-hook. */
  lemma {:induction false} ToldEnvironment(a: Action, binary: Path, args: seq<string>, cwd: Path)
    requires a.StartHook? && Told(a, binary, args, cwd)
    ensures var env := HookEnvironment(a);
      Name(OriginalBinary) in env && env[Name(OriginalBinary)] == PathString(binary) &&
      Name(OriginalArgs) in env && env[Name(OriginalArgs)] == Join(args, " ") &&
      Name(Cwd) in env && env[Name(Cwd)] == PathString(cwd) &&
      Name(HookTypeVar) in env && env[Name(HookTypeVar)] == HookTypeName(a.context.hookType) &&
      (Name(ExecutedBinary) in env <==> a.context.hookType != Pre) &&
      (Name(ExecutedArgs) in env <==> a.context.hookType != Pre) &&
      (Name(ExitCode) in env <==> a.context.hookType == Post)
  {
    var ctx := a.context;
    var env := HookEnv(ctx);
    HookEnvAlways(ctx);
    HookEnvOptional(ctx);
    if ctx.executedBinary.None? {
      NameAbsent(env, ExecutedBinary);
    }
    if ctx.executedArgs.None? {
      NameAbsent(env, ExecutedArgs);
    }
    if ctx.exitCode.None? {
      NameAbsent(env, ExitCode);
    }
  }

  /** The post-hook's part of a trace: its start, then the warning if it failed. */
  lemma {:induction false} PostHookRunShape(w: World, hook: string, ctx: HookContext)
    ensures var t := PostHookRun(w, hook, ctx);
      1 <= |t| <= 2 && t[0] == StartHook(hook, ctx) &&
      (|t| == 2 ==> t[1].WarnPostHook?)
  {
  }

  /** Running the command: it starts first, and its outcome is the result whatever the
      post-hook does. */
  lemma {:induction false} ExecutionDecided(w: World, binary: Path, args: seq<string>, finalBinary: Path,
                                            finalArgs: seq<string>, postHook: Option<string>)
    ensures var r := Execution(w, binary, args, finalBinary, finalArgs, postHook);
      |r.trace| >= 1 && r.trace[0] == StartCommand(finalBinary, finalArgs) &&
      r.result == CommandOutcome(w, finalBinary, finalArgs) &&
      Ordered(r.trace) && Decided(w, r)
  {
    var r := Execution(w, binary, args, finalBinary, finalArgs, postHook);
    var status := ExecuteCommand(w.spawn, finalBinary, finalArgs, w.cwd);
    if status.Ok? && postHook.Some? {
      var code := status.value.GetOr(1);
      PostHookRunShape(w, postHook.value, PostContext(w, binary, args, finalBinary, finalArgs, code));
    }
    assert forall k :: 1 <= k < |r.trace| ==> !r.trace[k].StartCommand? && !IsStart(r.trace[k], Intercept);
  }

  /** The post-hook that follows the command sees its exit code. */
  lemma {:induction false} ExecutionInformsPostHook(w: World, binary: Path, args: seq<string>, finalBinary: Path,
                                                    finalArgs: seq<string>, postHook: Option<string>)
    ensures PostHookInformed(w, Execution(w, binary, args, finalBinary, finalArgs, postHook))
  {
    var r := Execution(w, binary, args, finalBinary, finalArgs, postHook);
    var status := ExecuteCommand(w.spawn, finalBinary, finalArgs, w.cwd);
    if status.Ok? && postHook.Some? {
      var code := status.value.GetOr(1);
      var ctx := PostContext(w, binary, args, finalBinary, finalArgs, code);
      PostHookRunShape(w, postHook.value, ctx);
      assert r.trace[0] == StartCommand(finalBinary, finalArgs);
      assert r.trace[1] == StartHook(postHook.value, ctx);
    }
  }

  /** Every hook started around the command is told about the original invocation. */
  lemma {:induction false} ExecutionHooksTold(w: World, binary: Path, args: seq<string>, finalBinary: Path,
                                              finalArgs: seq<string>, postHook: Option<string>)
    ensures HooksTold(Execution(w, binary, args, finalBinary, finalArgs, postHook).trace, binary, args, w.cwd)
  {
    var r := Execution(w, binary, args, finalBinary, finalArgs, postHook);
    var status := ExecuteCommand(w.spawn, finalBinary, finalArgs, w.cwd);
    if status.Ok? && postHook.Some? {
      var code := status.value.GetOr(1);
      var ctx := PostContext(w, binary, args, finalBinary, finalArgs, code);
      PostHookRunShape(w, postHook.value, ctx);
      assert r.trace[1] == StartHook(postHook.value, ctx);
    }
  }

  /** The intercept hook alone is started, told the original invocation and the final
      command, and its exit code is the result. */
  lemma {:induction false} InterceptionPromises(w: World, binary: Path, args: seq<string>, finalBinary: Path,
                                                finalArgs: seq<string>, hook: string)
    ensures var r := Interception(w, binary, args, finalBinary, finalArgs, hook);
      var ctx := InterceptContext(w, binary, args, finalBinary, finalArgs);
      r.trace == [StartHook(hook, ctx)] &&
      r.result == InterceptOutcome(w, hook, EnvStrings(HookEnv(ctx))) &&
      Ordered(r.trace) && Decided(w, r) && PostHookInformed(w, r) && HooksTold(r.trace, binary, args, w.cwd)
  {
    var ctx := InterceptContext(w, binary, args, finalBinary, finalArgs);
  }

  /** What follows a passed (or absent) pre-hook keeps every promise and starts with the
      intercept hook or the command. */
  lemma {:induction false} AfterPreHookPromises(w: World, binary: Path, args: seq<string>, finalBinary: Path,
                                                finalArgs: seq<string>, rule: Rule)
    ensures var r := AfterPreHook(w, binary, args, finalBinary, finalArgs, rule);
      |r.trace| >= 1 && (r.trace[0].StartCommand? || IsStart(r.trace[0], Intercept)) &&
      (r.result.Err? ==> !IsSetupFailure(r.result.error)) &&
      Ordered(r.trace) && Decided(w, r) && PostHookInformed(w, r) && HooksTold(r.trace, binary, args, w.cwd)
  {
    if rule.interceptHook.Some? {
      InterceptionPromises(w, binary, args, finalBinary, finalArgs, rule.interceptHook.value);
    } else {
      ExecutionDecided(w, binary, args, finalBinary, finalArgs, rule.postHook);
      ExecutionInformsPostHook(w, binary, args, finalBinary, finalArgs, rule.postHook);
      ExecutionHooksTold(w, binary, args, finalBinary, finalArgs, rule.postHook);
    }
  }

  /** A passed pre-hook in front of a run that keeps the promises keeps them too. */
  lemma {:induction false} PrependPreHook(w: World, start: Action, run: Run, binary: Path, args: seq<string>)
    requires IsStart(start, Pre) && Told(start, binary, args, w.cwd)
    requires |run.trace| >= 1 && (run.trace[0].StartCommand? || IsStart(run.trace[0], Intercept))
    requires Ordered(run.trace) && Decided(w, run) && PostHookInformed(w, run) && HooksTold(run.trace, binary, args, w.cwd)
    ensures var r := Run(run.result, [start] + run.trace);
      Ordered(r.trace) && Decided(w, r) && PostHookInformed(w, r) && HooksTold(r.trace, binary, args, w.cwd)
  {
    var t := [start] + run.trace;
    assert t[1..] == run.trace;
    assert forall k :: 1 <= k < |t| ==> t[k] == run.trace[k - 1];
    var r := Run(run.result, t);
    forall k | 0 <= k < |t| && IsStart(t[k], Post)
      ensures k > 0 && t[k - 1].StartCommand? && SeesCommand(w, t[k - 1], t[k])
    {
      assert k >= 1 && IsStart(run.trace[k - 1], Post);
      assert t[k - 1] == run.trace[k - 2];
    }
  }

  /** The pre-hook gates the rest; every promise holds once a rule has been applied. */
  lemma {:induction false} HookedPromises(w: World, binary: Path, args: seq<string>, finalBinary: Path,
                                          finalArgs: seq<string>, rule: Rule)
    ensures var r := Hooked(w, binary, args, finalBinary, finalArgs, rule);
      |r.trace| >= 1 && (r.result.Err? ==> !IsSetupFailure(r.result.error)) &&
      Ordered(r.trace) && Decided(w, r) && PreHookGates(w, r) && PostHookInformed(w, r) &&
      HooksTold(r.trace, binary, args, w.cwd)
  {
    var rest := AfterPreHook(w, binary, args, finalBinary, finalArgs, rule);
    AfterPreHookPromises(w, binary, args, finalBinary, finalArgs, rule);
    if rule.preHook.Some? {
      var hook := rule.preHook.value;
      var ctx := PreContext(w, binary, args);
      var start := StartHook(hook, ctx);
      if ExecutePreHook(w.runHook, hook, ctx).Ok? {
        PrependPreHook(w, start, rest, binary, args);
      }
    }
  }

  /** What the order rules out: the command starts at most once, never beside the
      intercept hook, and the pre-hook can only come first. */
  lemma {:induction false} OrderedExcludes(t: seq<Action>)
    requires Ordered(t)
    ensures forall i, j :: 0 <= i < |t| && 0 <= j < |t| && t[i].StartCommand? && t[j].StartCommand? ==> i == j
    ensures forall i, j :: 0 <= i < |t| && 0 <= j < |t| && IsStart(t[i], Intercept) ==> !t[j].StartCommand?
    ensures forall i :: 0 <= i < |t| && IsStart(t[i], Pre) ==> i == 0
  {
  }

  /** Every promise of an interception, whatever the world and the command line: the order
      of what it does, where its result comes from, the pre-hook's veto, and what each hook
      is told. Nothing is started exactly when it fails before its first hook or command. */
  lemma {:induction false} InvocationPromises(w: World, args: seq<string>)
    requires |args| >= 1
    ensures var r := Invocation(w, args);
      (r.trace == [] <==> r.result.Err? && IsSetupFailure(r.result.error)) &&
      Ordered(r.trace) && Decided(w, r) && PreHookGates(w, r) && PostHookInformed(w, r) &&
      (r.trace != [] ==> Resolve(w, args[0]).Some? &&
                         HooksTold(r.trace, Resolve(w, args[0]).value, args[1..], w.cwd))
  {
    match Resolve(w, args[0])
    case None =>
    case Some(binary) =>
      match LoadMergedConfig(w.cwd, w.files, w.env, w.home)
      case Err(_) =>
      case Ok(config) =>
        match CompileRules(w.regex, config.rules)
        case Err(_) =>
        case Ok(rules) => DispatchPromises(w, binary, args[1..], rules);
  }

  /** The promises once the rules are compiled: the setup failures left are the rewrite's. */
  lemma {:induction false} DispatchPromises(w: World, binary: Path, args: seq<string>, rules: seq<CompiledRule>)
    ensures var r := Dispatch(w, binary, args, rules);
      (r.trace == [] <==> r.result.Err? && IsSetupFailure(r.result.error)) &&
      Ordered(r.trace) && Decided(w, r) && PreHookGates(w, r) && PostHookInformed(w, r) &&
      HooksTold(r.trace, binary, args, w.cwd)
  {
    match FindMatchingRule(w.regex, rules, MatchContext(binary, w.cwd, args))
    case None =>
      ExecutionDecided(w, binary, args, binary, args, None);
      ExecutionInformsPostHook(w, binary, args, binary, args, None);
      ExecutionHooksTold(w, binary, args, binary, args, None);
    case Some(i) =>
      var rule := rules[i].rule;
      match RuleApplied(w, binary, args, rule)
      case Err(_) =>
      case Ok(applied) => HookedPromises(w, binary, args, applied.0, applied.1, rule);
  }

  /** When no rule matches, the command runs exactly as it was given, and nothing else. */
  lemma {:induction false} NoRuleRunsCommandAsGiven(w: World, args: seq<string>, binary: Path,
                                                    config: MergedConfig, rules: seq<CompiledRule>)
    requires |args| >= 1
    requires Resolve(w, args[0]) == Some(binary)
    requires LoadMergedConfig(w.cwd, w.files, w.env, w.home) == Ok(config)
    requires CompileRules(w.regex, config.rules) == Ok(rules)
    requires FindMatchingRule(w.regex, rules, MatchContext(binary, w.cwd, args[1..])).None?
    ensures Invocation(w, args) == Run(CommandOutcome(w, binary, args[1..]), [StartCommand(binary, args[1..])])
  {
    ExecutionDecided(w, binary, args[1..], binary, args[1..], None);
  }

  /** The hook a rule names for each point of the interception. */
  function RuleHook(rule: Rule, kind: HookType): Option<string>
  {
    match kind
    case Pre => rule.preHook
    case Intercept => rule.interceptHook
    case Post => rule.postHook
  }

  lemma {:induction false} ExecutionTraceShape(w: World, binary: Path, args: seq<string>, finalBinary: Path,
                             finalArgs: seq<string>, postHook: Option<string>)
    ensures var t := Execution(w, binary, args, finalBinary, finalArgs, postHook).trace;
      1 <= |t| <= 3 && t[0] == StartCommand(finalBinary, finalArgs) &&
      (|t| >= 2 ==> IsStart(t[1], Post) && postHook == Some(t[1].hook)) &&
      (|t| == 3 ==> t[2].WarnPostHook?)
  {
    var status := ExecuteCommand(w.spawn, finalBinary, finalArgs, w.cwd);
    if status.Ok? && postHook.Some? {
      var code := status.value.GetOr(1);
      PostHookRunShape(w, postHook.value, PostContext(w, binary, args, finalBinary, finalArgs, code));
    }
  }

  /** The pre-hook, when the rule has one, comes first, and the rest follows only when it
      succeeds. */
  lemma {:induction false} HookedTraceShape(w: World, binary: Path, args: seq<string>, finalBinary: Path,
                                            finalArgs: seq<string>, rule: Rule)
    ensures var t := Hooked(w, binary, args, finalBinary, finalArgs, rule).trace;
      var after := AfterPreHook(w, binary, args, finalBinary, finalArgs, rule).trace;
      (rule.preHook.None? ==> t == after) &&
      (rule.preHook.Some? ==> |t| >= 1 && t[0] == StartHook(rule.preHook.value, PreContext(w, binary, args)) &&
                              (t[1..] == [] || t[1..] == after))
  {
  }

  /** After the pre-hook, either the intercept hook alone or the command and its post-hook. */
  lemma {:induction false} AfterPreHookShape(w: World, binary: Path, args: seq<string>, finalBinary: Path,
                                             finalArgs: seq<string>, rule: Rule)
    ensures var t := AfterPreHook(w, binary, args, finalBinary, finalArgs, rule).trace;
      (rule.interceptHook.Some? ==>
        t == [StartHook(rule.interceptHook.value, InterceptContext(w, binary, args, finalBinary, finalArgs))]) &&
      (rule.interceptHook.None? ==>
        1 <= |t| <= 3 && t[0] == StartCommand(finalBinary, finalArgs) &&
        (|t| >= 2 ==> IsStart(t[1], Post) && rule.postHook == Some(t[1].hook)) &&
        (|t| == 3 ==> t[2].WarnPostHook?))
  {
    if rule.interceptHook.None? {
      ExecutionTraceShape(w, binary, args, finalBinary, finalArgs, rule.postHook);
    }
  }

  /** Once a rule is applied, the hooks started are the rule's own, and the intercept
      hook is told the rewritten command. */
  lemma {:induction false} HookedRunsRuleHooks(w: World, binary: Path, args: seq<string>, finalBinary: Path,
                                               finalArgs: seq<string>, rule: Rule)
    ensures var t := Hooked(w, binary, args, finalBinary, finalArgs, rule).trace;
      (forall k :: 0 <= k < |t| && t[k].StartHook? ==> RuleHook(rule, t[k].context.hookType) == Some(t[k].hook)) &&
      (forall k :: 0 <= k < |t| && IsStart(t[k], Intercept) ==>
        t[k].context.executedBinary == Some(finalBinary) && t[k].context.executedArgs == Some(finalArgs))
  {
    var t := Hooked(w, binary, args, finalBinary, finalArgs, rule).trace;
    var after := AfterPreHook(w, binary, args, finalBinary, finalArgs, rule).trace;
    HookedTraceShape(w, binary, args, finalBinary, finalArgs, rule);
    AfterPreHookShape(w, binary, args, finalBinary, finalArgs, rule);
    if rule.preHook.Some? {
      assert forall k :: 1 <= k < |t| ==> t[k] == after[k - 1];
    }
  }

  /** Once a rule is applied, the command that starts is the rewritten one, and only when
      the rule has no intercept hook. */
  lemma {:induction false} HookedRunsRewrittenCommand(w: World, binary: Path, args: seq<string>, finalBinary: Path,
                                                      finalArgs: seq<string>, rule: Rule)
    ensures var t := Hooked(w, binary, args, finalBinary, finalArgs, rule).trace;
      forall k :: 0 <= k < |t| && t[k].StartCommand? ==>
        t[k] == StartCommand(finalBinary, finalArgs) && rule.interceptHook.None?
  {
    var t := Hooked(w, binary, args, finalBinary, finalArgs, rule).trace;
    var after := AfterPreHook(w, binary, args, finalBinary, finalArgs, rule).trace;
    HookedTraceShape(w, binary, args, finalBinary, finalArgs, rule);
    AfterPreHookShape(w, binary, args, finalBinary, finalArgs, rule);
    if rule.preHook.Some? {
      assert forall k :: 1 <= k < |t| ==> t[k] == after[k - 1];
    }
  }

  /** With a matching rule, a rewrite that fails stops the interception before anything
      starts; otherwise the hooks are the rule's and the command that starts is the
      rewritten one. */
  lemma {:induction false} MatchedRuleDecides(w: World, args: seq<string>, binary: Path,
                                              config: MergedConfig, rules: seq<CompiledRule>, i: nat)
    requires |args| >= 1
    requires Resolve(w, args[0]) == Some(binary)
    requires LoadMergedConfig(w.cwd, w.files, w.env, w.home) == Ok(config)
    requires CompileRules(w.regex, config.rules) == Ok(rules)
    requires FindMatchingRule(w.regex, rules, MatchContext(binary, w.cwd, args[1..])) == Some(i)
    ensures var t := Invocation(w, args).trace;
      var rule := rules[i].rule;
      var applied := RuleApplied(w, binary, args[1..], rule);
      (applied.Err? ==> Invocation(w, args) == Run(Err(applied.error), [])) &&
      (forall k :: 0 <= k < |t| && t[k].StartHook? ==> RuleHook(rule, t[k].context.hookType) == Some(t[k].hook)) &&
      (forall k :: 0 <= k < |t| && t[k].StartCommand? ==>
        applied == Ok((t[k].binary, t[k].args)) && rule.interceptHook.None?)
  {
    var rule := rules[i].rule;
    var applied := RuleApplied(w, binary, args[1..], rule);
    if applied.Ok? {
      HookedRunsRuleHooks(w, binary, args[1..], applied.value.0, applied.value.1, rule);
      HookedRunsRewrittenCommand(w, binary, args[1..], applied.value.0, applied.value.1, rule);
    }
  }

  // ---------------------------------------------------------------------------
  // The interception

  /** `handle_command`. */
  method HandleCommand(w: World, args: seq<string>) returns (result: Result<u8, Failure>, trace: seq<Action>)
    requires |args| >= 1
    ensures Run(result, trace) == Invocation(w, args)
  {
    var name, rest := args[0], args[1..];
    var resolved := ResolveCommand(name, w.present, w.env, w.cwd);
    if resolved.None? {
      return Err(UnknownCommand(name)), [];
    }
    var binary := resolved.value;
    var config := LoadMerged(w.cwd, w.files, w.env, w.home);
    if config.Err? {
      return Err(ConfigFailed(config.error)), [];
    }
    var compiled := CompileRules(w.regex, config.value.rules);
    if compiled.Err? {
      return Err(CompileFailed(compiled.error)), [];
    }
    var rules := compiled.value;
    var matched := FindMatchingRule(w.regex, rules, MatchContext(binary, w.cwd, rest));
    var finalBinary, finalArgs := binary, rest;
    if matched.Some? {
      var applied := ApplyRule(w, binary, rest, rules[matched.value].rule);
      if applied.Err? {
        return Err(applied.error), [];
      }
      finalBinary, finalArgs := applied.value.0, applied.value.1;
    }
    if matched.None? {
      result, trace := RunExecution(w, binary, rest, finalBinary, finalArgs, None);
    } else {
      result, trace := RunHooked(w, binary, rest, finalBinary, finalArgs, rules[matched.value].rule);
    }
  }

  /** The hooks of the matched rule around the command; an intercept hook runs in its place. */
  method RunHooked(w: World, binary: Path, args: seq<string>, finalBinary: Path, finalArgs: seq<string>, rule: Rule)
    returns (result: Result<u8, Failure>, trace: seq<Action>)
    ensures Run(result, trace) == Hooked(w, binary, args, finalBinary, finalArgs, rule)
  {
    trace := [];
    if rule.preHook.Some? {
      var hook := rule.preHook.value;
      var ctx := PreContext(w, binary, args);
      trace := [StartHook(hook, ctx)];
      var outcome := ExecutePreHook(w.runHook, hook, ctx);
      if outcome.Err? {
        return Err(PreHookFailed(hook, outcome.error)), trace;
      }
    }
    var rest: seq<Action>;
    if rule.interceptHook.Some? {
      var hook := rule.interceptHook.value;
      var ctx := InterceptContext(w, binary, args, finalBinary, finalArgs);
      rest := [StartHook(hook, ctx)];
      var code := ExecuteInterceptHook(w.runHook, hook, ctx);
      if code.Err? {
        result := Err(InterceptFailed(hook, code.error));
      } else {
        result := Ok(AsU8(code.value));
      }
    } else {
      result, rest := RunExecution(w, binary, args, finalBinary, finalArgs, rule.postHook);
    }
    trace := trace + rest;
  }

  /** The final command, then the post-hook, whose failure is only reported. */
  method RunExecution(w: World, binary: Path, args: seq<string>, finalBinary: Path, finalArgs: seq<string>,
                      postHook: Option<string>)
    returns (result: Result<u8, Failure>, trace: seq<Action>)
    ensures Run(result, trace) == Execution(w, binary, args, finalBinary, finalArgs, postHook)
  {
    var status := ExecuteCommand(w.spawn, finalBinary, finalArgs, w.cwd);
    trace := [StartCommand(finalBinary, finalArgs)];
    if status.Err? {
      return Err(ExecuteFailed(finalBinary, status.error)), trace;
    }
    var code := status.value.GetOr(1);
    if postHook.Some? {
      var hook := postHook.value;
      var ctx := PostContext(w, binary, args, finalBinary, finalArgs, code);
      trace := trace + [StartHook(hook, ctx)];
      var outcome := ExecutePostHook(w.runHook, hook, ctx);
      if outcome.Err? {
        trace := trace + [WarnPostHook(outcome.error)];
      }
    }
    return Ok(AsU8(code)), trace;
  }
}
