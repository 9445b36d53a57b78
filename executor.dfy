/** Hook scripts: the environment they are given and how their exit status is read.
    Spawning `sh -c` is an oracle, `HookRunner`. */
module Hooks {
  import opened Base
  import opened Errors
  import opened Strings
  import opened ConfigTypes

  datatype HookType = Pre | Post | Intercept

  /** `HookType::as_str`, the value of `TRAMP_HOOK_TYPE`. */
  function HookTypeName(t: HookType): string
  {
    match t
    case Pre => "pre"
    case Post => "post"
    case Intercept => "intercept"
  }

  /** Each hook type has its own name. */
  lemma {:induction false} HookTypeNamesDistinct(t: HookType, u: HookType)
    ensures HookTypeName(t) == HookTypeName(u) <==> t == u
    ensures HookTypeName(Pre) == "pre" && HookTypeName(Post) == "post" && HookTypeName(Intercept) == "intercept"
  {
  }

  /** What a hook is told about the invocation. The `executed…` fields and the exit code
      are for hooks that run once the final command is known. */
  datatype HookContext = HookContext(
    originalBinary: Path,
    originalArgs: seq<string>,
    cwd: Path,
    hookType: HookType,
    executedBinary: Option<Path>,
    executedArgs: Option<seq<string>>,
    exitCode: Option<i32>)

  /** The variables `build_hook_env` sets; `Name` gives the text of each. */
  datatype EnvVar =
    | OriginalBinary | OriginalArgs | OriginalArgc | OriginalArg(index: nat)
    | Cwd | HookTypeVar | ExecutedBinary | ExecutedArgs | ExitCode

  function Name(v: EnvVar): string
  {
    match v
    case OriginalBinary => "TRAMP_ORIGINAL_BINARY"
    case OriginalArgs => "TRAMP_ORIGINAL_ARGS"
    case OriginalArgc => "TRAMP_ORIGINAL_ARGC"
    case OriginalArg(i) => "TRAMP_ORIGINAL_ARG_" + NatToString(i)
    case Cwd => "TRAMP_CWD"
    case HookTypeVar => "TRAMP_HOOK_TYPE"
    case ExecutedBinary => "TRAMP_EXECUTED_BINARY"
    case ExecutedArgs => "TRAMP_EXECUTED_ARGS"
    case ExitCode => "TRAMP_EXIT_CODE"
  }

  /** Length, seventh character and last character tell the names apart. */
  function Signature(name: string): (int, char, char)
    requires |name| >= 7
  {
    (|name|, name[6], name[|name| - 1])
  }

  /** Different variables have different names. */
  lemma {:induction false} NamesDiffer(v: EnvVar, w: EnvVar)
    requires v != w
    ensures Name(v) != Name(w)
  {
    if v.OriginalArg? && w.OriginalArg? {
      ArgNamesDiffer(v.index, w.index);
    } else if v.OriginalArg? {
      ArgNameNotFixed(v.index, w);
    } else if w.OriginalArg? {
      ArgNameNotFixed(w.index, v);
    } else {
      assert Signature(Name(v)) != Signature(Name(w));
    }
  }

  lemma {:induction false} ArgNamesDiffer(i: nat, j: nat)
    requires i != j
    ensures Name(OriginalArg(i)) != Name(OriginalArg(j))
  {
    var prefix := "TRAMP_ORIGINAL_ARG_";
    assert Name(OriginalArg(i))[|prefix|..] == NatToString(i);
    assert Name(OriginalArg(j))[|prefix|..] == NatToString(j);
    if Name(OriginalArg(i)) == Name(OriginalArg(j)) {
      NatToStringInjective(i, j);
    }
  }

  lemma {:induction false} ArgNameNotFixed(i: nat, w: EnvVar)
    requires !w.OriginalArg?
    ensures Name(OriginalArg(i)) != Name(w)
  {
    var n, digits := Name(OriginalArg(i)), NatToString(i);
    assert n == "TRAMP_ORIGINAL_ARG_" + digits;
    assert n[|n| - 1] == digits[|digits| - 1];
    assert Signature(n).0 >= 20 && Signature(n).1 == 'O' && '0' <= Signature(n).2 <= '9';
    assert Signature(n) != Signature(Name(w));
  }

  /** The argument variables for `args[..n]`. */
  function ArgEntries(args: seq<string>, n: nat): map<EnvVar, string>
    requires n <= |args|
  {
    map i | 0 <= i < n :: OriginalArg(i) := args[i]
  }

  /** The three fixed variables about the original invocation and one per argument. */
  function OriginalEntries(ctx: HookContext): map<EnvVar, string>
  {
    map[OriginalBinary := PathString(ctx.originalBinary),
        OriginalArgs := Join(ctx.originalArgs, " "),
        OriginalArgc := NatToString(|ctx.originalArgs|)]
    + ArgEntries(ctx.originalArgs, |ctx.originalArgs|)
  }

  /** `build_hook_env`, as a specification: the map after all the insertions. */
  function HookEnv(ctx: HookContext): map<EnvVar, string>
  {
    var always := OriginalEntries(ctx)[Cwd := PathString(ctx.cwd)][HookTypeVar := HookTypeName(ctx.hookType)];
    var withBinary := match ctx.executedBinary
      case Some(b) => always[ExecutedBinary := PathString(b)]
      case None => always;
    var withArgs := match ctx.executedArgs
      case Some(a) => withBinary[ExecutedArgs := Join(a, " ")]
      case None => withBinary;
    match ctx.exitCode
    case Some(c) => withArgs[ExitCode := IntToString(c)]
    case None => withArgs
  }

  /** The variables tramp sets for a hook, each under its name. The hook also inherits the
      rest of tramp's own environment, which this map does not describe. */
  function EnvStrings(env: map<EnvVar, string>): (r: map<string, string>)
    ensures forall v <- env :: Name(v) in r && r[Name(v)] == env[v]
    ensures forall k <- r :: exists v <- env :: k == Name(v)
  {
    assert forall v, w :: v in env && w in env && Name(v) == Name(w) ==> v == w by {
      forall v, w | v in env && w in env && Name(v) == Name(w)
        ensures v == w
      {
        if v != w {
          NamesDiffer(v, w);
        }
      }
    }
    map v | v in env :: Name(v) := env[v]
  }

  lemma {:induction false} ArgEntriesStep(fixed: map<EnvVar, string>, args: seq<string>, i: nat)
    requires i < |args|
    ensures (fixed + ArgEntries(args, i))[OriginalArg(i) := args[i]] == fixed + ArgEntries(args, i + 1)
  {
  }

  /** `build_hook_env`: the fixed entries, one insertion per argument, then the rest. */
  method BuildHookEnv(ctx: HookContext) returns (env: map<EnvVar, string>)
    ensures env == HookEnv(ctx)
  {
    var args := ctx.originalArgs;
    env := map[];
    env := env[OriginalBinary := PathString(ctx.originalBinary)];
    env := env[OriginalArgs := Join(args, " ")];
    env := env[OriginalArgc := NatToString(|args|)];
    ghost var fixed := env;
    assert fixed == map[OriginalBinary := PathString(ctx.originalBinary), OriginalArgs := Join(args, " "),
                        OriginalArgc := NatToString(|args|)];
    for i := 0 to |args|
      invariant env == fixed + ArgEntries(args, i)
    {
      ArgEntriesStep(fixed, args, i);
      env := env[OriginalArg(i) := args[i]];
    }
    assert env == OriginalEntries(ctx);
    env := env[Cwd := PathString(ctx.cwd)];
    env := env[HookTypeVar := HookTypeName(ctx.hookType)];
    if ctx.executedBinary.Some? {
      env := env[ExecutedBinary := PathString(ctx.executedBinary.value)];
    }
    if ctx.executedArgs.Some? {
      env := env[ExecutedArgs := Join(ctx.executedArgs.value, " ")];
    }
    if ctx.exitCode.Some? {
      env := env[ExitCode := IntToString(ctx.exitCode.value)];
    }
  }

  /** The five variables every hook gets, with their values. */
  lemma {:induction false} HookEnvAlways(ctx: HookContext)
    ensures var env := HookEnv(ctx);
      OriginalBinary in env && env[OriginalBinary] == PathString(ctx.originalBinary) &&
      OriginalArgs in env && env[OriginalArgs] == Join(ctx.originalArgs, " ") &&
      OriginalArgc in env && env[OriginalArgc] == NatToString(|ctx.originalArgs|) &&
      Cwd in env && env[Cwd] == PathString(ctx.cwd) &&
      HookTypeVar in env && env[HookTypeVar] == HookTypeName(ctx.hookType)
  {
  }

  /** `TRAMP_ORIGINAL_ARG_i` is set, to argument `i`, exactly for the positions of the arguments. */
  lemma {:induction false} HookEnvArg(ctx: HookContext, i: nat)
    ensures var env := HookEnv(ctx);
      (OriginalArg(i) in env <==> i < |ctx.originalArgs|) &&
      (i < |ctx.originalArgs| ==> env[OriginalArg(i)] == ctx.originalArgs[i])
  {
  }

  /** The variables about the executed command and its status are there exactly when the
      context has them. */
  lemma {:induction false} HookEnvOptional(ctx: HookContext)
    ensures var env := HookEnv(ctx);
      (ExecutedBinary in env <==> ctx.executedBinary.Some?) &&
      (ctx.executedBinary.Some? ==> env[ExecutedBinary] == PathString(ctx.executedBinary.value)) &&
      (ExecutedArgs in env <==> ctx.executedArgs.Some?) &&
      (ctx.executedArgs.Some? ==> env[ExecutedArgs] == Join(ctx.executedArgs.value, " ")) &&
      (ExitCode in env <==> ctx.exitCode.Some?) &&
      (ctx.exitCode.Some? ==> env[ExitCode] == IntToString(ctx.exitCode.value))
  {
  }

  /** Exactly these variables are set: the five fixed ones, one per argument, and each
      optional one whose value the context has. */
  lemma {:induction false} HookEnvDomain(ctx: HookContext, v: EnvVar)
    ensures v in HookEnv(ctx) <==>
      match v
      case OriginalArg(i) => i < |ctx.originalArgs|
      case ExecutedBinary => ctx.executedBinary.Some?
      case ExecutedArgs => ctx.executedArgs.Some?
      case ExitCode => ctx.exitCode.Some?
      case _ => true
  {
  }

  /** A variable tramp does not set has no entry under its name among the variables it sets. */
  lemma {:induction false} NameAbsent(env: map<EnvVar, string>, v: EnvVar)
    requires v !in env
    ensures Name(v) !in EnvStrings(env)
  {
    if Name(v) in EnvStrings(env) {
      var u :| u in env && Name(v) == Name(u);
      NamesDiffer(u, v);
    }
  }

  /** Without arguments, `TRAMP_ORIGINAL_ARGS` is empty and `TRAMP_ORIGINAL_ARGC` is "0". */
  lemma {:induction false} HookEnvNoArgs(ctx: HookContext)
    requires ctx.originalArgs == []
    ensures HookEnv(ctx)[OriginalArgs] == "" && HookEnv(ctx)[OriginalArgc] == "0"
    ensures forall i: nat :: OriginalArg(i) !in HookEnv(ctx)
  {
  }

  // ---------------------------------------------------------------------------
  // Running hooks

  /** What spawning `sh -c <hook>` gives: no process at all, or a status whose code is
      absent when a signal ended the process. */
  datatype HookRun = SpawnFailed | Finished(code: Option<i32>)

  /** The shell, given the hook text, the variables tramp sets and the working directory. */
  type HookRunner = (string, map<string, string>, Path) -> HookRun

  /** `execute_hook`: a failed spawn is `HookFailed`; a status without a code reads as -1. */
  function ExecuteHook(runner: HookRunner, hookPath: string, ctx: HookContext): (r: Result<i32, TrampError>)
    ensures runner(hookPath, EnvStrings(HookEnv(ctx)), ctx.cwd).SpawnFailed? <==> r == Err(HookFailed(hookPath))
    ensures r.Err? ==> r == Err(HookFailed(hookPath))
    ensures runner(hookPath, EnvStrings(HookEnv(ctx)), ctx.cwd) == Finished(None) ==> r == Ok(-1)
    ensures r == Ok(0) <==> runner(hookPath, EnvStrings(HookEnv(ctx)), ctx.cwd) == Finished(Some(0))
  {
    match runner(hookPath, EnvStrings(HookEnv(ctx)), ctx.cwd)
    case SpawnFailed => Err(HookFailed(hookPath))
    case Finished(code) => Ok(code.GetOr(-1))
  }

  /** `execute_pre_hook`: only a zero exit code lets the invocation go on; another code is
      `HookNonZeroExit` with that code and the hook's path. */
  function ExecutePreHook(runner: HookRunner, hookPath: string, ctx: HookContext): (r: Result<(), TrampError>)
    ensures r.Ok? <==> ExecuteHook(runner, hookPath, ctx) == Ok(0)
    ensures ExecuteHook(runner, hookPath, ctx).Err? ==> r == Err(HookFailed(hookPath))
    ensures ExecuteHook(runner, hookPath, ctx).Ok? && ExecuteHook(runner, hookPath, ctx).value != 0 ==>
      r == Err(HookNonZeroExit(hookPath, ExecuteHook(runner, hookPath, ctx).value))
  {
    match ExecuteHook(runner, hookPath, ctx)
    case Err(e) => Err(e)
    case Ok(code) => if code != 0 then Err(HookNonZeroExit(hookPath, code)) else Ok(())
  }

  /** `execute_post_hook`: the hook's code, whatever it is; only a failed spawn is an error. */
  function ExecutePostHook(runner: HookRunner, hookPath: string, ctx: HookContext): (r: Result<i32, TrampError>)
    ensures r.Err? <==> runner(hookPath, EnvStrings(HookEnv(ctx)), ctx.cwd).SpawnFailed?
    ensures r.Err? ==> r.error == HookFailed(hookPath)
    ensures r.Ok? ==> r.value == runner(hookPath, EnvStrings(HookEnv(ctx)), ctx.cwd).code.GetOr(-1)
  {
    ExecuteHook(runner, hookPath, ctx)
  }

  /** `execute_intercept_hook`: the hook's code, whatever it is, stands in for the command's;
      only a failed spawn is an error. */
  function ExecuteInterceptHook(runner: HookRunner, hookPath: string, ctx: HookContext): (r: Result<i32, TrampError>)
    ensures r.Err? <==> runner(hookPath, EnvStrings(HookEnv(ctx)), ctx.cwd).SpawnFailed?
    ensures r.Err? ==> r.error == HookFailed(hookPath)
    ensures r.Ok? ==> r.value == runner(hookPath, EnvStrings(HookEnv(ctx)), ctx.cwd).code.GetOr(-1)
  {
    ExecuteHook(runner, hookPath, ctx)
  }

  /** A finished hook's code reaches the caller unchanged; a signal reads as -1. */
  lemma {:induction false} HookCodePassesThrough(runner: HookRunner, hookPath: string, ctx: HookContext, code: Option<i32>)
    requires runner(hookPath, EnvStrings(HookEnv(ctx)), ctx.cwd) == Finished(code)
    ensures ExecutePostHook(runner, hookPath, ctx) == Ok(code.GetOr(-1))
    ensures ExecuteInterceptHook(runner, hookPath, ctx) == Ok(code.GetOr(-1))
    ensures code == Some(0) <==> ExecutePreHook(runner, hookPath, ctx).Ok?
  {
  }
}
