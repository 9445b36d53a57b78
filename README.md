# tramp: a verified model of the interception pipeline

`tramp` runs in place of a command. It looks for `.tramp.toml` files from the working
directory up to the root, and then in the home directory. It merges their rules in
cascade order (most specific first) and compiles each rule's regexes. The first rule whose
binary and working-directory patterns match then decides what happens:

- an alternate command replaces the binary, or
- a sed-like `s/pattern/replacement/flags` substitution rewrites the arguments, or
- a substitution rewrites the whole command line,

and the pre-, intercept and post hooks run around the final command.

This project models that pipeline in Dafny and proves what each stage promises.

The modules follow the program's structure:

| module | file | models |
|---|---|---|
| `Base`, `Strings` | `base.dfy`, `strings.dfy` | option/result types, 32-bit and 8-bit integers, `join`, `split_whitespace`, decimal rendering, ASCII lower-casing, splitting on a separator |
| `Errors` | `errors.dfy` | the error variants of `error.rs` |
| `RegexLib` | `regex.dfy` | the regex crate as an oracle (`RegexEngine`), plus a literal-substring instance used by the examples |
| `ConfigTypes` | `types.dfy` | configs, rules, tagged rules, absolute paths as component lists, rule and config validation |
| `Cascade` | `cascade.dfy` | config discovery (`discover_configs`, `load_user_config`, `is_env_truthy`, `user_config_path`), parsing, merging |
| `Matcher` | `matcher.dfy` | compiling rules and finding the first matching one |
| `Rewriter` | `rewriter.dfy` | `Substitution::parse`/`apply`, `split_by_delimiter`, `rewrite_args`, `rewrite_command` |
| `Hooks` | `executor.dfy` | the variables tramp sets for a hook and the three ways of running a hook |
| `Exec` | `exec.dfy` | running the final command and resolving a command on `PATH` |
| `Lifecycle` | `lifecycle.dfy` | `handle_command` and `apply_rule` |

Everything the program asks of the outside world comes in as a value:

- the files under each directory (`FileSystem`: unreadable, malformed, or a parsed `Config`);
- the environment, the home directory and the working directory;
- which paths exist (`Probe`);
- how a program runs (`Spawner`);
- how `sh -c <hook>` runs (`HookRunner`);
- the regex engine.

Where the code works step by step, the model does too:

- `DiscoverConfigs`, `LoadUserConfig` and `MergeConfigs` are methods with loops.
- So are `SplitByDelimiter`, `BuildHookEnv`, `ResolveCommand`, `ApplyRule` and `HandleCommand`.
- Each is proved equal to a specification function, and the properties are lemmas about those functions.

`HandleCommand` also returns the *trace* of what the interception did, in order:

- which hooks it started, and with which context;
- which command it started;
- whether it warned about a failed post-hook.

Its ordering and gating promises are stated on that trace.

The program's own comment at `src/config/cascade.rs:29` says that a config with
`no_external_lookup` is the only config used and that everything else is skipped. The code
(`src/config/cascade.rs:28-35`) returns the configs collected so far plus that one, so it keeps the
rules of deeper directories that were already found before it. The model follows the code:
`Cascade.WalkStopsAtLast` and `Cascade.AuthoritativeMergeKeepsDeeperRules` state it.

## Model

| member | source | states |
|---|---|---|
| `ConfigTypes.ValidateRule` | src/config/types.rs:90-111 | a rule is valid exactly when at most one of `arg_rewrite`, `command_rewrite`, `alternate_command` is set; otherwise the error names the first two set, in that field order |
| `ConfigTypes.ValidateIgnoresPatternsAndHooks` | src/config/types.rs:90-111 | validation looks only at the three rewrite fields: patterns and hooks never make a rule invalid |
| `ConfigTypes.AllHooksValid` | src/config/types.rs:90-111 | a rule that sets all three hooks and no rewrite is valid |
| `ConfigTypes.ValidateRules` | src/config/types.rs:116-121 | a config is valid exactly when every rule is; on error it returns the error of the first invalid rule, all earlier rules being valid |
| `ConfigTypes.EmptyConfigValid` | src/config/types.rs:116-121 | the default (empty) config is valid |
| `ConfigTypes.PathString` | src/hooks/executor.rs:55-58 | a path written as text starts at `/`; the root is `/` |
| `Cascade.ParseConfigFile` | src/config/parser.rs:6-27 | read failure is `ConfigReadError(path)`, bad TOML is `ConfigParseError(path)`, an invalid config is its validation error; success returns the config and happens exactly when it parsed and validated |
| `Strings.LowerEqualsLowercaseWord` | src/config/cascade.rs:94-102 | lower-casing equals a lower-case word exactly when each letter matches in either case |
| `Cascade.IsEnvTruthyCharacterised` | src/config/cascade.rs:94-102 | a variable is not truthy exactly when it is unset, empty, or spells `0`, `false` or `no` in any case |
| `Cascade.IsEnvTruthyExamples` | src/config/cascade.rs:146-190 | unset, empty, `0`, `false`, `FALSE`, `no` are not truthy; `1`, `true`, `yes` are |
| `Cascade.UserConfigPath` | src/config/cascade.rs:136-139 | without a home directory the result is `HomeDirectoryNotFound`; otherwise it is `.tramp.toml` directly inside the home directory |
| `Cascade.UserConfigAtUserConfigPath` | src/config/cascade.rs:79-90 | when not disabled, the user config is looked for at `user_config_path`: no home is an error, a missing file is no config, a found config carries that path |
| `Cascade.DiscoverConfigs` | src/config/cascade.rs:15-66 | the loop up the directory tree, followed by the user-config step, computes `Discovered` |
| `Cascade.LoadUserConfig` | src/config/cascade.rs:69-91 | the scan of loaded configs for a truthy disabling variable, and then the home lookup, computes `UserConfig` |
| `Cascade.WalkFromCascade` | src/config/cascade.rs:21-58 | every config the walk finds is `.tramp.toml` in the start directory or one of its ancestors, exists, and parsed to that config; each comes from a strictly shallower directory than the one before (most specific first) |
| `Cascade.WalkStopsAtLast` | src/config/cascade.rs:28-49 | only the last config found may set `root` or `no_external_lookup`; the walk is authoritative exactly when the last config found sets `no_external_lookup` |
| `Cascade.WalkComplete` | src/config/cascade.rs:21-58 | a config in an ancestor directory is found unless a config in a deeper directory stops the walk |
| `Cascade.NoExternalLookupIsLast` | src/config/cascade.rs:28-35 | after an authoritative walk, discovery returns just the walk's configs, whatever the environment and home directory |
| `Cascade.UserLookupSuppressed` | src/config/cascade.rs:60-77 | a truthy disabling variable named by any loaded config skips the user config |
| `Cascade.HomeDirectoryRequired` | src/config/cascade.rs:79 | when the user config is not disabled, a missing home directory fails discovery with `HomeDirectoryNotFound` |
| `Cascade.UserConfigComesLast` | src/config/cascade.rs:60-65 | discovery returns the walk's configs, in order, followed by at most the home config; a missing home config adds nothing |
| `Cascade.MergeConfigs` | src/config/cascade.rs:108-127 | the nested loops compute `Merged` |
| `Cascade.TaggedRulesAppend` | src/config/cascade.rs:108-127 | merging a concatenation of config lists concatenates their tagged rules |
| `Cascade.TaggedRulesSingle` | src/config/cascade.rs:111-118 | one config contributes exactly its rules, tagged with its path |
| `Cascade.MergedRuleAt` | src/config/cascade.rs:108-127 | rule `j` of config `i` sits at position (rules of configs before `i`) + `j` of the merge, tagged with config `i`'s path |
| `Cascade.MergedLength` | src/config/cascade.rs:108-127 | the merge holds exactly as many rules as the configs together |
| `Cascade.MergedEmpty` | src/config/cascade.rs:108-127 | merging no configs gives no rules and no `no_external_lookup` |
| `Cascade.LoadMerged` | src/config/cascade.rs:130-133 | discovery followed by merging computes `LoadMergedConfig` |
| `Cascade.AuthoritativeMergeKeepsDeeperRules` | src/config/cascade.rs:28-35 | after an authoritative walk, the merged config holds the rules of every config the walk found (deeper ones included) and has `no_external_lookup` set |
| `Matcher.CompileRegex` | src/rules/matcher.rs:83-88 | compilation succeeds exactly when the engine accepts the pattern, keeps the pattern's text, and fails with `InvalidRegex(pattern)` |
| `Matcher.FromRuleWithSource` | src/rules/matcher.rs:37-58 | a rule compiles exactly when each present pattern does; the compiled rule keeps the rule and its source and has a regex exactly where the rule has a pattern; the error names the binary pattern when that one fails, and the cwd pattern otherwise |
| `Matcher.CompileRules` | src/rules/matcher.rs:91-97 | compilation succeeds exactly when every rule compiles, and then yields one compiled rule per rule |
| `Matcher.CompileRulesInOrder` | src/rules/matcher.rs:91-97 | compiled rule `i` is rule `i` compiled |
| `Matcher.CompileRulesFirstError` | src/rules/matcher.rs:91-97 | a failure is the error of the first rule that does not compile |
| `Matcher.MatchesIsConjunction` | src/rules/matcher.rs:61-79 | a rule matches exactly when each of its present regexes matches its path |
| `Matcher.CompiledMatchesRulePatterns` | src/rules/matcher.rs:37-79 | a compiled rule matches exactly when the binary path's text matches the binary pattern (if any) and the cwd's text matches the cwd pattern (if any) |
| `Matcher.MatchesIgnoresArgs` | src/rules/matcher.rs:61-79 | the arguments play no part in matching |
| `Matcher.NoPatternsMatchAll` | src/rules/matcher.rs:37-79 | a rule with no patterns compiles and matches every invocation |
| `Matcher.FindMatchingRule` | src/rules/matcher.rs:100-105 | no rule is found exactly when none matches; a found index is a matching rule with no matching rule before it |
| `Matcher.FirstMatchWins` | src/rules/matcher.rs:100-105 | when two rules match, the one found is no later than the earlier of them |
| `Rewriter.SplitByDelimiter` | src/rules/rewriter.rs:82-111 | the character loop with its escape flag computes `Split` |
| `Rewriter.ScanEnd` | src/rules/rewriter.rs:88-110 | once the input is consumed, no escape is pending and the parts plus the current buffer are `Split` of the input |
| `Rewriter.SplitEscapeStep` | src/rules/rewriter.rs:89-95 | a backslash before the delimiter contributes the delimiter to the current part |
| `Rewriter.SplitDelimiterStep` | src/rules/rewriter.rs:99-101 | an unescaped delimiter closes the current part |
| `Rewriter.SplitBackslashStep` | src/rules/rewriter.rs:92-98 | a backslash not followed by the delimiter is kept |
| `Rewriter.SplitPlainStep` | src/rules/rewriter.rs:102-104 | any other character is kept |
| `Rewriter.SplitWithoutDelimiter` | src/rules/rewriter.rs:82-111 | text without the delimiter is a single part |
| `Rewriter.SplitCount` | src/rules/rewriter.rs:82-111 | the number of parts is the number of unescaped delimiters plus one |
| `Rewriter.SplitEscaped` | src/rules/rewriter.rs:82-111 | escaping every delimiter of a part makes `Split` read it back as one part |
| `Rewriter.SplitJoinEscaped` | src/rules/rewriter.rs:82-111 | parts joined with the delimiter after escaping split back into the same parts, unless a part ends in a backslash |
| `Rewriter.Parse` | src/rules/rewriter.rs:19-67 | input not starting with `s` and the input `s` alone are syntax errors; with fewer than two parts the result is the "needs pattern and replacement" error; otherwise it succeeds exactly when the engine accepts the first part, and a rejected pattern is `InvalidRegex(pattern)`; a success has the first part as pattern, the second as replacement, and is global exactly when a third part contains `g` |
| `Rewriter.ParseRender` | src/rules/rewriter.rs:19-67 | a substitution written with escaped delimiters parses back to its pattern and replacement, global exactly when the third part contains `g`; a pattern the engine rejects is `InvalidRegex(pattern)` |
| `Rewriter.SplitOnBackslash` | src/rules/rewriter.rs:88-105 | with a backslash delimiter the text is never split: every backslash is taken as an escape or kept, so there is exactly one part |
| `Rewriter.ParseBackslashDelimiter` | src/rules/rewriter.rs:37-49 | a substitution whose delimiter is a backslash is always the "needs pattern and replacement" error |
| `Rewriter.ParseOnePart` | src/rules/rewriter.rs:42-49 | text with a single part is the "needs pattern and replacement" syntax error on the whole input |
| `Rewriter.ParsePartsExamples` | src/rules/rewriter.rs:42-55 | `s/foo/` parses with an empty replacement; `s/foo` is the two-parts error |
| `Rewriter.ParseSimpleExample` | src/rules/rewriter.rs:159-164 | `s/foo/bar/` is pattern `foo`, replacement `bar`, not global |
| `Rewriter.ParseGlobalExample` | src/rules/rewriter.rs:166-171 | `s/foo/bar/g` is global |
| `Rewriter.ParseOtherDelimiterExample` | src/rules/rewriter.rs:173-177 | `s#foo#bar#` uses `#` as the delimiter |
| `Rewriter.ParseEscapedDelimiter` | src/rules/rewriter.rs:179-184 | an escaped delimiter inside the pattern is part of the pattern |
| `Rewriter.EscapedDelimiterExample` | src/rules/rewriter.rs:179-182 | `s/foo\/bar/baz/` is pattern `foo/bar`, replacement `baz` |
| `Rewriter.EscapedDelimiterApply` | src/rules/rewriter.rs:183 | that substitution turns `foo/bar` into `baz` |
| `Rewriter.Replaced` | src/rules/rewriter.rs:70-78 | a global substitution replaces every match; otherwise only the first, if there is one |
| `Rewriter.ApplyNoMatch` | src/rules/rewriter.rs:70-78 | text without a match is unchanged |
| `Rewriter.ApplyFirstOnly` | src/rules/rewriter.rs:76 | a non-global substitution replaces the first match by the expanded replacement and keeps the rest |
| `Rewriter.ApplyOneMatch` | src/rules/rewriter.rs:70-78 | with a single match, the global flag makes no difference |
| `Rewriter.ApplyLength` | src/rules/rewriter.rs:70-78 | with fixed-length matches and a plain replacement, the length changes by the replacement's excess once per replaced match |
| `Rewriter.LiteralApplyLength` | src/rules/rewriter.rs:70-78 | the same length law for a literal pattern |
| `Rewriter.LiteralApplyAtStart` | src/rules/rewriter.rs:76 | a literal at the start of the text is what a non-global substitution replaces |
| `Rewriter.ApplyBuildExample` | src/rules/rewriter.rs:186-190 | `s/build/build --release/` turns `build` into `build --release` |
| `Rewriter.GlobalExample` | src/rules/rewriter.rs:192-196 | global `foo` to `bar` on `foo foo foo` gives `bar bar bar` |
| `Rewriter.FirstOnlyExample` | src/rules/rewriter.rs:198-202 | non-global gives `bar foo foo` |
| `Rewriter.RewriteArgs` | src/rules/rewriter.rs:114-125 | the rewritten arguments are whitespace-free, non-empty words |
| `Strings.SplitJoinWords` | src/rules/rewriter.rs:116-124 | words joined by spaces split back into the same words |
| `Rewriter.RewriteArgsIdentity` | src/rules/rewriter.rs:114-125 | a substitution that leaves the joined line unchanged leaves word arguments unchanged |
| `Rewriter.RewriteArgsExample` | src/rules/rewriter.rs:216-222 | rewriting the single argument `build` to `build --release` gives the two arguments `build`, `--release` |
| `Rewriter.RewriteCommand` | src/rules/rewriter.rs:128-153 | the new binary and arguments are the words of the rewritten line, first word as binary; a line with no words keeps the binary and drops the arguments |
| `Rewriter.RewriteCommandIdentity` | src/rules/rewriter.rs:128-153 | a substitution that leaves the line unchanged leaves binary and word arguments unchanged |
| `Hooks.HookTypeNamesDistinct` | src/hooks/executor.rs:16-22 | the three hook types are named `pre`, `post`, `intercept`, and names are distinct |
| `Hooks.NamesDiffer` | src/hooks/executor.rs:51-99 | distinct environment variables have distinct names, so no entry overwrites another |
| `Strings.NatToStringInjective` | src/hooks/executor.rs:69-71 | different indices give different decimal texts, so `TRAMP_ORIGINAL_ARG_<i>` names are distinct |
| `Hooks.EnvStrings` | src/hooks/executor.rs:51-99 | the string map of the variables tramp sets has exactly the names of the entries, each with its entry's value |
| `Hooks.BuildHookEnv` | src/hooks/executor.rs:51-99 | the sequence of inserts computes `HookEnv` |
| `Hooks.HookEnvAlways` | src/hooks/executor.rs:54-80 | the original binary, its joined arguments, the argument count, the cwd and the hook type are always set to those values |
| `Hooks.HookEnvArg` | src/hooks/executor.rs:68-71 | `TRAMP_ORIGINAL_ARG_<i>` is set exactly for each argument index, to that argument |
| `Hooks.HookEnvOptional` | src/hooks/executor.rs:82-96 | executed binary, executed arguments and exit code are set exactly when given, to their texts |
| `Hooks.HookEnvDomain` | src/hooks/executor.rs:51-99 | no other variable is set |
| `Hooks.NameAbsent` | src/hooks/executor.rs:51-99 | a variable tramp does not set has no entry under its name among the variables it sets |
| `Hooks.HookEnvNoArgs` | src/hooks/executor.rs:221-237 | with no arguments, the joined arguments are empty, the count is `0`, and no per-index variable is set |
| `Hooks.ExecuteHook` | src/hooks/executor.rs:102-120 | a spawn failure is `HookFailed(hook)`; a status without a code reads as -1; the result is 0 exactly when the hook exited with 0 |
| `Hooks.ExecutePreHook` | src/hooks/executor.rs:123-134 | the pre-hook succeeds exactly when the hook returned 0; a non-zero code is `HookNonZeroExit` with that code |
| `Hooks.ExecutePostHook` | src/hooks/executor.rs:137-139 | any finished hook's code is returned, non-zero included; only a failed spawn is an error |
| `Hooks.ExecuteInterceptHook` | src/hooks/executor.rs:143-145 | the same for the intercept hook |
| `Hooks.HookCodePassesThrough` | src/hooks/executor.rs:102-145 | a finished hook's code reaches post- and intercept callers unchanged (a signal as -1), and the pre-hook passes exactly on code 0 |
| `Exec.ExecuteCommand` | src/exec/mod.rs:19-41 | the run succeeds exactly when the program ran, with its exit status; a missing program is `CommandNotFound(binary)`, any other spawn failure `CommandFailed(binary)` |
| `Exec.Components` | src/exec/mod.rs:48 | the components read from a path's text are non-empty and slash-free |
| `Exec.ComponentsOfPathString` | src/exec/mod.rs:48-53 | a path written as text is absolute and reads back as the same path |
| `Strings.JoinFields` | src/exec/mod.rs:60-61 | the entries joined with `:` give back the `PATH` value |
| `Exec.FirstExisting` | src/exec/mod.rs:61-66 | nothing is found exactly when no candidate exists; a found candidate exists and none before it does |
| `Exec.Resolved` | src/exec/mod.rs:47-70 | a found path exists; an absolute command is found exactly when it exists, as itself; a relative command is not found without `PATH` |
| `Exec.ResolvedFirstDirectory` | src/exec/mod.rs:59-67 | a relative command is found in the first search directory that has it |
| `Exec.ResolvedNowhere` | src/exec/mod.rs:59-69 | a relative command that no search directory has is not found |
| `Exec.ResolvedPathString` | src/exec/mod.rs:51-53 | an existing absolute path written as text resolves to itself |
| `Exec.ResolveCommand` | src/exec/mod.rs:47-70 | the loop over the search directories computes `Resolved` |
| `Base.AsU8` | src/main.rs:307 | the exit code is cut to eight bits: codes 0-255 are kept; otherwise the result differs from the code by a multiple of 256 |
| `Base.AsU8Examples` | src/main.rs:307 | -1 becomes 255, 256 becomes 0 |
| `Lifecycle.RuleApplied` | src/main.rs:310-343 | the binary changes only through an alternate command or a command rewrite, and then to an existing path; the arguments change only through an argument or command rewrite when there is no alternate; a rule with no rewrite field leaves the invocation as it is |
| `Lifecycle.ApplyRule` | src/main.rs:310-343 | the chain of checks computes `RuleApplied` |
| `Lifecycle.AlternateWins` | src/main.rs:316-320 | an alternate command takes precedence over both rewrites: it succeeds exactly when it resolves, and the new invocation is the resolved path with the arguments unchanged; otherwise the error is `AlternateMissing(alternate)` |
| `Lifecycle.ArgRewriteWins` | src/main.rs:323-328 | without an alternate, an argument rewrite takes precedence over a command rewrite: it succeeds exactly when it parses, and the new invocation is the same binary with `RewriteArgs` of the arguments under the parsed substitution; otherwise the error is `BadArgRewrite` with the rewrite text and its parse error |
| `Lifecycle.CommandRewriteResolves` | src/main.rs:331-339 | a command rewrite succeeds exactly when the new first word resolves, giving its path and the remaining words; otherwise it is "rewritten command not found" |
| `Lifecycle.CommandRewriteIdentity` | src/main.rs:331-339 | a command rewrite that changes nothing leaves an existing binary and its arguments as they are |
| `Lifecycle.HandleCommand` | src/main.rs:216-308 | the imperative body computes `Invocation`, result and trace |
| `Lifecycle.RunHooked` | src/main.rs:249-307 | the hook and command part computes `Hooked` |
| `Lifecycle.RunExecution` | src/main.rs:282-307 | running the command and its post-hook computes `Execution` |
| `Lifecycle.InvocationPromises` | src/main.rs:216-308 | nothing is started exactly when the invocation fails before any process (unknown command, config, compilation or rewrite error); the trace is ordered; the result is the outcome of whatever command or intercept hook started; the pre-hook gates the rest; a post-hook sees the command that ran; every hook is told the resolved binary, its arguments and the cwd |
| `Lifecycle.DispatchPromises` | src/main.rs:240-308 | the same promises once the rules are compiled |
| `Lifecycle.NoRuleRunsCommandAsGiven` | src/main.rs:243-307 | with no matching rule, exactly the resolved command runs, with its arguments, no hook runs, and its outcome is the result |
| `Lifecycle.MatchedRuleDecides` | src/main.rs:240-305 | with a matching rule, a rewrite failure stops everything before any hook; every hook started is the rule's hook of that kind; a command started is the rewritten one, and only when there is no intercept hook |
| `Lifecycle.OrderedExcludes` | src/main.rs:249-307 | in an ordered trace at most one command starts, never together with an intercept hook, and a pre-hook only comes first |
| `Lifecycle.HookedPromises` | src/main.rs:249-307 | the hook part keeps all promises; its failures are never setup failures |
| `Lifecycle.PrependPreHook` | src/main.rs:250-263 | a pre-hook start in front of an ordered, decided run keeps every promise |
| `Lifecycle.AfterPreHookPromises` | src/main.rs:265-307 | after the pre-hook, either the intercept hook or the command starts first, and every promise holds |
| `Lifecycle.InterceptionPromises` | src/main.rs:266-279 | an intercept hook is the only thing started, it is told the final command, and its exit code (a signal as -1) cut to eight bits is the result |
| `Lifecycle.ExecutionDecided` | src/main.rs:283-307 | the command starts first, and the result is its exit code cut to eight bits (1 for a signal) whatever the post-hook does |
| `Lifecycle.ExecutionInformsPostHook` | src/main.rs:289-300 | the post-hook is told the command that ran, its arguments and its exit code |
| `Lifecycle.ExecutionHooksTold` | src/main.rs:289-300 | the post-hook is told the original binary, arguments and cwd |
| `Lifecycle.PostHookRunShape` | src/main.rs:301-304 | a post-hook run is its start, followed by a warning only when it failed |
| `Lifecycle.ExecutionTraceShape` | src/main.rs:283-305 | the command, then optionally the configured post-hook, then optionally its warning |
| `Lifecycle.HookedTraceShape` | src/main.rs:250-263 | without a pre-hook the trace is the rest; with one it starts with the pre-hook, followed by the rest or by nothing |
| `Lifecycle.AfterPreHookShape` | src/main.rs:266-305 | with an intercept hook, only that hook starts, told the final command; otherwise the command trace follows |
| `Lifecycle.HookedRunsRuleHooks` | src/main.rs:250-300 | every hook started is the rule's hook of its kind; an intercept hook is told the final binary and arguments |
| `Lifecycle.HookedRunsRewrittenCommand` | src/main.rs:266-286 | a command started is the rewritten command, and only without an intercept hook |
| `Lifecycle.PostHookEnvironment` | src/main.rs:292-300 | the variables set for the post-hook hold the exit code (1 for a signal), the executed binary and the executed arguments |
| `Lifecycle.ToldEnvironment` | src/main.rs:252-300 | the variables set for every hook hold the original binary, arguments, cwd and its type; executed values only after the rewrite, the exit code only for the post-hook |

## Left out

- The regex crate is an oracle (`RegexEngine`): which patterns compile, `is_match`, the leftmost non-overlapping matches, and how `$n` capture references expand. So the capture-group tests (src/rules/rewriter.rs:204-214) are not modelled concretely, and neither are the anchors in `s/^build$/…/`. The concrete examples use a literal-substring engine, so `RewriteArgsExample` uses the pattern `build` on the input `build`.
- `Rewriter.RewriteCommand`: the `kubectl --context=dev` test (src/rules/rewriter.rs:224-231) is not stated as a concrete lemma, because evaluating that string is too costly for the verifier. The general contract and `RewriteCommandIdentity` cover the function.
- `Rewriter.Parse`: the model indexes characters. The source slices `&input[2..]` by bytes, which panics when the delimiter is not a one-byte character; that panic and UTF-8 are not modelled.
- `Rewriter.SplitJoinEscaped`, `Rewriter.ParseRender`: need a delimiter other than a backslash, and parts not ending in a backslash; with a backslash delimiter the source's escape rule cannot express every part.
- `Rewriter.SplitCount`, `Rewriter.ParseOnePart`: stated for a delimiter other than a backslash. With a backslash delimiter the text never splits at all; `Rewriter.SplitOnBackslash` and `Rewriter.ParseBackslashDelimiter` state that case.
- TOML reading and deserialisation (serde) are outside the model: a file is already unreadable, malformed or a parsed `Config`. `config_path.exists()` is taken to mean "a file is in the map". Error `source` values (I/O, TOML and regex error details) are dropped, and only the error kind and the pattern or path are kept.
- Starting processes, `sh -c`, and the inherited stdin, stdout and stderr are oracles (`Spawner`, `HookRunner`). `Path::exists` is the oracle `Probe`.
- Paths are component lists from the root. `.` and `..` are ordinary names, symbolic links are not followed, and non-UTF-8 paths (`to_string_lossy`) are not modelled.
- `Exec.Resolved`: a relative or empty `PATH` entry is taken relative to the working directory, giving an absolute path. The source keeps the relative path (`PATH=bin:/usr/bin` gives `bin/cargo`, an empty entry gives `cargo`), and that text is what the binary pattern is matched against, what `TRAMP_ORIGINAL_BINARY` holds and what a command rewrite starts from; the model gives `cwd` followed by the entry instead. Reading a path's text into components (`Exec.Components`) also drops doubled and trailing slashes, which `to_string_lossy` keeps in the text.
- Whitespace splitting, case-insensitive comparison and lower-casing are ASCII-only; Unicode whitespace and case folding are not modelled.
- `std::env::current_dir` failing, the command-line parsing, the subcommands, and the mapping of an error to `ExitCode::FAILURE` (src/main.rs outside `handle_command` and `apply_rule`) are not part of this model. `eprintln!` of a failed post-hook is the `WarnPostHook` action in the trace.
- The hook environment is a map, so `HashMap` iteration order plays no part. Variable names are the `EnvVar` datatype, mapped to their strings by `Name`.
- `Hooks.EnvStrings`: the map holds only the variables tramp sets. Through `.envs` (src/hooks/executor.rs:112) they are laid over tramp's own inherited environment, with no clearing, so a hook also sees `PATH`, `HOME` and any other variable tramp inherited (an inherited `TRAMP_*` variable tramp does not set included); the model does not describe those.
- The trace records starts (hook with its context, command with its arguments) and warnings, not the processes' own effects.
- The `anyhow` context strings are replaced by the `Failure` variants, which keep the failing name and the underlying error.
