/** Discovery of the configuration cascade and its merge into one rule list.
    The filesystem is a map from file path to what reading and deserialising that file
    gives; the environment is a map from variable name to value; the home directory is
    an optional path. */
module Cascade {
  import opened Base
  import opened Errors
  import opened ConfigTypes
  import opened Strings

  const ConfigFileName: string := ".tramp.toml"

  /** What reading one config file yields (deserialisation is outside the model). */
  datatype FileRead = Unreadable | Malformed | Parsed(config: Config)

  type FileSystem = map<Path, FileRead>
  type Environment = map<string, string>

  function ConfigPath(dir: Path): Path
  {
    dir + [ConfigFileName]
  }

  /** `parse_config_file`: read, deserialise, then validate. */
  function ParseConfigFile(file: FileRead, path: Path): (r: Result<Config, TrampError>)
    ensures r.Ok? <==> file.Parsed? && ValidateConfig(file.config).Ok?
    ensures r.Ok? ==> r.value == file.config
    ensures file.Unreadable? ==> r == Err(ConfigReadError(path))
    ensures file.Malformed? ==> r == Err(ConfigParseError(path))
    ensures file.Parsed? && ValidateConfig(file.config).Err? ==> r == Err(ValidateConfig(file.config).error)
  {
    match file
    case Unreadable => Err(ConfigReadError(path))
    case Malformed => Err(ConfigParseError(path))
    case Parsed(c) =>
      match ValidateConfig(c)
      case Err(e) => Err(e)
      case Ok(_) => Ok(c)
  }

  // ---------------------------------------------------------------------------
  // Environment test

  /** `is_env_truthy`: set, non-empty, and not "0", "false" or "no" in any letter case. */
  predicate IsEnvTruthy(env: Environment, name: string)
  {
    name in env &&
    var value := env[name];
    var lower := ToLowerAscii(value);
    value != "" && lower != "0" && lower != "false" && lower != "no"
  }

  /** `s` spells the lower-case word `word` with each letter in either case. */
  predicate SpellsIgnoringCase(s: string, word: string)
  {
    |s| == |word| &&
    forall i :: 0 <= i < |s| ==> s[i] == word[i] || ('a' <= word[i] <= 'z' && s[i] as int == word[i] as int - 32)
  }

  lemma {:induction false} IsEnvTruthyCharacterised(env: Environment, name: string)
    ensures !IsEnvTruthy(env, name) <==>
      name !in env || env[name] == "" ||
      SpellsIgnoringCase(env[name], "0") || SpellsIgnoringCase(env[name], "false") ||
      SpellsIgnoringCase(env[name], "no")
  {
    if name in env {
      LowerEqualsLowercaseWord(env[name], "0");
      LowerEqualsLowercaseWord(env[name], "false");
      LowerEqualsLowercaseWord(env[name], "no");
    }
  }

  lemma {:induction false} IsEnvTruthyExamples(env: Environment)
    requires "UNSET" !in env
    ensures !IsEnvTruthy(env, "UNSET")
    ensures !IsEnvTruthy(env["V" := ""], "V")
    ensures !IsEnvTruthy(env["V" := "0"], "V")
    ensures !IsEnvTruthy(env["V" := "false"], "V")
    ensures !IsEnvTruthy(env["V" := "FALSE"], "V")
    ensures !IsEnvTruthy(env["V" := "no"], "V")
    ensures IsEnvTruthy(env["V" := "1"], "V")
    ensures IsEnvTruthy(env["V" := "true"], "V")
    ensures IsEnvTruthy(env["V" := "yes"], "V")
  {
    IsEnvTruthyCharacterised(env["V" := "FALSE"], "V");
    assert ToLowerAscii("1") == "1";
    assert ToLowerAscii("true") == "true";
    assert ToLowerAscii("yes") == "yes";
  }

  // ---------------------------------------------------------------------------
  // The directory walk, as a specification

  /** The configs found on the way up, and whether the walk ended on a config that
      sets `no_external_lookup`. */
  datatype Walked = Walked(found: seq<LoadedConfig>, authoritative: bool)

  /** The walk from `dir` upwards: load the config of `dir` if it has one; a config with
      `no_external_lookup` ends the walk as authoritative, one with `root` ends it after
      this directory; otherwise continue with the parent until there is none. */
  function Walk(dir: Path, files: FileSystem): Result<Walked, TrampError>
    decreases |dir|
  {
    var path := ConfigPath(dir);
    if path in files then
      match ParseConfigFile(files[path], path)
      case Err(e) => Err(e)
      case Ok(c) =>
        var here := LoadedConfig(c, path);
        if c.noExternalLookup then Ok(Walked([here], true))
        else if c.root || dir == [] then Ok(Walked([here], false))
        else Prepend([here], Walk(Parent(dir), files))
    else if dir == [] then Ok(Walked([], false))
    else Walk(Parent(dir), files)
  }

  function Prepend(deeper: seq<LoadedConfig>, rest: Result<Walked, TrampError>): Result<Walked, TrampError>
  {
    match rest
    case Err(e) => Err(e)
    case Ok(w) => Ok(Walked(deeper + w.found, w.authoritative))
  }

  lemma {:induction false} PrependNothing(rest: Result<Walked, TrampError>)
    ensures Prepend([], rest) == rest
  {
    if rest.Ok? {
      assert [] + rest.value.found == rest.value.found;
    }
  }

  lemma {:induction false} PrependTwice(a: seq<LoadedConfig>, b: seq<LoadedConfig>, rest: Result<Walked, TrampError>)
    ensures Prepend(a, Prepend(b, rest)) == Prepend(a + b, rest)
  {
    if rest.Ok? {
      assert a + (b + rest.value.found) == (a + b) + rest.value.found;
    }
  }

  /** A loaded config disables the user config when the variable it names is truthy. */
  predicate DisablesUserLookup(config: Config, env: Environment)
  {
    config.rootConfigLookupDisableEnvVar.Some? && IsEnvTruthy(env, config.rootConfigLookupDisableEnvVar.value)
  }

  predicate UserLookupDisabled(existing: seq<LoadedConfig>, env: Environment)
  {
    exists k :: 0 <= k < |existing| && DisablesUserLookup(existing[k].config, env)
  }

  /** `load_user_config`, as a specification. */
  function UserConfig(existing: seq<LoadedConfig>, files: FileSystem, env: Environment, home: Option<Path>)
    : Result<Option<LoadedConfig>, TrampError>
  {
    if UserLookupDisabled(existing, env) then Ok(None)
    else match home
      case None => Err(HomeDirectoryNotFound)
      case Some(h) =>
        var path := ConfigPath(h);
        if path in files then
          match ParseConfigFile(files[path], path)
          case Err(e) => Err(e)
          case Ok(c) => Ok(Some(LoadedConfig(c, path)))
        else Ok(None)
  }

  /** `user_config_path`: the user's config file in the home directory, which must be known. */
  function UserConfigPath(home: Option<Path>): (r: Result<Path, TrampError>)
    ensures r.Err? <==> home.None?
    ensures r.Err? ==> r.error == HomeDirectoryNotFound
    ensures r.Ok? ==> |r.value| > 0 && r.value[|r.value| - 1] == ConfigFileName
    ensures r.Ok? ==> Parent(r.value) == home.value
  {
    match home
    case None => Err(HomeDirectoryNotFound)
    case Some(h) => Ok(ConfigPath(h))
  }

  /** Where the user's config is looked for is `user_config_path`. */
  lemma {:induction false} UserConfigAtUserConfigPath(existing: seq<LoadedConfig>, files: FileSystem, env: Environment, home: Option<Path>)
    requires !UserLookupDisabled(existing, env)
    ensures UserConfigPath(home).Err? ==> UserConfig(existing, files, env, home) == Err(HomeDirectoryNotFound)
    ensures UserConfigPath(home).Ok? && UserConfigPath(home).value !in files ==>
              UserConfig(existing, files, env, home) == Ok(None)
    ensures UserConfigPath(home).Ok? && UserConfig(existing, files, env, home).Ok? &&
            UserConfig(existing, files, env, home).value.Some? ==>
              UserConfig(existing, files, env, home).value.value.path == UserConfigPath(home).value
  {
  }

  /** `discover_configs`, as a specification. */
  function Discovered(start: Path, files: FileSystem, env: Environment, home: Option<Path>)
    : Result<seq<LoadedConfig>, TrampError>
  {
    match Walk(start, files)
    case Err(e) => Err(e)
    case Ok(w) =>
      if w.authoritative then Ok(w.found)
      else match UserConfig(w.found, files, env, home)
        case Err(e) => Err(e)
        case Ok(None) => Ok(w.found)
        case Ok(Some(u)) => Ok(w.found + [u])
  }

  // ---------------------------------------------------------------------------
  // The imperative resolver

  /** `discover_configs`: the loop over `current_dir` with its `skip_cascade` flag. */
  method DiscoverConfigs(start: Path, files: FileSystem, env: Environment, home: Option<Path>)
    returns (r: Result<seq<LoadedConfig>, TrampError>)
    ensures r == Discovered(start, files, env, home)
  {
    var configs: seq<LoadedConfig> := [];
    var current := start;
    var skipCascade := false;
    PrependNothing(Walk(start, files));
    while true
      invariant Walk(start, files) == Prepend(configs, Walk(current, files))
      invariant !skipCascade
      decreases |current|
    {
      var path := ConfigPath(current);
      if path in files {
        var parsed := ParseConfigFile(files[path], path);
        if parsed.Err? {
          return Err(parsed.error);
        }
        var config := parsed.value;
        if config.noExternalLookup {
          configs := configs + [LoadedConfig(config, path)];
          return Ok(configs);
        }
        if config.root {
          skipCascade := true;
        }
        ghost var before := configs;
        configs := configs + [LoadedConfig(config, path)];
        if skipCascade {
          assert Walk(current, files) == Ok(Walked([LoadedConfig(config, path)], false));
          break;
        }
        if current != [] {
          PrependTwice(before, [LoadedConfig(config, path)], Walk(Parent(current), files));
        } else {
          assert Walk(current, files) == Ok(Walked([LoadedConfig(config, path)], false));
        }
      } else if current == [] {
        assert configs + [] == configs;
      }
      if current != [] {
        current := Parent(current);
      } else {
        break;
      }
    }
    assert Walk(start, files) == Ok(Walked(configs, false));
    var user := LoadUserConfig(configs, files, env, home);
    match user {
      case Err(e) => return Err(e);
      case Ok(None) => return Ok(configs);
      case Ok(Some(u)) => return Ok(configs + [u]);
    }
  }

  /** `load_user_config`: scan for a disabling variable, then look in the home directory. */
  method LoadUserConfig(existing: seq<LoadedConfig>, files: FileSystem, env: Environment, home: Option<Path>)
    returns (r: Result<Option<LoadedConfig>, TrampError>)
    ensures r == UserConfig(existing, files, env, home)
  {
    for i := 0 to |existing|
      invariant forall k :: 0 <= k < i ==> !DisablesUserLookup(existing[k].config, env)
    {
      var envVar := existing[i].config.rootConfigLookupDisableEnvVar;
      if envVar.Some? && IsEnvTruthy(env, envVar.value) {
        return Ok(None);
      }
    }
    if home.None? {
      return Err(HomeDirectoryNotFound);
    }
    var path := ConfigPath(home.value);
    if path in files {
      var parsed := ParseConfigFile(files[path], path);
      if parsed.Err? {
        return Err(parsed.error);
      }
      return Ok(Some(LoadedConfig(parsed.value, path)));
    }
    return Ok(None);
  }

  // ---------------------------------------------------------------------------
  // Properties of the walk

  /** `path` is the config file of `dir` or of one of its ancestors. */
  ghost predicate InCascadeOf(path: Path, dir: Path)
  {
    |path| >= 1 && path[|path| - 1] == ConfigFileName && path[..|path| - 1] <= dir
  }

  /** A config file that ends the ascent: it parses and sets `root` or `no_external_lookup`. */
  ghost predicate Stops(files: FileSystem, path: Path)
  {
    path in files && files[path].Parsed? &&
    (files[path].config.root || files[path].config.noExternalLookup)
  }

  /** `found` was read from config files of `dir` or its ancestors, most specific first. */
  ghost predicate FromCascade(found: seq<LoadedConfig>, dir: Path, files: FileSystem)
  {
    (forall k :: 0 <= k < |found| ==>
       InCascadeOf(found[k].path, dir) && found[k].path in files && files[found[k].path] == Parsed(found[k].config)) &&
    (forall k, l :: 0 <= k < l < |found| ==> |found[l].path| < |found[k].path|)
  }

  /** What comes from the cascade of an ancestor comes from the cascade of `dir`. */
  lemma {:induction false} FromCascadeWiden(found: seq<LoadedConfig>, up: Path, dir: Path, files: FileSystem)
    requires FromCascade(found, up, files) && up <= dir
    ensures FromCascade(found, dir, files)
  {
    forall k | 0 <= k < |found|
      ensures InCascadeOf(found[k].path, dir)
    {
      var p := found[k].path;
      assert InCascadeOf(p, up);
      assert p[..|p| - 1] <= up;
    }
  }

  /** The config of `dir` in front of what the walk from its parent found. */
  lemma {:induction false} FromCascadeCons(here: LoadedConfig, found: seq<LoadedConfig>, dir: Path, files: FileSystem)
    requires dir != [] && FromCascade(found, Parent(dir), files)
    requires here.path == ConfigPath(dir) && here.path in files && files[here.path] == Parsed(here.config)
    ensures FromCascade([here] + found, dir, files)
  {
    var up, all := Parent(dir), [here] + found;
    assert up <= dir;
    FromCascadeWiden(found, up, dir, files);
    forall k | 0 <= k < |found|
      ensures |found[k].path| < |here.path|
    {
      var p := found[k].path;
      assert InCascadeOf(p, up);
      assert |p[..|p| - 1]| <= |up|;
    }
    assert here.path[..|here.path| - 1] == dir;
    assert forall k :: 0 < k < |all| ==> all[k] == found[k - 1];
    assert forall k :: 0 <= k < |all| ==>
      InCascadeOf(all[k].path, dir) && all[k].path in files && files[all[k].path] == Parsed(all[k].config);
  }

  lemma {:induction false} WalkInCascade(dir: Path, files: FileSystem)
    requires Walk(dir, files).Ok?
    ensures FromCascade(Walk(dir, files).value.found, dir, files)
    decreases |dir|
  {
    var path := ConfigPath(dir);
    if path in files {
      var c := ParseConfigFile(files[path], path).value;
      var here := LoadedConfig(c, path);
      if !c.noExternalLookup && !c.root && dir != [] {
        WalkInCascade(Parent(dir), files);
        FromCascadeCons(here, Walk(Parent(dir), files).value.found, dir, files);
      } else {
        assert path[..|path| - 1] == dir;
      }
    } else if dir != [] {
      WalkInCascade(Parent(dir), files);
      FromCascadeWiden(Walk(Parent(dir), files).value.found, Parent(dir), dir, files);
    }
  }

  /** Everything the walk returns was read from a config file of `dir` or an ancestor,
      most specific first, each ancestor at most once. */
  lemma {:induction false} WalkFromCascade(dir: Path, files: FileSystem)
    requires Walk(dir, files).Ok?
    ensures var w := Walk(dir, files).value;
      (forall k :: 0 <= k < |w.found| ==>
         InCascadeOf(w.found[k].path, dir) && w.found[k].path in files &&
         files[w.found[k].path] == Parsed(w.found[k].config)) &&
      (forall k, l :: 0 <= k < l < |w.found| ==> |w.found[l].path| < |w.found[k].path|)
  {
    WalkInCascade(dir, files);
  }

  /** Only the last config the walk returns may set `root` or `no_external_lookup`, and
      the walk is authoritative exactly when the last one sets `no_external_lookup`. */
  lemma {:induction false} WalkStopsAtLast(dir: Path, files: FileSystem)
    requires Walk(dir, files).Ok?
    ensures var w := Walk(dir, files).value;
      (forall k :: 0 <= k < |w.found| - 1 ==> !w.found[k].config.root && !w.found[k].config.noExternalLookup) &&
      (w.authoritative <==> |w.found| > 0 && w.found[|w.found| - 1].config.noExternalLookup)
    decreases |dir|
  {
    var path := ConfigPath(dir);
    if path in files {
      var c := ParseConfigFile(files[path], path).value;
      if !c.noExternalLookup && !c.root && dir != [] {
        var up := Parent(dir);
        WalkStopsAtLast(up, files);
        var w' := Walk(up, files).value;
        var w := Walk(dir, files).value;
        assert w.found == [LoadedConfig(c, path)] + w'.found;
        assert forall k :: 1 <= k < |w.found| ==> w.found[k] == w'.found[k - 1];
      }
    } else if dir != [] {
      WalkStopsAtLast(Parent(dir), files);
    }
  }

  /** Every config file of `dir` or an ancestor is in the walk's result when no config
      strictly deeper than it stops the ascent. */
  lemma {:induction false} WalkComplete(dir: Path, files: FileSystem, d: nat)
    requires Walk(dir, files).Ok?
    requires d <= |dir| && ConfigPath(dir[..d]) in files
    requires forall e :: d < e <= |dir| ==> !Stops(files, ConfigPath(dir[..e]))
    ensures exists k :: 0 <= k < |Walk(dir, files).value.found| &&
                        Walk(dir, files).value.found[k].path == ConfigPath(dir[..d])
    decreases |dir|
  {
    var w := Walk(dir, files).value;
    var path := ConfigPath(dir);
    if d == |dir| {
      assert dir[..d] == dir;
      assert w.found[0].path == path;
    } else {
      var up := Parent(dir);
      assert dir[..|dir|] == dir;
      assert !Stops(files, path);
      forall e | d < e <= |up|
        ensures !Stops(files, ConfigPath(up[..e]))
      {
        assert up[..e] == dir[..e];
      }
      assert up[..d] == dir[..d];
      WalkComplete(up, files, d);
      var w' := Walk(up, files).value;
      var k :| 0 <= k < |w'.found| && w'.found[k].path == ConfigPath(dir[..d]);
      if path in files {
        assert w.found == [LoadedConfig(files[path].config, path)] + w'.found;
        assert w.found[k + 1] == w'.found[k];
      } else {
        assert w.found == w'.found;
      }
    }
  }

  /** A config with `no_external_lookup` is the last one returned; the user config is not
      consulted (the result does not depend on the environment or the home directory);
      the configs found deeper than it are kept. */
  lemma {:induction false} NoExternalLookupIsLast(start: Path, files: FileSystem, env: Environment, home: Option<Path>,
                               env': Environment, home': Option<Path>)
    requires Walk(start, files).Ok? && Walk(start, files).value.authoritative
    ensures Discovered(start, files, env, home) == Ok(Walk(start, files).value.found)
    ensures Discovered(start, files, env, home) == Discovered(start, files, env', home')
  {
  }

  /** When a loaded config names a truthy variable, the home directory is never looked at. */
  lemma {:induction false} UserLookupSuppressed(start: Path, files: FileSystem, env: Environment, home: Option<Path>)
    requires Walk(start, files).Ok? && !Walk(start, files).value.authoritative
    requires UserLookupDisabled(Walk(start, files).value.found, env)
    ensures Discovered(start, files, env, home) == Ok(Walk(start, files).value.found)
  {
  }

  /** Without a suppressing variable a missing home directory is an error. */
  lemma {:induction false} HomeDirectoryRequired(start: Path, files: FileSystem, env: Environment)
    requires Walk(start, files).Ok? && !Walk(start, files).value.authoritative
    requires !UserLookupDisabled(Walk(start, files).value.found, env)
    ensures Discovered(start, files, env, None) == Err(HomeDirectoryNotFound)
  {
  }

  /** Discovery returns the walk's configs followed, at most, by one more: the parsed
      user config of the home directory; a missing user config file adds nothing. */
  lemma {:induction false} UserConfigComesLast(start: Path, files: FileSystem, env: Environment, home: Option<Path>)
    requires Walk(start, files).Ok? && Discovered(start, files, env, home).Ok?
    ensures var found := Walk(start, files).value.found;
            var cs := Discovered(start, files, env, home).value;
      cs[..|found|] == found &&
      (|cs| == |found| || (|cs| == |found| + 1 && home.Some? && cs[|found|].path == ConfigPath(home.value) &&
                           files[ConfigPath(home.value)] == Parsed(cs[|found|].config))) &&
      (home.Some? && ConfigPath(home.value) !in files ==> cs == found)
  {
    var found := Walk(start, files).value.found;
    var cs := Discovered(start, files, env, home).value;
    assert (found + cs[|found|..])[..|found|] == found;
  }

  // ---------------------------------------------------------------------------
  // The merge

  function Tag(rules: seq<Rule>, source: Path): (r: seq<RuleWithSource>)
    ensures |r| == |rules|
    ensures forall j :: 0 <= j < |rules| ==> r[j] == RuleWithSource(rules[j], source)
  {
    seq(|rules|, j requires 0 <= j < |rules| => RuleWithSource(rules[j], source))
  }

  /** The rules of each config in turn, each tagged with its config's path. */
  function TaggedRules(configs: seq<LoadedConfig>): seq<RuleWithSource>
  {
    if |configs| == 0 then []
    else
      var last := configs[|configs| - 1];
      TaggedRules(configs[..|configs| - 1]) + Tag(last.config.rules, last.path)
  }

  predicate AnyNoExternalLookup(configs: seq<LoadedConfig>)
  {
    exists k :: 0 <= k < |configs| && configs[k].config.noExternalLookup
  }

  /** `merge_configs`, as a specification. */
  function Merged(configs: seq<LoadedConfig>): MergedConfig
  {
    MergedConfig(TaggedRules(configs), AnyNoExternalLookup(configs))
  }

  function RuleCount(configs: seq<LoadedConfig>): nat
  {
    if |configs| == 0 then 0 else RuleCount(configs[..|configs| - 1]) + |configs[|configs| - 1].config.rules|
  }

  /** `merge_configs`: the nested push loops and the flag update. */
  method MergeConfigs(configs: seq<LoadedConfig>) returns (merged: MergedConfig)
    ensures merged == Merged(configs)
  {
    merged := MergedConfig([], false);
    for i := 0 to |configs|
      invariant merged == Merged(configs[..i])
    {
      var loaded := configs[i];
      assert configs[..i + 1][..i] == configs[..i];
      assert configs[..i + 1][i] == loaded;
      for j := 0 to |loaded.config.rules|
        invariant merged.rules == TaggedRules(configs[..i]) + Tag(loaded.config.rules[..j], loaded.path)
        invariant merged.noExternalLookup == AnyNoExternalLookup(configs[..i])
      {
        assert Tag(loaded.config.rules[..j + 1], loaded.path) ==
               Tag(loaded.config.rules[..j], loaded.path) + [RuleWithSource(loaded.config.rules[j], loaded.path)];
        merged := merged.(rules := merged.rules + [RuleWithSource(loaded.config.rules[j], loaded.path)]);
      }
      assert loaded.config.rules[..|loaded.config.rules|] == loaded.config.rules;
      if loaded.config.noExternalLookup {
        merged := merged.(noExternalLookup := true);
      }
      assert AnyNoExternalLookup(configs[..i + 1]) <==> AnyNoExternalLookup(configs[..i]) || loaded.config.noExternalLookup;
    }
    assert configs[..|configs|] == configs;
  }

  /** Merging the configs of two stretches of the cascade concatenates their rules. */
  lemma {:induction false} TaggedRulesAppend(a: seq<LoadedConfig>, b: seq<LoadedConfig>)
    ensures TaggedRules(a + b) == TaggedRules(a) + TaggedRules(b)
    decreases |b|
  {
    if |b| == 0 {
      assert a + b == a;
    } else {
      var b', last := b[..|b| - 1], b[|b| - 1];
      assert (a + b)[..|a + b| - 1] == a + b';
      assert (a + b)[|a + b| - 1] == last;
      TaggedRulesAppend(a, b');
      var tag := Tag(last.config.rules, last.path);
      assert TaggedRules(a + b) == TaggedRules(a + b') + tag;
      assert TaggedRules(b) == TaggedRules(b') + tag;
      assert TaggedRules(a) + TaggedRules(b') + tag == TaggedRules(a) + (TaggedRules(b') + tag);
    }
  }

  /** The merged list has as many rules as the configs together, and rule `j` of config `i`
      sits at offset `j` after the rules of the configs before `i`, tagged with its path. */
  lemma {:induction false} MergedRuleAt(configs: seq<LoadedConfig>, i: nat, j: nat)
    requires i < |configs| && j < |configs[i].config.rules|
    ensures |Merged(configs).rules| == RuleCount(configs)
    ensures RuleCount(configs[..i]) + j < |Merged(configs).rules|
    ensures Merged(configs).rules[RuleCount(configs[..i]) + j] == RuleWithSource(configs[i].config.rules[j], configs[i].path)
  {
    var before, here, after := configs[..i], [configs[i]], configs[i + 1..];
    var tb, tag, ta := TaggedRules(before), Tag(configs[i].config.rules, configs[i].path), TaggedRules(after);
    assert TaggedRules(configs) == tb + tag + ta by {
      assert configs == (before + here) + after;
      TaggedRulesAppend(before + here, after);
      TaggedRulesAppend(before, here);
      TaggedRulesSingle(configs[i]);
    }
    assert |tb| == RuleCount(before) by {
      MergedLength(before);
    }
    assert |TaggedRules(configs)| == RuleCount(configs) by {
      MergedLength(configs);
    }
    assert (tb + tag + ta)[|tb| + j] == tag[j];
  }

  lemma {:induction false} TaggedRulesSingle(c: LoadedConfig)
    ensures TaggedRules([c]) == Tag(c.config.rules, c.path)
  {
    assert [c][..0] == [];
  }

  lemma {:induction false} MergedLength(configs: seq<LoadedConfig>)
    ensures |TaggedRules(configs)| == RuleCount(configs)
  {
    if |configs| > 0 {
      MergedLength(configs[..|configs| - 1]);
    }
  }

  /** Merging nothing gives no rules and external lookup allowed. */
  lemma {:induction false} MergedEmpty()
    ensures Merged([]) == MergedConfig([], false)
  {
  }

  /** `load_merged_config`: discovery followed by the merge. */
  function LoadMergedConfig(start: Path, files: FileSystem, env: Environment, home: Option<Path>)
    : Result<MergedConfig, TrampError>
  {
    match Discovered(start, files, env, home)
    case Err(e) => Err(e)
    case Ok(cs) => Ok(Merged(cs))
  }

  /** `load_merged_config`: discover, then merge. */
  method LoadMerged(start: Path, files: FileSystem, env: Environment, home: Option<Path>)
    returns (r: Result<MergedConfig, TrampError>)
    ensures r == LoadMergedConfig(start, files, env, home)
  {
    var found := DiscoverConfigs(start, files, env, home);
    if found.Err? {
      return Err(found.error);
    }
    var merged := MergeConfigs(found.value);
    return Ok(merged);
  }

  /** When the walk ends on a `no_external_lookup` config the merged rules are those of
      every config found on the way up to it, not only its own, and the merged flag is set. */
  lemma {:induction false} AuthoritativeMergeKeepsDeeperRules(start: Path, files: FileSystem, env: Environment, home: Option<Path>)
    requires Walk(start, files).Ok? && Walk(start, files).value.authoritative
    ensures var found := Walk(start, files).value.found;
      LoadMergedConfig(start, files, env, home) == Ok(MergedConfig(TaggedRules(found), true))
  {
    var found := Walk(start, files).value.found;
    WalkStopsAtLast(start, files);
    assert found[|found| - 1].config.noExternalLookup;
  }
}
