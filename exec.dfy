/** Starting the final command and finding a command on the search path. */
module Exec {
  import opened Base
  import opened Errors
  import opened Strings
  import opened ConfigTypes

  // ---------------------------------------------------------------------------
  // Running a command

  /** What the operating system reports for one attempt to run a program to completion:
      the program is missing, it could not be started for another reason, or it ran and
      ended with an exit code (none when a signal ended it). */
  datatype SpawnOutcome = SpawnNotFound | SpawnError | Exited(code: Option<i32>)

  /** Running `binary` with `args` in the directory `cwd`, with the standard streams
      inherited, and waiting for it. */
  type Spawner = (Path, seq<string>, Path) -> SpawnOutcome

  /** `execute_command`: the child's exit code, or an error naming the binary that says
      whether it was missing or failed to start. */
  function ExecuteCommand(spawn: Spawner, binary: Path, args: seq<string>, cwd: Path)
    : (r: Result<Option<i32>, TrampError>)
    ensures r.Ok? <==> spawn(binary, args, cwd).Exited?
    ensures r.Ok? ==> r.value == spawn(binary, args, cwd).code
    ensures spawn(binary, args, cwd) == SpawnNotFound ==> r == Err(CommandNotFound(PathString(binary)))
    ensures spawn(binary, args, cwd) == SpawnError ==> r == Err(CommandFailed(PathString(binary)))
  {
    match spawn(binary, args, cwd)
    case SpawnNotFound => Err(CommandNotFound(PathString(binary)))
    case SpawnError => Err(CommandFailed(PathString(binary)))
    case Exited(code) => Ok(code)
  }

  // ---------------------------------------------------------------------------
  // Paths written as text

  /** The pieces of a list that are not empty, in order. */
  function NonEmpty(pieces: seq<string>): (r: seq<string>)
    ensures forall k :: 0 <= k < |r| ==> r[k] != ""
    ensures |r| <= |pieces|
  {
    if |pieces| == 0 then []
    else if pieces[0] == "" then NonEmpty(pieces[1..])
    else [pieces[0]] + NonEmpty(pieces[1..])
  }

  lemma {:induction false} NonEmptyKeeps(pieces: seq<string>)
    requires forall k :: 0 <= k < |pieces| ==> pieces[k] != ""
    ensures NonEmpty(pieces) == pieces
  {
    if |pieces| > 0 {
      NonEmptyKeeps(pieces[1..]);
      assert [pieces[0]] + pieces[1..] == pieces;
    }
  }

  lemma {:induction false} NonEmptySlashFree(pieces: seq<string>)
    requires forall k :: 0 <= k < |pieces| ==> '/' !in pieces[k]
    ensures forall k :: 0 <= k < |NonEmpty(pieces)| ==> '/' !in NonEmpty(pieces)[k]
  {
    if |pieces| > 0 {
      NonEmptySlashFree(pieces[1..]);
    }
  }

  /** A path component: a non-empty name without a slash. */
  predicate IsComponent(name: string)
  {
    name != "" && '/' !in name
  }

  /** `Path::new(text).components()`: the names between slashes, with the empty names
      that leading, doubled and trailing slashes produce dropped. */
  function Components(text: string): (r: Path)
    ensures forall k :: 0 <= k < |r| ==> IsComponent(r[k])
  {
    NonEmptySlashFree(Fields(text, '/'));
    NonEmpty(Fields(text, '/'))
  }

  /** `Path::is_absolute` on Unix: the text starts at the root. */
  predicate IsAbsolute(text: string)
  {
    |text| > 0 && text[0] == '/'
  }

  /** Writing a path as text and reading it back gives the path. */
  lemma {:induction false} ComponentsOfPathString(p: Path)
    requires forall k :: 0 <= k < |p| ==> IsComponent(p[k])
    ensures IsAbsolute(PathString(p))
    ensures Components(PathString(p)) == p
  {
    var text := PathString(p);
    if p == [] {
      assert Fields(text, '/') == ["", ""];
    } else {
      assert text == "" + ['/'] + Join(p, "/");
      FieldsOfFieldThen("", '/', Join(p, "/"));
      FieldsOfJoin(p, '/');
      assert Fields(text, '/') == [""] + p;
      assert ([""] + p)[1..] == p;
      NonEmptyKeeps(p);
    }
  }

  // ---------------------------------------------------------------------------
  // Finding a command

  /** Whether something exists at a path (`Path::exists`). */
  type Probe = Path -> bool

  /** `std::env::split_paths` of a `PATH` value on Unix: its `:`-separated entries, each
      read as a path; an entry that does not start at the root is taken relative to `cwd`. */
  function SearchDirs(pathVar: string, cwd: Path): (r: seq<Path>)
    ensures |r| == |Fields(pathVar, ':')|
    ensures forall i :: 0 <= i < |r| ==> r[i] == DirOf(Fields(pathVar, ':')[i], cwd)
  {
    var entries := Fields(pathVar, ':');
    seq(|entries|, i requires 0 <= i < |entries| => DirOf(entries[i], cwd))
  }

  function DirOf(entry: string, cwd: Path): Path
  {
    if IsAbsolute(entry) then Components(entry) else cwd + Components(entry)
  }

  /** The index of the first candidate that exists, if any. */
  function FirstExisting(candidates: seq<Path>, present: Probe): (r: Option<nat>)
    ensures r.None? <==> forall i :: 0 <= i < |candidates| ==> !present(candidates[i])
    ensures r.Some? ==> r.value < |candidates| && present(candidates[r.value])
    ensures r.Some? ==> forall j :: 0 <= j < r.value ==> !present(candidates[j])
  {
    if |candidates| == 0 then None
    else if present(candidates[0]) then Some(0)
    else
      match FirstExisting(candidates[1..], present)
      case None => None
      case Some(i) => Some(i + 1)
  }

  /** The first existing candidate is the one `FirstExisting` finds. */
  lemma {:induction false} FirstExistingIs(candidates: seq<Path>, present: Probe, i: nat)
    requires i < |candidates| && present(candidates[i])
    requires forall j :: 0 <= j < i ==> !present(candidates[j])
    ensures FirstExisting(candidates, present) == Some(i)
  {
    var r := FirstExisting(candidates, present);
    assert r.Some?;
    assert !(r.value < i);
    assert !(i < r.value);
  }

  /** Where a relative command would be in each search directory (`dir.join(command)`). */
  function Candidates(dirs: seq<Path>, command: string): (r: seq<Path>)
    ensures |r| == |dirs|
    ensures forall i :: 0 <= i < |r| ==> r[i] == dirs[i] + Components(command)
  {
    seq(|dirs|, i requires 0 <= i < |dirs| => dirs[i] + Components(command))
  }

  /** `resolve_command`, as a specification: an absolute command is itself if it exists;
      any other is looked for in the directories of `PATH`, first one first, and is not
      found without a `PATH`. */
  function Resolved(command: string, present: Probe, env: map<string, string>, cwd: Path)
    : (r: Option<Path>)
    ensures r.Some? ==> present(r.value)
    ensures IsAbsolute(command) ==> (r.Some? <==> present(Components(command)))
    ensures IsAbsolute(command) && r.Some? ==> r.value == Components(command)
    ensures !IsAbsolute(command) && "PATH" !in env ==> r.None?
  {
    if IsAbsolute(command) then
      if present(Components(command)) then Some(Components(command)) else None
    else if "PATH" !in env then None
    else
      var candidates := Candidates(SearchDirs(env["PATH"], cwd), command);
      match FirstExisting(candidates, present)
      case None => None
      case Some(i) => Some(candidates[i])
  }

  /** A relative command is found in the earliest search directory that has it. */
  lemma {:induction false} ResolvedFirstDirectory(command: string, present: Probe, env: map<string, string>, cwd: Path, i: nat)
    requires !IsAbsolute(command) && "PATH" in env
    requires i < |SearchDirs(env["PATH"], cwd)|
    requires present(SearchDirs(env["PATH"], cwd)[i] + Components(command))
    requires forall j :: 0 <= j < i ==> !present(SearchDirs(env["PATH"], cwd)[j] + Components(command))
    ensures Resolved(command, present, env, cwd) == Some(SearchDirs(env["PATH"], cwd)[i] + Components(command))
  {
    var candidates := Candidates(SearchDirs(env["PATH"], cwd), command);
    FirstExistingIs(candidates, present, i);
  }

  /** A relative command that no search directory has is not found. */
  lemma {:induction false} ResolvedNowhere(command: string, present: Probe, env: map<string, string>, cwd: Path)
    requires !IsAbsolute(command) && "PATH" in env
    requires forall i :: 0 <= i < |SearchDirs(env["PATH"], cwd)| ==>
      !present(SearchDirs(env["PATH"], cwd)[i] + Components(command))
    ensures Resolved(command, present, env, cwd).None?
  {
    var candidates := Candidates(SearchDirs(env["PATH"], cwd), command);
    assert forall i :: 0 <= i < |candidates| ==> !present(candidates[i]);
  }

  /** An existing path written as text resolves to itself. */
  lemma {:induction false} ResolvedPathString(p: Path, present: Probe, env: map<string, string>, cwd: Path)
    requires forall k :: 0 <= k < |p| ==> IsComponent(p[k])
    requires present(p)
    ensures Resolved(PathString(p), present, env, cwd) == Some(p)
  {
    ComponentsOfPathString(p);
  }

  /** `resolve_command`: the loop over the directories of `PATH`. */
  method ResolveCommand(command: string, present: Probe, env: map<string, string>, cwd: Path)
    returns (r: Option<Path>)
    ensures r == Resolved(command, present, env, cwd)
  {
    var path := Components(command);
    if IsAbsolute(command) {
      if present(path) {
        return Some(path);
      }
      return None;
    }
    if "PATH" !in env {
      return None;
    }
    var dirs := SearchDirs(env["PATH"], cwd);
    ghost var candidates := Candidates(dirs, command);
    for i := 0 to |dirs|
      invariant forall j :: 0 <= j < i ==> !present(candidates[j])
    {
      var full := dirs[i] + path;
      assert full == candidates[i];
      if present(full) {
        FirstExistingIs(candidates, present, i);
        return Some(full);
      }
    }
    return None;
  }
}
