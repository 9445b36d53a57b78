/** The library's structured errors (one variant per `TrampError` case). Paths and
    commands are carried as text, the wrapped foreign error values are left out. */
module Errors {

  /** Why a pattern was refused: a fixed message of the substitution parser, or the
      regex engine's own rejection of the pattern. */
  datatype RegexFailure = Syntax(message: string) | EngineRejected

  datatype TrampError =
    | ConfigNotFound(path: seq<string>)
    | ConfigReadError(path: seq<string>)
    | ConfigParseError(path: seq<string>)
    | InvalidRegex(pattern: string, cause: RegexFailure)
    | MutuallyExclusive(option1: string, option2: string)
    | HookFailed(hookPath: string)
    | HookNonZeroExit(hookPath: string, exitCode: int)
    | CommandFailed(command: string)
    | CommandNotFound(command: string)
    | HomeDirectoryNotFound
}
