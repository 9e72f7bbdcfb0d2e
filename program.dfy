/** What the program launcher takes and how it can fail. The launcher itself
    (`std::process::Command`) is outside the model: every caller receives the
    outcome of a launch as a parameter and reports the options it launched
    with. */
module Program {
  import opened Wrappers

  /** The failures a launch reports. */
  datatype ProgramError =
    | ProgramNotFound(program: string)
    | ProcessInterrupted
    | NoPermission
    | NonZeroExitCode(code: int)
    | UnexpectedError(message: string)

  /** One invocation: program, arguments, working directory, environment
      overrides, whether to discard the standard streams, and whether to
      spawn without waiting. */
  datatype LaunchOptions = LaunchOptions(
    program: string,
    args: seq<string>,
    cwd: Option<string>,
    forkMode: bool,
    quiet: bool,
    env: Option<seq<(string, string)>>)
}
