/** Values shared by every layer of the provisioning model: optional values,
    results of fallible operations, the exceptions the script can raise, and
    the two kinds of answer a step gives the orchestrator (its probe and its
    setup). */
module Outcomes {

  datatype Option<+T> = None | Some(value: T)

  /** The exceptions that matter to the orchestrator. Only `CommandFailed`
      (the command library's error for a non-zero exit status) is ever caught
      around `setup`; every other kind escapes the run. */
  datatype Error =
    | CommandFailed(stderr: string)     // a shell command exited non-zero
    | UnsupportedOS(platform: string)   // raised by platform detection
    | NotImplemented                    // NotImplementedError
    | IoError(path: string)             // opening or changing to a missing path
    | Foreign(description: string)      // any other exception of an unmodelled call

  datatype Result<+T> = Ok(value: T) | Err(error: Error)

  /** The value of a step's `already_satisfied` property: a truth value, or an
      exception the probe let escape. */
  datatype Probe = Holds(ok: bool) | ProbeRaised(error: Error)

  /** What a step's `setup` did: returned normally, or raised. */
  datatype SetupResult = SetupOk | SetupThrew(error: Error)

  /** A shell command's captured standard output, or the error it raised. */
  type Output = Result<string>
}
