/** `std::process::Command` and its `output()`, as seen by the callers:
    the process itself is outside the model. */
module Process {

  import opened DonErrors

  /** A process to run: the program and its arguments. */
  datatype Command = Command(program: string, args: seq<string>)

  /** What `Command::output()` gave: a failure to run the process, or its
      exit status with the captured output streams. */
  datatype Spawn = SpawnFailed(error: AnyError) | Exited(success: bool, stdout: string, stderr: string)
}
