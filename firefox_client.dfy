/** `Client`: runs the `ffsclient` command line tool, logging in and
    retrying once when a command fails. */
module FirefoxClient {

  import opened Wrappers
  import opened Text
  import opened DonErrors
  import opened DonErrorLib
  import opened Process

  const FfSyncCommand: string := "ffsclient"
  const TruncateStderrOutputToChars: nat := 2000

  datatype Client = Client(username: string, password: string)

  /** The `ffsclient` tool as seen from the client: the outcome of a command
      may depend on every command run before it (a login changes later outcomes). */
  type Ffsclient = (seq<Command>, Command) -> Spawn

  /** `ffsclient_command`: "ffsclient" with the arguments added one by one, in order. */
  method FfsclientCommand(args: seq<string>) returns (command: Command)
    ensures command.program == FfSyncCommand && command.args == args
  {
    command := Command(FfSyncCommand, []);
    for i := 0 to |args|
      invariant command.program == FfSyncCommand && command.args == args[..i]
    {
      command := Command(command.program, command.args + [args[i]]);
    }
    assert args[..|args|] == args;
  }

  /** The command `FfsclientCommand(args)` builds. */
  function CommandOf(args: seq<string>): Command
  {
    Command(FfSyncCommand, args)
  }

  function LoginArgs(c: Client): seq<string>
  {
    ["login", c.username, c.password]
  }

  /** The error made from the stderr of a failed retry. */
  function StderrError(stderr: string): (e: DonErrorInner)
    ensures |e.err.message| <= TruncateStderrOutputToChars && |e.err.message| <= |stderr|
    ensures e.err.message == stderr[..|e.err.message|]
    ensures |stderr| <= TruncateStderrOutputToChars ==> e.err.message == stderr
    ensures |stderr| > TruncateStderrOutputToChars ==> e.err.message == stderr[..TruncateStderrOutputToChars]
    ensures e.context == map[]
  {
    ErrMsg(Truncate(stderr, TruncateStderrOutputToChars))
  }

  /** `try_command_and_then_inner` as written, for at most `fuel` nested
      calls: `None` when the calls nest deeper than that. The login it runs
      after a failure is itself a `try_command` with the flag unset, so a
      failing login logs in again. Returns the outcome and the commands run. */
  function TryCommandAndThenInnerAsWritten<D>(c: Client, ffs: Ffsclient, log: seq<Command>, args: seq<string>,
                                              onOutput: string -> DonResult<D>, triedLogin: bool, fuel: nat)
    : (r: Option<(DonResult<D>, seq<Command>)>)
    ensures r.Some? ==> |r.value.1| > |log| && r.value.1[..|log| + 1] == log + [CommandOf(args)]
    decreases fuel
  {
    if fuel == 0 then None
    else
      var log1 := log + [CommandOf(args)];
      match ffs(log, CommandOf(args))
      case SpawnFailed(e) => Some((Err(FromError(e)), log1))
      case Exited(success, stdout, stderr) =>
        if success then Some((onOutput(stdout), log1))
        else if !triedLogin then
          match TryCommandAndThenInnerAsWritten(c, ffs, log1, LoginArgs(c), _ => Ok(()), false, fuel - 1)
          case None => None
          case Some((Err(e), log2)) =>
            assert log2[..|log1|] == log1 by { assert log2[..|log1| + 1][..|log1|] == log2[..|log1|]; }
            assert log2[..|log| + 1] == log1[..|log| + 1];
            Some((Err(e), log2))
          case Some((Ok(_), log2)) =>
            assert log2[..|log1|] == log1 by { assert log2[..|log1| + 1][..|log1|] == log2[..|log1|]; }
            var r := TryCommandAndThenInnerAsWritten(c, ffs, log2, args, onOutput, true, fuel - 1);
            if r.None? then None
            else
              assert r.value.1[..|log| + 1] == log1 by {
                assert r.value.1[..|log2| + 1][..|log| + 1] == r.value.1[..|log| + 1];
                assert log2[..|log| + 1] == log1;
              }
              r
        else Some((Err(StderrError(stderr)), log1))
  }

  /** An `ffsclient` whose every run exits unsuccessfully (for instance
      while the account service cannot be reached). */
  ghost predicate AlwaysFails(ffs: Ffsclient)
  {
    forall log, cmd :: ffs(log, cmd).Exited? && !ffs(log, cmd).success
  }

  /** As written, a call that finds every run failing never returns: each
      failed login starts another login, whatever depth is allowed. */
  lemma {:induction false} AsWrittenDiverges<D>(c: Client, ffs: Ffsclient, log: seq<Command>, args: seq<string>,
                                                onOutput: string -> DonResult<D>, fuel: nat)
    requires AlwaysFails(ffs)
    ensures TryCommandAndThenInnerAsWritten(c, ffs, log, args, onOutput, false, fuel).None?
    decreases fuel
  {
    if fuel > 0 {
      var log1 := log + [CommandOf(args)];
      AsWrittenDiverges<()>(c, ffs, log1, LoginArgs(c), _ => Ok(()), fuel - 1);
    }
  }

  /** `try_command_and_then_inner` with the login run at most once: the login
      is attempted with the flag already set, so its failure is returned.
      Returns the outcome and the commands run. */
  function TryCommandAndThenInner<D>(c: Client, ffs: Ffsclient, log: seq<Command>, args: seq<string>,
                                     onOutput: string -> DonResult<D>, triedLogin: bool)
    : (r: (DonResult<D>, seq<Command>))
    decreases if triedLogin then 0 else 1
  {
    var log1 := log + [CommandOf(args)];
    match ffs(log, CommandOf(args))
    case SpawnFailed(e) => (Err(FromError(e)), log1)
    case Exited(success, stdout, stderr) =>
      if success then (onOutput(stdout), log1)
      else if !triedLogin then
        match TryCommandAndThenInner(c, ffs, log1, LoginArgs(c), _ => Ok(()), true)
        case (Err(e), log2) => (Err(e), log2)
        case (Ok(_), log2) => TryCommandAndThenInner(c, ffs, log2, args, onOutput, true)
      else (Err(StderrError(stderr)), log1)
  }

  /** `try_command_and_then`: starts with the flag unset. */
  function TryCommandAndThen<D>(c: Client, ffs: Ffsclient, log: seq<Command>, args: seq<string>,
                                onOutput: string -> DonResult<D>): (r: (DonResult<D>, seq<Command>))
    // A call runs the command, or the command and a login, or the command,
    // a login and the command again: at most two runs and one login.
    ensures var cmd := CommandOf(args); var login := CommandOf(LoginArgs(c));
            r.1 == log + [cmd] || r.1 == log + [cmd, login] || r.1 == log + [cmd, login, cmd]
    // A result that is not an error is what the callback made of the stdout
    // of a successful run of the command, the last one of the call.
    ensures r.0.Ok? ==> |r.1| > |log| && r.1[|r.1| - 1] == CommandOf(args)
                        && var out := ffs(r.1[..|r.1| - 1], CommandOf(args));
                           out.Exited? && out.success && r.0 == onOutput(out.stdout)
    // A first run that succeeds hands its stdout to the callback; no login.
    ensures ffs(log, CommandOf(args)).Exited? && ffs(log, CommandOf(args)).success ==>
              r == (onOutput(ffs(log, CommandOf(args)).stdout), log + [CommandOf(args)])
    // A failed first run is followed by a login; a login that fails ends the call with its error.
    ensures var log1 := log + [CommandOf(args)]; var login := CommandOf(LoginArgs(c));
            ffs(log, CommandOf(args)).Exited? && !ffs(log, CommandOf(args)).success ==>
              match ffs(log1, login)
              case SpawnFailed(e) => r == (Err(FromError(e)), log1 + [login])
              case Exited(ok, _, stderr) =>
                if !ok then r == (Err(StderrError(stderr)), log1 + [login])
                else
                  var log2 := log1 + [login];
                  r.1 == log2 + [CommandOf(args)] &&
                  match ffs(log2, CommandOf(args))
                  case SpawnFailed(e) => r.0 == Err(FromError(e))
                  case Exited(ok2, stdout, stderr2) =>
                    r.0 == if ok2 then onOutput(stdout) else Err(StderrError(stderr2))
  {
    TryCommandAndThenInner(c, ffs, log, args, onOutput, false)
  }

  /** `login`: runs "ffsclient login <username> <password>". */
  function Login(c: Client, ffs: Ffsclient, log: seq<Command>): (r: (DonResult<()>, seq<Command>))
    ensures ffs(log, CommandOf(LoginArgs(c))).Exited? && ffs(log, CommandOf(LoginArgs(c))).success ==>
              r == (Ok(()), log + [CommandOf(LoginArgs(c))])
  {
    TryCommandAndThen(c, ffs, log, LoginArgs(c), _ => Ok(()))
  }

  /** `try_command`: the command's output is discarded. */
  function TryCommand(c: Client, ffs: Ffsclient, log: seq<Command>, args: seq<string>): (r: (DonResult<()>, seq<Command>))
    ensures ffs(log, CommandOf(args)).Exited? && ffs(log, CommandOf(args)).success ==>
              r == (Ok(()), log + [CommandOf(args)])
    ensures ffs(log, CommandOf(args)).SpawnFailed? ==>
              r == (Err(FromError(ffs(log, CommandOf(args)).error)), log + [CommandOf(args)])
  {
    TryCommandAndThen(c, ffs, log, args, _ => Ok(()))
  }

  /** Whenever the login does not itself fail, the code as written and the
      corrected one agree: the divergence needs a failing login. */
  lemma AsWrittenAgrees<D>(c: Client, ffs: Ffsclient, log: seq<Command>, args: seq<string>,
                           onOutput: string -> DonResult<D>, fuel: nat)
    requires fuel >= 2
    requires var login := CommandOf(LoginArgs(c));
             !(ffs(log + [CommandOf(args)], login).Exited? && !ffs(log + [CommandOf(args)], login).success)
    ensures TryCommandAndThenInnerAsWritten(c, ffs, log, args, onOutput, false, fuel)
            == Some(TryCommandAndThen(c, ffs, log, args, onOutput))
  {
  }
}
