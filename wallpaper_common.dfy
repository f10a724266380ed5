/** What `wallpapers/choose.rs` and `wallpapers/change.rs` share: the two
    buckets, the modes, the selection limit, the check of the `feh` run and
    the scheduler that repeats a change every few minutes. */
module WallpaperCommon {

  import opened Wrappers
  import opened DonErrors
  import opened DonErrorLib
  import opened Process

  /** The two wallpaper directories: single-screen images and images spanning two screens. */
  datatype Bucket = Single | Dual

  datatype Mode = OnlySingle | OnlyDual | ProportionateToNumberOfFiles | FiftyFifty

  /** A draw of `rand::thread_rng().gen::<f64>()`: uniform in [0, 1). */
  type Draw = r: real | 0.0 <= r < 1.0 witness 0.0

  /** An `f64` computed without rounding: a number, or NaN for 0/0. */
  datatype Limit = Finite(value: real) | NaN

  /** `f64` `x < limit`: false against NaN. */
  predicate Below(x: real, limit: Limit)
  {
    limit.Finite? && x < limit.value
  }

  /** `f64` `x <= limit`: false against NaN. */
  predicate AtMost(x: real, limit: Limit)
  {
    limit.Finite? && x <= limit.value
  }

  /** The proportionate limit `(ns / 2) / (ns / 2 + nd)` from the entry counts
      of the single and dual directories: two single images are shown at once,
      hence the halving. */
  function ProportionateLimit(singleEntries: nat, dualEntries: nat): (l: Limit)
    ensures l.NaN? <==> singleEntries + dualEntries == 0
    ensures l.Finite? ==> 0.0 <= l.value <= 1.0
    ensures l.Finite? ==> l.value == singleEntries as real / (singleEntries as real + 2.0 * dualEntries as real)
  {
    var ns := singleEntries as real / 2.0;
    var nd := dualEntries as real;
    if ns + nd == 0.0 then NaN
    else
      assert ns / (ns + nd) == singleEntries as real / (singleEntries as real + 2.0 * dualEntries as real) by {
        assert ns + nd == (singleEntries as real + 2.0 * dualEntries as real) / 2.0;
      }
      assert ns / (ns + nd) <= 1.0 by {
        assert ns <= ns + nd;
      }
      Finite(ns / (ns + nd))
  }

  /** `{:#?}` of a string: quoted, with quotes, backslashes and the usual
      control characters escaped. */
  function DebugString(s: string): (r: string)
    ensures |r| >= 2 && r[0] == '"' && r[|r| - 1] == '"'
  {
    "\"" + EscapeDebug(s) + "\""
  }

  function EscapeDebug(s: string): (r: string)
    ensures |r| >= |s|
    ensures (forall i :: 0 <= i < |s| ==> s[i] !in "\"\\\n\r\t") ==> r == s
  {
    if s == [] then []
    else
      var head :=
        if s[0] == '"' then "\\\""
        else if s[0] == '\\' then "\\\\"
        else if s[0] == '\n' then "\\n"
        else if s[0] == '\r' then "\\r"
        else if s[0] == '\t' then "\\t"
        else [s[0]];
      var rest := EscapeDebug(s[1..]);
      assert (forall i :: 0 <= i < |s| ==> s[i] !in "\"\\\n\r\t") ==> head == [s[0]] && rest == s[1..] by {
        if forall i :: 0 <= i < |s| ==> s[i] !in "\"\\\n\r\t" {
          assert s[0] !in "\"\\\n\r\t";
          assert forall i :: 0 <= i < |s[1..]| ==> s[1..][i] == s[i + 1];
        }
      }
      head + rest
  }

  /** `run_command`: a process that could not be run, or that exited
      unsuccessfully, is an error; the latter carries its stderr. */
  function RunCommand(output: Spawn): (r: DonResult<()>)
    ensures r.Ok? <==> output.Exited? && output.success
    ensures output.SpawnFailed? ==> r == Err(FromError(output.error))
    ensures output.Exited? && !output.success ==>
              r == Bail("Command didn't execute successfully : " + DebugString(output.stderr))
  {
    match output
    case SpawnFailed(e) => Err(FromError(e))
    case Exited(success, _, stderr) =>
      if !success then Bail("Command didn't execute successfully : " + DebugString(stderr))
      else Ok(())
  }

  /** The outcome of trying to take the scheduler's lock file. */
  datatype Lock = Acquired | Busy

  /** The reports of `try_or_report` over the first `n` rounds, in order. */
  function Reports(rounds: nat -> DonResult<()>, n: nat): (reports: seq<DonErrorInner>)
    ensures |reports| <= n
    ensures forall e :: e in reports ==> exists i :: 0 <= i < n && rounds(i) == Err(e)
  {
    if n == 0 then []
    else
      var earlier := Reports(rounds, n - 1);
      assert forall e :: e in earlier ==> exists i :: 0 <= i < n && rounds(i) == Err(e) by {
        forall e | e in earlier ensures exists i :: 0 <= i < n && rounds(i) == Err(e) {
          var i :| 0 <= i < n - 1 && rounds(i) == Err(e);
        }
      }
      earlier + TryOrReport(rounds(n - 1))
  }

  /** Every round that fails is reported: the reports are exactly the errors, in round order. */
  lemma {:induction false} ReportsAreErrors(rounds: nat -> DonResult<()>, n: nat)
    ensures Reports(rounds, n) == ErrorsOf(rounds, n)
  {
    if n > 0 {
      ReportsAreErrors(rounds, n - 1);
    }
  }

  /** The errors among the first `n` rounds, in order. */
  function ErrorsOf(rounds: nat -> DonResult<()>, n: nat): seq<DonErrorInner>
  {
    if n == 0 then []
    else if rounds(n - 1).Err? then ErrorsOf(rounds, n - 1) + [rounds(n - 1).error]
    else ErrorsOf(rounds, n - 1)
  }

  /** The rounds of the scheduler once it holds the lock: each round's
      change, reported if it fails, then a sleep of `minutes` minutes.
      `fuel` rounds are observed. */
  method RunRounds(minutes: nat, rounds: nat -> DonResult<()>, fuel: nat)
    returns (reports: seq<DonErrorInner>, sleeps: seq<nat>)
    ensures reports == ErrorsOf(rounds, fuel)
    ensures |sleeps| == fuel && forall i :: 0 <= i < fuel ==> sleeps[i] == minutes * 60
  {
    reports, sleeps := [], [];
    var calls := 0;
    while calls < fuel
      invariant calls <= fuel
      invariant reports == Reports(rounds, calls)
      invariant |sleeps| == calls && forall i :: 0 <= i < calls ==> sleeps[i] == minutes * 60
    {
      reports := reports + TryOrReport(rounds(calls));
      sleeps := sleeps + [minutes * 60];
      calls := calls + 1;
    }
    ReportsAreErrors(rounds, fuel);
  }

  /** `choose_every_x_min` / `every_n_min`, given the outcome of preparing and
      trying the lock file and the outcome of each round's wallpaper change.
      With the lock, rounds repeat forever: `fuel` rounds are observed and no
      result is ever returned (`None`). Without it (a scheduler already runs),
      one change is made and its result returned. Returns the result, the
      number of rounds run, the reports made and the sleeps, in seconds. */
  method EveryNMinutes(minutes: nat, lock: DonResult<Lock>, rounds: nat -> DonResult<()>, fuel: nat)
    returns (r: Option<DonResult<()>>, calls: nat, reports: seq<DonErrorInner>, sleeps: seq<nat>)
    ensures lock.Err? ==> r == Some(Err(lock.error)) && calls == 0 && reports == [] && sleeps == []
    ensures lock == Ok(Busy) ==> r == Some(rounds(0)) && calls == 1 && reports == [] && sleeps == []
    ensures lock == Ok(Acquired) ==>
              r == None && calls == fuel && reports == ErrorsOf(rounds, fuel)
              && |sleeps| == fuel && forall i :: 0 <= i < fuel ==> sleeps[i] == minutes * 60
  {
    match lock
    case Err(e) =>
      return Some(Err(e)), 0, [], [];
    case Ok(Busy) =>
      return Some(rounds(0)), 1, [], [];
    case Ok(Acquired) =>
      reports, sleeps := RunRounds(minutes, rounds, fuel);
      return None, fuel, reports, sleeps;
  }
}
