/** `wallpapers/choose.rs`: picks the single or the dual bucket and shows a
    random image of it with `feh`. The bucket directories are the
    `Single_screen` and `Dual_screen` children of the wallpapers directory. */
module WallpapersChoose {

  import opened Wrappers
  import opened DonErrors
  import opened DonErrorLib
  import opened Process
  import opened Monitors
  import opened WallpaperCommon

  const SingleScreenDir: string := "Single_screen"
  const DualScreenDir: string := "Dual_screen"

  /** `choose_single_if_under_limit`: single when the draw is strictly below the limit. */
  function ChooseSingleIfUnderLimit(limit: Limit, draw: Draw): (b: Bucket)
    ensures b == Single <==> Below(draw, limit)
  {
    if Below(draw, limit) then Single else Dual
  }

  /** The bucket `choose_once` shows, given the topology, the mode, the
      entry counts of the two directories (read only in proportionate mode)
      and the draw. */
  function ChooseBucket(screens: ScreensConfig, mode: Mode, singleEntries: DonResult<nat>,
                        dualEntries: DonResult<nat>, draw: Draw): (r: DonResult<Bucket>)
    ensures screens != DualScreenSameResolution ==> r == Ok(Single)
    ensures screens == DualScreenSameResolution && mode == OnlySingle ==> r == Ok(Single)
    ensures screens == DualScreenSameResolution && mode == OnlyDual ==> r == Ok(Dual)
    ensures screens == DualScreenSameResolution && mode == FiftyFifty ==>
              r == Ok(if draw < 0.5 then Single else Dual)
    ensures screens == DualScreenSameResolution && mode == ProportionateToNumberOfFiles ==>
              if singleEntries.Err? then r == Err(singleEntries.error)
              else if dualEntries.Err? then r == Err(dualEntries.error)
              else r.Ok? && (r.value == Single <==> Below(draw, ProportionateLimit(singleEntries.value, dualEntries.value)))
  {
    if screens != DualScreenSameResolution then Ok(Single)
    else
      match mode
      case OnlySingle => Ok(Single)
      case OnlyDual => Ok(Dual)
      case FiftyFifty => Ok(ChooseSingleIfUnderLimit(Finite(0.5), draw))
      case ProportionateToNumberOfFiles =>
        match singleEntries
        case Err(e) => Err(e)
        case Ok(ns) =>
          match dualEntries
          case Err(e) => Err(e)
          case Ok(nd) => Ok(ChooseSingleIfUnderLimit(ProportionateLimit(ns, nd), draw))
  }

  /** The `feh` invocation for a bucket. */
  function FehCommand(wallpapersDir: string, b: Bucket): (c: Command)
    ensures c.program == "feh"
    ensures b == Single ==> c.args == ["--bg-max", "--no-fehbg", "--random", wallpapersDir + "/" + SingleScreenDir]
    ensures b == Dual ==> c.args == ["--bg-fill", "--no-fehbg", "--no-xinerama", "--random", wallpapersDir + "/" + DualScreenDir]
  {
    match b
    case Single => Command("feh", ["--bg-max", "--no-fehbg", "--random", wallpapersDir + "/" + SingleScreenDir])
    case Dual => Command("feh", ["--bg-fill", "--no-fehbg", "--no-xinerama", "--random", wallpapersDir + "/" + DualScreenDir])
  }

  /** `choose_once`, given the monitor query's outcome, the entry counts, the
      draw and what running `feh` gives. */
  function ChooseOnce(screens: DonResult<ScreensConfig>, mode: Mode, singleEntries: DonResult<nat>,
                      dualEntries: DonResult<nat>, draw: Draw, wallpapersDir: string,
                      feh: Command -> Spawn): (r: DonResult<()>)
    ensures screens.Err? ==> r == Err(screens.error)
    ensures screens.Ok? && ChooseBucket(screens.value, mode, singleEntries, dualEntries, draw).Ok? ==>
              r == RunCommand(feh(FehCommand(wallpapersDir, ChooseBucket(screens.value, mode, singleEntries, dualEntries, draw).value)))
    ensures r.Ok? ==> exists b :: feh(FehCommand(wallpapersDir, b)).Exited? && feh(FehCommand(wallpapersDir, b)).success
  {
    match screens
    case Err(e) => Err(e)
    case Ok(config) =>
      match ChooseBucket(config, mode, singleEntries, dualEntries, draw)
      case Err(e) => Err(e)
      case Ok(b) => RunCommand(feh(FehCommand(wallpapersDir, b)))
  }

  /** With an empty dual directory and some single images, single is always shown. */
  lemma NoDualMeansSingle(singleEntries: nat, draw: Draw)
    requires singleEntries > 0
    ensures ChooseBucket(DualScreenSameResolution, ProportionateToNumberOfFiles, Ok(singleEntries), Ok(0), draw) == Ok(Single)
  {
    var ns := singleEntries as real;
    assert ns / (ns + 2.0 * 0 as real) == 1.0;
    assert ProportionateLimit(singleEntries, 0) == Finite(1.0);
  }

  /** With an empty single directory, dual is always shown (when both are
      empty the limit is NaN and the comparison false). */
  lemma NoSingleMeansDual(dualEntries: nat, draw: Draw)
    ensures ChooseBucket(DualScreenSameResolution, ProportionateToNumberOfFiles, Ok(0), Ok(dualEntries), draw) == Ok(Dual)
  {
    if dualEntries > 0 {
      assert ProportionateLimit(0, dualEntries) == Finite(0.0);
    }
  }
}
