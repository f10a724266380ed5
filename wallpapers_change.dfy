/** `wallpapers/change.rs`: the newer variant of the wallpaper chooser. The
    bucket directories are configured; the split on the draw is inclusive;
    both buckets are shown with `--bg-max`. */
module WallpapersChange {

  import opened Wrappers
  import opened DonErrors
  import opened DonErrorLib
  import opened Process
  import opened Monitors
  import opened WallpaperCommon
  import WallpapersChoose

  /** `choose_single_or_dual_randomly`: single when the draw is at most the probability. */
  function ChooseSingleOrDualRandomly(probability: Limit, draw: Draw): (b: Bucket)
    ensures b == Single <==> AtMost(draw, probability)
  {
    if AtMost(draw, probability) then Single else Dual
  }

  /** The bucket `once` shows, given the topology, the mode, the entry counts
      of the two configured directories (read only in proportionate mode) and the draw. */
  function ChangeBucket(screens: ScreensConfig, mode: Mode, singleEntries: DonResult<nat>,
                        dualEntries: DonResult<nat>, draw: Draw): (r: DonResult<Bucket>)
    ensures screens != DualScreenSameResolution ==> r == Ok(Single)
    ensures screens == DualScreenSameResolution && mode == OnlySingle ==> r == Ok(Single)
    ensures screens == DualScreenSameResolution && mode == OnlyDual ==> r == Ok(Dual)
    ensures screens == DualScreenSameResolution && mode == FiftyFifty ==>
              r == Ok(if draw <= 0.5 then Single else Dual)
    ensures screens == DualScreenSameResolution && mode == ProportionateToNumberOfFiles ==>
              if singleEntries.Err? then r == Err(singleEntries.error)
              else if dualEntries.Err? then r == Err(dualEntries.error)
              else r.Ok? && (r.value == Single <==> AtMost(draw, ProportionateLimit(singleEntries.value, dualEntries.value)))
  {
    if screens != DualScreenSameResolution then Ok(Single)
    else
      match mode
      case OnlySingle => Ok(Single)
      case OnlyDual => Ok(Dual)
      case FiftyFifty => Ok(ChooseSingleOrDualRandomly(Finite(0.5), draw))
      case ProportionateToNumberOfFiles =>
        match singleEntries
        case Err(e) => Err(e)
        case Ok(ns) =>
          match dualEntries
          case Err(e) => Err(e)
          case Ok(nd) => Ok(ChooseSingleOrDualRandomly(ProportionateLimit(ns, nd), draw))
  }

  /** The `feh` invocation for a bucket, the directory names being configured. */
  function FehCommand(wallpapersDir: string, singleDir: string, dualDir: string, b: Bucket): (c: Command)
    ensures c.program == "feh"
    ensures b == Single ==> c.args == ["--bg-max", "--no-fehbg", "--random", wallpapersDir + "/" + singleDir]
    ensures b == Dual ==> c.args == ["--bg-max", "--no-fehbg", "--no-xinerama", "--random", wallpapersDir + "/" + dualDir]
  {
    match b
    case Single => Command("feh", ["--bg-max", "--no-fehbg", "--random", wallpapersDir + "/" + singleDir])
    case Dual => Command("feh", ["--bg-max", "--no-fehbg", "--no-xinerama", "--random", wallpapersDir + "/" + dualDir])
  }

  /** `once`, given the monitor query's outcome, the entry counts, the draw
      and what running `feh` gives. */
  function Once(screens: DonResult<ScreensConfig>, mode: Mode, singleEntries: DonResult<nat>,
                dualEntries: DonResult<nat>, draw: Draw, wallpapersDir: string, singleDir: string,
                dualDir: string, feh: Command -> Spawn): (r: DonResult<()>)
    ensures screens.Err? ==> r == Err(screens.error)
    ensures screens.Ok? && ChangeBucket(screens.value, mode, singleEntries, dualEntries, draw).Ok? ==>
              r == RunCommand(feh(FehCommand(wallpapersDir, singleDir, dualDir,
                                             ChangeBucket(screens.value, mode, singleEntries, dualEntries, draw).value)))
  {
    match screens
    case Err(e) => Err(e)
    case Ok(config) =>
      match ChangeBucket(config, mode, singleEntries, dualEntries, draw)
      case Err(e) => Err(e)
      case Ok(b) => RunCommand(feh(FehCommand(wallpapersDir, singleDir, dualDir, b)))
  }

  /** The two variants differ on a draw of exactly 0.5 in fifty-fifty mode. */
  lemma FiftyFiftyBoundary()
    ensures WallpapersChoose.ChooseBucket(DualScreenSameResolution, FiftyFifty, Ok(0), Ok(0), 0.5) == Ok(Dual)
    ensures ChangeBucket(DualScreenSameResolution, FiftyFifty, Ok(0), Ok(0), 0.5) == Ok(Single)
  {
  }

  /** They also differ with an empty single directory: a draw of 0 still
      shows the (empty) single bucket here. */
  lemma EmptySingleDirectory(dualEntries: nat)
    requires dualEntries > 0
    ensures ChangeBucket(DualScreenSameResolution, ProportionateToNumberOfFiles, Ok(0), Ok(dualEntries), 0.0) == Ok(Single)
    ensures WallpapersChoose.ChooseBucket(DualScreenSameResolution, ProportionateToNumberOfFiles, Ok(0), Ok(dualEntries), 0.0) == Ok(Dual)
  {
    assert ProportionateLimit(0, dualEntries) == Finite(0.0);
  }

  /** Elsewhere the two agree: they differ only on draws equal to the limit. */
  lemma AgreeOffTheLimit(screens: ScreensConfig, mode: Mode, singleEntries: DonResult<nat>,
                         dualEntries: DonResult<nat>, draw: Draw)
    requires mode == FiftyFifty ==> draw != 0.5
    requires mode == ProportionateToNumberOfFiles && singleEntries.Ok? && dualEntries.Ok?
             && ProportionateLimit(singleEntries.value, dualEntries.value).Finite? ==>
               draw != ProportionateLimit(singleEntries.value, dualEntries.value).value
    ensures ChangeBucket(screens, mode, singleEntries, dualEntries, draw)
            == WallpapersChoose.ChooseBucket(screens, mode, singleEntries, dualEntries, draw)
  {
  }
}
