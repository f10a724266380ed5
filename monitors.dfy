/** `screens_config`: the monitor topology. */
module Monitors {

  import opened Wrappers
  import opened DonErrors
  import opened DonErrorLib

  datatype ScreensConfig =
    | SingleScreen
    | DualScreenSameResolution
    | DualScreenDifferentResolution
    | ThreeScreensOrMore

  datatype Size = Size(width: int, height: int)

  /** `screens_config`, given the outcome of querying the window system: an
      error building the context or counting, or the sizes of the monitors
      (as many as the count, in monitor order). */
  function ScreensConfigOf(query: DonResult<seq<Size>>): (r: DonResult<ScreensConfig>)
    ensures query.Err? ==> r == Err(query.error)
    ensures query.Ok? && |query.value| == 0 ==> r == Bail("No screen availables")
    ensures query.Ok? && |query.value| == 1 ==> r == Ok(SingleScreen)
    ensures query.Ok? && |query.value| == 2 ==>
              r == Ok(if query.value[0] == query.value[1] then DualScreenSameResolution
                      else DualScreenDifferentResolution)
    ensures query.Ok? && |query.value| >= 3 ==> r == Ok(ThreeScreensOrMore)
  {
    match query
    case Err(e) => Err(e)
    case Ok(sizes) =>
      if |sizes| == 0 then Bail("No screen availables")
      else if |sizes| == 1 then Ok(SingleScreen)
      else if |sizes| == 2 && sizes[0] == sizes[1] then Ok(DualScreenSameResolution)
      else if |sizes| == 2 then Ok(DualScreenDifferentResolution)
      else Ok(ThreeScreensOrMore)
  }

  /** Only the count and the first two sizes matter. */
  lemma ScreensConfigDependsOnFirstTwo(a: seq<Size>, b: seq<Size>)
    requires |a| == |b|
    requires |a| == 2 ==> a[0] == b[0] && a[1] == b[1]
    ensures ScreensConfigOf(Ok(a)) == ScreensConfigOf(Ok(b))
  {
  }
}
