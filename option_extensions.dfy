/** `DonResultOptionExtensions` for `Option`. */
module OptionExtensions {

  import opened Wrappers
  import opened DonErrors
  import opened DonErrorLib

  /** `ok_or_don_err(msg)`: `Some(x)` becomes `Ok(x)`; `None` an error whose
      message is exactly `msg` and whose context is empty. */
  function OkOrDonErr<T>(o: Option<T>, msg: string): (r: DonResult<T>)
    ensures o.Some? <==> r.Ok?
    ensures o.Some? ==> r.value == o.value
    ensures o.None? ==> r.error.err.message == msg && r.error.context == map[]
  {
    match o
    case Some(x) => Ok(x)
    case None => Err(ErrMsg(msg))
  }
}
