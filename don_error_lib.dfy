/** The crate root of `don_error`: `DonResult`, `try_or_report`, `err_msg!`
    and `bail!`. */
module DonErrorLib {

  import opened Wrappers
  import opened DonErrors

  /** `DonResult<T> = Result<T, DonError>` */
  type DonResult<T> = Result<T, DonErrorInner>

  /** `err_msg!(...)`, given the already formatted message: a fresh error
      with that message and an empty context. */
  function ErrMsg(message: string): (e: DonErrorInner)
    ensures e.err.message == message && e.context == map[]
  {
    FromError(AnyError(message))
  }

  /** `bail!(...)`: the enclosing function returns this error at once. */
  function Bail<T>(message: string): (r: DonResult<T>)
    ensures r.Err? && r.error.err.message == message && r.error.context == map[]
  {
    Err(ErrMsg(message))
  }

  /** `try_or_report(lambda)`, given what the single call of `lambda` returned:
      the errors reported (printed). Nothing is propagated. */
  function TryOrReport(outcome: DonResult<()>): (reports: seq<DonErrorInner>)
    ensures outcome.Ok? <==> reports == []
    ensures outcome.Err? ==> reports == [outcome.error]
  {
    match outcome
    case Ok(_) => []
    case Err(e) => [e]
  }
}
