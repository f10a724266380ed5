/** `DonResultResultExtensions` for `Result<T, E>` where `E: Into<DonError>`.
    The conversion `Into<DonError>` is the parameter `into`: `FromError` for a
    foreign error, the identity for a `DonError`. */
module ResultExtensions {

  import opened Wrappers
  import opened DonErrorCtx
  import opened DonErrors
  import opened DonErrorLib

  /** `err_ctx(&context)`: an `Ok` value passes unchanged; an error is converted
      and gets every pair of the context attached, keeping what it had. */
  function ErrCtx<T, E>(r: Result<T, E>, into: E -> DonErrorInner, ctx: DonErrorContext): (r': DonResult<T>)
    reads ctx
    ensures r.Ok? <==> r'.Ok?
    ensures r.Ok? ==> r'.value == r.value
    ensures r.Err? ==> r'.error == into(r.error).WithCtx(ctx.inner)
    ensures r.Err? ==>
              && r'.error.err == into(r.error).err
              && into(r.error).context.Keys <= r'.error.context.Keys
              && |r'.error.context| == |into(r.error).context| + |ctx.inner|
  {
    match r
    case Ok(v) => Ok(v)
    case Err(e) => Err(into(e).WithCtx(ctx.inner))
  }

  /** `err_ctx_val(key, value)`: an error gets exactly one more entry. */
  function ErrCtxVal<T, E>(r: Result<T, E>, into: E -> DonErrorInner, key: string, value: Json): (r': DonResult<T>)
    ensures r.Ok? <==> r'.Ok?
    ensures r.Ok? ==> r'.value == r.value
    ensures r.Err? ==> r'.error == into(r.error).WithCtxVal(key, value)
    ensures r.Err? ==> |r'.error.context| == |into(r.error).context| + 1
  {
    match r
    case Ok(v) => Ok(v)
    case Err(e) => Err(into(e).WithCtxVal(key, value))
  }

  /** `err_ctx_ser(key, serializable)`: `err_ctx_val` with the serialised value. */
  function ErrCtxSer<T, E, S>(r: Result<T, E>, into: E -> DonErrorInner, key: string,
                              serializable: S, serialize: S -> Json): (r': DonResult<T>)
    ensures r' == ErrCtxVal(r, into, key, Serialized(serializable, serialize))
    ensures r.Ok? ==> r' == Ok(r.value)
  {
    ErrCtxVal(r, into, key, Serialized(serializable, serialize))
  }

  /** `map_err_to_fail(op)`: splits an error into an expected failure
      (`Ok(Err(f))`) or an internal error (`Err`). `op` is only applied to an
      error. */
  function MapErrToFail<T, E, F, E2>(r: Result<T, E>, op: E -> Result<F, E2>,
                                     into: E2 -> DonErrorInner): (r': DonResult<Result<T, F>>)
    ensures r.Ok? ==> r' == Ok(Ok(r.value))
    ensures r.Err? && op(r.error).Ok? ==> r' == Ok(Err(op(r.error).value))
    ensures r.Err? && op(r.error).Err? ==> r' == Err(into(op(r.error).error))
    ensures r'.Ok? && r'.value.Ok? ==> r.Ok?
  {
    match r
    case Ok(v) => Ok(Ok(v))
    case Err(e) =>
      match op(e)
      case Ok(f) => Ok(Err(f))
      case Err(e2) => Err(into(e2))
  }

  /** The two variants of the documentation example of `map_err_to_fail`. */
  datatype LibraryError = Variant1 | Variant2
  datatype MyFail = MyFail

  function LibraryFn(invalidInput: bool): Result<(), LibraryError>
  {
    if invalidInput then Err(Variant1) else Err(Variant2)
  }

  function ToFail(e: LibraryError): Result<MyFail, LibraryError>
  {
    match e
    case Variant1 => Ok(MyFail)
    case _ => Err(e)
  }

  function LibraryErrorInto(e: LibraryError): DonErrorInner
  {
    FromError(AnyError(if e == Variant1 then "Variant1" else "Variant2"))
  }

  /** The documentation example: `Variant1` is a failure, `Variant2` an error. */
  lemma MapErrToFailDocExample()
    ensures MapErrToFail(LibraryFn(true), ToFail, LibraryErrorInto) == Ok(Err(MyFail))
    ensures MapErrToFail(LibraryFn(false), ToFail, LibraryErrorInto).Err?
  {
  }
}
