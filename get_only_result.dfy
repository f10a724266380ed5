/** `diesel_helpers::get_only_result`: reading a query that must return one
    row, and what a caller can do with the failure. The database is the row
    stream `load_iter` returns, given as a sequence of rows or row errors. */
module GetOnlyResult {

  import opened Wrappers
  import opened DonErrors
  import opened DonErrorLib

  /** `diesel::result::Error`, known by its message. */
  datatype DieselError = DieselError(message: string)

  /** `impl From<diesel::result::Error> for DonError` */
  function DieselInto(e: DieselError): (r: DonErrorInner)
    ensures r.err.message == e.message && r.context == map[]
  {
    FromError(AnyError(e.message))
  }

  /** What the row iterator yields, in order. */
  type Rows<U> = seq<Result<U, DieselError>>

  predicate AllOk<U>(rows: Rows<U>) {
    forall i :: 0 <= i < |rows| ==> rows[i].Ok?
  }

  function Values<U>(rows: Rows<U>): (vs: seq<U>)
    requires AllOk(rows)
    ensures |vs| == |rows| && forall i :: 0 <= i < |rows| ==> vs[i] == rows[i].value
  {
    seq(|rows|, i requires 0 <= i < |rows| => rows[i].value)
  }

  /** The first two rows, already read, and the rest of the stream, unread. */
  datatype PartiallyLoadedInstances<U> = PartiallyLoadedInstances(first: U, second: U, others: Rows<U>)

  datatype Fail<U> =
    | GetFromPoolError(poolError: DonErrorInner)
    | QueryError(queryError: DieselError)
    | NotFound
    | MultipleInstancesReturned(partial: PartiallyLoadedInstances<U>)

  /** `get_only_result`: `load` is the outcome of `load_iter`. Exactly two
      items are pulled before deciding. */
  function GetOnlyResult<U>(load: Result<Rows<U>, DieselError>): (r: Result<U, Fail<U>>)
    ensures load.Err? ==> r == Err(Fail.QueryError(load.error))
    ensures load.Ok? && |load.value| == 0 ==> r == Err(Fail.NotFound)
    ensures r.Ok? <==> load.Ok? && |load.value| == 1 && load.value[0].Ok?
    ensures r.Ok? ==> r.value == load.value[0].value
    ensures r.Err? && r.error.MultipleInstancesReturned? <==>
              load.Ok? && |load.value| >= 2 && load.value[0].Ok? && load.value[1].Ok?
    ensures r.Err? && r.error.MultipleInstancesReturned? ==>
              r.error.partial == PartiallyLoadedInstances(load.value[0].value, load.value[1].value, load.value[2..])
    ensures r.Err? && r.error.QueryError? && load.Ok? ==>
              exists i :: 0 <= i < 2 && i < |load.value| && load.value[i].Err? && AllOk(load.value[..i])
                          && r.error.queryError == load.value[i].error
    ensures !(r.Err? && r.error.GetFromPoolError?)
  {
    match load
    case Err(e) => Err(Fail.QueryError(e))
    case Ok(rows) =>
      if |rows| == 0 then Err(Fail.NotFound)
      else if rows[0].Err? then Err(Fail.QueryError(rows[0].error))
      else if |rows| == 1 then Ok(rows[0].value)
      else if rows[1].Err? then Err(Fail.QueryError(rows[1].error))
      else Err(Fail.MultipleInstancesReturned(PartiallyLoadedInstances(rows[0].value, rows[1].value, rows[2..])))
  }

  /** The position of the first row error, if any. */
  function FirstError<U>(rows: Rows<U>): (k: Option<nat>)
    ensures k.None? <==> AllOk(rows)
    ensures k.Some? ==> k.value < |rows| && rows[k.value].Err? && AllOk(rows[..k.value])
  {
    if rows == [] then None
    else if rows[0].Err? then Some(0)
    else
      match FirstError(rows[1..])
      case None => None
      case Some(k) =>
        assert rows[..k + 1] == [rows[0]] + rows[1..][..k];
        Some(k + 1)
  }

  /** A row error preceded only by rows is the first error. */
  lemma {:induction false} FirstErrorAt<U>(rows: Rows<U>, i: nat)
    requires i < |rows| && rows[i].Err? && AllOk(rows[..i])
    ensures FirstError(rows) == Some(i)
  {
    if i > 0 {
      assert rows[..i][0] == rows[0];
      assert rows[1..][..i - 1] == rows[..i][1..];
      FirstErrorAt(rows[1..], i - 1);
    }
  }

  /** What `load_all` computes: all rows, or the first error among the unread ones. */
  function LoadAllOf<U>(p: PartiallyLoadedInstances<U>): (r: DonResult<seq<U>>)
    ensures r.Ok? <==> AllOk(p.others)
    ensures r.Ok? ==> r.value == [p.first, p.second] + Values(p.others)
    ensures r.Err? ==> exists k :: 0 <= k < |p.others| && p.others[k].Err? && AllOk(p.others[..k])
                                   && r.error == DieselInto(p.others[k].error)
  {
    match FirstError(p.others)
    case None => Ok([p.first, p.second] + Values(p.others))
    case Some(k) => Err(DieselInto(p.others[k].error))
  }

  /** `PartiallyLoadedInstances::load_all`: reads the rest of the stream. */
  method LoadAll<U>(p: PartiallyLoadedInstances<U>) returns (r: DonResult<seq<U>>)
    ensures r == LoadAllOf(p)
  {
    var results := [p.first, p.second];
    for i := 0 to |p.others|
      invariant AllOk(p.others[..i])
      invariant results == [p.first, p.second] + Values(p.others[..i])
    {
      match p.others[i]
      case Err(e) =>
        FirstErrorAt(p.others, i);
        return Err(DieselInto(e));
      case Ok(v) =>
        assert p.others[..i + 1] == p.others[..i] + [p.others[i]];
        results := results + [v];
    }
    assert p.others[..|p.others|] == p.others;
    return Ok(results);
  }

  /** `optional()`: `NotFound` becomes `Ok(None)`, a row `Ok(Some(row))`. */
  function Optional<U>(r: Result<U, Fail<U>>): (o: Result<Option<U>, Fail<U>>)
    ensures r.Ok? ==> o == Ok(Some(r.value))
    ensures r.Err? && r.error.NotFound? ==> o == Ok(None)
    ensures r.Err? && !r.error.NotFound? ==> o == Err(r.error)
  {
    if r.Ok? then Ok(Some(r.value))
    else if r.error.NotFound? then Ok(None)
    else Err(r.error)
  }

  datatype UniqueFail<U> =
    | NotFound
    | MultipleInstancesReturned(partial: PartiallyLoadedInstances<U>)

  datatype UniqueFailWithResults<U> =
    | NotFound
    | MultipleInstancesReturned(rows: seq<U>)

  /** `impl From<Fail> for DonError` */
  function FailInto<U>(f: Fail<U>): (e: DonErrorInner)
    ensures f.GetFromPoolError? ==> e == f.poolError
    ensures f.QueryError? ==> e == DieselInto(f.queryError)
    ensures f.NotFound? ==> e == ErrMsg("No instance returned on get_only_result")
    ensures f.MultipleInstancesReturned? ==> e == ErrMsg("Multiple instances returned on get_only_result")
  {
    if f.GetFromPoolError? then f.poolError
    else if f.QueryError? then DieselInto(f.queryError)
    else if f.NotFound? then ErrMsg("No instance returned on get_only_result")
    else ErrMsg("Multiple instances returned on get_only_result")
  }

  /** `unique_or_fail()`: pool and query errors are internal errors; "not
      found" and "several" are expected failures. */
  function UniqueOrFail<U>(r: Result<U, Fail<U>>): (u: DonResult<Result<U, UniqueFail<U>>>)
    ensures r.Ok? ==> u == Ok(Ok(r.value))
    ensures u.Err? <==> r.Err? && (r.error.GetFromPoolError? || r.error.QueryError?)
    ensures u.Err? ==> u.error == FailInto(r.error)
    ensures r.Err? && r.error.NotFound? ==> u == Ok(Err(UniqueFail.NotFound))
    ensures r.Err? && r.error.MultipleInstancesReturned? ==>
              u == Ok(Err(UniqueFail.MultipleInstancesReturned(r.error.partial)))
  {
    if r.Ok? then Ok(Ok(r.value))
    else if r.error.GetFromPoolError? || r.error.QueryError? then Err(FailInto(r.error))
    else if r.error.NotFound? then Ok(Err(UniqueFail.NotFound))
    else Ok(Err(UniqueFail.MultipleInstancesReturned(r.error.partial)))
  }

  /** `UniqueFail::into_results`: `None` when nothing was found, all the rows
      when several were. */
  function IntoResults<U>(f: UniqueFail<U>): (r: DonResult<Option<seq<U>>>)
    ensures f.NotFound? ==> r == Ok(None)
    ensures f.MultipleInstancesReturned? ==>
              match LoadAllOf(f.partial)
              case Ok(rows) => r == Ok(Some(rows))
              case Err(e) => r == Err(e)
  {
    if f.NotFound? then Ok(None)
    else
      match LoadAllOf(f.partial)
      case Ok(rows) => Ok(Some(rows))
      case Err(e) => Err(e)
  }

  /** `unique_or_fail_with_results()`: like `unique_or_fail`, with the
      remaining rows loaded when there are several. */
  function UniqueOrFailWithResults<U>(r: Result<U, Fail<U>>): (u: DonResult<Result<U, UniqueFailWithResults<U>>>)
    ensures r.Ok? ==> u == Ok(Ok(r.value))
    ensures r.Err? && (r.error.GetFromPoolError? || r.error.QueryError?) ==> u == Err(FailInto(r.error))
    ensures r.Err? && r.error.NotFound? ==> u == Ok(Err(UniqueFailWithResults.NotFound))
    ensures r.Err? && r.error.MultipleInstancesReturned? ==>
              match LoadAllOf(r.error.partial)
              case Ok(rows) => u == Ok(Err(UniqueFailWithResults.MultipleInstancesReturned(rows)))
              case Err(e) => u == Err(e)
  {
    match UniqueOrFail(r)
    case Err(e) => Err(e)
    case Ok(Ok(v)) => Ok(Ok(v))
    case Ok(Err(f)) =>
      if f.NotFound? then Ok(Err(UniqueFailWithResults.NotFound))
      else
        match LoadAllOf(f.partial)
        case Ok(rows) => Ok(Err(UniqueFailWithResults.MultipleInstancesReturned(rows)))
        case Err(e) => Err(e)
  }

  /** Reading a query whose rows all load: one row is the result; several are
      all given back, in order, once the rest is loaded. */
  lemma GetOnlyThenLoadAll<U>(rows: Rows<U>)
    requires AllOk(rows)
    ensures |rows| == 0 ==> UniqueOrFailWithResults(GetOnlyResult(Ok(rows))) == Ok(Err(UniqueFailWithResults.NotFound))
    ensures |rows| == 1 ==> UniqueOrFailWithResults(GetOnlyResult(Ok(rows))) == Ok(Ok(rows[0].value))
    ensures |rows| >= 2 ==>
              UniqueOrFailWithResults(GetOnlyResult(Ok(rows))) == Ok(Err(UniqueFailWithResults.MultipleInstancesReturned(Values(rows))))
  {
    if |rows| >= 2 {
      var p := PartiallyLoadedInstances(rows[0].value, rows[1].value, rows[2..]);
      assert AllOk(rows[2..]) by {
        forall i | 0 <= i < |rows[2..]| ensures rows[2..][i].Ok? {
          assert rows[2..][i] == rows[i + 2];
        }
      }
      assert [p.first, p.second] + Values(p.others) == Values(rows);
    }
  }
}
