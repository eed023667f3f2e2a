/** The read handlers of crud.go: `getID`, `Get` (one record by id) and
    `Gets` (a filtered, projected, paged list in a `Result` envelope). The
    store is represented by the outcomes of the calls the handlers make. */
module Reads {
  import opened Wrappers
  import opened GoInts
  import opened QueryParams
  import opened Translator

  /** `getID`: the `:id` path parameter through `strconv.Atoi`, then `uint`. */
  function GetID(param: string): (r: Result<Uint64, Error>)
    ensures r.Failure? <==> Atoi(param).Failure?
    ensures r.Failure? ==> r.error == ParseError(param)
    ensures r.Success? ==> (r.value - Atoi(param).value) % TwoTo64 == 0
    ensures r.Success? && Atoi(param).value >= 0 ==> r.value == Atoi(param).value
  {
    match Atoi(param)
    case Failure(e) => Failure(e)
    case Success(i) => Success(ToUint64(i))
  }

  /** Every id up to MaxInt64 written in decimal comes back unchanged. */
  lemma GetIDRoundTrip(id: nat)
    requires id <= MaxInt64
    ensures GetID(FormatInt(id)) == Success(id)
  {
    AtoiRoundTrip(id);
  }

  /** A negative id is not refused: "-1" addresses id 2^64-1. */
  lemma NegativeIDWraps()
    ensures GetID("-1") == Success(TwoTo64 - 1)
  {
  }

  /** The outcome of `First` on the id lookup. */
  datatype Lookup<R> = Found(record: R) | NotFound | LookupError(error: Error)

  /** `Get`: parse the id, then look the record up; a record-not-found
      outcome is a nil record with a nil error, not an error. */
  function Get<R>(param: string, first: Uint64 -> Lookup<R>): (r: Result<Option<R>, Error>)
    ensures GetID(param).Failure? ==> r == Failure(ParseError(param))
    ensures GetID(param).Success? ==>
      match first(GetID(param).value)
      case Found(rec) => r == Success(Some(rec))
      case NotFound => r == Success(None)
      case LookupError(e) => r == Failure(e)
  {
    match GetID(param)
    case Failure(e) => Failure(e)
    case Success(id) =>
      match first(id)
      case Found(rec) => Success(Some(rec))
      case NotFound => Success(None)
      case LookupError(e) => Failure(e)
  }

  /** A malformed id fails before the store is consulted: the outcome does
      not depend on the store at all. */
  lemma GetParsesBeforeLookup<R>(param: string, first: Uint64 -> Lookup<R>, first': Uint64 -> Lookup<R>)
    requires Atoi(param).Failure?
    ensures Get(param, first) == Get(param, first') == Failure(ParseError(param))
  {
  }

  /** The list envelope: the bound query echoed, the number of rows
      returned, the whole-table total, and the rows. */
  datatype ListResult<R> = ListResult(query: Query, count: int, total: int, rows: seq<R>)

  /** `Gets`: bind, count the whole table, translate, find. `table` is the
      model's table as `Count` sees it; `countError` is the failure of that
      call, if any; `find` runs a plan against the store. */
  function Gets<R>(
    bound: Result<Query, Error>,
    form: Form,
    s: Schema,
    table: seq<R>,
    countError: Option<Error>,
    find: Plan -> Result<seq<R>, Error>
  ): (r: Result<ListResult<R>, Error>)
    ensures bound.Failure? ==> r == Failure(bound.error)
    ensures bound.Success? && countError.Some? ==> r == Failure(countError.value)
    ensures bound.Success? && countError.None? ==>
      match find(Translate(bound.value, form, s))
      case Failure(e) => r == Failure(e)
      case Success(rows) => r == Success(ListResult(bound.value, |rows|, |table|, rows))
  {
    match bound
    case Failure(e) => Failure(e)
    case Success(q) =>
      if countError.Some? then Failure(countError.value)
      else
        match find(Translate(q, form, s))
        case Failure(e) => Failure(e)
        case Success(rows) => Success(ListResult(q, |rows|, |table|, rows))
  }

  /** The total is taken before the request shapes the query: two list
      requests over the same table report the same total, whatever their
      filters, projection, sort or paging; the count is the rows returned. */
  lemma TotalIgnoresRequest<R>(
    q: Query, q': Query, form: Form, form': Form, s: Schema, table: seq<R>,
    find: Plan -> Result<seq<R>, Error>)
    requires find(Translate(q, form, s)).Success? && find(Translate(q', form', s)).Success?
    ensures Gets(Success(q), form, s, table, None, find).Success?
    ensures Gets(Success(q'), form', s, table, None, find).Success?
    ensures Gets(Success(q), form, s, table, None, find).value.total
         == Gets(Success(q'), form', s, table, None, find).value.total
         == |table|
    ensures Gets(Success(q), form, s, table, None, find).value.count
         == |find(Translate(q, form, s)).value|
  {
  }
}
