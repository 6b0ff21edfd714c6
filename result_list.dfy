/** `ResultList<T>`: the immutable list envelope, with a record count that
    is passed separately from the items. */
module ResultLists {
  import opened Common

  /** `data == None` stands for `default(IEnumerable<T>)`, i.e. `null`. */
  datatype ResultList<+T> = ResultList(
    isSuccess: bool,
    data: Option<seq<T>>,
    error: Option<string>,
    statusCode: int,
    totalRecords: int)
  {
    /** Exactly one of payload and error is meaningful, as the flag says. */
    predicate WellFormed() {
      if isSuccess then data.Some? && error.None? else data.None? && error.Some? && totalRecords == 0
    }
  }

  /** `ResultList<T>.Success(data, totalRecords, statusCode = 200)`. */
  function Success<T>(data: seq<T>, totalRecords: int, statusCode: int := 200): (r: ResultList<T>)
    ensures r.WellFormed() && r.isSuccess
    ensures r.data == Some(data) && r.totalRecords == totalRecords && r.statusCode == statusCode
  {
    ResultList(true, Some(data), None, statusCode, totalRecords)
  }

  /** `ResultList<T>.Failure(error, statusCode = 400)`: no items, zero records. */
  function Failure<T>(error: string, statusCode: int := 400): (r: ResultList<T>)
    ensures r.WellFormed() && !r.isSuccess
    ensures r.error == Some(error) && r.totalRecords == 0 && r.statusCode == statusCode
  {
    ResultList(false, None, Some(error), statusCode, 0)
  }

  /** The defaults: 200 for a success, 400 for a failure. */
  lemma DefaultStatusCodes<T>(data: seq<T>, total: int, error: string)
    ensures Success(data, total).statusCode == 200
    ensures Failure<T>(error).statusCode == 400
  {
  }

  /** Each well-formed envelope is built by exactly one factory from the
      values it exposes. */
  lemma WellFormedIsFactoryMade<T>(r: ResultList<T>)
    requires r.WellFormed()
    ensures r.isSuccess ==> r == Success(r.data.value, r.totalRecords, r.statusCode)
    ensures !r.isSuccess ==> r == Failure(r.error.value, r.statusCode)
  {
  }

  /** `TotalRecords` is not tied to the number of items: a success that
      reports a count different from its list is still well formed. */
  lemma TotalRecordsIsIndependent<T>(data: seq<T>, total: int)
    requires total != |data|
    ensures Success(data, total).WellFormed()
    ensures Success(data, total).totalRecords != |Success(data, total).data.value|
  {
  }
}
