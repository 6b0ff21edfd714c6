/** `Result<T>`: the immutable single-item envelope. Its properties are
    get-only and set once by the protected constructor, so it is a datatype;
    the two static factories are the only ways to build one. */
module Results {
  import opened Common

  /** `data == None` stands for `default(T)`; `error == None` for `null`. */
  datatype Result<+T> = Result(isSuccess: bool, data: Option<T>, error: Option<string>, statusCode: int)
  {
    /** Exactly one of payload and error is meaningful, as the flag says. */
    predicate WellFormed() {
      if isSuccess then data.Some? && error.None? else data.None? && error.Some?
    }
  }

  /** `Result<T>.Success(data, statusCode = 200)`. */
  function Success<T>(data: T, statusCode: int := 200): (r: Result<T>)
    ensures r.WellFormed() && r.isSuccess
    ensures r.data == Some(data) && r.statusCode == statusCode
  {
    Result(true, Some(data), None, statusCode)
  }

  /** `Result<T>.Failure(error, statusCode = 400)`. */
  function Failure<T>(error: string, statusCode: int := 400): (r: Result<T>)
    ensures r.WellFormed() && !r.isSuccess
    ensures r.error == Some(error) && r.statusCode == statusCode
  {
    Result(false, None, Some(error), statusCode)
  }

  /** The defaults: 200 for a success, 400 for a failure. */
  lemma DefaultStatusCodes<T>(data: T, error: string)
    ensures Success(data).statusCode == 200
    ensures Failure<T>(error).statusCode == 400
  {
  }

  /** The factories are a complete and unambiguous description of well-formed
      envelopes: each well-formed envelope is built by exactly one factory from
      the values it exposes. */
  lemma WellFormedIsFactoryMade<T>(r: Result<T>)
    requires r.WellFormed()
    ensures r.isSuccess ==> r == Success(r.data.value, r.statusCode)
    ensures !r.isSuccess ==> r == Failure(r.error.value, r.statusCode)
  {
  }

  /** A success never equals a failure, whatever the arguments. */
  lemma SuccessIsNotFailure<T>(data: T, error: string, s: int, f: int)
    ensures Success(data, s) != Failure(error, f)
  {
  }
}
