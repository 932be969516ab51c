/** The value-carrying outcome container `Result<T>` (Railway.Core/Result.Generic.cs). */
module Results {

  import opened Errors
  import Options

  /** Either the value of a successful operation or the Error that stopped it.
      The tagged union makes "a value is present exactly on success" structural. */
  datatype Result<+T> = Ok(value: T) | Fail(error: Error) {

    /** The `IsSuccess` property. */
    predicate IsSuccess() {
      Ok?
    }

    /** The `Error` property: a success carries the sentinel. */
    function Err(): Error {
      if Ok? then None else error
    }
  }

  /** The private constructor `Result(isSuccess, value, error)`: the Error it stores
      is the sentinel whenever `isSuccess` holds, whatever was passed. */
  function New<T>(isSuccess: bool, value: T, error: Error): (r: Result<T>)
    ensures r.IsSuccess() == isSuccess
    ensures isSuccess ==> r.value == value && r.Err() == None
    ensures !isSuccess ==> r.Err() == error
  {
    if isSuccess then Ok(value) else Fail(error)
  }

  /** `Result<T>.Success(value)`. */
  function Success<T>(value: T): (r: Result<T>)
    ensures r.IsSuccess() && r.value == value && r.Err() == None
  {
    New(true, value, None)
  }

  /** `Result<T>.Create(value)`: the same as `Success(value)`. */
  function Create<T>(value: T): (r: Result<T>)
    ensures r.IsSuccess() && r.value == value && r.Err() == None
  {
    Success(value)
  }

  /** `Result<T>.Failure(error)`: keeps `error` verbatim, even the sentinel. */
  function Failure<T>(error: Error): (r: Result<T>)
    ensures !r.IsSuccess() && r.Err() == error
  {
    Fail(error)
  }

  /** `Failure` passes `default` as the value; whatever stands for that default,
      the constructor builds the same result. */
  lemma FailureIgnoresValue<T>(error: Error, v: T)
    ensures New(false, v, error) == Failure(error)
  {
  }

  /** `Result<T>.FromNullable(value, error)`: absence becomes `Failure(error)`. */
  function FromNullable<T>(value: Options.Option<T>, error: Error): (r: Result<T>)
    ensures r.IsSuccess() <==> value.Some?
    ensures value.Some? ==> r.value == value.value && r.Err() == None
    ensures value.None? ==> r.Err() == error
  {
    match value
    case None => Failure(error)
    case Some(v) => Success(v)
  }

}
