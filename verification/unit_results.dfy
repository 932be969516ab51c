/** The value-less outcome container, the non-generic `Result` (Railway.Core/Result.Unit.cs). */
module UnitResults {

  import opened Errors

  /** Success without a payload, or the Error that stopped the operation. */
  datatype UnitResult = Done | Failed(error: Error) {

    /** The `IsSuccess` property. */
    predicate IsSuccess() {
      Done?
    }

    /** The `Error` property: a success carries the sentinel. */
    function Err(): Error {
      if Done? then None else error
    }
  }

  /** The private constructor `Result(isSuccess, error)`: on success the stored
      Error is the sentinel whatever was passed. */
  function New(isSuccess: bool, error: Error): (r: UnitResult)
    ensures r.IsSuccess() == isSuccess
    ensures r.Err() == if isSuccess then None else error
  {
    if isSuccess then Done else Failed(error)
  }

  /** `Result.Success()`. */
  function Success(): (r: UnitResult)
    ensures r.IsSuccess() && r.Err() == None
  {
    New(true, None)
  }

  /** `Result.Create()`: the same as `Success()`. */
  function Create(): (r: UnitResult)
    ensures r.IsSuccess() && r.Err() == None
  {
    Success()
  }

  /** `Result.Failure(error)`: keeps `error` verbatim. */
  function Failure(error: Error): (r: UnitResult)
    ensures !r.IsSuccess() && r.Err() == error
  {
    New(false, error)
  }

}
