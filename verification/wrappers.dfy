/** Optional values and error-carrying results, used by every module of the
    report job; `Result` supports the `:-` operator. */
module Wrappers {

  /** Python's `None` versus a present value. */
  datatype Option<+T> = None | Some(value: T) {

    /** The value, or `default` when absent (Python's `dict.get(k, default)`). */
    function GetOr(default: T): T {
      match this
      case Some(v) => v
      case None => default
    }
  }

  /** Either a value or the exception the program would raise instead. */
  datatype Result<+T, +E> = Success(value: T) | Failure(error: E) {

    // The three members below let `:-` stop at the first exception.

    predicate IsFailure() {
      Failure?
    }

    function PropagateFailure<U>(): Result<U, E>
      requires Failure?
    {
      Failure(error)
    }

    function Extract(): T
      requires Success?
    {
      value
    }
  }
}
