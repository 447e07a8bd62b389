/** Optional values and results used where the C# code returns null or throws. */
module Wrappers {

  /** A value that may be absent (a C# null reference or an empty slot). */
  datatype Option<+T> = None | Some(value: T)

  /** The outcome of an operation that either produces a value or throws; usable with `:-`. */
  datatype Result<+T, +E> = Success(value: T) | Failure(error: E)
  {
    predicate IsFailure() { Failure? }

    function PropagateFailure<U>(): Result<U, E>
      requires Failure?
    {
      Failure(error)
    }

    function Extract(): T
      requires Success?
    {
      value
    }
  }

  /** The outcome of an operation that produces nothing but may throw. */
  datatype Outcome<+E> = Pass | Fail(error: E)
}
