/** Failure-compatible wrappers shared by every module of the model. */
module Wrappers {

  /** A value that may be absent: JavaScript's `null` / `undefined` as a datatype. */
  datatype Option<+T> = None | Some(value: T)

  /** The outcome of an operation that may throw (or reject its promise). */
  datatype Result<+T, +E> = Success(value: T) | Failure(error: E) {
    predicate IsFailure() {
      Failure?
    }

    function PropagateFailure<U>(): Result<U, E>
      requires Failure?
    {
      Failure(error)
    }

    function Extract(): T
      requires Success?
    {
      value
    }
  }

  function Min(a: int, b: int): int {
    if a <= b then a else b
  }
}
