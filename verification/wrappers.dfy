/** Failure-compatible datatypes used by the Markdown backend model. */
module Wrappers {

  /** An optional value; the source's `None`. */
  datatype Option<+T> = None | Some(value: T)

  /** The outcome of a computation that may raise: a value, or the error that aborted it. */
  datatype Result<+T, +E> = Success(value: T) | Failure(error: E) {

    predicate IsFailure() {
      Failure?
    }

    function PropagateFailure<U>(): Result<U, E>
      requires Failure?
    {
      Failure(error)
    }

    function Extract(): T
      requires Success?
    {
      value
    }
  }
}
