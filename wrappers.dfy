/** Failure-compatible wrappers used by the price monitor model. */
module Wrappers {

  /** A value that may be absent; Python's `None` is `None`. */
  datatype Option<+T> = None | Some(value: T)

  /** The outcome of a step that may raise: `Failure` carries what went wrong. */
  datatype Result<+R, +E> = Success(value: R) | Failure(error: E) {
    predicate IsFailure() {
      Failure?
    }

    function PropagateFailure<U>(): Result<U, E>
      requires Failure?
    {
      Failure(error)
    }

    function Extract(): R
      requires Success?
    {
      value
    }
  }
}
