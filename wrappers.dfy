/** Presence markers and failure-compatible results shared by the whole model.
    Option stands for a Java reference that may be null; Result for a call
    that either returns a value or throws. */
module Wrappers {

  datatype Option<+T> = None | Some(value: T)

  /** Success or a thrown exception; usable with `:-`, which plays the part
      of Java's `orElseThrow` followed by the early exit of the exception. */
  datatype Result<+T, +E> = Success(value: T) | Failure(error: E) {

    predicate IsFailure() {
      Failure?
    }

    function PropagateFailure<U>(): Result<U, E>
      requires Failure?
    {
      Failure(error)
    }

    function Extract(): T
      requires Success?
    {
      value
    }
  }
}
