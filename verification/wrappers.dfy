/** The optional value and the success-or-error result that every phase of the report returns. */
module Wrappers {

  /** A value that may be absent, as a custom attribute that has not been set. */
  datatype Option<+T> = None | Some(value: T)

  /** The outcome of a phase: its new data, or the exception that aborts the report. */
  datatype Result<+R, +E> = Success(value: R) | Failure(error: E) {

    predicate IsFailure() {
      Failure?
    }

    function PropagateFailure<U>(): Result<U, E>
      requires Failure?
    {
      Failure(error)
    }

    function Extract(): R
      requires Success?
    {
      value
    }
  }
}
