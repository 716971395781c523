/** Failure-carrying result types shared by the front end's modules. */
module Wrappers {

  /** A value that may be absent: the model of a possibly-NULL pointer result. */
  datatype Option<+T> = None | Some(value: T)

  /** Either a value or the error that aborts the front end. `:-` on a Result
      stops at the first error and hands it on, as the source's calls to exit
      stop the whole run. */
  datatype Result<+T, +E> = Ok(value: T) | Err(error: E)
  {
    predicate IsFailure() {
      Err?
    }

    function PropagateFailure<U>(): Result<U, E>
      requires Err?
    {
      Err(error)
    }

    function Extract(): T
      requires Ok?
    {
      value
    }
  }

  /** An operation that either succeeds or fails with an error, with no value. */
  datatype Outcome<+E> = Pass | Fail(error: E)
}
