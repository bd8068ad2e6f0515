/** Option and Result, the stand-ins for C#'s null references and thrown exceptions. */
module Wrappers {

  /** A value that may be absent (a nullable reference in the C# code). */
  datatype Option<+T> = None | Some(value: T)

  /** Either a value or the error that the C# code would have thrown.
      Failure-compatible, so `:-` propagates the error as an exception would. */
  datatype Result<+T, +E> = Ok(value: T) | Err(error: E) {
    predicate IsFailure() { Err? }

    function PropagateFailure<U>(): Result<U, E>
      requires Err?
    {
      Err(error)
    }

    function Extract(): T
      requires Ok?
    {
      value
    }
  }
}
