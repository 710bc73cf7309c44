/** Failure-compatible result types standing in for the exceptions the
    command parser throws. */
module Wrappers {

  datatype Option<+T> = None | Some(value: T)

  /** The value of an operation that either yields a `T` or throws `E`. */
  datatype Result<+T, +E> = Ok(value: T) | Err(error: E) {
    predicate IsFailure() { Err? }

    function PropagateFailure<U>(): Result<U, E>
      requires Err?
    {
      Err(error)
    }

    function Extract(): T
      requires Ok?
    {
      value
    }
  }

  /** The outcome of a `void` operation that may throw `E`. */
  datatype Outcome<+E> = Pass | Fail(error: E)
}
