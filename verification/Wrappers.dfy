/** Optional values, and the results of calls that may raise. */
module Wrappers {

  datatype Option<+T> = None | Some(value: T)

  /** What a call answers: a value, or the error the source raises. */
  datatype Result<+T, +E> = Ok(value: T) | Err(error: E) {
    predicate IsFailure() { Err? }

    function PropagateFailure<U>(): Result<U, E>
      requires Err?
    {
      Err(error)
    }

    function Extract(): T
      requires Ok?
    {
      value
    }
  }
}
