/** Optional values and success-or-error results shared by every module. */
module Wrappers {

  /** A value that may be absent: JavaScript's `undefined`/`null` versus a present value. */
  datatype Option<+T> = None | Some(value: T)

  /** The outcome of an operation that either produces a value or raises an error. */
  datatype Result<+T, +E> = Ok(value: T) | Err(error: E) {
    predicate IsFailure() { Err? }

    function PropagateFailure<U>(): Result<U, E>
      requires Err?
    {
      Err(error)
    }

    function Extract(): T
      requires Ok?
    {
      value
    }
  }
}
