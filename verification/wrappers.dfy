/** Optional values and results with a typed failure, usable with `:-`. */
module Wrappers {

  /** A value that may be absent: a nullable Java reference. */
  datatype Option<+T> = None | Some(value: T)

  /** The outcome of an operation that either returns a value or throws a typed exception. */
  datatype Result<+T, +E> = Ok(value: T) | Err(error: E) {

    predicate IsFailure() {
      Err?
    }

    function PropagateFailure<U>(): Result<U, E>
      requires Err?
    {
      Err(error)
    }

    function Extract(): T
      requires Ok?
    {
      value
    }
  }

  /** A check that either passes or carries the exception it throws. */
  datatype Check<+E> = Pass | Fail(error: E) {

    predicate IsFailure() {
      Fail?
    }

    function PropagateFailure<U>(): Result<U, E>
      requires Fail?
    {
      Err(error)
    }
  }

  /** Throws `error` unless `condition` holds. */
  function Require<E>(condition: bool, error: E): (c: Check<E>)
    ensures c.Pass? <==> condition
  {
    if condition then Pass else Fail(error)
  }
}
