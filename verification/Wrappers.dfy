/** Optional values and results that carry either a value or the reason there is none. */
module Wrappers {

  datatype Option<+T> = None | Some(value: T)

  datatype Result<+T, +E> = Success(value: T) | Failure(error: E) {
    predicate IsFailure() {
      Failure?
    }

    function PropagateFailure<U>(): Result<U, E>
      requires Failure?
    {
      Failure(error)
    }

    function Extract(): T
      requires Success?
    {
      value
    }
  }

  /** A check that yields nothing: used as `:- Need(condition, error);`. */
  datatype Check<+E> = Pass | Refuse(reason: E) {
    predicate IsFailure() {
      Refuse?
    }

    function PropagateFailure<U>(): Result<U, E>
      requires Refuse?
    {
      Failure(reason)
    }
  }

  function Need<E>(condition: bool, error: E): Check<E> {
    if condition then Pass else Refuse(error)
  }

  function Min(a: int, b: int): int {
    if a <= b then a else b
  }
}
