/** Failure-compatible helper datatypes shared by every module of the model. */
module Wrappers {

  /** An optional value: the model's stand-in for a nullable reference. */
  datatype Option<+T> = None | Some(value: T)

  /** Either a computed value or the fault that stopped the computation. */
  datatype Result<+T, +E> = Success(value: T) | Failure(error: E) {

    predicate IsFailure() {
      Failure?
    }

    function PropagateFailure<U>(): Result<U, E>
      requires Failure?
    {
      Failure(error)
    }

    function Extract(): T
      requires Success?
    {
      value
    }
  }
}
