/** Option and Result: how the model writes C#'s null and its exceptions. */
module Wrappers {

  /** A value that may be absent; `None` stands for a C# null reference. */
  datatype Option<+T> = None | Some(value: T)

  /** The outcome of an operation that may throw; `Failure` carries the exception. */
  datatype Result<+T, +E> = Success(value: T) | Failure(error: E) {
    predicate IsFailure() { Failure? }

    function PropagateFailure<U>(): Result<U, E>
      requires Failure?
    {
      Failure(error)
    }

    function Extract(): T
      requires Success?
    {
      value
    }
  }
}
