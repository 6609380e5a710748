/** Failure-carrying values shared by every module of the model:
    `Option` for Python's `None`-or-value slots, `Result` for an operation
    that either returns a value or raises. `Result` works with `:-`, which
    passes a failure on unchanged. */
module Results {

  datatype Option<+T> = None | Some(value: T)

  datatype Result<+T, +E> = Success(value: T) | Failure(error: E) {

    predicate IsFailure() {
      Failure?
    }

    function PropagateFailure<U>(): Result<U, E>
      requires Failure?
    {
      Failure(error)
    }

    function Extract(): T
      requires Success?
    {
      value
    }
  }
}
