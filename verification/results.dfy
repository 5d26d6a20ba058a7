/** Option and Result values, used for the source's `None` and for the
    exceptions its operations raise. */
module Results {

  datatype Option<+T> = None | Some(value: T)

  /** A failure-compatible result: `Err` carries the reason an operation was refused. */
  datatype Result<+T, +E> = Ok(value: T) | Err(error: E) {

    predicate IsFailure() {
      Err?
    }

    function PropagateFailure<U>(): Result<U, E>
      requires Err?
    {
      Err(error)
    }

    function Extract(): T
      requires Ok?
    {
      value
    }
  }
}
