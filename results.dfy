/** Failure-compatible result types shared by the three stages. */
module Results {

  /** A value or the error that aborted the computation. */
  datatype Result<+T, +E> = Ok(value: T) | Err(error: E) {
    predicate IsFailure() { Err? }

    function PropagateFailure<U>(): Result<U, E>
      requires Err?
    {
      Err(error)
    }

    function Extract(): T
      requires Ok?
    {
      value
    }
  }

  /** Success or the error that aborted a computation returning nothing. */
  datatype Outcome<+E> = Pass | Fail(error: E)

  /** A Java reference that may be null. */
  datatype Option<+T> = None | Some(value: T)
}
