/** Option, Result and Outcome: the model's stand-ins for Python's `None` and for
    the exceptions each stage raises. */
module Results {

  datatype Option<+T> = None | Some(value: T)

  /** A value or the error a stage raised instead of returning it. */
  datatype Result<+T, +E> = Ok(value: T) | Err(error: E) {
    predicate IsFailure() {
      Err?
    }

    function PropagateFailure<U>(): Result<U, E>
      requires Err?
    {
      Err(error)
    }

    function Extract(): T
      requires Ok?
    {
      value
    }
  }

  /** A check that returns nothing (Python `None`) or raises. */
  datatype Outcome<+E> = Pass | Fail(error: E)
}
