/** Failure-compatible wrappers used throughout the model: a value or an error, and an optional value. */
module Results {

  datatype Option<+T> = None | Some(value: T)

  /** The outcome of an operation of the assembler that, in the source, either returns or throws. */
  datatype Result<+T, +E> = Ok(value: T) | Err(error: E) {

    predicate IsFailure() {
      Err?
    }

    function PropagateFailure<U>(): Result<U, E>
      requires Err?
    {
      Err(error)
    }

    function Extract(): T
      requires Ok?
    {
      value
    }
  }
}
