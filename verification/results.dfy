/** Failure-compatible wrappers shared by every stage of the pipeline.
    The C code signals failure with NULL returns or `exit(1)`; the model
    returns one of these values instead. */
module Results {

  /** An optional value, standing in for a possibly-NULL pointer. */
  datatype Option<+T> = None | Some(value: T)

  /** Either a value or a stage-specific error. */
  datatype Result<+T, +E> = Ok(value: T) | Err(error: E) {

    predicate IsFailure() {
      Err?
    }

    function PropagateFailure<U>(): Result<U, E>
      requires Err?
    {
      Err(error)
    }

    function Extract(): T
      requires Ok?
    {
      value
    }
  }
}
