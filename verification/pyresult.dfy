/** Python's failure modes, as the modelled functions raise them, and the
    Result/Option wrappers every other module returns instead of raising. */
module PyResult {

  /** The exception classes the modelled code can raise. */
  datatype PyError =
    | AssertionError     // a failed `assert` statement
    | IndexError         // indexing past the end of a list, tuple or array
    | TypeError          // unpacking `None`, `len` of an unsized value
    | ValueError         // a loss function given a target of another shape
    | ZeroDivisionError  // `x / 0`

  /** Either the value a call returns or the exception it raises. */
  datatype Result<+T> = Ok(value: T) | Err(error: PyError) {

    predicate IsFailure() {
      Err?
    }

    function PropagateFailure<U>(): Result<U>
      requires Err?
    {
      Err(error)
    }

    function Extract(): T
      requires Ok?
    {
      value
    }
  }

  /** Python's `None` or a value. */
  datatype Option<+T> = None | Some(value: T)
}
