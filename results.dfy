/** Python's `None`-or-value fields and the exceptions the modelled code raises. */
module Results {

  /** A value that may be absent (Python's `float | None`). */
  datatype Option<+T> = None | Some(value: T)

  /** The exception classes this model represents (not every exception the code can raise). */
  datatype Error =
    | TypeError   // an operand of a type the operator does not accept
    | ValueError  // a zero divisor, a zero-length vector
    | IndexError  // an element taken from an empty list

  /** The outcome of a call that either returns a value or raises. */
  datatype Result<+T> = Ok(value: T) | Err(error: Error)
}
