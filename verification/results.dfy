/** Python exceptions that the modelled code can raise, and a result type that carries them. */
module Results {

  /** The exceptions the modelled code can end in. */
  datatype Error =
    | IndexError         // indexing element 0 of an empty numpy axis
    | AssertionError     // a failed `assert` statement
    | ZeroDivisionError  // `i % 0`

  /** Either the value an operation computes, or the exception it raises. */
  datatype Result<+T> = Ok(value: T) | Err(error: Error)
}
