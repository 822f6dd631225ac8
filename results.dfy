/** The exceptions the simulator raises, and the wrappers that carry them. */
module Results {

  /** A Python exception, with the message the source formats for it. */
  datatype Error =
    | ValueError(message: string)
    | AttributeError(message: string)

  datatype Option<T> = None | Some(value: T)

  /** The value a function returns, or the exception it raises instead. */
  datatype Result<T> = Ok(value: T) | Err(error: Error)

  /** A call that returns nothing: it completes, or it raises. */
  datatype Outcome = Pass | Fail(error: Error)
}
