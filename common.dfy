/** Option and Result, used for the nullable values and the error replies of the system. */
module Common {

  /** A value that may be missing: JavaScript's `null`/`undefined`. */
  datatype Option<T> = None | Some(value: T)

  /** Either a value or the error the system replies with instead. */
  datatype Result<T, E> = Ok(value: T) | Err(error: E)
}
