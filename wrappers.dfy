/** Option and Result values used for JavaScript's `undefined`/`null` and for thrown errors. */
module Wrappers {

  /** A value that may be absent (`undefined` or `null` in the source). */
  datatype Option<+T> = None | Some(value: T)

  /** A value, or the message of the error the source would throw instead. */
  datatype Result<+T> = Ok(value: T) | Err(error: string)
}
