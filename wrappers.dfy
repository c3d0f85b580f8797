/** Option and Result values standing for Go's `nil`-able results and its
    `(value, error)` pairs. */
module Wrappers {

  /** An error value produced by the operating system or by a child process.
      The model never inspects it; it only passes it on. */
  datatype Error = Error(reason: string)

  datatype Option<+T> = None | Some(value: T)

  datatype Result<+T> = Ok(value: T) | Err(error: Error)
}
