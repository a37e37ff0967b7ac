/** Option and Result values, and the errors the scanner can report. */
module Wrappers {

  datatype Option<+T> = None | Some(value: T)

  datatype Result<+T, +E> = Ok(value: T) | Err(error: E)

  /** The errors that reach the caller: a file (or the pattern file) that could not be
      read, and a pattern that does not compile. */
  datatype Error = ReadError(path: string) | SyntaxError(pattern: string)
}
