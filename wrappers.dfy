/** Option and Result, the absence and failure signals used by the rest of the model. */
module Wrappers {

  /** A value that may be absent: stands for a Java reference that may be null. */
  datatype Option<+T> = None | Some(value: T)

  /** The outcome of a whole run: the text written to standard output, or an exit code with its diagnostic. */
  datatype Result<+R> = Success(value: R) | Failure(exitCode: int, message: string)
}
