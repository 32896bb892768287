/** Option and Result, the two wrappers the model uses for JavaScript's
    `undefined` and for the exceptions that `searchYouTube` throws. */
module Wrappers {

  /** A value that may be missing (`undefined` in the source). */
  datatype Option<+T> = None | Some(value: T)

  /** The outcome of an operation that either returns a value or throws
      an `Error` carrying a message. */
  datatype Result<+R, +E> = Success(value: R) | Failure(error: E)
}
