/** The two wrappers the model uses: Option for fields and lookups that may be
    absent, Result for backend calls that may fail. */
module Wrappers {
  datatype Option<+T> = None | Some(value: T)

  datatype Result<+T, +E> = Success(value: T) | Failure(error: E)
}
