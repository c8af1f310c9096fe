/** Option and Result, used for the collaborators that may fail and for the
    errors that the converter reports instead of aborting the process. */
module Wrappers {

  datatype Option<+T> = None | Some(value: T)

  datatype Result<+T, +E> = Success(value: T) | Failure(error: E)
}
