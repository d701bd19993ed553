/** Failure-carrying value types shared by the other modules: the Python
    code signals a missing value with `None` and an error with an exception;
    the model uses `Option` and `Result` instead. */
module Wrappers {

  datatype Option<+T> = None | Some(value: T)

  datatype Result<+R, +E> = Success(value: R) | Failure(error: E)
}
