/** Failure-carrying results shared by every module of the model.
    `Option` stands for a reference that may be null, `Result` for a call
    that either returns a value or throws the exception named by its error. */
module Wrappers {

  datatype Option<+T> = None | Some(value: T) {
    function GetOr(default: T): T {
      match this
      case Some(v) => v
      case None => default
    }
  }

  datatype Result<+R, +E> = Success(value: R) | Failure(error: E)
}
