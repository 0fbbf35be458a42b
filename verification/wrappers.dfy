/** Failure-carrying results used by every module of the model. The source
    reports failure through exceptions, error codes, `npos` and `nullptr`;
    the model makes each of those an explicit value. */
module Wrappers {

  datatype Option<+T> = None | Some(value: T) {
    function GetOr(default: T): T {
      match this
      case Some(v) => v
      case None => default
    }
  }

  datatype Result<+R, +E> = Success(value: R) | Failure(error: E)
}
