/** Option and result values used throughout the model. */
module Wrappers {

  /** A JavaScript value that may be `null`/`undefined` (None) or present. */
  datatype Option<+T> = None | Some(value: T) {
    /** The `??` operator: this value unless it is nullish. */
    function GetOr(default: T): T {
      match this
      case Some(v) => v
      case None => default
    }
  }

  /** The outcome of a request to the REST API: the decoded body, or a failure. */
  datatype Result<+T> = Ok(value: T) | Err

  /** `ServiceResult<T>`: `{success: true, data}` or `{success: false, error}`. */
  datatype ServiceResult<+T> = Success(data: T) | Failure
}
