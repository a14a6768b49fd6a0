/** The Option and Result datatypes that stand for Python's `None` and
    for a raised exception throughout the model. */
module Wrappers {

  datatype Option<+T> = None | Some(value: T) {
    /** `x if x is not None else default` */
    function GetOr(default: T): T {
      match this
      case Some(v) => v
      case None => default
    }
  }

  /** `Ok(v)`: the call returned `v`; `Err(e)`: it raised `e`. */
  datatype Result<+R, +E> = Ok(value: R) | Err(error: E) {
    /** The value returned, or `default` when the call raised. */
    function GetOr(default: R): R {
      match this
      case Ok(v) => v
      case Err(_) => default
    }
  }
}
