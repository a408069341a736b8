/** Option and Result values used for Go's nil-able results and its (value, error) pairs. */
module Base {

  datatype Option<+T> = None | Some(value: T) {
    function GetOr(default: T): T {
      match this
      case Some(v) => v
      case None => default
    }
  }

  /** A Go `(T, error)` pair: either a value with a nil error or an error message. */
  datatype Result<+T> = Ok(value: T) | Err(error: string)
}
