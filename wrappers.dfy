/** Optional values and error-carrying results, standing for Python's
    `None`-able fields and for the exceptions the source raises. */
module Wrappers {

  datatype Option<+T> = None | Some(value: T) {
    function GetOr(default: T): T {
      match this
      case Some(v) => v
      case None => default
    }
  }

  /** `Err` carries the kind of exception and its message. */
  datatype Result<+T> = Ok(value: T) | Err(kind: ErrorKind, message: string)

  /** The Python exception classes the modelled code raises or catches. */
  datatype ErrorKind =
    | ValueError
    | KeyError
    | FileNotFoundError
    | RuntimeError
    | AttributeError
    | OtherError
}
