/** Option and Result, the usual failure-carrying datatypes, plus the
    exception classes the modelled Python code raises. */
module Wrappers {

  datatype Option<+T> = None | Some(value: T) {
    function GetOr(default: T): T {
      match this
      case Some(v) => v
      case None => default
    }
  }

  /** The Python exception classes raised by the modelled code. */
  datatype Exception =
    | ValueError(msg: seq<char>)
    | RuntimeError(msg: seq<char>)
    | TimeoutError(msg: seq<char>)
    | AttributeError(msg: seq<char>)

  datatype Result<+T> = Ok(value: T) | Err(error: Exception)
}
