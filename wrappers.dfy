/** Option, Python exceptions as values, and results that may carry one. */
module Wrappers {
  datatype Option<T> = None | Some(value: T)
  {
    function GetOr(default: T): T
    {
      match this
      case None => default
      case Some(v) => v
    }
  }

  /**
   * The Python exception classes the modelled code raises. `InvalidSize` is
   * the size parser's own exception, a direct subclass of `Exception`.
   */
  datatype Error =
    | ValueError(msg: string)
    | InvalidSize(msg: string)
    | KeyError(msg: string)
    | TypeError(msg: string)
    | IndexError(msg: string)
    | OSError(msg: string)
    | NotImplementedError(msg: string)
    | AttributeError(msg: string)

  datatype Result<T> = Ok(value: T) | Err(error: Error)

  /**
   * How a configuration command ends: it goes on with a value, stops through
   * `fail_invalid` (exit code 2) with a message, or raises (exit code 1).
   */
  datatype Run<T> = Done(value: T) | Invalid(message: string) | Raised(error: Error)
}
