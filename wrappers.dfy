/** Optional values and the outcome of an operation that can raise. */
module Wrappers {
  datatype Option<T> = None | Some(value: T)
  {
    function GetOr(default: T): T
    {
      match this
      case None => default
      case Some(v) => v
    }
  }

  /** `Err` carries the exception class (or message) the Python code raises. */
  datatype Result<T> = Ok(value: T) | Err(error: string)
}
