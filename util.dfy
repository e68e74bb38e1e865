/** Small shared datatypes. */
module Util {

  /** A value that may be missing: JavaScript's `undefined` / `null`. */
  datatype Option<T> = None | Some(value: T)
  {
    function GetOr(default: T): T
    {
      match this
      case Some(v) => v
      case None => default
    }
  }
}
