/** Kotlin's nullable references, as an option type. */
module Wrappers {
  datatype Option<T> = None | Some(value: T)
  {
    /** Kotlin's `?: default`. */
    function GetOr(default: T): T
    {
      match this
      case Some(v) => v
      case None => default
    }
  }
}
