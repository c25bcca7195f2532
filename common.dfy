/** Optional values and request outcomes shared by the other modules. */
module Common {
  /** A value that may be absent: a missing dictionary key, a `None` argument. */
  datatype Option<T> = None | Some(value: T) {
    /** Python's `d.get(key, default)` once the lookup has been made. */
    function GetOr(default: T): T {
      match this
      case Some(v) => v
      case None => default
    }
  }

  /** Either a reply or the error an endpoint raises. */
  datatype Result<T, E> = Ok(value: T) | Err(error: E)
}
