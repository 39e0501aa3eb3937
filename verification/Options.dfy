/** The optional and failing results the other modules share. */
module Options {

  datatype Option<+T> = None | Some(value: T) {
    /** Python's `value or default` for a value that is never falsy. */
    function GetOr(default: T): T {
      match this
      case Some(v) => v
      case None => default
    }
  }

  datatype Result<+T, +E> = Ok(value: T) | Err(error: E)
}
