/** Optional values and outcomes, for the null, undefined and thrown errors of the TypeScript code. */
module Options {

  datatype Option<+T> = None | Some(value: T) {
    function GetOr(default: T): T {
      match this
      case None => default
      case Some(v) => v
    }
  }

  datatype Result<+T, +E> = Ok(value: T) | Err(error: E)
}
