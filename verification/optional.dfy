/** Optional values and results: the model's stand-ins for JavaScript's
    `undefined`/`null` and for a validation outcome. */
module Optional {

  /** A value that may be absent (`undefined` or `null` in the source). */
  datatype Option<+T> = None | Some(value: T) {

    /** The carried value, or `default` when absent (the source's `x || default`). */
    function GetOr(default: T): T
    {
      match this
      case Some(v) => v
      case None => default
    }
  }

  /** Either an accepted value or a list of errors. */
  datatype Result<+R, +E> = Ok(value: R) | Err(error: E)
}
