/** Values that may be missing. pandas marks an undefined entry of a
    series with NaN; here that entry is `None`. A run that cannot produce a
    report returns a `Failure`. */
module Options {

  datatype Option<+T> = None | Some(value: T) {

    /** The value, or a default when this is `None`. */
    function GetOr(default: T): T {
      match this
      case Some(v) => v
      case None => default
    }
  }

  datatype Result<+T, +E> = Success(value: T) | Failure(error: E)
}
