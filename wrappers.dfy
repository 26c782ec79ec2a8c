/** Optional values and error-carrying results, used where the source has
    optional fields (`title?`), `null` state and rejected promises. */
module Wrappers {

  datatype Option<+T> = None | Some(value: T) {

    /** The value, or `default` when there is none: the source's `x || default`
        for a field whose empty value is not otherwise distinguished. */
    function GetOr(default: T): T {
      match this
      case Some(v) => v
      case None => default
    }
  }

  datatype Result<+R, +E> = Success(value: R) | Failure(error: E)
}
