/** Optional values and results with an error, as used throughout the converter model.
    `None` stands for JavaScript's `undefined` (a key that is absent or holds `undefined`);
    `Failure` stands for an exception thrown out of the conversion. */
module Wrappers {

  datatype Option<+T> = None | Some(value: T) {

    /** The wrapped value, or `default` when there is none. */
    function GetOr(default: T): T {
      match this
      case Some(v) => v
      case None => default
    }
  }

  datatype Result<+R, +E> = Success(value: R) | Failure(error: E)
}
