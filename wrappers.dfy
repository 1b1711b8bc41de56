/** Optional values (C#'s nullable references) and success-or-exception results. */
module Wrappers {

  /** A C# reference or nullable value that may be null. */
  datatype Option<+T> = None | Some(value: T) {

    /** The C# `??` operator: the value, or `default` when null. */
    function GetOr(default: T): T {
      match this
      case Some(v) => v
      case None => default
    }
  }

  /** The outcome of a C# call that either returns a value or throws. */
  datatype Result<+R, +E> = Success(value: R) | Failure(error: E)
}
