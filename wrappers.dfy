/** Option and Result values used wherever the source reads a value that may be
    absent (`undefined`, `null`) or performs an operation that may throw. */
module Wrappers {

  datatype Option<+T> = None | Some(value: T) {
    /** The value, or `default` when absent (JavaScript's `??`-style default). */
    function GetOr(default: T): T {
      match this
      case Some(v) => v
      case None => default
    }
  }

  /** The outcome of an operation that either yields a value or throws;
      the failure carries the thrown error's message. */
  datatype Result<+R> = Success(value: R) | Failure(error: string)
}
