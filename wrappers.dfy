/** Ruby's `nil` and raised exceptions, as values. */
module Wrappers {

  /** A value that may be `nil`. */
  datatype Option<+T> = None | Some(value: T) {
    function GetOr(default: T): T {
      match this
      case Some(v) => v
      case None => default
    }
  }

  /** The outcome of a Ruby call that either returns a value or raises. */
  datatype Result<+R, +E> = Success(value: R) | Failure(error: E)

  /** The exceptions the modelled code raises or rescues; all are `StandardError`s. */
  datatype Error =
    | RuntimeError(message: string)   // `raise "..."`
    | NoMethodError                   // a method called on `nil`
    | TransportError(message: string) // the HTTP request itself failed
    | StorageError(message: string)   // the database raised while saving
}
