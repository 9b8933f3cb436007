/** Option and Result datatypes, and the Python exceptions the modelled code
    raises or lets propagate. A Python function that either returns a value or
    raises is modelled as a function returning `Result<T>`. */
module Wrappers {

  datatype Option<+T> = None | Some(value: T) {
    function GetOr(default: T): T {
      match this
      case Some(v) => v
      case None => default
    }
  }

  /** The exceptions that the modelled code raises, or that Python raises on its
      behalf (a `KeyError` from `d[k]`, a `TypeError` from iterating a number,
      an `OverflowError` from sleeping too long), the `RuntimeError` the
      speech engine raises when its run loop is in the wrong state, and any
      exception a language-model library raises, by class name. */
  datatype PyException =
    | KeyError(key: string)
    | TypeError(message: string)
    | ValueError(message: string)
    | AttributeError(message: string)
    | ConfigValidationError(message: string)
    | RuntimeError(message: string)
    | OverflowError(message: string)
    | LibraryError(name: string, message: string)

  /** A value returned normally, or an exception raised to the caller. */
  datatype Result<+T> = Ok(value: T) | Raised(error: PyException) {
    predicate IsFailure() {
      Raised?
    }

    function PropagateFailure<U>(): Result<U>
      requires Raised?
    {
      Raised(error)
    }

    function Extract(): T
      requires Ok?
    {
      value
    }
  }
}
