/** Failure-compatible wrappers used in place of C# nulls and exceptions. */
module Wrappers {

  /** A value that may be absent: C#'s `null`. */
  datatype Option<+T> = None | Some(value: T)

  /** The outcome of an operation that either returns a value or throws. */
  datatype Result<+T, +E> = Success(value: T) | Failure(error: E) {

    predicate IsFailure() {
      Failure?
    }

    function PropagateFailure<U>(): Result<U, E>
      requires Failure?
    {
      Failure(error)
    }

    function Extract(): T
      requires Success?
    {
      value
    }
  }

  /** The exceptions the modelled code throws, by kind and argument name. */
  datatype Exception =
    | ArgumentNull(paramName: string)        // a Guard saw null
    | ArgumentWhiteSpace(paramName: string)  // a Guard saw an empty or whitespace-only string
    | InvalidCast(propertyName: string)      // a JSON property of a kind the conversion cannot take
    | NotSupported                           // a token kind or value type outside the schema
    | FileNotFound                           // a lookup by id found nothing
}
