/** The optional and failure-carrying values shared by the whole model, and the two scalar types. */
module Wrappers {

  /** A value that may be absent: JavaScript's `null` or a missing field next to a real value. */
  datatype Option<+T> = None | Some(value: T)

  /** The carried value, or `fallback` for a missing one. */
  function ValueOr<T>(o: Option<T>, fallback: T): T {
    if o.Some? then o.value else fallback
  }

  /** Either a document that passed validation or the validation errors it raised. */
  datatype Result<+R, +E> = Success(value: R) | Failure(error: E)

  /** Epoch milliseconds, the model of a JavaScript `Date`. */
  type Date = int

  /** A document identifier, the model of a Mongo `ObjectId`. */
  type Id = nat
}
