/** Small value wrappers shared by the route handlers. */
module Wrappers {

  /** An optional value: an absent object property or a `null` result. */
  datatype Option<+T> = None | Some(value: T)

  /** How a promise returned by an external collaborator (the ORM, the
      session helpers) settles: with a value, or rejected with a thrown
      value, described by a string (an `Error`'s message, or the thrown
      `Response`). */
  datatype Settled<+T> = Resolved(value: T) | Rejected(reason: string)
}
