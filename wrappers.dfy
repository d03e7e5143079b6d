/** Option and remote-call outcomes shared by every store of the site. */
module Wrappers {

  datatype Option<+T> = None | Some(value: T)

  /** What a failed remote call (axios or the content client) throws: either
      an `Error` object with its message, or some other thrown value. */
  datatype Thrown = ThrownError(message: string) | ThrownNonError

  /** The result of one remote call, handed to the operation that awaited it. */
  datatype Outcome<+T> = Success(data: T) | Failure(thrown: Thrown)
}
