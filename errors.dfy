/** The codec's error taxonomy and the result wrappers its fallible operations return. */
module Errors {

  /** Every way an encode or a decode can fail. */
  datatype Error =
    | FloatIndexOutOfBounds          // a float was requested past the end of the float column
    | IntIndexOutOfBounds            // likewise for the int column
    | BoolIndexOutOfBounds           // likewise for the bool column
    | Incomplete                     // decode left values unread in some column
    | SerMessage(message: string)    // a failure reported by the producing traversal
    | DeMessage(message: string)     // a failure reported by the consuming traversal

  datatype Result<T> = Ok(value: T) | Err(error: Error)

  datatype Option<T> = None | Some(value: T)

  /** The three errors a typed pull can raise. */
  predicate IsIndexError(err: Error) {
    err.FloatIndexOutOfBounds? || err.IntIndexOutOfBounds? || err.BoolIndexOutOfBounds?
  }
}
