/** Optional values and the outcome of a call that can fail (a rejected promise). */
module Wrappers {

  datatype Option<+T> = None | Some(value: T)

  datatype Result<+T, +E> = Success(value: T) | Failure(error: E)

  /** A thrown JavaScript value, reduced to what the code reads of it: its `message`
      (the empty string when the thrown value has none). */
  datatype Error = Error(message: string)
}
