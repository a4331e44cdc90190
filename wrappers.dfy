/** Option and Result, used wherever the modelled code returns "nothing" or fails. */
module Wrappers {

  datatype Option<+T> = None | Some(value: T)

  /** The outcome of an operation that the source lets raise or exit:
      `Failure` carries a short description of the error. */
  datatype Result<+R> = Success(value: R) | Failure(error: string)
}
