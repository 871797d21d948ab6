/** Failure-carrying results for the operations that throw
    IllegalArgumentException in the source. */
module Wrappers {

  /** The errors the modelled code raises: an IllegalArgumentException
      carrying the offending parameter name ("" when the source gives none),
      and the JavaFX image constructor's refusal of non-positive sizes. */
  datatype Error = IllegalArgument(parameter: string) | InvalidImageSize

  datatype Result<+T> = Success(value: T) | Failure(error: Error)

  datatype Option<+T> = None | Some(value: T)
}
