/** Failure-carrying results used by every module of the model. */
module Wrappers {

  datatype Option<+T> = None | Some(value: T)

  /** A Python call either returns a value or raises one of the exceptions of `Exception`. */
  datatype Result<+T> = Ok(value: T) | Err(error: Exception)

  /** The exceptions the modelled code raises (built-in ones and tackle's own). */
  datatype Exception =
    | KeyError
    | TypeError
    | ValueError
    | IndexError
    | NameError
    | MalformedHookField
    | UnknownInputArgument
    | UnknownSource
    | TooManyArguments
    | MissingField(field: string)
    | NotADirectory
    | Unexpected
}
