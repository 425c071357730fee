/** Optional values (the source's nil-able pointers) and results (its error returns). */
module Wrappers {

  datatype Option<+T> = None | Some(value: T)

  /** The status codes and sentinel errors the handlers return, one constructor per branch that
      a caller can tell apart. */
  datatype Error =
    | InvalidArgument
    | NotFound
    | Internal
    | LockedNoToken
    | TokenExpired
    | TokenInvalid
    | TokenWrongSev
    | FailedPrecondition
    | ResourceExhausted
    | Unauthenticated

  datatype Result<+T> = Ok(value: T) | Err(error: Error)
}
