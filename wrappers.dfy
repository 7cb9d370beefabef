/** Optional values, results and the failure kinds the services raise as exceptions. */
module Wrappers {

  datatype Option<T> = None | Some(value: T)
  {
    function UnwrapOr(default: T): T
    {
      match this
      case Some(v) => v
      case None => default
    }
  }

  /** The exception classes of the services, without their message text. */
  datatype Failure =
    | RecordNotFound
    | ResourceAlreadyExists
    | BadRequest
    | InvalidRecordUpdateRequest
    | InvalidFieldValue
    | InvalidJsonPathQuery
    | NotAuthorized
    | IllegalArgument
    | NullReference
    | FolderDepthExceeded
    | InvalidScratchSpacePermissions
    | InvalidDataType
    | ServerError
    | TransactionFailed

  datatype Result<T, E> = Ok(value: T) | Err(error: E)
}
