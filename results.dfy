/**
 * Result and error types shared by the database handle: an `Option` for nullable
 * values and the three-status `OperationResult` (succeeded, deferred, failed).
 */
module Results {

  datatype Option<+T> = None | Some(value: T)

  /** The user-facing messages the handle attaches to its own errors. */
  datatype ErrorMessage =
    | InvalidPassword
    | InvalidKeyFile
    | FailedToFindGroup
    | FailedToFindEntityByUid(entityName: string, uid: nat)
    | FailedToOpenDbFile
    | ExceptionMessage(text: string)

  datatype OperationError =
    | AuthError(message: ErrorMessage)
    | DbError(message: ErrorMessage)
    | GenericIOError(message: ErrorMessage)

  /**
   * A succeeded or deferred result carries a value; "deferred" means the write was
   * accepted but its durability is still pending (for instance a remote sync).
   */
  datatype OperationResult<+T> =
    | Succeeded(obj: T)
    | Deferred(obj: T)
    | Failed(error: OperationError)
  {
    predicate IsSucceededOrDeferred() {
      !Failed?
    }

    /** Keeps the status (succeeded, deferred or failed) and replaces the value. */
    function TakeStatusWith<U>(value: U): (r: OperationResult<U>)
      ensures r.Succeeded? == Succeeded? && r.Deferred? == Deferred? && r.Failed? == Failed?
      ensures r.IsSucceededOrDeferred() ==> r.obj == value
      ensures r.Failed? ==> r.error == error
    {
      match this
      case Succeeded(_) => Succeeded(value)
      case Deferred(_) => Deferred(value)
      case Failed(e) => Failed(e)
    }
  }
}
