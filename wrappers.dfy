/** Result shapes shared by both services. */
module Wrappers {

  /** An optional value: an absent DTO field, or no matching element. */
  datatype Option<T> = None | Some(value: T)
  {
    /** The value when present, otherwise `default`. */
    function GetOr(default: T): T
    {
      match this
      case Some(v) => v
      case None => default
    }
  }

  /** What a lookup-based service call gives back: the value, or the
      `NotFoundException` the service throws, with its message. */
  datatype Result<T> = Ok(value: T) | NotFound(message: string)

  /** The `{ deleted: true }` acknowledgement of both `remove` operations. */
  datatype Deleted = Deleted
}
