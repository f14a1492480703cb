/** Option and Result values for the absent values and raised exceptions of the backend. */
module Wrappers {

  datatype Option<+T> = None | Some(value: T) {
    function GetOr(default: T): T
    {
      match this
      case Some(v) => v
      case None => default
    }
  }

  /** `Err` carries the message of an exception that a collaborator raised. */
  datatype Result<+T> = Ok(value: T) | Err(message: string)
}
