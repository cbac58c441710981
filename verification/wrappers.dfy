/** Small shared datatypes: optional values and the controllers' HTTP outcomes. */
module Wrappers {

  /** A value that may be absent: JavaScript's `undefined`, or a value that does
      not convert to a number. */
  datatype Option<+T> = None | Some(value: T) {
    function GetOr(default: T): T {
      match this
      case Some(v) => v
      case None => default
    }
  }

  /** The error statuses the controllers answer with. */
  datatype HttpError = BadRequest | Unauthorized | NotFound | ServerError {
    function Code(): int {
      match this
      case BadRequest => 400
      case Unauthorized => 401
      case NotFound => 404
      case ServerError => 500
    }
  }

  /** A controller's answer: a successful body, or an error status. */
  datatype Result<+T> = Ok(value: T) | Err(error: HttpError)
}
