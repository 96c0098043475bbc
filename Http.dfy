/** The outcomes a route handler sends back: a success payload or an error status. */
module Http {

  /** The error statuses the routes answer with. */
  datatype Status = BadRequest | Unauthorized | NotFound | ServerError {

    /** The numeric HTTP status code. */
    function Code(): (c: int)
      ensures BadRequest? ==> c == 400
      ensures Unauthorized? ==> c == 401
      ensures NotFound? ==> c == 404
      ensures ServerError? ==> c == 500
    {
      match this
      case BadRequest => 400
      case Unauthorized => 401
      case NotFound => 404
      case ServerError => 500
    }
  }

  /** `{ success: true, ... }` carrying `value`, or an error response with `status`. */
  datatype Reply<+T> = Ok(value: T) | Error(status: Status)
}
