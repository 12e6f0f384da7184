/** Values shared by every part of the model: optional values, document ids and
    the HTTP failure statuses the handlers answer with. */
module Common {

  /** A document id. MongoDB ObjectIds are abstracted to naturals; the natural
      order of a collection is ascending id, which is insertion order. */
  type Id = nat

  datatype Option<T> = None | Some(value: T) {
    function GetOr(default: T): T {
      match this
      case Some(v) => v
      case None => default
    }
  }

  /** The failure statuses the controllers and middleware send. */
  datatype Failure = BadRequest | Unauthorized | Forbidden | NotFound | ServerError {
    function Code(): (c: int)
      ensures 400 <= c < 600
    {
      match this
      case BadRequest => 400
      case Unauthorized => 401
      case Forbidden => 403
      case NotFound => 404
      case ServerError => 500
    }
  }

  /** A handler's answer: `success: true` with data, or `success: false` with a status. */
  datatype Reply<T> = Ok(value: T) | Fail(failure: Failure)

  /** The data of a reply that carries only `success` and a message. */
  datatype Ack = Ack
}
