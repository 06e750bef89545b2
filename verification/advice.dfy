/** The mapping from exception to HTTP status
    (controller/SubscriptionExceptionAdvice.java). */
module SubscriptionExceptionAdvice {
  import opened Exceptions

  datatype HttpStatus = Created | NoContent | BadRequest | NotFound | Conflict | InternalServerError {
    function Code(): nat {
      match this
      case Created => 201
      case NoContent => 204
      case BadRequest => 400
      case NotFound => 404
      case Conflict => 409
      case InternalServerError => 500
    }
  }

  /** The status the advice answers each exception with. A duplicate-key
      error from the store has no handler of its own and gets the framework's
      default for an unhandled exception. */
  function StatusOf(e: Error): (r: HttpStatus)
    ensures r.Code() == 400 <==> e == FalseToken
    ensures r.Code() == 404 <==> e == UserUnknownOrLocked
    ensures r.Code() == 409 <==> e == UserAlreadyExists
    ensures r.Code() == 500 <==> e.SendFailed? || e == DuplicateKey
  {
    match e
    case FalseToken => BadRequest
    case UserUnknownOrLocked => NotFound
    case UserAlreadyExists => Conflict
    case DuplicateKey => InternalServerError
    case SendFailed(_) => InternalServerError
  }

  /** No exception is answered with a success status; the caller's mistakes
      get a 4xx status, and failures of the mail channel or the store a 5xx. */
  lemma ErrorStatusClasses(e: Error)
    ensures 400 <= StatusOf(e).Code() < 600
    ensures StatusOf(e).Code() < 500 <==> e in {FalseToken, UserUnknownOrLocked, UserAlreadyExists}
  {
  }
}
