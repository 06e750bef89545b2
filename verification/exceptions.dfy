/** The exceptions the core raises, as error kinds. */
module Exceptions {

  /** Why the mail channel refused a message: the wrapped SES send failure,
      or an AWS service error raised while rendering a template. */
  datatype SendFailure = EmailSendException | AwsServiceException

  datatype Error =
    | FalseToken
    | UserUnknownOrLocked
    | UserAlreadyExists
      /** The store's unique index on email refused an insert. */
    | DuplicateKey
    | SendFailed(cause: SendFailure)
}
