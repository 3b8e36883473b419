/**
 * The exceptions the services throw. Nest's built-in HTTP exceptions carry a
 * status; a rejection coming from the media host or the database is not an
 * HttpException and reaches the filters as a plain error object.
 */
module Errors {
  import opened Wrappers

  /** The entries of `errorMessages` a service passes to an exception. */
  datatype Message =
    | EmailExist
    /** `errorMessages.avatar.deleted`, an entry the constants module does not define */
    | AvatarDeleted
    /** `errorMessages.logo.deleted`, likewise undefined there */
    | LogoDeleted

  datatype Failure =
    | BadRequest(message: Option<Message>)
    | Unauthorized
    | Forbidden(message: Option<Message>)
    | NotFound
    /** a rejected promise from the media host, propagated unwrapped */
    | MediaError
    /** a failed database write */
    | DbError
    /** a `TypeError` from reading a property of `undefined` */
    | UndefinedRead

  type Outcome<T> = Result<T, Failure>

  /** The text of `errorMessages.email.exist`. */
  const EmailExistText: string := "Email already exists"

  /** Whether the failure is one of Nest's HttpException subclasses. */
  predicate IsHttp(f: Failure) {
    !f.MediaError? && !f.DbError? && !f.UndefinedRead?
  }

  /** Whether the constants module defines the entry: only `email.exist` is there. */
  predicate Defined(m: Message) {
    m == EmailExist
  }

  /**
   * `new BadRequestException(errorMessages.<group>.deleted)` as the services
   * write it: when the group is missing from `errorMessages`, evaluating the
   * argument throws a TypeError before the exception is built.
   */
  function BadRequestAsWritten(m: Message): (f: Failure)
    ensures Defined(m) ==> f == BadRequest(Some(m))
    ensures !Defined(m) ==> !IsHttp(f)
  {
    if Defined(m) then BadRequest(Some(m)) else UndefinedRead
  }

  /** The status code of the HttpException subclass a failure is thrown as. */
  function HttpStatus(f: Failure): (code: int)
    requires IsHttp(f)
    ensures 400 <= code < 500
  {
    match f
    case BadRequest(_) => 400
    case Unauthorized => 401
    case Forbidden(_) => 403
    case NotFound => 404
  }
}
