/**
 * The application's exception taxonomy (backend/utils/exceptions.py): every exception
 * carries a message and the HTTP status code the API answers with.
 */
module Exceptions {

  /** Which class of the hierarchy was raised; the base class takes any status code. */
  datatype ExceptionClass =
    | Base(code: int)
    | NotFound
    | BadRequest
    | Unauthorized
    | Forbidden
    | InsufficientStock
    | Validation

  datatype AppException = AppException(cls: ExceptionClass, message: string)

  /** `exc.status_code`. */
  function StatusCode(e: AppException): int
  {
    match e.cls
    case Base(code) => code
    case NotFound => 404
    case BadRequest => 400
    case Unauthorized => 401
    case Forbidden => 403
    case InsufficientStock => 400
    case Validation => 422
  }

  /** `AppException(message, status_code=500)`. */
  function NewAppException(message: string, statusCode: int := 500): (e: AppException)
    ensures e.message == message && StatusCode(e) == statusCode
  {
    AppException(Base(statusCode), message)
  }

  /** What the application's catch-all handler answers for any exception that is not an
      AppException (a TypeError, a ValueError, a failed commit): status 500 with the message
      "Internal server error". */
  const InternalError := NewAppException("Internal server error", 500)

  function NotFoundException(message: string := "Resource not found"): (e: AppException)
    ensures e.cls.NotFound? && e.message == message && StatusCode(e) == 404
  {
    AppException(NotFound, message)
  }

  function BadRequestException(message: string := "Bad request"): (e: AppException)
    ensures e.cls.BadRequest? && e.message == message && StatusCode(e) == 400
  {
    AppException(BadRequest, message)
  }

  function UnauthorizedException(message: string := "Unauthorized"): (e: AppException)
    ensures e.cls.Unauthorized? && e.message == message && StatusCode(e) == 401
  {
    AppException(Unauthorized, message)
  }

  function ForbiddenException(message: string := "Forbidden"): (e: AppException)
    ensures e.cls.Forbidden? && e.message == message && StatusCode(e) == 403
  {
    AppException(Forbidden, message)
  }

  function InsufficientStockException(message: string := "Insufficient stock"): (e: AppException)
    ensures e.cls.InsufficientStock? && e.message == message && StatusCode(e) == 400
  {
    AppException(InsufficientStock, message)
  }

  function ValidationException(message: string := "Validation error"): (e: AppException)
    ensures e.cls.Validation? && e.message == message && StatusCode(e) == 422
  {
    AppException(Validation, message)
  }

  /** Every subclass answers with a 4xx client-error code, and the subclasses other than the
      two "bad request" ones are told apart by their code alone. */
  lemma SubclassCodes(e: AppException, f: AppException)
    requires !e.cls.Base? && !f.cls.Base?
    ensures 400 <= StatusCode(e) < 500
    ensures StatusCode(e) == StatusCode(f) ==>
              e.cls == f.cls || (e.cls in {BadRequest, InsufficientStock} && f.cls in {BadRequest, InsufficientStock})
  {
  }
}
