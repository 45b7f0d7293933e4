/**
 * The error taxonomy: `CustomError` carries an HTTP status and a message,
 * its subclasses fix the status and fall back to a default text when the
 * message is missing. Anything else a service throws (a plain `Error`, or a
 * runtime `TypeError` from reading a property of null) has no status.
 */
module Errors {

  datatype Error =
    | CustomError(status: int, message: string)
    | PlainError(message: string)

  /** The message of the runtime error raised when a property of null or undefined is read. */
  const TypeErrorMessage: string := "TypeError: Cannot read properties of null or undefined"

  const ValidationDefault: string := "Error de validación"
  const NotFoundDefault: string := "Recurso no encontrado"
  const UnauthorizedDefault: string := "No autorizado"

  /** An empty message stands for a missing one. */
  function OrDefault(message: string, default: string): string
  {
    if message == "" then default else message
  }

  function ValidationError(message: string): Error
  {
    CustomError(400, OrDefault(message, ValidationDefault))
  }

  function NotFoundError(message: string): Error
  {
    CustomError(404, OrDefault(message, NotFoundDefault))
  }

  function UnauthorizedError(message: string): Error
  {
    CustomError(401, OrDefault(message, UnauthorizedDefault))
  }

  /** Not defined by the error module; modelled after its siblings with status 409. */
  function ConflictError(message: string): Error
  {
    CustomError(409, message)
  }

  /** Not defined by the error module; modelled after its siblings with status 405. */
  function MethodNotAllowedError(message: string): Error
  {
    CustomError(405, message)
  }

  /** A runtime TypeError: no status, so the boundary answers 500. */
  function TypeError(): Error
  {
    PlainError(TypeErrorMessage)
  }

  predicate IsValidation(e: Error) { e.CustomError? && e.status == 400 }
  predicate IsNotFound(e: Error) { e.CustomError? && e.status == 404 }
  predicate IsUnauthorized(e: Error) { e.CustomError? && e.status == 401 }
  predicate IsConflict(e: Error) { e.CustomError? && e.status == 409 }
  predicate IsMethodNotAllowed(e: Error) { e.CustomError? && e.status == 405 }

  /** Each subclass carries its own status, and the five statuses are pairwise distinct. */
  lemma StatusCodes(m: string)
    ensures ValidationError(m).status == 400 && IsValidation(ValidationError(m))
    ensures NotFoundError(m).status == 404 && IsNotFound(NotFoundError(m))
    ensures UnauthorizedError(m).status == 401 && IsUnauthorized(UnauthorizedError(m))
    ensures ConflictError(m).status == 409 && IsConflict(ConflictError(m))
    ensures MethodNotAllowedError(m).status == 405 && IsMethodNotAllowed(MethodNotAllowedError(m))
  {
  }

  /** A given message is kept verbatim; a missing one is replaced by the class's default text. */
  lemma MessageOrDefault(m: string)
    ensures m != "" ==> ValidationError(m).message == m && NotFoundError(m).message == m && UnauthorizedError(m).message == m
    ensures m == "" ==> ValidationError(m).message == ValidationDefault
    ensures m == "" ==> NotFoundError(m).message == NotFoundDefault
    ensures m == "" ==> UnauthorizedError(m).message == UnauthorizedDefault
    ensures ValidationError(m).message != "" && NotFoundError(m).message != "" && UnauthorizedError(m).message != ""
  {
  }

  /** `CustomError` stores exactly the status and message it is given. */
  lemma CustomErrorStores(status: int, m: string)
    ensures CustomError(status, m).status == status && CustomError(status, m).message == m
  {
  }
}
