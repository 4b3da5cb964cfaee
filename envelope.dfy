/**
 * The backend's response helpers. Every reply carries one envelope: a
 * status discriminator, a message, optionally data, optionally field-level
 * errors, and a timestamp; each helper fixes the HTTP status code and the
 * discriminator. The timestamp is the clock reading of the reply (its ISO
 * rendering is outside the model).
 */
module Envelopes {
  import opened Wrappers

  datatype Status = Success | Error | ValidationError

  /** The discriminator as it appears on the wire. */
  function StatusName(s: Status): string {
    match s
    case Success => "success"
    case Error => "error"
    case ValidationError => "validation_error"
  }

  /** Field name to messages (`Record<string, string[]>`). */
  type FieldErrors = map<string, seq<string>>

  /** `ApiResponse<T>`; `None` is a key that is absent from the body. */
  datatype ApiResponse<T> = ApiResponse(
    status: Status,
    message: string,
    data: Option<T>,
    errors: Option<FieldErrors>,
    timestamp: int)

  /** What goes out: the status code and the envelope. */
  datatype Reply<T> = Reply(code: int, body: ApiResponse<T>)

  /** `sendSuccess(reply, data, message = "Request successful", statusCode = 200)`. */
  function SendSuccess<T>(data: T, now: int, message: string := "Request successful", code: int := 200): Reply<T> {
    Reply(code, ApiResponse(Success, message, Some(data), None, now))
  }

  /** `sendError(reply, message, statusCode = 400, errors?)`: the envelope is
      a validation error exactly when errors are supplied, and only then does
      it carry an `errors` key. */
  function SendError<T>(message: string, now: int, code: int := 400, errors: Option<FieldErrors> := None): Reply<T> {
    Reply(code, ApiResponse(if errors.Some? then ValidationError else Error, message, None, errors, now))
  }

  /** `sendValidationError(reply, errors, message = "Validation failed")`. */
  function SendValidationError<T>(errors: FieldErrors, now: int, message: string := "Validation failed"): Reply<T> {
    Reply(422, ApiResponse(ValidationError, message, None, Some(errors), now))
  }

  /** `sendUnauthorized(reply, message = "Unauthorized")`. */
  function SendUnauthorized<T>(now: int, message: string := "Unauthorized"): Reply<T> {
    Reply(401, ApiResponse(Error, message, None, None, now))
  }

  /** `sendForbidden(reply, message = "Forbidden")`. */
  function SendForbidden<T>(now: int, message: string := "Forbidden"): Reply<T> {
    Reply(403, ApiResponse(Error, message, None, None, now))
  }

  /** `sendNotFound(reply, message = "Resource not found")`. */
  function SendNotFound<T>(now: int, message: string := "Resource not found"): Reply<T> {
    Reply(404, ApiResponse(Error, message, None, None, now))
  }

  /** `sendConflict(reply, message = "Resource already exists")`. */
  function SendConflict<T>(now: int, message: string := "Resource already exists"): Reply<T> {
    Reply(409, ApiResponse(Error, message, None, None, now))
  }

  /** The envelope's own consistency: it carries field errors exactly when
      it is a validation error, and data only when it is a success. */
  predicate Coherent<T>(r: ApiResponse<T>) {
    (r.errors.Some? <==> r.status == ValidationError) && (r.data.Some? ==> r.status == Success)
  }

  /** Every builder, whatever its arguments, produces a coherent envelope. */
  lemma BuildersCoherent<T>(data: T, message: string, now: int, code: int, errors: Option<FieldErrors>, fields: FieldErrors)
    ensures Coherent(SendSuccess(data, now, message, code).body)
    ensures Coherent(SendError<T>(message, now, code, errors).body)
    ensures Coherent(SendValidationError<T>(fields, now, message).body)
    ensures Coherent(SendUnauthorized<T>(now, message).body)
    ensures Coherent(SendForbidden<T>(now, message).body)
    ensures Coherent(SendNotFound<T>(now, message).body)
    ensures Coherent(SendConflict<T>(now, message).body)
  {
  }

  /** `sendError` with field errors is the validation-error envelope under
      another code. */
  lemma SendErrorWithErrors<T>(message: string, now: int, errors: FieldErrors)
    ensures SendError<T>(message, now, 422, Some(errors)) == SendValidationError<T>(errors, now, message)
  {
  }
}
