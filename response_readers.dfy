/**
 * The front end's readers of the response envelope: classify it, and
 * extract the message, the field errors or the data with fallbacks.
 */
module ResponseReaders {
  import opened Wrappers
  import opened Envelopes

  /** `isSuccess(response)`. */
  predicate IsSuccess<T>(r: ApiResponse<T>) {
    r.status == Success
  }

  /** `isValidationError(response)`. */
  predicate IsValidationError<T>(r: ApiResponse<T>) {
    r.status == ValidationError
  }

  /** `getErrorMessage(response)`: `response.message || "An error occurred"`. */
  function GetErrorMessage<T>(r: ApiResponse<T>): (m: string)
    ensures m != ""
    ensures r.message != "" ==> m == r.message
    ensures r.message == "" ==> m == "An error occurred"
  {
    if r.message == "" then "An error occurred" else r.message
  }

  /** `getValidationErrors(response)`: `response.errors || {}`. */
  function GetValidationErrors<T>(r: ApiResponse<T>): (e: FieldErrors)
    ensures r.errors.None? ==> e == map[]
    ensures r.errors.Some? ==> e == r.errors.value
  {
    r.errors.GetOr(map[])
  }

  /** `getData(response, fallback)`: `response.data || fallback`, where
      `truthy` is JavaScript's truthiness of the data value. */
  function GetData<T>(r: ApiResponse<T>, fallback: Option<T>, truthy: T -> bool): (d: Option<T>)
    ensures r.data.Some? && truthy(r.data.value) ==> d == r.data
    ensures !(r.data.Some? && truthy(r.data.value)) ==> d == fallback
  {
    if r.data.Some? && truthy(r.data.value) then r.data else fallback
  }

  /** The two classifications exclude each other. */
  lemma NeverBoth<T>(r: ApiResponse<T>)
    ensures !(IsSuccess(r) && IsValidationError(r))
  {
  }

  /** On a coherent envelope the readers agree with the discriminator: only
      a success can hand back its own data, and only a validation error can
      hand back field errors. */
  lemma CoherentReads<T>(r: ApiResponse<T>, fallback: Option<T>, truthy: T -> bool)
    requires Coherent(r)
    ensures !IsSuccess(r) ==> GetData(r, fallback, truthy) == fallback
    ensures !IsValidationError(r) ==> GetValidationErrors(r) == map[]
    ensures IsValidationError(r) ==> r.errors == Some(GetValidationErrors(r))
  {
  }

  /** Readers against builders: a success envelope reads as success with its
      data and no field errors. */
  lemma ReadSuccess<T>(data: T, now: int, message: string, code: int, truthy: T -> bool)
    requires truthy(data)
    ensures var b := SendSuccess(data, now, message, code).body;
      IsSuccess(b) && !IsValidationError(b)
      && GetData(b, None, truthy) == Some(data)
      && GetValidationErrors(b) == map[]
  {
  }

  /** `sendError` reads as a validation error exactly when it was given field
      errors, and then hands them back; it never reads as success. */
  lemma ReadError<T>(message: string, now: int, code: int, errors: Option<FieldErrors>, fallback: Option<T>, truthy: T -> bool)
    ensures var b := SendError<T>(message, now, code, errors).body;
      !IsSuccess(b)
      && (IsValidationError(b) <==> errors.Some?)
      && GetValidationErrors(b) == errors.GetOr(map[])
      && GetData(b, fallback, truthy) == fallback
      && (message != "" ==> GetErrorMessage(b) == message)
  {
  }

  lemma ReadValidationError<T>(errors: FieldErrors, now: int, message: string)
    ensures var b := SendValidationError<T>(errors, now, message).body;
      IsValidationError(b) && !IsSuccess(b) && GetValidationErrors(b) == errors
  {
  }

  /** The 401/403/404/409 helpers read as plain errors with no field errors;
      their default messages are what `getErrorMessage` shows. */
  lemma ReadShortcuts<T>(now: int)
    ensures var b := SendUnauthorized<T>(now).body;
      !IsSuccess(b) && !IsValidationError(b) && GetValidationErrors(b) == map[] && GetErrorMessage(b) == "Unauthorized"
    ensures var b := SendForbidden<T>(now).body;
      !IsSuccess(b) && !IsValidationError(b) && GetValidationErrors(b) == map[] && GetErrorMessage(b) == "Forbidden"
    ensures var b := SendNotFound<T>(now).body;
      !IsSuccess(b) && !IsValidationError(b) && GetValidationErrors(b) == map[] && GetErrorMessage(b) == "Resource not found"
    ensures var b := SendConflict<T>(now).body;
      !IsSuccess(b) && !IsValidationError(b) && GetValidationErrors(b) == map[] && GetErrorMessage(b) == "Resource already exists"
  {
  }
}
