/**
 * The HTTP failures the handlers raise (FastAPI's HTTPException) and the result
 * a handler produces: a value, or a status code with its detail text.
 */
module Http {

  /** The status codes 400, 401, 403, 404 and 500. */
  datatype Status = BadRequest | Unauthorized | Forbidden | NotFound | InternalServerError

  /** A raised HTTPException; a bare `HTTPException(status_code=...)` carries the status phrase as detail. */
  datatype HttpError = HttpError(status: Status, detail: string)

  datatype Result<+T> = Ok(value: T) | Err(error: HttpError)

  const AccessDenied := HttpError(Forbidden, "Access denied")
}
