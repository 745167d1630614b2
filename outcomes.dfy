/** Outcome types shared by every module: an optional value, a value-or-error
    result, and the HTTP error that the web framework turns into a response. */
module Outcomes {

  datatype Option<+T> = None | Some(value: T)

  datatype Result<+T, +E> = Ok(value: T) | Err(error: E)

  /** An `HTTPException`: a status code and the `detail` the caller sees,
      either a bare string or an object `{"message": ...}`. */
  datatype HttpError = HttpError(status: int, detail: Detail)

  datatype Detail = Plain(text: string) | Message(message: string)

  const UNAUTHORIZED: int := 401
  const BAD_REQUEST: int := 400
}
