/** Values shared by every part of the backend: optional values and the
    outcome of a request handler, which either returns a value or raises an
    HTTPException carrying a status code and a detail message. */
module Common {

  datatype Option<+T> = None | Some(value: T)

  /** An HTTPException: the status code and the `detail` text the client sees. */
  datatype HttpError = HttpError(status: int, detail: string)

  /** What a handler or a dependency produces: a value, or a raised HTTPException. */
  datatype Result<+T> = Ok(value: T) | Err(error: HttpError)

  /** What the web framework answers when a handler raises anything other than
      an HTTPException (a KeyError, an ORM "does not exist" error, ...). */
  const INTERNAL_SERVER_ERROR := HttpError(500, "Internal Server Error")
}
