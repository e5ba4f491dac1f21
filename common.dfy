/** Values shared by every part of the model: optional values, results and
    the HTTP errors the backend raises. */
module Common {

  datatype Option<+T> = None | Some(value: T)

  datatype Result<+T, +E> = Ok(value: T) | Err(error: E)

  /** A FastAPI HTTPException: the status code and the `detail` text. */
  datatype HttpError = HttpError(status: nat, detail: string)

  const HTTP_400_BAD_REQUEST: nat := 400
  const HTTP_401_UNAUTHORIZED: nat := 401
  const HTTP_403_FORBIDDEN: nat := 403
  const HTTP_404_NOT_FOUND: nat := 404
  const HTTP_500_INTERNAL_SERVER_ERROR: nat := 500
}
