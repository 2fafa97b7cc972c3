/** Failure-carrying values shared by every module of the model. */
module Wrappers {

  /** Python's `X | None`: an absent value is `None`. */
  datatype Option<+T> = None | Some(value: T)

  /** FastAPI's `HTTPException(status_code, detail)`. */
  datatype HttpException = HttpException(statusCode: nat, detail: string)

  /** The outcome of a call that either returns a value or raises an `HTTPException`. */
  datatype Result<+T> = Ok(value: T) | Raise(exc: HttpException)
}
