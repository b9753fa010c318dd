/** Shared result types. */
module Common {
  datatype Option<+T> = None | Some(value: T)

  /** The HTTP-level outcomes the services distinguish. */
  datatype Error = NotFound | BadRequest | Conflict | Forbidden | Unauthorized

  datatype Result<+T> = Ok(value: T) | Err(error: Error)
}
