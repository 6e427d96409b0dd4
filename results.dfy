/** Failure-carrying values shared by every module: the HTTP errors the
    application raises, the database errors it lets escape, and the
    Option/Result shapes that stand for Python's `None` and exceptions. */
module Results {

  datatype Option<+T> = None | Some(value: T) {
    function GetOr(default: T): T {
      match this
      case Some(v) => v
      case None => default
    }
  }

  /** An exception raised out of an operation. */
  datatype Error =
    | Http(status: int, detail: string)   // fastapi.HTTPException(status_code, detail)
    | Integrity(constraint: string)       // a NOT NULL / UNIQUE violation raised at commit
    | TypeMismatch(detail: string)        // a Python TypeError (comparing None with an int)

  datatype Result<+T> = Ok(value: T) | Err(error: Error)

  /** The result of an operation that returns nothing on success. */
  datatype Outcome = Pass | Fail(error: Error)
}
