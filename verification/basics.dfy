/** Small failure-carrying datatypes shared by every endpoint of the model. */
module Basics {

  /** A value that may be absent: Python's `Optional[...]` / `None`. */
  datatype Option<+T> = None | Some(value: T) {

    /** The carried value, or `default` when there is none. */
    function GetOr(default: T): T
    {
      match this
      case Some(v) => v
      case None => default
    }
  }

  /** The `HTTPException` an endpoint raises: a status code and its `detail` text. */
  datatype HttpError = HttpError(code: nat, detail: string)

  /** Either the endpoint's body or the HTTP error it raised. */
  datatype Result<+T> = Ok(value: T) | Err(error: HttpError)

  function Min(a: int, b: int): int
  {
    if a <= b then a else b
  }
}
