/** Shared vocabulary: optional values, request outcomes and the time scale. */
module Common {

  /** Python's `Optional[T]`: `None` or a present value. */
  datatype Option<+T> = None | Some(value: T)

  /** The HTTP failures the routers raise: 404 for an unknown id, and a commit the database refuses. */
  datatype Error = NotFound | Rejected

  /** What a router handler returns: its response body, or the error it raises. */
  datatype Result<+T> = Ok(value: T) | Err(error: Error)

  /** A naive UTC `datetime`, as whole seconds since the epoch. */
  type Time = int

  const MINUTE: int := 60
  const HOUR: int := 60 * MINUTE
  const DAY: int := 24 * HOUR
}
