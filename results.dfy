/** Success/failure values returned by the server actions. */
module Results {

  /** The value of an optional document field. */
  datatype Option<+T> = None | Some(value: T)

  /** An action that hands back a value on success (`{ success: true, grid }`). */
  datatype Result<+T, +E> = Ok(value: T) | Err(error: E)

  /** An action that only reports success or an error (`{ success, error? }`). */
  datatype Outcome<+E> = Pass | Fail(error: E)
}
