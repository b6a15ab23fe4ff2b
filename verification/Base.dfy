/** Types shared by the models: optional values and the service error codes of internal/logic/errors.go. */
module Base {

  datatype Option<+T> = None | Some(value: T)

  /** The error values a service operation returns; `Internal` stands for an
      error of the database itself, such as a rejected CHECK. */
  datatype Error =
    | InvalidInput
    | NotFound
    | Conflict
    | InvalidState
    | Internal

  datatype Result<+T> = Ok(value: T) | Err(error: Error)

  const MAX_INT32 := 0x7fff_ffff

  function Max(x: int, y: int): int {
    if x >= y then x else y
  }
}
