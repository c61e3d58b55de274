/** Small helpers shared by every component of the model. */
module Common {

  type Path = string

  /** The corners of a text box. */
  datatype Box = Box(x1: int, y1: int, x2: int, y2: int)

  datatype Option<+T> = None | Some(value: T)

  datatype Result<+T, +E> = Ok(value: T) | Err(error: E)

  function Max(a: int, b: int): int {
    if a < b then b else a
  }

  function Min(a: int, b: int): int {
    if b < a then b else a
  }
}
