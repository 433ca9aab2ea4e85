/** Small datatypes shared by every component. */
module Prelude {
  datatype Option<+T> = None | Some(value: T)

  datatype Result<+T, +E> = Ok(value: T) | Err(error: E)

  /** What Telecom shows of the calls on the device. */
  datatype CallDisposition = Idle | SingleSafe | Emergency | Multiple | Unknown

  function Max(a: int, b: int): int {
    if a < b then b else a
  }
}
