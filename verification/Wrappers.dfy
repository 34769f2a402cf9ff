/** Results that may be absent or may be an error, and a truth value as a number. */
module Wrappers {

  datatype Option<+T> = None | Some(value: T)

  datatype Result<+T, +E> = Ok(value: T) | Err(error: E)

  function Bit(b: bool): nat { if b then 1 else 0 }
}
