/** Types shared by all modules. */
module Wrappers {

  datatype Option<+T> = None | Some(value: T)

  datatype Result<T> = Ok(value: T) | Err(reason: string)

  type Byte = x: int | 0 <= x < 256
  type Bytes = seq<Byte>
}
