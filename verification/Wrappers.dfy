/** Vocabulary shared by all modules. */
module Wrappers {

  datatype Option<T> = None | Some(value: T)

  /** A value, or a rejection where the original raises; which error it raises is not kept. */
  datatype Result<T> = Ok(value: T) | Rejected

  type Byte = b: int | 0 <= b < 256
  type Bytes = seq<Byte>
}
