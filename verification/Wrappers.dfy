/** Results, optional values and machine integers shared by the models. */
module Wrappers {

  datatype Option<+T> = None | Some(value: T)

  type Uint64 = n: nat | n <= 0xFFFF_FFFF_FFFF_FFFF

  datatype Result<+T, +E> = Ok(value: T) | Err(error: E)
}
