// Small shared datatypes.
module Wrappers {

  /** The source's std::optional. */
  datatype Option<+T> = None | Some(value: T)

  type Byte = b: int | 0 <= b < 256 witness 0
  type Bytes = seq<Byte>
}
