/** What all parts share: bytes, and values that may be missing. */
module Common {

  type Byte = b: int | 0 <= b < 256

  datatype Option<T> = None | Some(value: T)
}
