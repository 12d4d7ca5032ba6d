/** Small shared vocabulary: an optional value (JavaScript's `null`/absent
    against a present value) and the byte type of Node's `Buffer`. */
module Base {

  datatype Option<+T> = None | Some(value: T)

  /** One octet of a Node `Buffer`. */
  newtype byte = x: int | 0 <= x < 256

  type Bytes = seq<byte>
}
