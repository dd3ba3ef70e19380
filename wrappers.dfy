/** Small shared vocabulary: an optional value and the byte type. */
module Wrappers {

  /** An optional value: a missing header, field or form part is `None`. */
  datatype Option<+T> = None | Some(value: T) {

    /** The value, or `default` when there is none (JavaScript's `x || default` for non-empty values). */
    function GetOr(default: T): (v: T) {
      match this
      case Some(v) => v
      case None => default
    }
  }
}

module Bytes {

  /** An octet, as held in a Node.js `Buffer`. */
  type byte = x: int | 0 <= x < 256
}
