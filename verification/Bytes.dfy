/** Bytes and the few characters that the text modules name. */
module Bytes {

  type Byte = b: int | 0 <= b < 256

  const CR: Byte := 13
  const LF: Byte := 10
  const SPACE: Byte := 32
  const DASH: Byte := 45
  const DOT: Byte := 46
  const ZERO: Byte := 48
  const COLON: Byte := 58
  const UNDERSCORE: Byte := 95
}
