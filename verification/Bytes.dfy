/** Bytes of UTF-8 text and of binary frames. */
module Bytes {
  type byte = x: int | 0 <= x < 256

  const QUOTE: byte := 0x22
  const BACKSLASH: byte := 0x5C
  const LBRACE: byte := 0x7B
  const RBRACE: byte := 0x7D
  const LBRACKET: byte := 0x5B
  const RBRACKET: byte := 0x5D
  const COMMA: byte := 0x2C
  const COLON: byte := 0x3A
}
