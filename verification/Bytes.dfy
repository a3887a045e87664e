/** Bytes, as the cursor tokens and the compiled catalogues are made of them. */
module Bytes {

  type Byte = b: int | 0 <= b < 256
}
