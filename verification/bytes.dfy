/** Octets as they travel over the relay's sockets. */
module Bytes {
  type Byte = b: int | 0 <= b < 256
}
