/** A byte, as uint8_t. */
module ByteType {
  type Byte = b: int | 0 <= b < 0x100
}
