/** The integer limits of the original. */
module Limits {
  const INT32_MAX := 0x7fff_ffff
  const UINT32_MAX := 0xffff_ffff
  const CAPTURE_COUNT_MAX := 255
}
