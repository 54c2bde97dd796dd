/** The opcodes of the regular-expression virtual machine, in the order of libregexp-opcode.h. */
module RegexOpcodes {
  import opened ByteType

  const REOP_CHAR: Byte := 1
  const REOP_CHAR32: Byte := 2
  const REOP_DOT: Byte := 3
  const REOP_ANY: Byte := 4
  const REOP_LINE_START: Byte := 5
  const REOP_LINE_END: Byte := 6
  const REOP_GOTO: Byte := 7
  const REOP_SPLIT_GOTO_FIRST: Byte := 8
  const REOP_SPLIT_NEXT_FIRST: Byte := 9
  const REOP_MATCH: Byte := 10
  const REOP_SAVE_START: Byte := 11
  const REOP_SAVE_END: Byte := 12
  const REOP_SAVE_RESET: Byte := 13
  const REOP_LOOP: Byte := 14
  const REOP_PUSH_I32: Byte := 15
  const REOP_DROP: Byte := 16
  const REOP_WORD_BOUNDARY: Byte := 17
  const REOP_NOT_WORD_BOUNDARY: Byte := 18
  const REOP_BACK_REFERENCE: Byte := 19
  const REOP_BACKWARD_BACK_REFERENCE: Byte := 20
  const REOP_RANGE: Byte := 21
  const REOP_RANGE32: Byte := 22
  const REOP_LOOKAHEAD: Byte := 23
  const REOP_NEGATIVE_LOOKAHEAD: Byte := 24
  const REOP_PUSH_CHAR_POS: Byte := 25
  const REOP_BNE_CHAR_POS: Byte := 26
  const REOP_PREV: Byte := 27
  const REOP_SIMPLE_GREEDY_QUANT: Byte := 28
}
