/** The linear scans over emitted bytes: re_is_simple_quantifier, re_check_advance and
    compute_stack_size, each proved against its meaning on instructions. */
module RegexScan {
  import opened ByteType
  import opened Options
  import opened Limits
  import opened RegexOpcodes
  import opened RegexCode
  import opened RegexPattern
  import opened RegexAnalysis
  import opened RegexStack

  /** reopcode_info: the sizes of the instructions, without the pairs of the range instructions. */
  function OpcodeSize(op: Byte): (n: nat)
    ensures n > 0
  {
    if op in {REOP_CHAR, REOP_SAVE_RESET, REOP_RANGE, REOP_RANGE32} then 3
    else if op in {REOP_SAVE_START, REOP_SAVE_END, REOP_BACK_REFERENCE, REOP_BACKWARD_BACK_REFERENCE} then 2
    else if op in {REOP_CHAR32, REOP_GOTO, REOP_SPLIT_GOTO_FIRST, REOP_SPLIT_NEXT_FIRST, REOP_LOOP,
                   REOP_PUSH_I32, REOP_LOOKAHEAD, REOP_NEGATIVE_LOOKAHEAD, REOP_BNE_CHAR_POS} then 5
    else if op == REOP_SIMPLE_GREEDY_QUANT then 17
    else 1
  }

  /** The opcodes of the tests of one character other than ranges: char, char32, dot, any. */
  predicate IsCharOpcode(op: Byte) {
    REOP_CHAR <= op <= REOP_ANY
  }

  /** line_start, line_end, word_boundary, not_word_boundary. */
  predicate IsAssertOpcode(op: Byte) {
    op in {REOP_LINE_START, REOP_LINE_END, REOP_WORD_BOUNDARY, REOP_NOT_WORD_BOUNDARY}
  }

  /** What the first bytes of an instruction tell. */
  lemma FetchedBytes(bc: seq<Byte>, p: nat, i: Instr)
    requires FetchInstr(bc, p) == Some(i)
    ensures p < |bc| && bc[p] == Opcode(i)
    ensures i.Range? || i.Range32? ==> p + 3 <= |bc| && Get16(bc, p + 1) == |i.ps|
    ensures i.SaveStart? || i.SaveEnd? || i.BackRef? ==> p + 2 <= |bc| && bc[p + 1] == i.n
    ensures i.SaveReset? ==> p + 3 <= |bc| && bc[p + 1] == i.lo && bc[p + 2] == i.hi
  {
    hide GetPairs16;
    hide GetPairs32;
    hide Get32;
    hide GetI32;
    hide Get16;
  }

  lemma SizeByOpcode(i: Instr)
    ensures Size(i) == OpcodeSize(Opcode(i)) + (if i.Range? then 4 * |i.ps| else if i.Range32? then 8 * |i.ps| else 0)
  {
  }

  /** The opcodes tell the kinds of instructions apart. */
  lemma OpcodeKinds(i: Instr)
    ensures Opcode(i) == REOP_RANGE <==> i.Range?
    ensures Opcode(i) == REOP_RANGE32 <==> i.Range32?
    ensures IsCharOpcode(Opcode(i)) <==> IsCharTest(i) && !i.Range? && !i.Range32?
    ensures IsAssertOpcode(Opcode(i)) <==> i.Assert?
    ensures Opcode(i) == REOP_SAVE_START <==> i.SaveStart?
    ensures Opcode(i) == REOP_SAVE_END <==> i.SaveEnd?
    ensures Opcode(i) == REOP_SAVE_RESET <==> i.SaveReset?
    ensures Opcode(i) == REOP_PUSH_I32 <==> i.PushI32?
    ensures Opcode(i) == REOP_DROP <==> i.Drop?
    ensures Opcode(i) == REOP_PUSH_CHAR_POS <==> i.PushPos?
    ensures Opcode(i) == REOP_BNE_CHAR_POS <==> i.Bne?
    ensures Opcode(i) == REOP_PREV <==> i.Prev?
    ensures Opcode(i) in {REOP_BACK_REFERENCE, REOP_BACKWARD_BACK_REFERENCE} <==> i.BackRef?
  {
  }

  /** The instruction that a scan finds at its position. */
  lemma {:induction false} ScanFinds(bc: seq<Byte>, p: nat, code: seq<Instr>, k: nat)
    requires At(bc, p, code) && k < |code|
    ensures FetchInstr(bc, p + SizeOf(code[..k])) == Some(code[k])
    ensures SizeOf(code[..k + 1]) == SizeOf(code[..k]) + Size(code[k])
    ensures SizeOf(code[..k]) < SizeOf(code)
    decreases k
  {
    hide FetchInstr;
    hide Size;
    assert code[..k + 1] == code[..k] + [code[k]];
    SizeOfConcat(code[..k], [code[k]]);
    assert [code[k]][1..] == [];
    assert code == code[..k] + code[k..];
    SizeOfConcat(code[..k], code[k..]);
    AtConcat(bc, p, code[..k], code[k..]);
  }

  /** One step of a scan: the instruction, its bytes, and where the next one starts. */
  lemma ScanStep(bc: seq<Byte>, p: nat, code: seq<Instr>, k: nat, pos: nat) returns (i: Instr)
    requires At(bc, p, code) && k < |code| && pos == SizeOf(code[..k])
    ensures i == code[k] && p + pos < |bc| && bc[p + pos] == Opcode(i)
    ensures i.Range? || i.Range32? ==> p + pos + 3 <= |bc| && Get16(bc, p + pos + 1) == |i.ps|
    ensures i.SaveStart? || i.SaveEnd? || i.BackRef? ==> p + pos + 2 <= |bc| && bc[p + pos + 1] == i.n
    ensures i.SaveReset? ==> p + pos + 3 <= |bc| && bc[p + pos + 1] == i.lo && bc[p + pos + 2] == i.hi
    ensures SizeOf(code[..k + 1]) ==
            pos + OpcodeSize(Opcode(i)) + (if i.Range? then 4 * |i.ps| else if i.Range32? then 8 * |i.ps| else 0)
    ensures SizeOf(code[..k + 1]) <= SizeOf(code)
  {
    hide FetchInstr;
    hide Size;
    hide Opcode;
    hide OpcodeSize;
    i := code[k];
    ScanFinds(bc, p, code, k);
    FetchedBytes(bc, p + pos, i);
    SizeByOpcode(i);
    assert code == code[..k + 1] + code[k + 1..];
    SizeOfConcat(code[..k + 1], code[k + 1..]);
  }

  lemma ScanEnds(code: seq<Instr>, k: nat)
    requires k <= |code|
    ensures SizeOf(code[..k]) == SizeOf(code) <==> k == |code|
  {
    assert code == code[..k] + code[k..];
    SizeOfConcat(code[..k], code[k..]);
  }

  lemma SimpleSnoc(code: seq<Instr>, k: nat)
    requires k < |code|
    ensures var a, b := SimpleLength(code[..k]), SimpleLength(code[..k + 1]);
            && (IsCharTest(code[k]) ==> b == if a.Some? then Some(a.value + 1) else None)
            && (code[k].Assert? ==> b == a)
            && (!IsCharTest(code[k]) && !code[k].Assert? ==> b == None)
  {
    assert code[..k + 1] == code[..k] + [code[k]];
    SimpleConcat(code[..k], [code[k]]);
    assert [code[k]][1..] == [];
  }

  /** re_is_simple_quantifier, on the bytes from `start` on: -1, or the number of characters. */
  method IsSimpleQuantifier(buf: seq<Byte>, start: nat, ghost code: seq<Instr>) returns (count: int)
    requires start + SizeOf(code) == |buf| && At(buf, start, code)
    ensures count == match SimpleLength(code) case Some(n) => n case None => -1
  {
    count := 0;
    var pos := 0;
    ghost var k := 0;
    while pos < |buf| - start
      invariant k <= |code| && pos == SizeOf(code[..k]) <= SizeOf(code)
      invariant count >= 0 && SimpleLength(code[..k]) == Some(count)
      decreases SizeOf(code) - pos
    {
      ScanEnds(code, k);
      ghost var i := ScanStep(buf, start, code, k, pos);
      OpcodeKinds(i);
      SimpleSnoc(code, k);
      var opcode := buf[start + pos];
      var len := OpcodeSize(opcode);
      if opcode == REOP_RANGE {
        len := len + 4 * Get16(buf, start + pos + 1);
        count := count + 1;
      } else if opcode == REOP_RANGE32 {
        len := len + 8 * Get16(buf, start + pos + 1);
        count := count + 1;
      } else if IsCharOpcode(opcode) {
        count := count + 1;
      } else if !IsAssertOpcode(opcode) {
        SimpleNone(code, k + 1);
        return -1;
      }
      pos := pos + len;
      k := k + 1;
    }
    ScanEnds(code, k);
    assert code[..k] == code;
  }

  lemma SimpleNone(code: seq<Instr>, k: nat)
    requires k <= |code| && SimpleLength(code[..k]).None?
    ensures SimpleLength(code).None?
  {
    SimpleConcat(code[..k], code[k..]);
    assert code == code[..k] + code[k..];
  }

  // ----- compute_stack_size -----

  /** The depth before an instruction is non-negative where the scan does not stop. */
  predicate ScanDepths(code: seq<Instr>)
  {
    forall k | 0 <= k < |code| && (code[k].Drop? || code[k].Bne?) :: Net(code[..k]) > 0
  }

  lemma NetSnoc(code: seq<Instr>, k: nat)
    requires k < |code|
    ensures Net(code[..k + 1]) == Net(code[..k]) + Delta(code[k])
    ensures MaxDepth(code[..k + 1]) == (var d := Net(code[..k + 1]); if d > MaxDepth(code[..k]) then d else MaxDepth(code[..k]))
    ensures Net(code[..k]) <= MaxDepth(code[..k]) && MaxDepth(code[..k + 1]) <= MaxDepth(code)
  {
    hide Delta;
    hide MaxDepth;
    var i := code[k];
    assert code[..k + 1] == code[..k] + [i];
    NetConcat(code[..k], [i]);
    MaxDepthConcat(code[..k], [i]);
    MaxDepthOne(i);
    NetBelowMax(code[..k]);
    assert code == code[..k + 1] + code[k + 1..];
    MaxDepthConcat(code[..k + 1], code[k + 1..]);
  }

  lemma MaxDepthOne(i: Instr)
    ensures Net([i]) == Delta(i) && MaxDepth([i]) == if Delta(i) > 0 then Delta(i) else 0
  {
    assert [i][1..] == [];
  }

  lemma {:induction false} NetBelowMax(code: seq<Instr>)
    ensures Net(code) <= MaxDepth(code)
  {
    if code != [] {
      NetBelowMax(code[1..]);
    }
  }

  lemma {:induction false} MaxDepthConcat(a: seq<Instr>, b: seq<Instr>)
    ensures MaxDepth(a + b) == (var d := Net(a) + MaxDepth(b); if d > MaxDepth(a) then d else MaxDepth(a))
  {
    if a == [] {
      assert a + b == b;
    } else {
      assert (a + b)[1..] == a[1..] + b;
      MaxDepthConcat(a[1..], b);
    }
  }

  /** compute_stack_size: the greatest depth of the scan, or -1 if it exceeds 255. The two `assert`s of
      the original cannot fail. */
  method ComputeStackSize(buf: seq<Byte>, start: nat, ghost code: seq<Instr>) returns (stackSizeMax: int)
    requires start + SizeOf(code) == |buf| && At(buf, start, code) && ScanDepths(code)
    ensures stackSizeMax == if MaxDepth(code) <= STACK_SIZE_MAX then MaxDepth(code) else -1
  {
    var stackSize := 0;
    stackSizeMax := 0;
    var pos := 0;
    ghost var k := 0;
    while pos < |buf| - start
      invariant k <= |code| && pos == SizeOf(code[..k]) <= SizeOf(code)
      invariant stackSize == Net(code[..k])
      invariant stackSizeMax == MaxDepth(code[..k]) <= STACK_SIZE_MAX
      decreases SizeOf(code) - pos
    {
      ScanEnds(code, k);
      ghost var i := ScanStep(buf, start, code, k, pos);
      OpcodeKinds(i);
      NetSnoc(code, k);
      var opcode := buf[start + pos];
      var len := OpcodeSize(opcode);
      if opcode == REOP_PUSH_I32 || opcode == REOP_PUSH_CHAR_POS {
        stackSize := stackSize + 1;
        if stackSize > stackSizeMax {
          if stackSize > STACK_SIZE_MAX {
            return -1;
          }
          stackSizeMax := stackSize;
        }
      } else if opcode == REOP_DROP || opcode == REOP_BNE_CHAR_POS {
        assert stackSize > 0;
        stackSize := stackSize - 1;
      } else if opcode == REOP_RANGE {
        len := len + 4 * Get16(buf, start + pos + 1);
      } else if opcode == REOP_RANGE32 {
        len := len + 8 * Get16(buf, start + pos + 1);
      }
      pos := pos + len;
      k := k + 1;
    }
    ScanEnds(code, k);
    assert code[..k] == code;
  }

  // ----- re_check_advance -----

  lemma {:induction false} MarkSnoc(code: seq<Instr>, k: nat)
    requires k < |code|
    ensures MarkedBy(code[..k + 1]) == MarkedBy(code[..k]) + Marks(code[k])
    ensures ReferredBy(code[..k + 1]) == ReferredBy(code[..k]) + RefsOf(code[k])
    ensures ScanAdvance(code[..k + 1]) ==
            if ScanAdvance(code[..k]) == Unknown then AdvanceOf(code[k]) else ScanAdvance(code[..k])
    ensures !code[k].SaveStart? && !code[k].SaveEnd? && !code[k].SaveReset? ==> MarkedBy(code[..k + 1]) == MarkedBy(code[..k])
    ensures !code[k].BackRef? ==> ReferredBy(code[..k + 1]) == ReferredBy(code[..k])
    ensures MarkedBy(code[..k + 1]) <= MarkedBy(code) && ReferredBy(code[..k + 1]) <= ReferredBy(code)
  {
    assert code[..k + 1] == code[..k] + [code[k]];
    MarksConcat(code[..k], [code[k]]);
    ScanConcat(code[..k], [code[k]]);
    assert [code[k]][1..] == [];
    assert code == code[..k + 1] + code[k + 1..];
    MarksConcat(code[..k + 1], code[k + 1..]);
  }

  lemma MarksBound(code: seq<Instr>, k: nat)
    requires k < |code|
    requires forall n | n in MarkedBy(code) + ReferredBy(code) :: n < CAPTURE_COUNT_MAX
    ensures forall n | n in Marks(code[k]) :: n < CAPTURE_COUNT_MAX
    ensures code[k].BackRef? ==> code[k].n < CAPTURE_COUNT_MAX
  {
    MarkSnoc(code, k);
    assert Marks(code[k]) <= MarkedBy(code) + ReferredBy(code);
    if code[k].BackRef? {
      assert code[k].n in RefsOf(code[k]);
      assert code[k].n in MarkedBy(code) + ReferredBy(code);
    }
  }

  /** A bitmap entry: bit 0 for a capture that is set, bit 1 for one that is referred to. */
  function Entry(sets: set<nat>, refs: set<nat>, n: nat): nat {
    (if n in sets then 1 else 0) + (if n in refs then 2 else 0)
  }

  /** The entries of the bitmap of re_check_advance. */
  ghost predicate IsBitmap(bitmap: array<nat>, sets: set<nat>, refs: set<nat>)
    reads bitmap
  {
    bitmap.Length == CAPTURE_COUNT_MAX && forall n | 0 <= n < CAPTURE_COUNT_MAX :: bitmap[n] == Entry(sets, refs, n)
  }

  function OrBit0(v: nat): nat {
    if v % 2 == 0 then v + 1 else v
  }

  function OrBit1(v: nat): nat {
    if v / 2 % 2 == 0 then v + 2 else v
  }

  /** The loop over the captures of a save_reset. */
  method MarkRange(bitmap: array<nat>, lo: nat, last: nat, ghost sets: set<nat>, ghost refs: set<nat>)
    requires (forall n | n in Interval(lo, last) :: n < CAPTURE_COUNT_MAX)
    requires IsBitmap(bitmap, sets, refs)
    modifies bitmap
    ensures IsBitmap(bitmap, sets + Interval(lo, last), refs)
  {
    var val := lo;
    while val < last
      invariant lo <= val && (val <= last || val == lo)
      invariant IsBitmap(bitmap, sets + Interval(lo, val), refs)
    {
      assert val in Interval(lo, last);
      bitmap[val] := OrBit0(bitmap[val]);
      val := val + 1;
    }
  }

  /** The final loop: is some capture both set and referred to? */
  method HasBoth(bitmap: array<nat>, ghost sets: set<nat>, ghost refs: set<nat>) returns (both: bool)
    requires IsBitmap(bitmap, sets, refs)
    requires forall n | n in sets + refs :: n < CAPTURE_COUNT_MAX
    ensures both <==> sets * refs != {}
  {
    for n := 0 to CAPTURE_COUNT_MAX
      invariant forall j | 0 <= j < n :: bitmap[j] != 3
    {
      if bitmap[n] == 3 {
        Three(sets, refs, n);
        return true;
      }
    }
    NoThree(sets, refs);
    return false;
  }

  /** The cases of the scan that set bit 0: save_start, save_end and save_reset. */
  method MarkSets(bitmap: array<nat>, buf: seq<Byte>, p: nat, ghost i: Instr, ghost sets: set<nat>, ghost refs: set<nat>)
    requires i.SaveStart? || i.SaveEnd? || i.SaveReset?
    requires FetchInstr(buf, p) == Some(i)
    requires forall n | n in Marks(i) :: n < CAPTURE_COUNT_MAX
    requires IsBitmap(bitmap, sets, refs)
    modifies bitmap
    ensures IsBitmap(bitmap, sets + Marks(i), refs)
  {
    hide FetchInstr;
    FetchedBytes(buf, p, i);
    OpcodeKinds(i);
    if buf[p] == REOP_SAVE_RESET {
      MarkRange(bitmap, buf[p + 1], buf[p + 2], sets, refs);
    } else {
      assert i.n in Marks(i);
      bitmap[buf[p + 1]] := OrBit0(bitmap[buf[p + 1]]);
    }
  }

  /** The case of the scan that sets bit 1: the back references. */
  method MarkRefs(bitmap: array<nat>, buf: seq<Byte>, p: nat, ghost i: Instr, ghost sets: set<nat>, ghost refs: set<nat>)
    requires i.BackRef? && i.n < CAPTURE_COUNT_MAX && FetchInstr(buf, p) == Some(i)
    requires IsBitmap(bitmap, sets, refs)
    modifies bitmap
    ensures IsBitmap(bitmap, sets, refs + RefsOf(i))
  {
    hide FetchInstr;
    FetchedBytes(buf, p, i);
    bitmap[buf[p + 1]] := OrBit1(bitmap[buf[p + 1]]);
  }

  /** `ret` of re_check_advance. */
  function RetOf(a: Advance): int {
    match a
    case Unknown => -2
    case May => 0
    case Must => 1
  }

  /** The length of the instruction at `p`, with the pairs of a range. */
  method NextLength(buf: seq<Byte>, p: nat, ghost i: Instr) returns (len: nat)
    requires FetchInstr(buf, p) == Some(i)
    ensures p < |buf| && len == Size(i)
  {
    FetchedBytes(buf, p, i);
    SizeByOpcode(i);
    OpcodeKinds(i);
    hide *;
    len := OpcodeSize(buf[p]);
    if buf[p] == REOP_RANGE {
      len := len + 4 * Get16(buf, p + 1);
    } else if buf[p] == REOP_RANGE32 {
      len := len + 8 * Get16(buf, p + 1);
    }
  }

  /** What the opcodes that touch no bitmap do to `ret`. */
  method NextRet(opcode: Byte, ret: int, ghost i: Instr) returns (r: int)
    requires opcode == Opcode(i)
    ensures r == if ret == -2 then RetOf(AdvanceOf(i)) else ret
  {
    OpcodeKinds(i);
    hide Opcode;
    r := ret;
    if opcode == REOP_RANGE || opcode == REOP_RANGE32 || IsCharOpcode(opcode) {
      if ret == -2 {
        r := 1;
      }
    } else if IsAssertOpcode(opcode) || opcode in {REOP_PUSH_I32, REOP_PUSH_CHAR_POS, REOP_DROP, REOP_PREV,
                                                   REOP_SAVE_START, REOP_SAVE_END, REOP_SAVE_RESET,
                                                   REOP_BACK_REFERENCE, REOP_BACKWARD_BACK_REFERENCE} {
      // no effect
    } else {
      if ret == -2 {
        r := 0;
      }
    }
  }

  /** The cases that mark captures. */
  method MarkOne(bitmap: array<nat>, buf: seq<Byte>, p: nat, ghost code: seq<Instr>, ghost k: nat) returns (isRef: bool)
    requires k < |code| && p < |buf| && FetchInstr(buf, p) == Some(code[k])
    requires forall n | n in MarkedBy(code) + ReferredBy(code) :: n < CAPTURE_COUNT_MAX
    requires IsBitmap(bitmap, MarkedBy(code[..k]), ReferredBy(code[..k]))
    modifies bitmap
    ensures isRef == code[k].BackRef?
    ensures IsBitmap(bitmap, MarkedBy(code[..k + 1]), ReferredBy(code[..k + 1]))
  {
    ghost var i := code[k];
    FetchedBytes(buf, p, i);
    OpcodeKinds(i);
    MarkSnoc(code, k);
    MarksBound(code, k);
    hide *;
    isRef := false;
    if buf[p] == REOP_SAVE_START || buf[p] == REOP_SAVE_END || buf[p] == REOP_SAVE_RESET {
      MarkSets(bitmap, buf, p, i, MarkedBy(code[..k]), ReferredBy(code[..k]));
    } else if buf[p] == REOP_BACK_REFERENCE || buf[p] == REOP_BACKWARD_BACK_REFERENCE {
      MarkRefs(bitmap, buf, p, i, MarkedBy(code[..k]), ReferredBy(code[..k]));
      isRef := true;
    }
  }

  /** Some capture is referred to from the first back reference on. */
  lemma RefsGrow(code: seq<Instr>, k: nat)
    requires k < |code|
    ensures ReferredBy(code[..k + 1]) != {} <==> ReferredBy(code[..k]) != {} || code[k].BackRef?
    ensures RetOf(ScanAdvance(code[..k + 1])) ==
            if RetOf(ScanAdvance(code[..k])) == -2 then RetOf(AdvanceOf(code[k])) else RetOf(ScanAdvance(code[..k]))
  {
    MarkSnoc(code, k);
    assert code[k].BackRef? ==> code[k].n in ReferredBy(code[..k + 1]);
  }

  lemma NothingMarked()
    ensures MarkedBy([]) == {} && ReferredBy([]) == {} && RetOf(ScanAdvance([])) == -2
  {
  }

  lemma AdvanceResult(code: seq<Instr>, ret: int, both: bool)
    requires ret == RetOf(ScanAdvance(code)) && both == (MarkedBy(code) * ReferredBy(code) != {})
    ensures (if both then -1 else if ret == -2 then 0 else ret) ==
            match CheckAdvance(code) case None => -1 case Some(a) => if a == Must then 1 else 0
  {
  }

  /** re_check_advance, on the bytes from `start` on. The cases of its switch are those of MarkOne and NextRet. */
  method CheckAdvanceScan(buf: seq<Byte>, start: nat, ghost code: seq<Instr>) returns (ret: int)
    requires start + SizeOf(code) == |buf| && At(buf, start, code)
    requires forall n | n in MarkedBy(code) + ReferredBy(code) :: n < CAPTURE_COUNT_MAX
    ensures ret == match CheckAdvance(code) case None => -1 case Some(a) => if a == Must then 1 else 0
  {
    ret := -2;
    var pos := 0;
    var hasBackReference := false;
    var bitmap := new nat[CAPTURE_COUNT_MAX](_ => 0);
    ghost var k := 0;
    NothingMarked();
    assert code[..0] == [];
    assert IsBitmap(bitmap, {}, {});
    hide *;
    while pos < |buf| - start
      invariant k <= |code| && pos == SizeOf(code[..k]) <= SizeOf(code)
      invariant ret == RetOf(ScanAdvance(code[..k]))
      invariant hasBackReference <==> ReferredBy(code[..k]) != {}
      invariant IsBitmap(bitmap, MarkedBy(code[..k]), ReferredBy(code[..k]))
      decreases SizeOf(code) - pos
    {
      ScanEnds(code, k);
      ghost var i := ScanStep(buf, start, code, k, pos);
      ScanFinds(buf, start, code, k);
      RefsGrow(code, k);
      var opcode := buf[start + pos];
      var len := NextLength(buf, start + pos, i);
      ret := NextRet(opcode, ret, i);
      var isRef := MarkOne(bitmap, buf, start + pos, code, k);
      hasBackReference := hasBackReference || isRef;
      pos := pos + len;
      k := k + 1;
    }
    ScanEnds(code, k);
    assert code[..k] == code;
    var both := false;
    if hasBackReference {
      both := HasBoth(bitmap, MarkedBy(code), ReferredBy(code));
    } else {
      assert MarkedBy(code) * ReferredBy(code) == {};
    }
    AdvanceResult(code, ret, both);
    if both {
      return -1;
    }
    if ret == -2 {
      ret := 0;
    }
  }

  lemma Three(sets: set<nat>, refs: set<nat>, n: nat)
    requires Entry(sets, refs, n) == 3
    ensures sets * refs != {}
  {
    assert n in sets * refs;
  }

  lemma NoThree(sets: set<nat>, refs: set<nat>)
    requires forall n | n in sets + refs :: n < CAPTURE_COUNT_MAX
    requires forall n: nat | n < CAPTURE_COUNT_MAX :: Entry(sets, refs, n) != 3
    ensures sets * refs == {}
  {
    forall n | n in sets
      ensures n !in refs
    {
      assert n in sets + refs;
      assert Entry(sets, refs, n) != 3;
    }
  }
}
