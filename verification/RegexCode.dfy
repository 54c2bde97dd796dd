/** The instruction set of the regular-expression virtual machine and its byte encoding. */
module RegexCode {
  import opened ByteType
  import opened Options
  import opened Limits
  import opened RegexOpcodes

  datatype AssertKind = LineStart | LineEnd | WordBoundary | NotWordBoundary

  /** One instruction. `off` is a jump distance in bytes, counted from the end of the instruction. */
  datatype Instr =
    | Char(c: nat)
    | Char32(c: nat)
    | Dot
    | Any
    | Assert(kind: AssertKind)
    | Goto(off: int)
    | Split(nextFirst: bool, off: int)
    | Match
    | SaveStart(n: nat)
    | SaveEnd(n: nat)
    | SaveReset(lo: nat, hi: nat)
    | Loop(off: int)
    | PushI32(v: nat)
    | Drop
    | BackRef(backward: bool, n: nat)
    | Range(ps: seq<(nat, nat)>)
    | Range32(ps: seq<(nat, nat)>)
    | Look(neg: bool, off: int)
    | PushPos
    | Bne(off: int)
    | Prev
    | Greedy(next: int, min: nat, max: nat, len: nat)

  /** The length of an instruction in bytes. */
  function Size(i: Instr): (n: nat)
    ensures n > 0
  {
    match i
    case Char(_) => 3
    case SaveStart(_) => 2
    case SaveEnd(_) => 2
    case SaveReset(_, _) => 3
    case BackRef(_, _) => 2
    case Range(ps) => 3 + 4 * |ps|
    case Range32(ps) => 3 + 8 * |ps|
    case Greedy(_, _, _, _) => 17
    case Dot => 1
    case Any => 1
    case Assert(_) => 1
    case Match => 1
    case Drop => 1
    case PushPos => 1
    case Prev => 1
    case Char32(_) => 5
    case Goto(_) => 5
    case Split(_, _) => 5
    case Loop(_) => 5
    case PushI32(_) => 5
    case Look(_, _) => 5
    case Bne(_) => 5
  }

  /** The length of a code sequence in bytes. */
  function SizeOf(code: seq<Instr>): (n: nat)
    ensures code != [] ==> n > 0
  {
    if code == [] then 0 else Size(code[0]) + SizeOf(code[1..])
  }

  lemma {:induction false} SizeOfConcat(a: seq<Instr>, b: seq<Instr>)
    ensures SizeOf(a + b) == SizeOf(a) + SizeOf(b)
  {
    if a == [] {
      assert a + b == b;
    } else {
      SizeOfConcat(a[1..], b);
      assert (a + b)[1..] == a[1..] + b;
    }
  }

  // ----- little-endian fields -----

  function U16(v: int): (s: seq<Byte>)
    ensures |s| == 2
  {
    [v % 0x100, v / 0x100 % 0x100]
  }

  /** put_u32; a negative value is stored in two's complement. */
  function U32(v: int): (s: seq<Byte>)
    ensures |s| == 4
  {
    [v % 0x100, v / 0x100 % 0x100, v / 0x1_0000 % 0x100, v / 0x100_0000 % 0x100]
  }

  /** get_u16. */
  function Get16(bc: seq<Byte>, p: nat): (v: nat)
    requires p + 2 <= |bc|
    ensures v < 0x1_0000
  {
    bc[p] as int + 0x100 * (bc[p + 1] as int)
  }

  /** get_u32. */
  function Get32(bc: seq<Byte>, p: nat): (v: nat)
    requires p + 4 <= |bc|
    ensures v <= UINT32_MAX
  {
    bc[p] as int + 0x100 * (bc[p + 1] as int) + 0x1_0000 * (bc[p + 2] as int) + 0x100_0000 * (bc[p + 3] as int)
  }

  /** (int)get_u32. */
  function GetI32(bc: seq<Byte>, p: nat): int
    requires p + 4 <= |bc|
  {
    var v := Get32(bc, p);
    if v > INT32_MAX then v - 0x1_0000_0000 else v
  }

  lemma Get16Put(bc: seq<Byte>, p: nat, v: nat)
    requires p + 2 <= |bc| && bc[p..p + 2] == U16(v) && v < 0x1_0000
    ensures Get16(bc, p) == v
  {
    assert bc[p] == bc[p..p + 2][0] && bc[p + 1] == bc[p..p + 2][1];
  }

  lemma Get32Put(bc: seq<Byte>, p: nat, v: int)
    requires p + 4 <= |bc| && bc[p..p + 4] == U32(v)
    ensures 0 <= v <= UINT32_MAX ==> Get32(bc, p) == v
    ensures -0x8000_0000 <= v <= INT32_MAX ==> GetI32(bc, p) == v
  {
    var s := bc[p..p + 4];
    assert bc[p] == s[0] && bc[p + 1] == s[1] && bc[p + 2] == s[2] && bc[p + 3] == s[3];
    FourBytes(v);
    assert Get32(bc, p) == v % 0x1_0000_0000;
    hide U32, Get32;
  }

  /** Four bytes of a number, put together again. */
  lemma FourBytes(v: int)
    ensures v % 0x1_0000_0000 == v % 0x100 + 0x100 * (v / 0x100 % 0x100) + 0x1_0000 * (v / 0x1_0000 % 0x100)
                                 + 0x100_0000 * (v / 0x100_0000 % 0x100)
  {
    var h := v / 0x100;
    assert v / 0x1_0000 == h / 0x100;
    assert v / 0x100_0000 == h / 0x100 / 0x100;
  }

  // ----- encoding -----

  function Pairs16(ps: seq<(nat, nat)>): (s: seq<Byte>)
    ensures |s| == 4 * |ps|
  {
    if ps == [] then [] else U16(ps[0].0) + U16(ps[0].1) + Pairs16(ps[1..])
  }

  function Pairs32(ps: seq<(nat, nat)>): (s: seq<Byte>)
    ensures |s| == 8 * |ps|
  {
    if ps == [] then [] else U32(ps[0].0) + U32(ps[0].1) + Pairs32(ps[1..])
  }

  function AssertOpcode(k: AssertKind): Byte {
    match k
    case LineStart => REOP_LINE_START
    case LineEnd => REOP_LINE_END
    case WordBoundary => REOP_WORD_BOUNDARY
    case NotWordBoundary => REOP_NOT_WORD_BOUNDARY
  }

  function Opcode(i: Instr): (op: Byte)
    ensures 1 <= op <= 28
  {
    match i
    case Char(_) => REOP_CHAR
    case Char32(_) => REOP_CHAR32
    case Dot => REOP_DOT
    case Any => REOP_ANY
    case Assert(k) => AssertOpcode(k)
    case Goto(_) => REOP_GOTO
    case Split(nextFirst, _) => if nextFirst then REOP_SPLIT_NEXT_FIRST else REOP_SPLIT_GOTO_FIRST
    case Match => REOP_MATCH
    case SaveStart(_) => REOP_SAVE_START
    case SaveEnd(_) => REOP_SAVE_END
    case SaveReset(_, _) => REOP_SAVE_RESET
    case Loop(_) => REOP_LOOP
    case PushI32(_) => REOP_PUSH_I32
    case Drop => REOP_DROP
    case BackRef(backward, _) => if backward then REOP_BACKWARD_BACK_REFERENCE else REOP_BACK_REFERENCE
    case Range(_) => REOP_RANGE
    case Range32(_) => REOP_RANGE32
    case Look(neg, _) => if neg then REOP_NEGATIVE_LOOKAHEAD else REOP_LOOKAHEAD
    case PushPos => REOP_PUSH_CHAR_POS
    case Bne(_) => REOP_BNE_CHAR_POS
    case Prev => REOP_PREV
    case Greedy(_, _, _, _) => REOP_SIMPLE_GREEDY_QUANT
  }

  /** The instructions are numbered from 1 in the order of libregexp-opcode.h. */
  lemma OpcodeNumbers(c: nat, off: int, ps: seq<(nat, nat)>)
    ensures var all := [Char(c), Char32(c), Dot, Any, Assert(LineStart), Assert(LineEnd), Goto(off), Split(false, off),
                        Split(true, off), Match, SaveStart(c), SaveEnd(c), SaveReset(c, c), Loop(off), PushI32(c), Drop,
                        Assert(WordBoundary), Assert(NotWordBoundary), BackRef(false, c), BackRef(true, c), Range(ps),
                        Range32(ps), Look(false, off), Look(true, off), PushPos, Bne(off), Prev, Greedy(off, c, c, c)];
            forall k | 0 <= k < |all| :: Opcode(all[k]) == k + 1
  {
  }

  function Operands(i: Instr): (s: seq<Byte>)
    ensures |s| == Size(i) - 1
  {
    match i
    case Char(c) => U16(c)
    case Char32(c) => U32(c)
    case Goto(off) => U32(off)
    case Split(_, off) => U32(off)
    case Loop(off) => U32(off)
    case Look(_, off) => U32(off)
    case Bne(off) => U32(off)
    case PushI32(v) => U32(v)
    case SaveStart(n) => [n % 0x100]
    case SaveEnd(n) => [n % 0x100]
    case BackRef(_, n) => [n % 0x100]
    case SaveReset(lo, hi) => [lo % 0x100, hi % 0x100]
    case Range(ps) => U16(|ps|) + Pairs16(ps)
    case Range32(ps) => U16(|ps|) + Pairs32(ps)
    case Greedy(next, min, max, len) => U32(next) + U32(min) + U32(max) + U32(len)
    case Dot => []
    case Any => []
    case Assert(_) => []
    case Match => []
    case Drop => []
    case PushPos => []
    case Prev => []
  }

  function Encode(i: Instr): (s: seq<Byte>)
    ensures |s| == Size(i)
  {
    [Opcode(i)] + Operands(i)
  }

  function EncodeAll(code: seq<Instr>): (s: seq<Byte>)
    ensures |s| == SizeOf(code)
  {
    if code == [] then [] else Encode(code[0]) + EncodeAll(code[1..])
  }

  lemma {:induction false} EncodeAllConcat(a: seq<Instr>, b: seq<Instr>)
    ensures EncodeAll(a + b) == EncodeAll(a) + EncodeAll(b)
  {
    hide Encode;
    hide SizeOf;
    if a == [] {
      assert a + b == b;
    } else {
      assert (a + b)[1..] == a[1..] + b && (a + b)[0] == a[0];
      EncodeAllConcat(a[1..], b);
      Associate(Encode(a[0]), EncodeAll(a[1..]), EncodeAll(b));
    }
  }

  lemma Associate<T>(a: seq<T>, b: seq<T>, c: seq<T>)
    ensures (a + b) + c == a + (b + c)
  {
  }

  predicate FitsI32(v: int) {
    -0x8000_0000 <= v <= INT32_MAX
  }

  /** The operands fit in their fields. */
  predicate Fits(i: Instr) {
    match i
    case Char(c) => c < 0x1_0000
    case Char32(c) => c <= UINT32_MAX
    case Goto(off) => FitsI32(off)
    case Split(_, off) => FitsI32(off)
    case Loop(off) => FitsI32(off)
    case Look(_, off) => FitsI32(off)
    case Bne(off) => FitsI32(off)
    case PushI32(v) => v <= UINT32_MAX
    case SaveStart(n) => n < 0x100
    case SaveEnd(n) => n < 0x100
    case BackRef(_, n) => n < 0x100
    case SaveReset(lo, hi) => lo < 0x100 && hi < 0x100
    case Range(ps) => 0 < |ps| < 0x1_0000 && forall p | p in ps :: p.0 < 0x1_0000 && p.1 < 0x1_0000
    case Range32(ps) => 0 < |ps| < 0x1_0000 && forall p | p in ps :: p.0 <= UINT32_MAX && p.1 <= UINT32_MAX
    case Greedy(next, min, max, len) => FitsI32(next) && min <= UINT32_MAX && max <= UINT32_MAX && len <= UINT32_MAX
    case _ => true
  }

  predicate AllFit(code: seq<Instr>) {
    forall i | i in code :: Fits(i)
  }

  // ----- decoding -----

  function GetPairs16(bc: seq<Byte>, p: nat, n: nat): (ps: seq<(nat, nat)>)
    requires p + 4 * n <= |bc|
    ensures |ps| == n
    decreases n
  {
    if n == 0 then [] else [(Get16(bc, p), Get16(bc, p + 2))] + GetPairs16(bc, p + 4, n - 1)
  }

  function GetPairs32(bc: seq<Byte>, p: nat, n: nat): (ps: seq<(nat, nat)>)
    requires p + 8 * n <= |bc|
    ensures |ps| == n
    decreases n
  {
    if n == 0 then [] else [(Get32(bc, p), Get32(bc, p + 4))] + GetPairs32(bc, p + 8, n - 1)
  }

  /** The instruction at `p`, read back from the bytes as the machine's switch reads it;
      None for an opcode the machine aborts on or a truncated instruction. */
  function FetchInstr(bc: seq<Byte>, p: nat): (r: Option<Instr>)
    ensures r.Some? ==> p + Size(r.value) <= |bc|
  {
    if p >= |bc| then None
    else
      var op := bc[p];
      var room := |bc| - p;
      if op == REOP_DOT then Some(Dot)
      else if op == REOP_ANY then Some(Any)
      else if op == REOP_LINE_START then Some(Assert(LineStart))
      else if op == REOP_LINE_END then Some(Assert(LineEnd))
      else if op == REOP_MATCH then Some(Match)
      else if op == REOP_DROP then Some(Drop)
      else if op == REOP_WORD_BOUNDARY then Some(Assert(WordBoundary))
      else if op == REOP_NOT_WORD_BOUNDARY then Some(Assert(NotWordBoundary))
      else if op == REOP_PUSH_CHAR_POS then Some(PushPos)
      else if op == REOP_PREV then Some(Prev)
      else if room < 2 then None
      else if op == REOP_SAVE_START then Some(SaveStart(bc[p + 1]))
      else if op == REOP_SAVE_END then Some(SaveEnd(bc[p + 1]))
      else if op == REOP_BACK_REFERENCE then Some(BackRef(false, bc[p + 1]))
      else if op == REOP_BACKWARD_BACK_REFERENCE then Some(BackRef(true, bc[p + 1]))
      else if room < 3 then None
      else if op == REOP_CHAR then Some(Char(Get16(bc, p + 1)))
      else if op == REOP_SAVE_RESET then Some(SaveReset(bc[p + 1], bc[p + 2]))
      else if op == REOP_RANGE then
        var n := Get16(bc, p + 1);
        if room < 3 + 4 * n then None else Some(Range(GetPairs16(bc, p + 3, n)))
      else if op == REOP_RANGE32 then
        var n := Get16(bc, p + 1);
        if room < 3 + 8 * n then None else Some(Range32(GetPairs32(bc, p + 3, n)))
      else if room < 5 then None
      else if op == REOP_CHAR32 then Some(Char32(Get32(bc, p + 1)))
      else if op == REOP_GOTO then Some(Goto(GetI32(bc, p + 1)))
      else if op == REOP_SPLIT_GOTO_FIRST then Some(Split(false, GetI32(bc, p + 1)))
      else if op == REOP_SPLIT_NEXT_FIRST then Some(Split(true, GetI32(bc, p + 1)))
      else if op == REOP_LOOP then Some(Loop(GetI32(bc, p + 1)))
      else if op == REOP_PUSH_I32 then Some(PushI32(Get32(bc, p + 1)))
      else if op == REOP_LOOKAHEAD then Some(Look(false, GetI32(bc, p + 1)))
      else if op == REOP_NEGATIVE_LOOKAHEAD then Some(Look(true, GetI32(bc, p + 1)))
      else if op == REOP_BNE_CHAR_POS then Some(Bne(GetI32(bc, p + 1)))
      else if op == REOP_SIMPLE_GREEDY_QUANT && room >= 17 then
        Some(Greedy(GetI32(bc, p + 1), Get32(bc, p + 5), Get32(bc, p + 9), Get32(bc, p + 13)))
      else None
  }

  /** A part of a copied block is found at the same place in the copy. */
  lemma SubSlice(bc: seq<Byte>, p: nat, s: seq<Byte>, k: nat, m: nat)
    requires k <= m <= |s| && p + |s| <= |bc| && bc[p..p + |s|] == s
    ensures bc[p + k..p + m] == s[k..m]
  {
    forall i | k <= i < m
      ensures bc[p + i] == s[i]
    {
      assert bc[p..p + |s|][i] == bc[p + i];
    }
  }

  lemma {:induction false} GetPairs16Put(bc: seq<Byte>, p: nat, ps: seq<(nat, nat)>)
    requires p + 4 * |ps| <= |bc| && bc[p..p + 4 * |ps|] == Pairs16(ps)
    requires forall q | q in ps :: q.0 < 0x1_0000 && q.1 < 0x1_0000
    ensures GetPairs16(bc, p, |ps|) == ps
    decreases |ps|
  {
    if ps != [] {
      var s := Pairs16(ps);
      assert s[0..2] == U16(ps[0].0) && s[2..4] == U16(ps[0].1) && s[4..] == Pairs16(ps[1..]);
      SubSlice(bc, p, s, 0, 2);
      SubSlice(bc, p, s, 2, 4);
      SubSlice(bc, p, s, 4, |s|);
      Get16Put(bc, p, ps[0].0);
      Get16Put(bc, p + 2, ps[0].1);
      GetPairs16Put(bc, p + 4, ps[1..]);
      assert ps == [ps[0]] + ps[1..];
    }
  }

  lemma {:induction false} GetPairs32Put(bc: seq<Byte>, p: nat, ps: seq<(nat, nat)>)
    requires p + 8 * |ps| <= |bc| && bc[p..p + 8 * |ps|] == Pairs32(ps)
    requires forall q | q in ps :: q.0 <= UINT32_MAX && q.1 <= UINT32_MAX
    ensures GetPairs32(bc, p, |ps|) == ps
    decreases |ps|
  {
    if ps != [] {
      var s := Pairs32(ps);
      assert s[0..4] == U32(ps[0].0) && s[4..8] == U32(ps[0].1) && s[8..] == Pairs32(ps[1..]);
      SubSlice(bc, p, s, 0, 4);
      SubSlice(bc, p, s, 4, 8);
      SubSlice(bc, p, s, 8, |s|);
      Get32Put(bc, p, ps[0].0);
      Get32Put(bc, p + 4, ps[0].1);
      GetPairs32Put(bc, p + 8, ps[1..]);
      assert ps == [ps[0]] + ps[1..];
    }
  }

  lemma ThreeParts(h: seq<Byte>, a: seq<Byte>, b: seq<Byte>)
    requires |h| == 1 && |a| == 2
    ensures (h + (a + b))[0..1] == h && (h + (a + b))[1..3] == a && (h + (a + b))[3..] == b
  {
  }

  lemma Range16Bytes(bc: seq<Byte>, p: nat, ps: seq<(nat, nat)>)
    requires |ps| < 0x1_0000 && forall q | q in ps :: q.0 < 0x1_0000 && q.1 < 0x1_0000
    requires p + 3 + 4 * |ps| <= |bc| && bc[p..p + 3 + 4 * |ps|] == [REOP_RANGE] + (U16(|ps|) + Pairs16(ps))
    ensures bc[p] == REOP_RANGE && Get16(bc, p + 1) == |ps| && GetPairs16(bc, p + 3, |ps|) == ps
  {
    hide *;
    var s := [REOP_RANGE] + (U16(|ps|) + Pairs16(ps));
    ThreeParts([REOP_RANGE], U16(|ps|), Pairs16(ps));
    SubSlice(bc, p, s, 0, 1);
    SubSlice(bc, p, s, 1, 3);
    SubSlice(bc, p, s, 3, |s|);
    assert bc[p] == bc[p..p + 1][0];
    Get16Put(bc, p + 1, |ps|);
    GetPairs16Put(bc, p + 3, ps);
  }

  lemma EncodeRange(ps: seq<(nat, nat)>)
    requires Fits(Range(ps))
    ensures |ps| < 0x1_0000 && forall q | q in ps :: q.0 < 0x1_0000 && q.1 < 0x1_0000
    ensures Encode(Range(ps)) == [REOP_RANGE] + (U16(|ps|) + Pairs16(ps))
  {
    hide U16, Pairs16, Pairs32;
  }

  lemma FetchRange(bc: seq<Byte>, p: nat)
    requires p + 3 <= |bc| && bc[p] == REOP_RANGE && p + 3 + 4 * Get16(bc, p + 1) <= |bc|
    ensures FetchInstr(bc, p) == Some(Range(GetPairs16(bc, p + 3, Get16(bc, p + 1))))
  {
    hide Get16, Get32, GetI32, GetPairs16, GetPairs32, Size;
  }

  lemma FetchEncodedRange(bc: seq<Byte>, p: nat, ps: seq<(nat, nat)>)
    requires Fits(Range(ps))
    requires p + 3 + 4 * |ps| <= |bc| && bc[p..p + 3 + 4 * |ps|] == Encode(Range(ps))
    ensures FetchInstr(bc, p) == Some(Range(ps))
  {
    EncodeRange(ps);
    Range16Bytes(bc, p, ps);
    FetchRange(bc, p);
    hide *;
  }

  lemma Range32Bytes(bc: seq<Byte>, p: nat, ps: seq<(nat, nat)>)
    requires |ps| < 0x1_0000 && forall q | q in ps :: q.0 <= UINT32_MAX && q.1 <= UINT32_MAX
    requires p + 3 + 8 * |ps| <= |bc| && bc[p..p + 3 + 8 * |ps|] == [REOP_RANGE32] + (U16(|ps|) + Pairs32(ps))
    ensures bc[p] == REOP_RANGE32 && Get16(bc, p + 1) == |ps| && GetPairs32(bc, p + 3, |ps|) == ps
  {
    hide *;
    var s := [REOP_RANGE32] + (U16(|ps|) + Pairs32(ps));
    ThreeParts([REOP_RANGE32], U16(|ps|), Pairs32(ps));
    SubSlice(bc, p, s, 0, 1);
    SubSlice(bc, p, s, 1, 3);
    SubSlice(bc, p, s, 3, |s|);
    assert bc[p] == bc[p..p + 1][0];
    Get16Put(bc, p + 1, |ps|);
    GetPairs32Put(bc, p + 3, ps);
  }

  lemma EncodeRange32(ps: seq<(nat, nat)>)
    requires Fits(Range32(ps))
    ensures |ps| < 0x1_0000 && forall q | q in ps :: q.0 <= UINT32_MAX && q.1 <= UINT32_MAX
    ensures Encode(Range32(ps)) == [REOP_RANGE32] + (U16(|ps|) + Pairs32(ps))
  {
    hide U16, Pairs16, Pairs32;
  }

  lemma FetchRange32(bc: seq<Byte>, p: nat)
    requires p + 3 <= |bc| && bc[p] == REOP_RANGE32 && p + 3 + 8 * Get16(bc, p + 1) <= |bc|
    ensures FetchInstr(bc, p) == Some(Range32(GetPairs32(bc, p + 3, Get16(bc, p + 1))))
  {
    hide Get16, Get32, GetI32, GetPairs16, GetPairs32, Size;
  }

  lemma FetchEncodedRange32(bc: seq<Byte>, p: nat, ps: seq<(nat, nat)>)
    requires Fits(Range32(ps))
    requires p + 3 + 8 * |ps| <= |bc| && bc[p..p + 3 + 8 * |ps|] == Encode(Range32(ps))
    ensures FetchInstr(bc, p) == Some(Range32(ps))
  {
    EncodeRange32(ps);
    Range32Bytes(bc, p, ps);
    FetchRange32(bc, p);
    hide *;
  }

  lemma Concat4(h: seq<Byte>, a: seq<Byte>, b: seq<Byte>, c: seq<Byte>, d: seq<Byte>)
    requires |h| == 1 && |a| == |b| == |c| == |d| == 4
    ensures (h + (a + b + c + d))[1..5] == a
    ensures (h + (a + b + c + d))[5..9] == b
    ensures (h + (a + b + c + d))[9..13] == c
    ensures (h + (a + b + c + d))[13..17] == d
  {
  }

  lemma FetchEncodedGreedy(bc: seq<Byte>, p: nat, i: Instr)
    requires Fits(i) && i.Greedy?
    requires p + Size(i) <= |bc| && bc[p..p + Size(i)] == Encode(i)
    ensures FetchInstr(bc, p) == Some(i)
  {
    var s := Encode(i);
    SubSlice(bc, p, s, 0, 1);
    SubSlice(bc, p, s, 1, 5);
    SubSlice(bc, p, s, 5, 9);
    SubSlice(bc, p, s, 9, 13);
    SubSlice(bc, p, s, 13, 17);
    assert bc[p] == bc[p..p + 1][0];
    Concat4(s[..1], U32(i.next), U32(i.min), U32(i.max), U32(i.len));
    Get32Put(bc, p + 1, i.next);
    Get32Put(bc, p + 5, i.min);
    Get32Put(bc, p + 9, i.max);
    Get32Put(bc, p + 13, i.len);
  }

  /** The instructions that consist of an opcode and one 32-bit field. */
  predicate HasI32(i: Instr) {
    i.Char32? || i.Goto? || i.Split? || i.Loop? || i.PushI32? || i.Look? || i.Bne?
  }

  lemma FetchEncodedI32(bc: seq<Byte>, p: nat, i: Instr)
    requires Fits(i) && HasI32(i)
    requires p + Size(i) <= |bc| && bc[p..p + Size(i)] == Encode(i)
    ensures FetchInstr(bc, p) == Some(i)
  {
    var s := Encode(i);
    SubSlice(bc, p, s, 0, 1);
    SubSlice(bc, p, s, 1, 5);
    assert bc[p] == bc[p..p + 1][0];
    var v := match i
      case Char32(c) => c
      case Goto(off) => off
      case Split(_, off) => off
      case Loop(off) => off
      case PushI32(v) => v
      case Look(_, off) => off
      case Bne(off) => off;
    assert s[1..5] == U32(v);
    Get32Put(bc, p + 1, v);
  }

  lemma FetchEncodedSmall(bc: seq<Byte>, p: nat, i: Instr)
    requires Fits(i) && !HasI32(i) && !i.Range? && !i.Range32? && !i.Greedy?
    requires p + Size(i) <= |bc| && bc[p..p + Size(i)] == Encode(i)
    ensures FetchInstr(bc, p) == Some(i)
  {
    var s := Encode(i);
    SubSlice(bc, p, s, 0, 1);
    SubSlice(bc, p, s, 1, |s|);
    assert bc[p] == bc[p..p + 1][0];
    assert s[1..] == Operands(i);
    if i.Char? {
      Get16Put(bc, p + 1, i.c);
    } else if |s| == 2 {
      assert bc[p + 1] == bc[p + 1..p + 2][0];
    } else if |s| == 3 {
      assert bc[p + 1] == bc[p + 1..p + 3][0] && bc[p + 2] == bc[p + 1..p + 3][1];
    }
  }

  /** Encoding and decoding of one instruction are inverse, wherever it lies in the byte code. */
  lemma FetchEncoded(bc: seq<Byte>, p: nat, i: Instr)
    requires Fits(i)
    requires p + Size(i) <= |bc| && bc[p..p + Size(i)] == Encode(i)
    ensures FetchInstr(bc, p) == Some(i)
  {
    hide FetchInstr;
    hide Encode;
    if i.Range? {
      FetchEncodedRange(bc, p, i.ps);
    } else if i.Range32? {
      FetchEncodedRange32(bc, p, i.ps);
    } else if i.Greedy? {
      FetchEncodedGreedy(bc, p, i);
    } else if HasI32(i) {
      FetchEncodedI32(bc, p, i);
    } else {
      FetchEncodedSmall(bc, p, i);
    }
  }

  // ----- code in place -----

  /** The instructions `code` are what the machine fetches from `p` on. */
  ghost predicate At(bc: seq<Byte>, p: nat, code: seq<Instr>)
    decreases |code|
  {
    code == [] || (FetchInstr(bc, p) == Some(code[0]) && At(bc, p + Size(code[0]), code[1..]))
  }

  /** Bytes emitted for fitting instructions are fetched as those instructions. */
  lemma {:induction false} EncodedAt(bc: seq<Byte>, p: nat, code: seq<Instr>)
    requires AllFit(code)
    requires p + SizeOf(code) <= |bc| && bc[p..p + SizeOf(code)] == EncodeAll(code)
    ensures At(bc, p, code)
    decreases |code|
  {
    hide Encode;
    hide Size;
    hide Fits;
    hide FetchInstr;
    if code != [] {
      var s := EncodeAll(code);
      var k := Size(code[0]);
      assert s[0..k] == Encode(code[0]) && s[k..] == EncodeAll(code[1..]);
      SubSlice(bc, p, s, 0, k);
      SubSlice(bc, p, s, k, |s|);
      FetchEncoded(bc, p, code[0]);
      EncodedAt(bc, p + k, code[1..]);
    }
  }

  lemma {:induction false} AtConcat(bc: seq<Byte>, p: nat, a: seq<Instr>, b: seq<Instr>)
    ensures At(bc, p, a + b) <==> At(bc, p, a) && At(bc, p + SizeOf(a), b)
    decreases |a|
  {
    hide FetchInstr, Size;
    if a == [] {
      assert a + b == b;
    } else {
      assert (a + b)[1..] == a[1..] + b;
      AtConcat(bc, p + Size(a[0]), a[1..], b);
    }
  }
}
