/** The code generator: emission into a growing byte buffer, with insertion in front of code already
    emitted, copying, patching and rotation, proved to produce the code of RegexPattern. */
module RegexEmit {
  import opened ByteType
  import opened Options
  import opened Limits
  import opened RegexOpcodes
  import opened RegexCode
  import CR = RangePoints
  import opened RegexClass
  import opened RegexPattern
  import opened RegexMatcher
  import opened RegexAnalysis
  import opened RegexScan

  // ----- encodings of compound code -----

  lemma Encode1(i: Instr)
    ensures EncodeAll([i]) == Encode(i)
  {
    hide Encode;
    assert [i][1..] == [];
  }

  lemma Encode2(i: Instr, j: Instr)
    ensures EncodeAll([i, j]) == Encode(i) + Encode(j)
  {
    hide Encode;
    assert [i, j] == [i] + [j];
    EncodeAllConcat([i], [j]);
    Encode1(i);
    Encode1(j);
  }

  lemma Encode3(i: Instr, a: seq<Instr>, b: seq<Instr>)
    ensures EncodeAll([i] + (a + b)) == Encode(i) + (EncodeAll(a) + EncodeAll(b))
  {
    hide Encode;
    EncodeAllConcat([i], a + b);
    EncodeAllConcat(a, b);
    Encode1(i);
  }

  /** Offsets are kept in 32-bit fields: the code of every part of the pattern is small enough for them. */
  predicate Small(fl: Flags, e: Re, back: bool)
    requires Ok(fl, e)
  {
    && SizeOf(Compile(fl, e, back)) <= INT32_MAX - 16
    && match e
       case Seq(l, r) => Small(fl, l, back) && Small(fl, r, back)
       case Either(l, r) => Small(fl, l, back) && Small(fl, r, back)
       case Group(b) => Small(fl, b, back)
       case Capture(_, b) => Small(fl, b, back)
       case Around(_, behind, b) => Small(fl, b, behind)
       case Quant(b, _, _, _, _, _) => Small(fl, b, back)
       case _ => true
  }

  lemma FitConcat(a: seq<Instr>, b: seq<Instr>)
    requires AllFit(a) && AllFit(b)
    ensures AllFit(a + b)
  {
    hide Fits;
  }

  lemma FitOne(i: Instr)
    requires Fits(i)
    ensures AllFit([i])
  {
    hide Fits;
  }

  lemma Fit3(i: Instr, a: seq<Instr>, b: seq<Instr>)
    requires Fits(i) && AllFit(a) && AllFit(b)
    ensures AllFit([i] + (a + b))
  {
    hide Fits;
  }

  lemma AtomFits(fl: Flags, a: Atom, back: bool)
    requires AtomOk(fl, a)
    ensures AllFit(BackwardWrap(AtomInstr(fl, a), back))
  {
    if a.Class? {
      ClassRoundTrip(a.points, 0);
    }
  }

  lemma {:induction false} SimpleLengthBound(code: seq<Instr>)
    ensures SimpleLength(code).Some? ==> SimpleLength(code).value <= SizeOf(code)
  {
    if code != [] {
      SimpleLengthBound(code[1..]);
    }
  }

  lemma StarFits(atom: seq<Instr>, greedy: bool, check: bool)
    requires AllFit(atom) && SizeOf(atom) <= INT32_MAX - 16
    ensures AllFit(StarCode(atom, greedy, check))
  {
    var len: int := SizeOf(atom);
    if check {
      FitOne(Bne(-(len + 11)));
      Fit3(PushPos, atom, [Bne(-(len + 11))]);
      FitOne(Split(greedy, len + 6));
      FitConcat([Split(greedy, len + 6)], [PushPos] + (atom + [Bne(-(len + 11))]));
    } else {
      FitOne(Goto(-(len + 10)));
      Fit3(Split(greedy, len + 5), atom, [Goto(-(len + 10))]);
    }
  }

  lemma UpToFits(atom: seq<Instr>, k: nat, greedy: bool)
    requires AllFit(atom) && SizeOf(atom) <= INT32_MAX - 16 && k <= INT32_MAX
    ensures AllFit(UpToCode(atom, k, greedy))
  {
    var len: int := SizeOf(atom);
    assert Fits(Drop) && Fits(Loop(-(len + 10)));
    Fit3(Split(greedy, len + 5), atom, [Loop(-(len + 10)), Drop]);
    FitOne(PushI32(k));
    FitConcat([PushI32(k)], [Split(greedy, len + 5)] + (atom + [Loop(-(len + 10)), Drop]));
  }

  lemma TimesFits(atom: seq<Instr>, k: nat)
    requires AllFit(atom) && SizeOf(atom) <= INT32_MAX - 16 && k <= INT32_MAX
    ensures AllFit(TimesCode(atom, k))
  {
    assert Fits(Drop) && Fits(Loop(-(SizeOf(atom) + 5)));
    Fit3(PushI32(k), atom, [Loop(-(SizeOf(atom) + 5)), Drop]);
  }

  lemma QuantFits(atom: seq<Instr>, min: nat, max: nat, greedy: bool, lo: nat, hi: nat)
    requires AllFit(atom) && SizeOf(atom) <= INT32_MAX - 16 && min <= max <= INT32_MAX && hi <= CAPTURE_COUNT_MAX
    ensures AllFit(QuantCode(atom, min, max, greedy, lo, hi))
  {
    hide AllFit;
    hide CheckAdvance;
    hide StarCode;
    hide UpToCode;
    hide TimesCode;
    var check := greedy && CheckAdvance(atom) == Some(May);
    EmptyFits();
    if UsesFastPath(atom, max, greedy) {
      SimpleLengthBound(atom);
      FitOne(Match);
      Fit3(Greedy(SizeOf(atom) + 1, min, max, SimpleLength(atom).value), atom, [Match]);
    } else {
      StarFits(atom, greedy, check);
      UpToFits(atom, if max > min then max - min else 0, greedy);
      TimesFits(atom, min);
      FitOne(Split(greedy, SizeOf(atom)));
      FitConcat([Split(greedy, SizeOf(atom))], atom);
      FitOne(Split(!greedy, -(SizeOf(atom) + 5)));
      FitConcat(atom, [Split(!greedy, -(SizeOf(atom) + 5))]);
      if lo < hi {
        FitOne(SaveReset(lo, hi - 1));
      }
      var tail := TailCode(atom, min, max, greedy, check);
      FitConcat(TimesCode(atom, min), tail);
      if min == 0 {
        FitConcat(Reset(lo, hi), if max == 0 then []
                                 else if max == 1 then [Split(greedy, SizeOf(atom))] + atom
                                 else tail);
      }
    }
  }

  lemma EmptyFits()
    ensures AllFit([])
  {
  }

  lemma EitherFits(l: seq<Instr>, r: seq<Instr>)
    requires AllFit(l) && AllFit(r) && SizeOf(l) <= INT32_MAX - 16 && SizeOf(r) <= INT32_MAX - 16
    ensures AllFit(EitherCode(l, r))
  {
    hide AllFit, SizeOf;
    FitOne(Goto(SizeOf(r)));
    FitConcat([Goto(SizeOf(r))], r);
    Fit3(Split(true, SizeOf(l) + 5), l, [Goto(SizeOf(r))] + r);
  }

  lemma CaptureFits(n: nat, body: seq<Instr>, back: bool)
    requires AllFit(body) && n < CAPTURE_COUNT_MAX
    ensures AllFit(CaptureCode(n, body, back))
  {
    hide AllFit;
    FitOne(SaveStart(n));
    FitOne(SaveEnd(n));
    Fit3(SaveStart(n), body, [SaveEnd(n)]);
    Fit3(SaveEnd(n), body, [SaveStart(n)]);
  }

  lemma AroundFits(neg: bool, body: seq<Instr>)
    requires AllFit(body) && SizeOf(body) <= INT32_MAX - 16
    ensures AllFit(AroundCode(neg, body))
  {
    hide AllFit, SizeOf;
    FitOne(Match);
    Fit3(Look(neg, SizeOf(body) + 1), body, [Match]);
  }

  /** The operands of all emitted instructions fit in their fields. */
  lemma {:induction false} CompiledFits(fl: Flags, e: Re, back: bool)
    requires Ok(fl, e) && Below(e, CAPTURE_COUNT_MAX) && Small(fl, e, back)
    ensures AllFit(Compile(fl, e, back))
  {
    hide AllFit, AtomInstr, QuantCode, EitherCode, CaptureCode, AroundCode, SizeOf;
    match e
    case Empty => EmptyFits();
    case One(a) => AtomFits(fl, a, back);
    case Test(kind) => FitOne(Assert(kind));
    case Ref(n) => FitOne(BackRef(back, n));
    case Seq(l, r) =>
      CompiledFits(fl, l, back);
      CompiledFits(fl, r, back);
      FitConcat(Compile(fl, l, back), Compile(fl, r, back));
      FitConcat(Compile(fl, r, back), Compile(fl, l, back));
    case Either(l, r) =>
      CompiledFits(fl, l, back);
      CompiledFits(fl, r, back);
      EitherFits(Compile(fl, l, back), Compile(fl, r, back));
    case Group(b) => CompiledFits(fl, b, back);
    case Capture(n, b) =>
      CompiledFits(fl, b, back);
      CaptureFits(n, Compile(fl, b, back), back);
    case Around(neg, behind, b) =>
      CompiledFits(fl, b, behind);
      AroundFits(neg, Compile(fl, b, behind));
    case Quant(b, min, max, greedy, lo, hi) =>
      CompiledFits(fl, b, back);
      QuantFits(Compile(fl, b, back), min, max, greedy, lo, hi);
  }

  /** The captures of a pattern, as the bitmaps of re_check_advance index them. */
  lemma {:induction false} MarksBelow(fl: Flags, e: Re)
    requires Ok(fl, e) && Below(e, CAPTURE_COUNT_MAX)
    ensures forall n | n in Sets(e) :: n < CAPTURE_COUNT_MAX
    ensures forall n | n in Refs(e) :: n < CAPTURE_COUNT_MAX
  {
    match e
    case Seq(l, r) => MarksBelow(fl, l); MarksBelow(fl, r);
    case Either(l, r) => MarksBelow(fl, l); MarksBelow(fl, r);
    case Group(b) => MarksBelow(fl, b);
    case Capture(_, b) => MarksBelow(fl, b);
    case Around(_, _, b) => MarksBelow(fl, b);
    case Quant(b, _, _, _, _, _) => MarksBelow(fl, b);
    case _ =>
  }

  lemma AtomBounds(fl: Flags, e: Re, back: bool)
    requires Ok(fl, e) && Below(e, CAPTURE_COUNT_MAX)
    ensures var code := Compile(fl, e, back);
            forall n | n in MarkedBy(code) + ReferredBy(code) :: n < CAPTURE_COUNT_MAX
  {
    hide Compile;
    MarksBelow(fl, e);
    CompiledFacts(fl, e, back);
  }

  function SplitOpcode(greedy: bool): Byte {
    if greedy then REOP_SPLIT_NEXT_FIRST else REOP_SPLIT_GOTO_FIRST
  }

  lemma EncodeSplit(greedy: bool, off: int)
    ensures Encode(Split(greedy, off)) == [SplitOpcode(greedy)] + U32(off)
  {
  }

  lemma EncodeJump(off: int)
    ensures Encode(Goto(off)) == [REOP_GOTO] + U32(off)
    ensures Encode(Loop(off)) == [REOP_LOOP] + U32(off)
    ensures Encode(Bne(off)) == [REOP_BNE_CHAR_POS] + U32(off)
  {
  }

  lemma EncodePlain(k: nat)
    ensures Encode(PushI32(k)) == [REOP_PUSH_I32] + U32(k)
    ensures Encode(Drop) == [REOP_DROP] && Encode(PushPos) == [REOP_PUSH_CHAR_POS]
    ensures Encode(Match) == [REOP_MATCH] && Encode(Prev) == [REOP_PREV]
  {
  }

  lemma StarIs(atom: seq<Instr>, greedy: bool)
    ensures && StarCode(atom, greedy, false) == [Split(greedy, SizeOf(atom) + 5)] + (atom + [Goto(-(SizeOf(atom) + 10))])
            && StarCode(atom, greedy, true) == [Split(greedy, SizeOf(atom) + 6)] + ([PushPos] + (atom + [Bne(-(SizeOf(atom) + 11))]))
  {
    hide SizeOf;
  }

  /** The bytes of an unbounded loop without a check. */
  lemma StarBytes(atom: seq<Instr>, greedy: bool)
    ensures EncodeAll(StarCode(atom, greedy, false)) ==
            ([SplitOpcode(greedy)] + U32(SizeOf(atom) + 5)) +
            (EncodeAll(atom) + ([REOP_GOTO] + U32(-(SizeOf(atom) + 10))))
  {
    hide *;
    StarIs(atom, greedy);
    EncodeJump(-(SizeOf(atom) + 10));
    EncodeSplit(greedy, SizeOf(atom) + 5);
    LoopBytes(Split(greedy, SizeOf(atom) + 5), atom, Goto(-(SizeOf(atom) + 10)),
              [SplitOpcode(greedy)] + U32(SizeOf(atom) + 5), [REOP_GOTO] + U32(-(SizeOf(atom) + 10)));
  }

  lemma LoopBytes(first: Instr, atom: seq<Instr>, last: Instr, fb: seq<Byte>, lb: seq<Byte>)
    requires Encode(first) == fb && Encode(last) == lb
    ensures EncodeAll([first] + (atom + [last])) == fb + (EncodeAll(atom) + lb)
  {
    hide *;
    Encode3(first, atom, [last]);
    Encode1(last);
  }

  /** The bytes of an unbounded loop with a check. */
  lemma CheckedStarBytes(atom: seq<Instr>, greedy: bool)
    ensures EncodeAll(StarCode(atom, greedy, true)) ==
            ([SplitOpcode(greedy)] + U32(SizeOf(atom) + 6)) +
            ([REOP_PUSH_CHAR_POS] + (EncodeAll(atom) + ([REOP_BNE_CHAR_POS] + U32(-(SizeOf(atom) + 11)))))
  {
    hide *;
    StarIs(atom, greedy);
    EncodeSplit(greedy, SizeOf(atom) + 6);
    EncodeJump(-(SizeOf(atom) + 11));
    EncodePlain(0);
    CheckedBytes(Split(greedy, SizeOf(atom) + 6), atom, Bne(-(SizeOf(atom) + 11)),
                 [SplitOpcode(greedy)] + U32(SizeOf(atom) + 6), [REOP_BNE_CHAR_POS] + U32(-(SizeOf(atom) + 11)));
  }

  lemma CheckedBytes(split: Instr, atom: seq<Instr>, bne: Instr, sb: seq<Byte>, bb: seq<Byte>)
    requires Encode(split) == sb && Encode(bne) == bb
    ensures EncodeAll([split] + ([PushPos] + (atom + [bne]))) == sb + ([REOP_PUSH_CHAR_POS] + (EncodeAll(atom) + bb))
  {
    hide *;
    EncodePlain(0);
    LoopBytes(PushPos, atom, bne, [REOP_PUSH_CHAR_POS], bb);
    EncodeAllConcat([split], [PushPos] + (atom + [bne]));
    Encode1(split);
  }

  lemma UpToIs(atom: seq<Instr>, k: nat, greedy: bool)
    ensures UpToCode(atom, k, greedy) ==
            [PushI32(k)] + ([Split(greedy, SizeOf(atom) + 5)] + (atom + [Loop(-(SizeOf(atom) + 10)), Drop]))
  {
    hide SizeOf;
  }

  lemma CountedBytes(push: Instr, split: Instr, atom: seq<Instr>, loop: Instr, pb: seq<Byte>, sb: seq<Byte>, lb: seq<Byte>)
    requires Encode(push) == pb && Encode(split) == sb && Encode(loop) == lb
    ensures EncodeAll([push] + ([split] + (atom + [loop, Drop]))) == pb + (sb + (EncodeAll(atom) + (lb + [REOP_DROP])))
  {
    hide *;
    EncodeAllConcat([push], [split] + (atom + [loop, Drop]));
    Encode1(push);
    TimesShape(split, atom, loop, sb, lb);
  }

  lemma TimesShape(first: Instr, atom: seq<Instr>, loop: Instr, fb: seq<Byte>, lb: seq<Byte>)
    requires Encode(first) == fb && Encode(loop) == lb
    ensures EncodeAll([first] + (atom + [loop, Drop])) == fb + (EncodeAll(atom) + (lb + [REOP_DROP]))
  {
    hide *;
    EncodePlain(0);
    Encode3(first, atom, [loop, Drop]);
    Encode2(loop, Drop);
  }

  /** The bytes of an optional counted loop. */
  lemma UpToBytes(atom: seq<Instr>, k: nat, greedy: bool)
    ensures EncodeAll(UpToCode(atom, k, greedy)) ==
            ([REOP_PUSH_I32] + U32(k)) +
            (([SplitOpcode(greedy)] + U32(SizeOf(atom) + 5)) +
             (EncodeAll(atom) + (([REOP_LOOP] + U32(-(SizeOf(atom) + 10))) + [REOP_DROP])))
  {
    hide *;
    UpToIs(atom, k, greedy);
    EncodeJump(-(SizeOf(atom) + 10));
    EncodePlain(k);
    EncodeSplit(greedy, SizeOf(atom) + 5);
    CountedBytes(PushI32(k), Split(greedy, SizeOf(atom) + 5), atom, Loop(-(SizeOf(atom) + 10)),
                 [REOP_PUSH_I32] + U32(k), [SplitOpcode(greedy)] + U32(SizeOf(atom) + 5),
                 [REOP_LOOP] + U32(-(SizeOf(atom) + 10)));
  }

  /** The bytes of a counted loop. */
  lemma TimesBytes(atom: seq<Instr>, k: nat)
    requires k != 1
    ensures EncodeAll(TimesCode(atom, k)) ==
            ([REOP_PUSH_I32] + U32(k)) + (EncodeAll(atom) + (([REOP_LOOP] + U32(-(SizeOf(atom) + 5))) + [REOP_DROP]))
  {
    hide *;
    TimesIs(atom, k);
    EncodeJump(-(SizeOf(atom) + 5));
    EncodePlain(k);
    TimesShape(PushI32(k), atom, Loop(-(SizeOf(atom) + 5)),
               [REOP_PUSH_I32] + U32(k), [REOP_LOOP] + U32(-(SizeOf(atom) + 5)));
  }

  lemma TimesOnce(atom: seq<Instr>)
    ensures TimesCode(atom, 1) == atom
  {
  }

  lemma TimesIs(atom: seq<Instr>, k: nat)
    requires k != 1
    ensures TimesCode(atom, k) == [PushI32(k)] + (atom + [Loop(-(SizeOf(atom) + 5)), Drop])
  {
  }

  lemma OptionBytes(atom: seq<Instr>, greedy: bool)
    ensures EncodeAll([Split(greedy, SizeOf(atom))] + atom) ==
            ([SplitOpcode(greedy)] + U32(SizeOf(atom))) + EncodeAll(atom)
  {
    hide Encode;
    hide U32;
    EncodeAllConcat([Split(greedy, SizeOf(atom))], atom);
    Encode1(Split(greedy, SizeOf(atom)));
    EncodeSplit(greedy, SizeOf(atom));
  }

  lemma ResetBytes(lo: nat, hi: nat)
    requires lo < hi <= CAPTURE_COUNT_MAX
    ensures EncodeAll(Reset(lo, hi)) == [REOP_SAVE_RESET, lo, hi - 1] && SizeOf(Reset(lo, hi)) == 3
  {
    Encode1(SaveReset(lo, hi - 1));
  }

  lemma FastIs(atom: seq<Instr>, min: nat, max: nat)
    requires SimpleLength(atom).Some?
    ensures FastQuantCode(atom, min, max) ==
            [Greedy(SizeOf(atom) + 1, min, max, SimpleLength(atom).value)] + (atom + [Match])
  {
    hide SizeOf, SimpleLength;
  }

  lemma FastBytes(atom: seq<Instr>, min: nat, max: nat)
    requires SimpleLength(atom).Some?
    ensures EncodeAll(FastQuantCode(atom, min, max)) ==
            ([REOP_SIMPLE_GREEDY_QUANT] + (U32(SizeOf(atom) + 1) + U32(min) + U32(max) + U32(SimpleLength(atom).value))) +
            (EncodeAll(atom) + [REOP_MATCH])
  {
    hide *;
    FastIs(atom, min, max);
    EncodePlain(0);
    EncodeGreedy(SizeOf(atom) + 1, min, max, SimpleLength(atom).value);
    LoopBytes(Greedy(SizeOf(atom) + 1, min, max, SimpleLength(atom).value), atom, Match,
              [REOP_SIMPLE_GREEDY_QUANT] + (U32(SizeOf(atom) + 1) + U32(min) + U32(max) + U32(SimpleLength(atom).value)),
              [REOP_MATCH]);
  }

  lemma EncodeGreedy(next: int, min: nat, max: nat, len: nat)
    ensures Encode(Greedy(next, min, max, len)) == [REOP_SIMPLE_GREEDY_QUANT] + (U32(next) + U32(min) + U32(max) + U32(len))
  {
    hide U32;
  }

  // ----- the grammar of patterns -----

  /** What may stand under a quantifier. Lookbehinds may not. */
  predicate IsAtom(e: Re)
    decreases e, 0
  {
    match e
    case One(_) => true
    case Ref(_) => true
    case Group(b) => IsDisjunction(b)
    case Capture(_, b) => IsDisjunction(b)
    case Around(_, behind, b) => !behind && IsDisjunction(b)
    case _ => false
  }

  predicate IsTerm(e: Re)
    decreases e, 0
  {
    match e
    case Test(_) => true
    case Around(_, _, b) => IsDisjunction(b)
    case Quant(b, _, _, _, _, _) => IsAtom(b)
    case One(_) => true
    case Ref(_) => true
    case Group(b) => IsDisjunction(b)
    case Capture(_, b) => IsDisjunction(b)
    case _ => false
  }

  /** A sequence of terms, nested to the left. */
  predicate IsAlternative(e: Re)
    decreases e, 1
  {
    e.Empty? || (e.Seq? && IsAlternative(e.left) && IsTerm(e.right))
  }

  /** Alternatives, nested to the left. */
  predicate IsDisjunction(e: Re)
    decreases e, 2
  {
    if e.Either? then IsDisjunction(e.left) && IsAlternative(e.right) else IsAlternative(e)
  }

  function TermCount(e: Re): nat {
    if e.Seq? then TermCount(e.left) + 1 else 0
  }

  /** The first `k` terms of an alternative. */
  function Terms(e: Re, k: nat): (p: Re)
    requires k <= TermCount(e)
    ensures p == e || p < e
    ensures TermCount(p) == k
  {
    if k == TermCount(e) then e else Terms(e.left, k)
  }

  lemma {:induction false} TermsStep(e: Re, k: nat)
    requires k < TermCount(e)
    ensures Terms(e, k + 1).Seq? && Terms(e, k + 1).left == Terms(e, k)
  {
    if k + 1 < TermCount(e) {
      TermsStep(e.left, k);
    }
  }

  /** The codes of the terms of an alternative, in the order of the text. */
  function TermCodes(fl: Flags, e: Re, back: bool): (parts: seq<seq<Instr>>)
    requires Ok(fl, e)
    ensures |parts| == TermCount(e)
  {
    if e.Seq? then TermCodes(fl, e.left, back) + [Compile(fl, e.right, back)] else []
  }

  function Flatten(parts: seq<seq<Instr>>): seq<Instr> {
    if parts == [] then [] else parts[0] + Flatten(parts[1..])
  }

  function Reverse(parts: seq<seq<Instr>>): (r: seq<seq<Instr>>)
    ensures |r| == |parts| && forall i | 0 <= i < |r| :: r[i] == parts[|parts| - 1 - i]
  {
    if parts == [] then [] else [parts[|parts| - 1]] + Reverse(parts[..|parts| - 1])
  }

  lemma {:induction false} FlattenSnoc(parts: seq<seq<Instr>>, last: seq<Instr>)
    ensures Flatten(parts + [last]) == Flatten(parts) + last
  {
    if parts == [] {
      assert [last][1..] == [] && last + [] == last;
    } else {
      FlattenSnoc(parts[1..], last);
      assert (parts + [last])[1..] == parts[1..] + [last];
      assert parts[0] + (Flatten(parts[1..]) + last) == (parts[0] + Flatten(parts[1..])) + last;
    }
  }

  /** Matched forward, an alternative is the codes of its terms in the order of the text; inside a lookbehind
      it is exactly the codes of its terms in the reverse order. */
  lemma {:induction false} AlternativeOrder(fl: Flags, e: Re, back: bool)
    requires Ok(fl, e) && IsAlternative(e)
    ensures Compile(fl, e, back) ==
            Flatten(if back then Reverse(TermCodes(fl, e, back)) else TermCodes(fl, e, back))
  {
    if e.Seq? {
      AlternativeOrder(fl, e.left, back);
      var (init, last) := (TermCodes(fl, e.left, back), Compile(fl, e.right, back));
      if back {
        assert (init + [last])[..|init|] == init;
        assert Reverse(init + [last]) == [last] + Reverse(init);
        assert ([last] + Reverse(init))[1..] == Reverse(init);
      } else {
        FlattenSnoc(init, last);
      }
    }
  }

  function BarCount(e: Re): nat {
    if e.Either? then BarCount(e.left) + 1 else 0
  }

  /** The first `k + 1` alternatives of a disjunction. */
  function Alternatives(e: Re, k: nat): (p: Re)
    requires k <= BarCount(e)
    ensures p == e || p < e
    ensures BarCount(p) == k
  {
    if k == BarCount(e) then e else Alternatives(e.left, k)
  }

  lemma {:induction false} AlternativesStep(e: Re, k: nat)
    requires k < BarCount(e)
    ensures Alternatives(e, k + 1).Either? && Alternatives(e, k + 1).left == Alternatives(e, k)
  {
    if k + 1 < BarCount(e) {
      AlternativesStep(e.left, k);
    }
  }

  /** What the parser may rely on for the parts of a pattern. */
  predicate Parsable(fl: Flags, e: Re, back: bool, cc: nat) {
    Ok(fl, e) && Small(fl, e, back) && Numbered(e, cc)
  }

  lemma {:induction false} TermsParsable(fl: Flags, e: Re, back: bool, cc: nat, k: nat)
    requires Parsable(fl, e, back, cc) && IsAlternative(e) && k <= TermCount(e)
    ensures Parsable(fl, Terms(e, k), back, cc) && IsAlternative(Terms(e, k))
    ensures Captures(Terms(e, k)) <= Captures(e)
  {
    if k < TermCount(e) {
      TermsParsable(fl, e.left, back, cc, k);
    }
  }

  lemma {:induction false} AlternativesParsable(fl: Flags, e: Re, back: bool, cc: nat, k: nat)
    requires Parsable(fl, e, back, cc) && IsDisjunction(e) && k <= BarCount(e)
    ensures Parsable(fl, Alternatives(e, k), back, cc) && IsDisjunction(Alternatives(e, k))
    ensures Captures(Alternatives(e, k)) <= Captures(e)
  {
    if k < BarCount(e) {
      AlternativesParsable(fl, e.left, back, cc, k);
    }
  }

  // ----- overwriting part of a buffer -----

  function Overwrite(s: seq<Byte>, pos: nat, t: seq<Byte>): (r: seq<Byte>)
    requires pos + |t| <= |s|
    ensures |r| == |s|
  {
    s[..pos] + t + s[pos + |t|..]
  }

  /** Overwriting inside the middle part of a buffer leaves the parts around it. */
  lemma OverwriteMiddle(pre: seq<Byte>, mid: seq<Byte>, post: seq<Byte>, k: nat, t: seq<Byte>)
    requires k + |t| <= |mid|
    ensures Overwrite(pre + mid + post, |pre| + k, t) == pre + Overwrite(mid, k, t) + post
  {
  }

  /** The state of the parser: the code emitted so far and the number of captures met so far.
      The buffer grows as DynBuf does. */
  class ReParseState {
    const fl: Flags
    var byteCode: seq<Byte>
    var captureCount: nat

    constructor (fl: Flags)
      ensures this.fl == fl && byteCode == [] && captureCount == 1
    {
      this.fl := fl;
      byteCode := [];
      captureCount := 1;
    }

    /** dbuf_putc. */
    method Put(b: Byte)
      modifies this`byteCode
      ensures byteCode == old(byteCode) + [b]
    {
      byteCode := byteCode + [b];
    }

    /** re_emit_op_u8. */
    method EmitU8(op: Byte, v: nat)
      requires v < 0x100
      modifies this`byteCode
      ensures byteCode == old(byteCode) + [op, v]
    {
      Put(op);
      Put(v);
    }

    /** re_emit_op_u32: the result is the position of the operand, for patching. */
    method EmitU32(op: Byte, v: int) returns (pos: nat)
      modifies this`byteCode
      ensures byteCode == old(byteCode) + ([op] + U32(v)) && pos == |old(byteCode)| + 1
    {
      Put(op);
      pos := |byteCode|;
      byteCode := byteCode + U32(v);
    }

    /** re_emit_goto: a jump to the absolute position `target`. */
    method EmitGoto(op: Byte, target: nat)
      modifies this`byteCode
      ensures byteCode == old(byteCode) + ([op] + U32(target - (|old(byteCode)| + 5)))
    {
      Put(op);
      var pos := |byteCode|;
      byteCode := byteCode + U32(target - (pos + 4));
    }

    /** dbuf_insert: makes room for `len` bytes at `pos`; what the gap holds is left open. */
    method Insert(pos: nat, len: nat)
      requires pos <= |byteCode|
      modifies this`byteCode
      ensures |byteCode| == |old(byteCode)| + len
      ensures byteCode == old(byteCode)[..pos] + byteCode[pos..pos + len] + old(byteCode)[pos..]
    {
      var gap := seq(len, _ => 0);
      byteCode := byteCode[..pos] + gap + byteCode[pos..];
    }

    /** Writing bytes that are already in the buffer. */
    method Write(pos: nat, t: seq<Byte>)
      requires pos + |t| <= |byteCode|
      modifies this`byteCode
      ensures byteCode == Overwrite(old(byteCode), pos, t)
    {
      byteCode := byteCode[..pos] + t + byteCode[pos + |t|..];
    }

    /** dbuf_put_self. */
    method PutSelf(offset: nat, len: nat)
      requires offset + len <= |byteCode|
      modifies this`byteCode
      ensures byteCode == old(byteCode) + old(byteCode)[offset..offset + len]
    {
      byteCode := byteCode + byteCode[offset..offset + len];
    }

    /** Inserts `len` bytes at `pos` and writes an opcode with a 32-bit operand at their start. */
    method InsertU32(pos: nat, len: nat, op: Byte, v: int, ghost pre: seq<Byte>, ghost post: seq<Byte>)
      requires byteCode == pre + post && pos == |pre| && len >= 5
      modifies this`byteCode
      ensures |byteCode| == |pre| + len + |post|
      ensures byteCode == pre + ([op] + U32(v)) + byteCode[pos + 5..pos + len] + post
    {
      Insert(pos, len);
      ghost var gap := byteCode[pos..pos + len];
      Split2(pre, post);
      assert byteCode == pre + gap + post;
      InsertEffect(pre, gap, post, op, v);
      Write(pos, [op]);
      Write(pos + 1, U32(v));
    }

    // ----- quantifiers -----

    /** The specific optimisation for simple quantifiers: `match` behind the atom, 17 bytes in front. */
    method EmitSimple(start: nat, min: nat, max: nat, len: nat, ghost pre: seq<Byte>, ghost atom: seq<Instr>)
      requires byteCode == pre + EncodeAll(atom) && start == |pre| && SimpleLength(atom) == Some(len)
      modifies this`byteCode
      ensures byteCode == pre + EncodeAll(FastQuantCode(atom, min, max))
    {
      hide *;
      ghost var code := EncodeAll(atom);
      Put(REOP_MATCH);
      Associate(pre, code, [REOP_MATCH]);
      Insert(start, 17);
      ghost var gap := byteCode[start..start + 17];
      Split2(pre, code + [REOP_MATCH]);
      FillGap(pre, gap, code + [REOP_MATCH], U32(|byteCode| - start - 17), U32(min), U32(max), U32(len));
      Write(start, [REOP_SIMPLE_GREEDY_QUANT]);
      Write(start + 1, U32(|byteCode| - start - 17));
      Write(start + 5, U32(min));
      Write(start + 9, U32(max));
      Write(start + 13, U32(len));
      FastBytes(atom, min, max);
      Associate(pre, [REOP_SIMPLE_GREEDY_QUANT] + (U32(SizeOf(atom) + 1) + U32(min) + U32(max) + U32(len)), code + [REOP_MATCH]);
    }

    /** The captures of an atom that may be left out are reset in front of it. */
    method EmitReset(start: nat, lo: nat, ghost pre: seq<Byte>, ghost code: seq<Byte>) returns (p: nat)
      requires byteCode == pre + code && start == |pre| && lo <= captureCount <= CAPTURE_COUNT_MAX
      modifies this`byteCode
      ensures byteCode == pre + EncodeAll(Reset(lo, captureCount)) + code
      ensures p == |pre| + SizeOf(Reset(lo, captureCount))
    {
      hide EncodeAll, SizeOf;
      p := start;
      if lo != captureCount {
        Insert(p, 3);
        ghost var gap := byteCode[p..p + 3];
        Split2(pre, code);
        WriteReset(p, lo, captureCount - 1, pre, gap, code);
        p := p + 3;
        ResetBytes(lo, captureCount);
      } else {
        EncodeNothing();
        assert pre + [] == pre;
      }
    }

    /** The bytes of a capture reset, in the room made for them. */
    method WriteReset(p: nat, lo: Byte, last: Byte, ghost pre: seq<Byte>, ghost gap: seq<Byte>, ghost post: seq<Byte>)
      requires byteCode == pre + gap + post && p == |pre| && |gap| == 3
      modifies this`byteCode
      ensures byteCode == pre + [REOP_SAVE_RESET, lo, last] + post
    {
      hide *;
      FillReset(pre, gap, post, lo, last);
      Write(p, [REOP_SAVE_RESET]);
      Write(p + 1, [lo]);
      Write(p + 2, [last]);
    }

    /** `*` around an atom already emitted. */
    method EmitStar(p: nat, greedy: bool, check: bool, ghost pre: seq<Byte>, ghost atom: seq<Instr>)
      requires byteCode == pre + EncodeAll(atom) && p == |pre|
      modifies this`byteCode
      ensures byteCode == pre + EncodeAll(StarCode(atom, greedy, check))
    {
      hide *;
      ghost var code := EncodeAll(atom);
      var len := |byteCode| - p;
      var extra := if check then 1 else 0;
      InsertU32(p, 5 + extra, SplitOpcode(greedy), len + 5 + extra, pre, code);
      ghost var head, gap := [SplitOpcode(greedy)] + U32(len + 5 + extra), byteCode[p + 5..p + 5 + extra];
      if check {
        ReplaceOne(pre + head, gap, code, REOP_PUSH_CHAR_POS);
        Write(p + 5, [REOP_PUSH_CHAR_POS]);
        EmitGoto(REOP_BNE_CHAR_POS, p);
        Associate4(pre, head, [REOP_PUSH_CHAR_POS], code, [REOP_BNE_CHAR_POS] + U32(-(len + 11)));
        CheckedStarBytes(atom, greedy);
      } else {
        NoGap(byteCode, p, pre, head, code);
        EmitGoto(REOP_GOTO, p);
        Associate3(pre, head, code, [REOP_GOTO] + U32(-(len + 10)));
        StarBytes(atom, greedy);
      }
    }

    /** `{0,k}` around an atom already emitted. */
    method EmitUpTo(p: nat, k: nat, greedy: bool, ghost pre: seq<Byte>, ghost atom: seq<Instr>)
      requires byteCode == pre + EncodeAll(atom) && p == |pre|
      modifies this`byteCode
      ensures byteCode == pre + EncodeAll(UpToCode(atom, k, greedy))
    {
      hide *;
      ghost var code := EncodeAll(atom);
      var len := |byteCode| - p;
      var split := SplitOpcode(greedy);
      Insert(p, 10);
      ghost var gap := byteCode[p..p + 10];
      Split2(pre, code);
      assert byteCode == pre + gap + code;
      FillPair(pre, gap, code, REOP_PUSH_I32, U32(k), split, U32(len + 5));
      Write(p, [REOP_PUSH_I32]);
      Write(p + 1, U32(k));
      Write(p + 5, [split]);
      Write(p + 6, U32(len + 5));
      EmitGoto(REOP_LOOP, p + 5);
      Put(REOP_DROP);
      Associate5(pre, [REOP_PUSH_I32] + U32(k), [split] + U32(len + 5), code, [REOP_LOOP] + U32(-(len + 10)), [REOP_DROP]);
      UpToBytes(atom, k, greedy);
    }

    /** Exactly `k` iterations of an atom already emitted; the result is where the atom is now. */
    method EmitTimes(p: nat, k: nat, ghost pre: seq<Byte>, ghost atom: seq<Instr>) returns (a: nat)
      requires byteCode == pre + EncodeAll(atom) && p == |pre|
      modifies this`byteCode
      ensures byteCode == pre + EncodeAll(TimesCode(atom, k))
      ensures a + SizeOf(atom) <= |byteCode| && byteCode[a..a + SizeOf(atom)] == EncodeAll(atom)
    {
      hide *;
      ghost var code := EncodeAll(atom);
      a := p;
      if k == 1 {
        TimesOnce(atom);
        Split2(pre, code);
      } else {
        InsertU32(p, 5, REOP_PUSH_I32, k, pre, code);
        ghost var push := [REOP_PUSH_I32] + U32(k);
        NoGap(byteCode, p, pre, push, code);
        a := a + 5;
        EmitGoto(REOP_LOOP, a);
        Put(REOP_DROP);
        Associate4(pre, push, code, [REOP_LOOP] + U32(-(|code| + 5)), [REOP_DROP]);
        MiddleSlice(pre + push, code, ([REOP_LOOP] + U32(-(|code| + 5))) + [REOP_DROP]);
        TimesBytes(atom, k);
      }
    }

    /** A loop over a copy of the atom, behind the mandatory iterations. */
    method EmitStarCopy(a: nat, len: nat, greedy: bool, check: bool, ghost atom: seq<Instr>)
      requires len == SizeOf(atom) && a + len <= |byteCode| && byteCode[a..a + len] == EncodeAll(atom)
      modifies this`byteCode
      ensures byteCode == old(byteCode) + EncodeAll(StarCode(atom, greedy, check))
    {
      hide *;
      ghost var pre, code := byteCode, EncodeAll(atom);
      var extra := if check then 1 else 0;
      var pos := |byteCode|;
      var operand := EmitU32(SplitOpcode(greedy), len + 5 + extra);
      if check {
        Put(REOP_PUSH_CHAR_POS);
      }
      StillThere(pre, byteCode, a, len);
      PutSelf(a, len);
      ghost var head := [SplitOpcode(greedy)] + U32(len + 5 + extra);
      if check {
        EmitGoto(REOP_BNE_CHAR_POS, pos);
        Associate4(pre, head, [REOP_PUSH_CHAR_POS], code, [REOP_BNE_CHAR_POS] + U32(-(len + 11)));
        CheckedStarBytes(atom, greedy);
      } else {
        EmitGoto(REOP_GOTO, pos);
        Associate3(pre, head, code, [REOP_GOTO] + U32(-(len + 10)));
        StarBytes(atom, greedy);
      }
    }

    /** A counted optional loop over a copy of the atom. */
    method EmitUpToCopy(a: nat, len: nat, k: nat, greedy: bool, ghost atom: seq<Instr>)
      requires len == SizeOf(atom) && a + len <= |byteCode| && byteCode[a..a + len] == EncodeAll(atom)
      modifies this`byteCode
      ensures byteCode == old(byteCode) + EncodeAll(UpToCode(atom, k, greedy))
    {
      hide *;
      ghost var pre, code := byteCode, EncodeAll(atom);
      var split := SplitOpcode(greedy);
      var operand := EmitU32(REOP_PUSH_I32, k);
      var pos := |byteCode|;
      operand := EmitU32(split, len + 5);
      StillThere(pre, byteCode, a, len);
      PutSelf(a, len);
      EmitGoto(REOP_LOOP, pos);
      Put(REOP_DROP);
      Associate5(pre, [REOP_PUSH_I32] + U32(k), [split] + U32(len + 5), code, [REOP_LOOP] + U32(-(len + 10)), [REOP_DROP]);
      UpToBytes(atom, k, greedy);
    }

    /** The optional iterations after mandatory ones. */
    method EmitTail(a: nat, len: nat, min: nat, max: nat, greedy: bool, check: bool, ghost atom: seq<Instr>)
      requires min <= max && len == SizeOf(atom)
      requires a + len <= |byteCode| && byteCode[a..a + len] == EncodeAll(atom)
      modifies this`byteCode
      ensures byteCode == old(byteCode) + EncodeAll(TailCode(atom, min, max, greedy, check))
    {
      hide EncodeAll;
      hide SizeOf;
      hide StarCode;
      hide UpToCode;
      if max == INT32_MAX {
        EmitStarCopy(a, len, greedy, check, atom);
      } else if max > min {
        EmitUpToCopy(a, len, max - min, greedy, atom);
      } else {
        EncodeNothing();
      }
    }

    /** The quantifier part of re_parse_term, on an atom just emitted from `start` on; `lo` is
        last_capture_count. */
    method EmitQuantifier(start: nat, lo: nat, min: nat, max: nat, greedy: bool, ghost pre: seq<Byte>, ghost atom: seq<Instr>)
      requires byteCode == pre + EncodeAll(atom) && start == |pre| && AllFit(atom)
      requires forall n | n in MarkedBy(atom) + ReferredBy(atom) :: n < CAPTURE_COUNT_MAX
      requires lo <= captureCount <= CAPTURE_COUNT_MAX && min <= max <= INT32_MAX
      modifies this`byteCode
      ensures byteCode == pre + EncodeAll(QuantCode(atom, min, max, greedy, lo, captureCount))
    {
      hide EncodeAll;
      hide AllFit;
      hide SizeOf;
      hide SimpleLength;
      hide MarkedBy;
      hide ReferredBy;
      hide ScanAdvance;
      hide GeneralQuantCode;
      hide FastQuantCode;
      SplitEnd(pre, EncodeAll(atom));
      EncodedAt(byteCode, start, atom);
      var check := false;
      if greedy {
        if max > 0 {
          var len := IsSimpleQuantifier(byteCode, start, atom);
          if len > 0 {
            EmitSimple(start, min, max, len, pre, atom);
            return;
          }
        }
        var advance := CheckAdvanceScan(byteCode, start, atom);
        check := advance == 0;
      }
      if min == 0 {
        EmitOptional(start, lo, max, greedy, check, pre, atom);
      } else {
        EmitMandatory(start, min, max, greedy, check, pre, atom);
        MandatoryCode(atom, min, max, greedy, lo, captureCount);
      }
    }

    /** The branch for quantifiers that may leave out their atom. */
    method EmitOptional(start: nat, lo: nat, max: nat, greedy: bool, check: bool, ghost pre: seq<Byte>, ghost atom: seq<Instr>)
      requires byteCode == pre + EncodeAll(atom) && start == |pre|
      requires lo <= captureCount <= CAPTURE_COUNT_MAX && check == (greedy && CheckAdvance(atom) == Some(May))
      modifies this`byteCode
      ensures byteCode == pre + EncodeAll(GeneralQuantCode(atom, 0, max, greedy, lo, captureCount))
    {
      hide EncodeAll, SizeOf, CheckAdvance, Reset, StarCode, UpToCode, GeneralQuantCode, TailCode, U32, Overwrite;
      ghost var code, reset := EncodeAll(atom), EncodeAll(Reset(lo, captureCount));
      var len := |byteCode| - start;
      var p := EmitReset(start, lo, pre, code);
      ghost var pre1 := pre + reset;
      ghost var rest;
      if max == 0 {
        byteCode := byteCode[..p];
        rest := [];
        EncodeNothing();
      } else if max == 1 {
        var split := SplitOpcode(greedy);
        InsertU32(p, 5, split, len, pre1, code);
        rest := [Split(greedy, SizeOf(atom))] + atom;
        OptionBytes(atom, greedy);
        assert byteCode == pre1 + (([split] + U32(len)) + code);
      } else if max == INT32_MAX {
        EmitStar(p, greedy, check, pre1, atom);
        rest := StarCode(atom, greedy, check);
      } else {
        EmitUpTo(p, max, greedy, pre1, atom);
        rest := UpToCode(atom, max, greedy);
      }
      EncodeAllConcat(Reset(lo, captureCount), rest);
      Associate(pre, reset, EncodeAll(rest));
      OptionalCode(atom, max, greedy, lo, captureCount, rest);
    }

    /** The branch for quantifiers that run their atom at least once. */
    method EmitMandatory(start: nat, min: nat, max: nat, greedy: bool, check: bool, ghost pre: seq<Byte>, ghost atom: seq<Instr>)
      requires byteCode == pre + EncodeAll(atom) && start == |pre| && 1 <= min <= max
      modifies this`byteCode
      ensures byteCode == pre + EncodeAll(
                if min == 1 && max == INT32_MAX && !check then atom + [Split(!greedy, -(SizeOf(atom) + 5))]
                else TimesCode(atom, min) + TailCode(atom, min, max, greedy, check))
    {
      hide EncodeAll;
      hide SizeOf;
      hide TimesCode;
      hide TailCode;
      ghost var code := EncodeAll(atom);
      var len := |byteCode| - start;
      if min == 1 && max == INT32_MAX && !check {
        EmitGoto(if greedy then REOP_SPLIT_GOTO_FIRST else REOP_SPLIT_NEXT_FIRST, start);
        ghost var split := Split(!greedy, -(SizeOf(atom) + 5));
        EncodeAllConcat(atom, [split]);
        Encode1(split);
        EncodeSplit(!greedy, -(SizeOf(atom) + 5));
        Associate(pre, code, Encode(split));
      } else {
        var a := EmitTimes(start, min, pre, atom);
        EmitTail(a, len, min, max, greedy, check, atom);
        EncodeAllConcat(TimesCode(atom, min), TailCode(atom, min, max, greedy, check));
        Associate(pre, EncodeAll(TimesCode(atom, min)), EncodeAll(TailCode(atom, min, max, greedy, check)));
      }
    }

    // ----- atoms and terms -----

    /** The loop of re_emit_range over the 16-bit pairs. */
    method EmitPairs16(points: seq<nat>)
      requires CR.Canonical(points)
      modifies this`byteCode
      ensures byteCode == old(byteCode) + Pairs16(Pack16(points))
    {
      hide *;
      ghost var pre, ps, k := byteCode, Pack16(points), 0;
      PairsEmpty();
      PairCount(points);
      var i := 0;
      while i < |points|
        invariant i == 2 * k <= |points| && k <= |ps|
        invariant byteCode == pre + Pairs16(ps[..k])
      {
        PackedPair(points, i, k);
        var high := points[i + 1] - 1;
        if high == UINT32_MAX - 1 {
          high := 0xffff;
        }
        PairsSnoc(ps, k);
        Associate3(pre, Pairs16(ps[..k]), U16(points[i]), U16(high));
        byteCode := byteCode + U16(points[i]) + U16(high);
        i := i + 2;
        k := k + 1;
      }
      assert ps[..k] == ps;
    }

    /** The loop of re_emit_range over the 32-bit pairs. */
    method EmitPairs32(points: seq<nat>)
      requires CR.Canonical(points)
      modifies this`byteCode
      ensures byteCode == old(byteCode) + Pairs32(Pack32(points))
    {
      hide *;
      ghost var pre, ps, k := byteCode, Pack32(points), 0;
      PairsEmpty();
      PairCount(points);
      var i := 0;
      while i < |points|
        invariant i == 2 * k <= |points| && k <= |ps|
        invariant byteCode == pre + Pairs32(ps[..k])
      {
        PackedPair(points, i, k);
        PairsSnoc(ps, k);
        Associate3(pre, Pairs32(ps[..k]), U32(points[i]), U32(points[i + 1] - 1));
        byteCode := byteCode + U32(points[i]) + U32(points[i + 1] - 1);
        i := i + 2;
        k := k + 1;
      }
      assert ps[..k] == ps;
    }

    /** re_emit_range: the three forms of a class instruction. */
    method EmitRange(points: seq<nat>)
      requires CR.Canonical(points) && |points| / 2 < 0xffff
      modifies this`byteCode
      ensures byteCode == old(byteCode) + Encode(ClassInstr(points))
    {
      hide Pairs16, Pairs32, U16, U32, Encode, ClassInstr, Pack16, Pack32;
      ClassBytes(points);
      ghost var pre := byteCode;
      var len := |points| / 2;
      if len == 0 {
        var pos := EmitU32(REOP_CHAR32, UINT32_MAX);
      } else {
        var high := points[|points| - 1];
        if high == UINT32_MAX {
          high := points[|points| - 2];
        }
        if high <= 0xffff {
          Put(REOP_RANGE);
          byteCode := byteCode + U16(len);
          EmitPairs16(points);
          assert byteCode == pre + ([REOP_RANGE] + (U16(len) + Pairs16(Pack16(points))));
        } else {
          Put(REOP_RANGE32);
          byteCode := byteCode + U16(len);
          EmitPairs32(points);
          assert byteCode == pre + ([REOP_RANGE32] + (U16(len) + Pairs32(Pack32(points))));
        }
      }
    }

    /** The instruction of an atom. */
    method EmitAtom(a: Atom)
      requires AtomOk(fl, a)
      modifies this`byteCode
      ensures byteCode == old(byteCode) + Encode(AtomInstr(fl, a))
    {
      match a
      case Lit(v) =>
        var c := fl.Fold(v);
        if c <= 0xffff {
          Put(REOP_CHAR);
          byteCode := byteCode + U16(c);
          assert Encode(Char(c)) == [REOP_CHAR] + U16(c);
        } else {
          var pos := EmitU32(REOP_CHAR32, c);
        }
      case AnyChar => Put(if fl.dotall then REOP_ANY else REOP_DOT);
      case Class(points) => EmitRange(points);
    }

    /** The part of re_parse_term in front of the quantifier; false if there are too many captures. */
    method ParseAtom(e: Re, back: bool) returns (ok: bool)
      requires Parsable(fl, e, back, captureCount) && (IsAtom(e) || (IsTerm(e) && !e.Quant?)) && captureCount <= CAPTURE_COUNT_MAX
      modifies this`byteCode, this`captureCount
      ensures ok <==> old(captureCount) + Captures(e) <= CAPTURE_COUNT_MAX
      ensures ok ==> captureCount == old(captureCount) + Captures(e)
      ensures ok ==> byteCode == old(byteCode) + EncodeAll(Compile(fl, e, back))
      decreases e, 0
    {
      hide EncodeAll;
      hide Encode;
      hide AtomInstr;
      hide SizeOf;
      ok := true;
      ghost var pre := byteCode;
      match e
      case One(a) =>
        ghost var i := AtomInstr(fl, a);
        if back {
          Put(REOP_PREV);
        }
        EmitAtom(a);
        if back {
          Put(REOP_PREV);
        }
        Encode1(i);
        Encode1(Prev);
        EncodePlain(0);
        Encode3(Prev, [i], [Prev]);
        assert back ==> byteCode == pre + (Encode(Prev) + (Encode(i) + Encode(Prev)));
      case Test(kind) =>
        Put(AssertOpcode(kind));
        Encode1(Assert(kind));
        EncodeTest(kind);
      case Ref(n) =>
        EmitU8(if back then REOP_BACKWARD_BACK_REFERENCE else REOP_BACK_REFERENCE, n);
        Encode1(BackRef(back, n));
        EncodeU8(n, back);
      case Group(b) => ok := ParseDisjunction(b, back);
      case Capture(n, b) => ok := ParseCapture(n, b, back);
      case Around(neg, behind, b) => ok := ParseAround(neg, behind, b);
    }

    /** A capture group. */
    method ParseCapture(n: nat, b: Re, back: bool) returns (ok: bool)
      requires Parsable(fl, b, back, captureCount + 1) && IsDisjunction(b) && n == captureCount <= CAPTURE_COUNT_MAX
      modifies this`byteCode, this`captureCount
      ensures ok <==> old(captureCount) + 1 + Captures(b) <= CAPTURE_COUNT_MAX
      ensures ok ==> captureCount == old(captureCount) + 1 + Captures(b)
      ensures ok ==> byteCode == old(byteCode) + EncodeAll(CaptureCode(n, Compile(fl, b, back), back))
      decreases b, 5
    {
      hide EncodeAll;
      hide Encode;
      hide Compile;
      ghost var pre, code := byteCode, Compile(fl, b, back);
      if captureCount >= CAPTURE_COUNT_MAX {
        return false;
      }
      var captureIndex := captureCount;
      captureCount := captureCount + 1;
      EmitU8(if back then REOP_SAVE_END else REOP_SAVE_START, captureIndex);
      ok := ParseDisjunction(b, back);
      if !ok {
        return;
      }
      EmitU8(if back then REOP_SAVE_START else REOP_SAVE_END, captureIndex);
      ghost var (i1, i2) := if back then (SaveEnd(n), SaveStart(n)) else (SaveStart(n), SaveEnd(n));
      EncodeU8(n, back);
      Encode3(i1, code, [i2]);
      Encode1(i2);
      assert byteCode == pre + (Encode(i1) + (EncodeAll(code) + Encode(i2)));
    }

    /** A lookahead or lookbehind: its jump is patched when its body has been emitted. */
    method ParseAround(neg: bool, behind: bool, b: Re) returns (ok: bool)
      requires Parsable(fl, b, behind, captureCount) && IsDisjunction(b) && captureCount <= CAPTURE_COUNT_MAX
      modifies this`byteCode, this`captureCount
      ensures ok <==> old(captureCount) + Captures(b) <= CAPTURE_COUNT_MAX
      ensures ok ==> captureCount == old(captureCount) + Captures(b)
      ensures ok ==> byteCode == old(byteCode) + EncodeAll(AroundCode(neg, Compile(fl, b, behind)))
      decreases b, 5
    {
      ghost var pre, code := byteCode, Compile(fl, b, behind);
      hide *;
      var pos := EmitU32(if neg then REOP_NEGATIVE_LOOKAHEAD else REOP_LOOKAHEAD, 0);
      ok := ParseDisjunction(b, behind);
      if ok {
        CloseAround(pos, neg, pre, code);
      }
    }

    /** `match` behind the body of a lookaround, and its jump patched. */
    method CloseAround(pos: nat, neg: bool, ghost pre: seq<Byte>, ghost code: seq<Instr>)
      requires pos == |pre| + 1
      requires byteCode ==
               pre + ([if neg then REOP_NEGATIVE_LOOKAHEAD else REOP_LOOKAHEAD] + U32(0)) + EncodeAll(code)
      modifies this`byteCode
      ensures byteCode == pre + EncodeAll(AroundCode(neg, code))
    {
      hide *;
      ghost var op := if neg then REOP_NEGATIVE_LOOKAHEAD else REOP_LOOKAHEAD;
      Put(REOP_MATCH);
      Associate(pre + ([op] + U32(0)), EncodeAll(code), [REOP_MATCH]);
      var len := |byteCode| - (pos + 4);
      assert len == SizeOf(code) + 1;
      PatchHead(pre, op, U32(0), U32(len), EncodeAll(code) + [REOP_MATCH]);
      Write(pos, U32(len));
      AroundBytes(neg, code);
    }

    /** re_parse_term. */
    method ParseTerm(e: Re, back: bool) returns (ok: bool)
      requires Parsable(fl, e, back, captureCount) && IsTerm(e) && captureCount <= CAPTURE_COUNT_MAX
      modifies this`byteCode, this`captureCount
      ensures ok <==> old(captureCount) + Captures(e) <= CAPTURE_COUNT_MAX
      ensures ok ==> captureCount == old(captureCount) + Captures(e)
      ensures ok ==> byteCode == old(byteCode) + EncodeAll(Compile(fl, e, back))
      decreases e, 1
    {
      hide EncodeAll;
      hide QuantCode;
      hide AllFit;
      if e.Quant? {
        ghost var pre, atom := byteCode, Compile(fl, e.body, back);
        var lastAtomStart, lastCaptureCount := |byteCode|, captureCount;
        ok := ParseAtom(e.body, back);
        if ok {
          NumberedBelow(e.body, lastCaptureCount, CAPTURE_COUNT_MAX);
          CompiledFits(fl, e.body, back);
          AtomBounds(fl, e.body, back);
          EmitQuantifier(lastAtomStart, lastCaptureCount, e.min, e.max, e.greedy, pre, atom);
        }
      } else {
        ok := ParseAtom(e, back);
      }
    }

    /** The rotation of a lookbehind: the term just emitted moves in front of the terms before it. */
    method Rotate(start: nat, termStart: nat)
      requires start <= termStart <= |byteCode|
      modifies this`byteCode
      ensures byteCode == old(byteCode)[..start] + old(byteCode)[termStart..] + old(byteCode)[start..termStart]
    {
      hide *;
      RotateSteps(byteCode[..start], byteCode[start..termStart], byteCode[termStart..]);
      ThreeSlices(byteCode, start, termStart);
      var end := |byteCode|;
      var termSize := end - termStart;
      var buf := byteCode + seq(termSize, _ => 0);
      buf := buf[..start + termSize] + buf[start..end];
      buf := buf[..start] + buf[end..end + termSize] + buf[start + termSize..];
      byteCode := buf[..end];
    }

    /** One round of the loop of re_parse_alternative. */
    method ParseNext(t: Re, back: bool, start: nat, ghost pre: seq<Byte>, ghost init: seq<Instr>) returns (ok: bool)
      requires Parsable(fl, t, back, captureCount) && IsTerm(t) && captureCount <= CAPTURE_COUNT_MAX
      requires byteCode == pre + EncodeAll(init) && start == |pre|
      modifies this`byteCode, this`captureCount
      ensures ok <==> old(captureCount) + Captures(t) <= CAPTURE_COUNT_MAX
      ensures ok ==> captureCount == old(captureCount) + Captures(t)
      ensures ok ==> byteCode == pre + EncodeAll(if back then Compile(fl, t, back) + init else init + Compile(fl, t, back))
      decreases t, 2
    {
      hide EncodeAll;
      hide Compile;
      var termStart := |byteCode|;
      ok := ParseTerm(t, back);
      if !ok {
        return;
      }
      ghost var a, b := init, Compile(fl, t, back);
      if back {
        Rotation(pre, EncodeAll(a), EncodeAll(b));
        Rotate(start, termStart);
        EncodeAllConcat(b, a);
      } else {
        EncodeAllConcat(a, b);
        Associate(pre, EncodeAll(a), EncodeAll(b));
      }
    }

    /** re_parse_alternative: the terms one after another; backwards, each in front of the earlier ones. */
    method ParseAlternative(e: Re, back: bool) returns (ok: bool)
      requires Parsable(fl, e, back, captureCount) && IsAlternative(e) && captureCount <= CAPTURE_COUNT_MAX
      modifies this`byteCode, this`captureCount
      ensures ok <==> old(captureCount) + Captures(e) <= CAPTURE_COUNT_MAX
      ensures ok ==> captureCount == old(captureCount) + Captures(e)
      ensures ok ==> byteCode == old(byteCode) + EncodeAll(Compile(fl, e, back))
      decreases e, 3
    {
      hide EncodeAll;
      hide Compile;
      hide Small;
      ghost var pre, cc := byteCode, captureCount;
      var start := |byteCode|;
      var k := 0;
      TermsParsable(fl, e, back, cc, 0);
      CompileEmpty(fl, back);
      while k < TermCount(e)
        invariant k <= TermCount(e)
        invariant Parsable(fl, Terms(e, k), back, cc) && Terms(e, TermCount(e)) == e
        invariant captureCount == cc + Captures(Terms(e, k)) <= CAPTURE_COUNT_MAX
        invariant byteCode == pre + EncodeAll(Compile(fl, Terms(e, k), back))
      {
        TermsStep(e, k);
        TermsParsable(fl, e, back, cc, k + 1);
        CompileSeq(fl, Terms(e, k + 1), back);
        SmallRight(fl, Terms(e, k + 1), back);
        ghost var init := Compile(fl, Terms(e, k), back);
        ok := ParseNext(Terms(e, k + 1).right, back, start, pre, init);
        if !ok {
          return;
        }
        k := k + 1;
      }
      return true;
    }

    /** re_parse_disjunction: a split in front of what is there for each `|`, and a jump behind it that
        is patched after the next alternative. */
    method ParseDisjunction(e: Re, back: bool) returns (ok: bool)
      requires Parsable(fl, e, back, captureCount) && IsDisjunction(e) && captureCount <= CAPTURE_COUNT_MAX
      modifies this`byteCode, this`captureCount
      ensures ok <==> old(captureCount) + Captures(e) <= CAPTURE_COUNT_MAX
      ensures ok ==> captureCount == old(captureCount) + Captures(e)
      ensures ok ==> byteCode == old(byteCode) + EncodeAll(Compile(fl, e, back))
      decreases e, 4
    {
      hide EncodeAll, EitherCode, Small, Numbered, Ok;
      ghost var pre, cc := byteCode, captureCount;
      var start := |byteCode|;
      AlternativesParsable(fl, e, back, cc, 0);
      ok := ParseAlternative(Alternatives(e, 0), back);
      if !ok {
        return;
      }
      var k := 0;
      while k < BarCount(e)
        invariant k <= BarCount(e)
        invariant Parsable(fl, Alternatives(e, k), back, cc) && Alternatives(e, BarCount(e)) == e
        invariant captureCount == cc + Captures(Alternatives(e, k)) <= CAPTURE_COUNT_MAX
        invariant byteCode == pre + EncodeAll(Compile(fl, Alternatives(e, k), back))
      {
        AlternativesStep(e, k);
        AlternativesParsable(fl, e, back, cc, k + 1);
        LastParsable(fl, Alternatives(e, k + 1), back, cc);
        ghost var l := Compile(fl, Alternatives(e, k), back);
        ok := ParseBar(Alternatives(e, k + 1).right, back, start, pre, l);
        if !ok {
          return;
        }
        k := k + 1;
      }
      return true;
    }

    /** One round of the loop over `|`. */
    method ParseBar(r: Re, back: bool, start: nat, ghost pre: seq<Byte>, ghost l: seq<Instr>) returns (ok: bool)
      requires Parsable(fl, r, back, captureCount) && IsAlternative(r) && captureCount <= CAPTURE_COUNT_MAX
      requires byteCode == pre + EncodeAll(l) && start == |pre|
      modifies this`byteCode, this`captureCount
      ensures ok <==> old(captureCount) + Captures(r) <= CAPTURE_COUNT_MAX
      ensures ok ==> captureCount == old(captureCount) + Captures(r)
      ensures ok ==> byteCode == pre + EncodeAll(EitherCode(l, Compile(fl, r, back)))
      decreases r, 4
    {
      hide EncodeAll;
      hide Compile;
      hide U32;
      hide Encode;
      var len := |byteCode| - start;
      ghost var code, cr := EncodeAll(l), Compile(fl, r, back);
      InsertU32(start, 5, REOP_SPLIT_NEXT_FIRST, len + 5, pre, code);
      ghost var split := [REOP_SPLIT_NEXT_FIRST] + U32(len + 5);
      assert byteCode == pre + split + code by {
        assert byteCode[start + 5..start + 5] == [];
        assert pre + split + [] + code == pre + split + code;
      }
      var pos := EmitU32(REOP_GOTO, 0);
      ok := ParseAlternative(r, back);
      if !ok {
        return;
      }
      len := |byteCode| - (pos + 4);
      PatchGoto(pre, split, code, EncodeAll(cr), U32(0), U32(len));
      Write(pos, U32(len));
      EitherBytes(l, cr);
    }
  }

  lemma Associate3(a: seq<Byte>, b: seq<Byte>, c: seq<Byte>, d: seq<Byte>)
    ensures a + b + c + d == a + (b + c + d)
  {
  }

  lemma PatchHead(pre: seq<Byte>, op: Byte, old_: seq<Byte>, new_: seq<Byte>, tail: seq<Byte>)
    requires |old_| == |new_|
    ensures Overwrite(pre + ([op] + old_) + tail, |pre| + 1, new_) == pre + (([op] + new_) + tail)
  {
    Associate(pre, [op], old_);
    OverwriteMiddle(pre + [op], old_, tail, 0, new_);
    assert Overwrite(old_, 0, new_) == new_;
    hide Overwrite;
    Associate(pre, [op], new_);
    Associate(pre, [op] + new_, tail);
  }

  lemma CompileSeq(fl: Flags, e: Re, back: bool)
    requires Ok(fl, e) && e.Seq?
    ensures Compile(fl, e, back) ==
            if back then Compile(fl, e.right, back) + Compile(fl, e.left, back)
            else Compile(fl, e.left, back) + Compile(fl, e.right, back)
    ensures Captures(e) == Captures(e.left) + Captures(e.right)
  {
  }

  lemma SmallRight(fl: Flags, e: Re, back: bool)
    requires Ok(fl, e) && e.Seq? && Small(fl, e, back)
    ensures Small(fl, e.right, back)
  {
  }

  lemma CompileEmpty(fl: Flags, back: bool)
    ensures EncodeAll(Compile(fl, Empty, back)) == []
  {
  }

  lemma PatchGoto(pre: seq<Byte>, split: seq<Byte>, code: seq<Byte>, tail: seq<Byte>, old_: seq<Byte>, new_: seq<Byte>)
    requires |old_| == |new_|
    ensures Overwrite(pre + split + code + ([REOP_GOTO] + old_) + tail, |pre| + |split| + |code| + 1, new_)
            == pre + (split + (code + (([REOP_GOTO] + new_) + tail)))
  {
    var front := pre + split + code;
    var head := front + [REOP_GOTO];
    OverwriteMiddle(head, old_, tail, 0, new_);
    assert Overwrite(old_, 0, new_) == new_;
    hide Overwrite;
    Associate(front, [REOP_GOTO], old_);
    Associate(front, [REOP_GOTO], new_);
    assert head + new_ + tail == front + ([REOP_GOTO] + new_) + tail;
    Associate4(pre, split, code, [REOP_GOTO] + new_, tail);
  }

  /** The move to the right by the size of the last term, and the copy of that term in front. */
  lemma RotateSteps(pre: seq<Byte>, a: seq<Byte>, b: seq<Byte>)
    ensures var (start, end, size) := (|pre|, |pre| + |a| + |b|, |b|);
            var buf0 := (pre + a + b) + seq(size, _ => 0);
            var buf1 := buf0[..start + size] + buf0[start..end];
            var buf2 := buf1[..start] + buf1[end..end + size] + buf1[start + size..];
            buf2[..end] == pre + b + a
  {
    var (start, end, size) := (|pre|, |pre| + |a| + |b|, |b|);
    var buf0 := (pre + a + b) + seq(size, _ => 0);
    assert buf0[start..end] == a + b;
    var p := buf0[..start + size];
    assert p[..start] == pre;
    var buf1 := p + (a + b);
    assert buf1[..start] == pre && buf1[end..end + size] == b && buf1[start + size..] == a + b;
    assert (pre + b + (a + b))[..end] == pre + b + a;
  }

  lemma ThreeSlices(s: seq<Byte>, i: nat, j: nat)
    requires i <= j <= |s|
    ensures s[..i] + s[i..j] + s[j..] == s
  {
  }

  lemma Rotation(pre: seq<Byte>, a: seq<Byte>, b: seq<Byte>)
    ensures var s := pre + a + b;
            s[..|pre|] == pre && s[|pre| + |a|..] == b && s[|pre|..|pre| + |a|] == a
    ensures pre + b + a == pre + (b + a)
  {
  }

  lemma EitherBytes(l: seq<Instr>, r: seq<Instr>)
    ensures EncodeAll(EitherCode(l, r)) ==
            ([REOP_SPLIT_NEXT_FIRST] + U32(SizeOf(l) + 5)) + (EncodeAll(l) + (([REOP_GOTO] + U32(SizeOf(r))) + EncodeAll(r)))
  {
    hide EncodeAll;
    hide Encode;
    hide U32;
    hide SizeOf;
    Encode3(Split(true, SizeOf(l) + 5), l, [Goto(SizeOf(r))] + r);
    EncodeAllConcat([Goto(SizeOf(r))], r);
    Encode1(Goto(SizeOf(r)));
    EncodeSplit(true, SizeOf(l) + 5);
    EncodeJump(SizeOf(r));
  }

  lemma EncodeTest(kind: AssertKind)
    ensures Encode(Assert(kind)) == [AssertOpcode(kind)]
  {
  }

  lemma EncodeU8(n: nat, back: bool)
    requires n < 0x100
    ensures Encode(BackRef(back, n)) == [if back then REOP_BACKWARD_BACK_REFERENCE else REOP_BACK_REFERENCE, n]
    ensures Encode(SaveStart(n)) == [REOP_SAVE_START, n] && Encode(SaveEnd(n)) == [REOP_SAVE_END, n]
  {
  }

  lemma AroundIs(neg: bool, code: seq<Instr>)
    ensures AroundCode(neg, code) == [Look(neg, SizeOf(code) + 1)] + (code + [Match])
  {
    hide SizeOf;
  }

  lemma AroundBytes(neg: bool, code: seq<Instr>)
    ensures EncodeAll(AroundCode(neg, code)) ==
            ([if neg then REOP_NEGATIVE_LOOKAHEAD else REOP_LOOKAHEAD] + U32(SizeOf(code) + 1)) + (EncodeAll(code) + [REOP_MATCH])
  {
    hide *;
    AroundIs(neg, code);
    EncodeLook(neg, SizeOf(code) + 1);
    EncodePlain(0);
    LoopBytes(Look(neg, SizeOf(code) + 1), code, Match,
              [if neg then REOP_NEGATIVE_LOOKAHEAD else REOP_LOOKAHEAD] + U32(SizeOf(code) + 1), [REOP_MATCH]);
  }

  lemma EncodeLook(neg: bool, off: int)
    ensures Encode(Look(neg, off)) == [if neg then REOP_NEGATIVE_LOOKAHEAD else REOP_LOOKAHEAD] + U32(off)
  {
  }

  lemma PairCount(points: seq<nat>)
    requires CR.Canonical(points)
    ensures |points| == 2 * |Pack16(points)| == 2 * |Pack32(points)|
  {
  }

  lemma PackedPair(points: seq<nat>, i: nat, k: nat)
    requires CR.Canonical(points) && i == 2 * k < |points|
    ensures i + 1 < |points| && points[i] < points[i + 1] && k < |Pack16(points)| && k < |Pack32(points)|
    ensures Pack16(points)[k] ==
            (points[i], if points[i + 1] - 1 == UINT32_MAX - 1 then 0xffff else points[i + 1] - 1)
    ensures Pack32(points)[k] == (points[i], points[i + 1] - 1)
  {
  }

  /** The bytes of the three forms of a class instruction. */
  lemma ClassBytes(points: seq<nat>)
    requires CR.Canonical(points)
    ensures |points| / 2 == 0 ==> Encode(ClassInstr(points)) == [REOP_CHAR32] + U32(UINT32_MAX)
    ensures |points| / 2 != 0 ==>
              var last := points[|points| - 1];
              var high := if last == UINT32_MAX then points[|points| - 2] else last;
              Encode(ClassInstr(points)) ==
              if high <= 0xffff then [REOP_RANGE] + (U16(|points| / 2) + Pairs16(Pack16(points)))
              else [REOP_RANGE32] + (U16(|points| / 2) + Pairs32(Pack32(points)))
  {
    hide U16, U32, Pairs16, Pairs32;
  }

  lemma PairsEmpty()
    ensures Pairs16([]) == [] && Pairs32([]) == []
  {
  }

  lemma {:induction false} PairsSnoc(ps: seq<(nat, nat)>, k: nat)
    requires k < |ps|
    ensures Pairs16(ps[..k + 1]) == Pairs16(ps[..k]) + U16(ps[k].0) + U16(ps[k].1)
    ensures Pairs32(ps[..k + 1]) == Pairs32(ps[..k]) + U32(ps[k].0) + U32(ps[k].1)
    decreases k
  {
    hide U16;
    hide U32;
    if k > 0 {
      PairsSnoc(ps[1..], k - 1);
      assert ps[1..][..k] == ps[..k + 1][1..] && ps[1..][..k - 1] == ps[..k][1..];
    }
  }

  lemma OptionalCode(atom: seq<Instr>, max: nat, greedy: bool, lo: nat, hi: nat, rest: seq<Instr>)
    requires var check := greedy && CheckAdvance(atom) == Some(May);
             rest == if max == 0 then [] else if max == 1 then [Split(greedy, SizeOf(atom))] + atom
                     else if max == INT32_MAX then StarCode(atom, greedy, check) else UpToCode(atom, max, greedy)
    ensures GeneralQuantCode(atom, 0, max, greedy, lo, hi) == Reset(lo, hi) + rest
  {
    hide StarCode, UpToCode, CheckAdvance;
  }

  lemma MandatoryCode(atom: seq<Instr>, min: nat, max: nat, greedy: bool, lo: nat, hi: nat)
    requires 1 <= min <= max
    ensures var check := greedy && CheckAdvance(atom) == Some(May);
            GeneralQuantCode(atom, min, max, greedy, lo, hi) ==
            if min == 1 && max == INT32_MAX && !check then atom + [Split(!greedy, -(SizeOf(atom) + 5))]
            else TimesCode(atom, min) + TailCode(atom, min, max, greedy, check)
  {
  }

  lemma SplitEnd(pre: seq<Byte>, post: seq<Byte>)
    ensures (pre + post)[|pre|..|pre| + |post|] == post
  {
  }

  lemma Associate4(a: seq<Byte>, b: seq<Byte>, c: seq<Byte>, d: seq<Byte>, e: seq<Byte>)
    ensures a + b + c + d + e == a + (b + (c + (d + e)))
  {
  }

  lemma Associate5(a: seq<Byte>, b: seq<Byte>, c: seq<Byte>, d: seq<Byte>, e: seq<Byte>, f: seq<Byte>)
    ensures a + b + c + d + e + f == a + (b + (c + (d + (e + f))))
  {
  }

  lemma ReplaceOne(pre: seq<Byte>, gap: seq<Byte>, post: seq<Byte>, b: Byte)
    requires |gap| == 1
    ensures Overwrite(pre + gap + post, |pre|, [b]) == pre + [b] + post
  {
  }

  lemma NoGap(bytes: seq<Byte>, p: nat, pre: seq<Byte>, head: seq<Byte>, post: seq<Byte>)
    requires p + 5 <= |bytes| && bytes == pre + head + bytes[p + 5..p + 5] + post
    ensures bytes == pre + head + post
  {
    assert bytes[p + 5..p + 5] == [];
  }

  lemma EncodeNothing()
    ensures EncodeAll([]) == [] && SizeOf([]) == 0
  {
  }

  lemma MiddleSlice(pre: seq<Byte>, mid: seq<Byte>, post: seq<Byte>)
    ensures (pre + mid + post)[|pre|..|pre| + |mid|] == mid
  {
  }

  /** The last alternative of a disjunction is numbered after the captures of the others. */
  lemma LastParsable(fl: Flags, e: Re, back: bool, cc: nat)
    requires Parsable(fl, e, back, cc) && IsDisjunction(e) && e.Either?
    ensures Parsable(fl, e.right, back, cc + Captures(e.left)) && IsAlternative(e.right) && IsDisjunction(e.left)
    ensures Captures(e) == Captures(e.left) + Captures(e.right)
    ensures Compile(fl, e, back) == EitherCode(Compile(fl, e.left, back), Compile(fl, e.right, back))
  {
  }

  /** Appending leaves what was there. */
  lemma StillThere(old_: seq<Byte>, new_: seq<Byte>, a: nat, len: nat)
    requires old_ <= new_ && a + len <= |old_|
    ensures new_[a..a + len] == old_[a..a + len]
  {
  }

  lemma FillGap(pre: seq<Byte>, gap: seq<Byte>, post: seq<Byte>, a: seq<Byte>, b: seq<Byte>, c: seq<Byte>, d: seq<Byte>)
    requires |gap| == 17 && |a| == |b| == |c| == |d| == 4
    ensures var n := |pre|;
            Overwrite(Overwrite(Overwrite(Overwrite(Overwrite(pre + gap + post, n, [REOP_SIMPLE_GREEDY_QUANT]),
                                                    n + 1, a), n + 5, b), n + 9, c), n + 13, d)
            == pre + (([REOP_SIMPLE_GREEDY_QUANT] + (a + b + c + d)) + post)
  {
    OverwriteMiddle(pre, gap, post, 0, [REOP_SIMPLE_GREEDY_QUANT]);
    var g1 := Overwrite(gap, 0, [REOP_SIMPLE_GREEDY_QUANT]);
    OverwriteMiddle(pre, g1, post, 1, a);
    var g2 := Overwrite(g1, 1, a);
    OverwriteMiddle(pre, g2, post, 5, b);
    var g3 := Overwrite(g2, 5, b);
    OverwriteMiddle(pre, g3, post, 9, c);
    var g4 := Overwrite(g3, 9, c);
    OverwriteMiddle(pre, g4, post, 13, d);
    Filled(gap, a, b, c, d);
    Associate(pre, [REOP_SIMPLE_GREEDY_QUANT] + (a + b + c + d), post);
  }

  lemma Filled(gap: seq<Byte>, a: seq<Byte>, b: seq<Byte>, c: seq<Byte>, d: seq<Byte>)
    requires |gap| == 17 && |a| == |b| == |c| == |d| == 4
    ensures Overwrite(Overwrite(Overwrite(Overwrite(Overwrite(gap, 0, [REOP_SIMPLE_GREEDY_QUANT]), 1, a), 5, b), 9, c), 13, d)
            == [REOP_SIMPLE_GREEDY_QUANT] + (a + b + c + d)
  {
    assert Overwrite(gap, 0, [REOP_SIMPLE_GREEDY_QUANT])[..1] == [REOP_SIMPLE_GREEDY_QUANT];
    var g2 := Overwrite(Overwrite(gap, 0, [REOP_SIMPLE_GREEDY_QUANT]), 1, a);
    assert g2[..5] == [REOP_SIMPLE_GREEDY_QUANT] + a;
    var g3 := Overwrite(g2, 5, b);
    assert g3[..9] == [REOP_SIMPLE_GREEDY_QUANT] + a + b;
    var g4 := Overwrite(g3, 9, c);
    assert g4[..13] == [REOP_SIMPLE_GREEDY_QUANT] + a + b + c;
  }

  lemma FillReset(pre: seq<Byte>, gap: seq<Byte>, post: seq<Byte>, lo: Byte, last: Byte)
    requires |gap| == 3
    ensures var n := |pre|;
            Overwrite(Overwrite(Overwrite(pre + gap + post, n, [REOP_SAVE_RESET]), n + 1, [lo]), n + 2, [last]) ==
            pre + [REOP_SAVE_RESET, lo, last] + post
  {
    OverwriteMiddle(pre, gap, post, 0, [REOP_SAVE_RESET]);
    var g1 := Overwrite(gap, 0, [REOP_SAVE_RESET]);
    OverwriteMiddle(pre, g1, post, 1, [lo]);
    var g2 := Overwrite(g1, 1, [lo]);
    OverwriteMiddle(pre, g2, post, 2, [last]);
    assert Overwrite(g2, 2, [last]) == [REOP_SAVE_RESET, lo, last];
  }

  lemma FillPair(pre: seq<Byte>, gap: seq<Byte>, post: seq<Byte>, op1: Byte, a: seq<Byte>, op2: Byte, b: seq<Byte>)
    requires |gap| == 10 && |a| == |b| == 4
    ensures var n := |pre|;
            Overwrite(Overwrite(Overwrite(Overwrite(pre + gap + post, n, [op1]), n + 1, a), n + 5, [op2]), n + 6, b)
            == pre + ([op1] + a) + ([op2] + b) + post
  {
    OverwriteMiddle(pre, gap, post, 0, [op1]);
    var g1 := Overwrite(gap, 0, [op1]);
    OverwriteMiddle(pre, g1, post, 1, a);
    var g2 := Overwrite(g1, 1, a);
    OverwriteMiddle(pre, g2, post, 5, [op2]);
    var g3 := Overwrite(g2, 5, [op2]);
    OverwriteMiddle(pre, g3, post, 6, b);
    assert Overwrite(g3, 6, b) == ([op1] + a) + ([op2] + b);
  }

  lemma Split2(pre: seq<Byte>, post: seq<Byte>)
    ensures (pre + post)[..|pre|] == pre && (pre + post)[|pre|..] == post
  {
  }

  lemma InsertEffect(pre: seq<Byte>, gap: seq<Byte>, post: seq<Byte>, op: Byte, v: int)
    requires |gap| >= 5
    ensures var r := Overwrite(Overwrite(pre + gap + post, |pre|, [op]), |pre| + 1, U32(v));
            r == pre + ([op] + U32(v)) + gap[5..] + post && r[|pre| + 5..|pre| + |gap|] == gap[5..]
  {
    hide U32;
    OverwriteMiddle(pre, gap, post, 0, [op]);
    var gap1 := Overwrite(gap, 0, [op]);
    OverwriteMiddle(pre, gap1, post, 1, U32(v));
    var gap2 := Overwrite(gap1, 1, U32(v));
    assert gap2 == ([op] + U32(v)) + gap[5..];
    var r := pre + gap2 + post;
    assert r == pre + ([op] + U32(v)) + gap[5..] + post;
    assert r[|pre| + 5..|pre| + |gap|] == gap2[5..];
  }
}
