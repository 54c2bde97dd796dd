/** lre_compile: the whole program with its header. */
module RegexCompile {
  import opened ByteType
  import opened Options
  import opened Limits
  import opened RegexOpcodes
  import opened RegexCode
  import opened RegexPattern
  import opened RegexMatcher
  import opened RegexMachine
  import opened RegexStack
  import opened RegexDepth
  import opened RegexScan
  import opened RegexEmit
  import opened RegexExec

  /** The offsets of the header fields. */
  const RE_HEADER_CAPTURE_COUNT := 1
  const RE_HEADER_STACK_SIZE := 2

  /** A compiled pattern: header, then code. */
  predicate IsProgram(fl: Flags, sticky: bool, e: Re, bc: seq<Byte>)
    requires Ok(fl, e)
  {
    var code := ProgramCode(fl, sticky, e);
    && |bc| == RE_HEADER_LEN + SizeOf(code)
    && bc[RE_HEADER_CAPTURE_COUNT] == 1 + Captures(e)
    && bc[RE_HEADER_STACK_SIZE] == MaxDepth(code)
    && Get32(bc, 3) == SizeOf(code)
    && bc[RE_HEADER_LEN..] == EncodeAll(code)
  }

  /** The same, byte by byte: behind the flags the number of captures, the depth of the stack, and the length of
      the code in four bytes, the lowest first; then the code. */
  lemma HeaderLayout(fl: Flags, sticky: bool, e: Re, bc: seq<Byte>)
    requires Ok(fl, e)
    ensures IsProgram(fl, sticky, e, bc) <==>
            && |bc| >= 7 && bc[7..] == EncodeAll(ProgramCode(fl, sticky, e))
            && bc[1] == 1 + Captures(e) && bc[2] == MaxDepth(ProgramCode(fl, sticky, e))
            && bc[3] as int + 0x100 * bc[4] as int + 0x1_0000 * bc[5] as int + 0x100_0000 * bc[6] as int == |bc| - 7
  {
    hide ProgramCode, EncodeAll, SizeOf, MaxDepth;
  }

  /** What lre_compile is given. */
  predicate Compilable(fl: Flags, sticky: bool, e: Re) {
    && Parsable(fl, e, false, 1) && IsDisjunction(e)
    && SizeOf(ProgramCode(fl, sticky, e)) <= INT32_MAX
  }

  lemma ProgramFits(fl: Flags, sticky: bool, e: Re)
    requires Compilable(fl, sticky, e) && 1 + Captures(e) <= CAPTURE_COUNT_MAX
    ensures AllFit(ProgramCode(fl, sticky, e))
  {
    hide AllFit;
    hide Compile;
    NumberedBelow(e, 1, CAPTURE_COUNT_MAX);
    CompiledFits(fl, e, false);
    FitOne(SaveStart(0));
    FitOne(SaveEnd(0));
    FitOne(Match);
    FitConcat([SaveEnd(0)], [Match]);
    assert [SaveEnd(0)] + [Match] == [SaveEnd(0), Match];
    Fit3(SaveStart(0), Compile(fl, e, false), [SaveEnd(0), Match]);
    PrefixFits(sticky);
    FitConcat(SearchPrefix(sticky), [SaveStart(0)] + (Compile(fl, e, false) + [SaveEnd(0), Match]));
  }

  lemma PrefixFits(sticky: bool)
    ensures AllFit(SearchPrefix(sticky))
  {
  }

  /** From bytes to fetched instructions: a compiled pattern is a program the machine can run, on any
      subject of its flags. */
  lemma ProgramHolds(sticky: bool, e: Re, bc: seq<Byte>, s: Subject)
    requires Compilable(s.fl, sticky, e) && 1 + Captures(e) <= CAPTURE_COUNT_MAX && SubjectOk(s)
    requires IsProgram(s.fl, sticky, e, bc)
    ensures Holds(Machine(s, bc, bc[RE_HEADER_CAPTURE_COUNT]), sticky, e)
  {
    hide AllFit;
    hide EncodeAll;
    hide Compile;
    ProgramFits(s.fl, sticky, e);
    EncodedAt(bc, RE_HEADER_LEN, ProgramCode(s.fl, sticky, e));
  }

  /** The scan of compute_stack_size never pops an empty stack. */
  lemma {:induction false} ScanNeverUnderflows(whole: seq<Instr>, code: seq<Instr>, off: int, d: int, k: nat)
    requires JumpsOk(whole, code, off, d) && k < |code| && (code[k].Drop? || code[k].Bne?)
    ensures d + Net(code[..k]) >= 1
    decreases |code|
  {
    if k > 0 {
      assert code[..k][1..] == code[1..][..k - 1];
      ScanNeverUnderflows(whole, code[1..], off + Size(code[0]), d + Delta(code[0]), k - 1);
    }
  }

  lemma ProgramScans(fl: Flags, sticky: bool, e: Re)
    requires Ok(fl, e)
    ensures ScanDepths(ProgramCode(fl, sticky, e))
  {
    hide Compile;
    var code := Compile(fl, e, false);
    CompiledClosed(fl, e, false);
    ClosedCapture(0, code, false);
    ClosedPrefix(sticky);
    ClosedConcat(SearchPrefix(sticky), CaptureCode(0, code, false));
    ClosedOne(Match);
    var body := SearchPrefix(sticky) + CaptureCode(0, code, false);
    ClosedConcat(body, [Match]);
    assert [SaveStart(0)] + (code + [SaveEnd(0), Match]) == CaptureCode(0, code, false) + [Match];
    var program := ProgramCode(fl, sticky, e);
    assert program == body + [Match];
    forall k | 0 <= k < |program| && (program[k].Drop? || program[k].Bne?)
      ensures Net(program[..k]) > 0
    {
      ScanNeverUnderflows(program, program, 0, 0, k);
    }
  }

  lemma PrefixBytes()
    ensures EncodeAll(SearchPrefix(false)) == ([REOP_SPLIT_GOTO_FIRST] + U32(6)) + [REOP_ANY] + ([REOP_GOTO] + U32(-11))
  {
    hide U32;
    var pre := SearchPrefix(false);
    assert pre == [Split(false, 6)] + ([Any] + [Goto(-11)]);
    Encode3(Split(false, 6), [Any], [Goto(-11)]);
    Encode1(Any);
    Encode1(Goto(-11));
    EncodeSplit(false, 6);
    EncodeJump(-11);
  }

  lemma ProgramBytes(fl: Flags, sticky: bool, e: Re, pre: seq<Byte>)
    requires Ok(fl, e)
    ensures pre + EncodeAll(SearchPrefix(sticky)) + [REOP_SAVE_START, 0] + EncodeAll(Compile(fl, e, false)) + [REOP_SAVE_END, 0]
            + [REOP_MATCH]
            == pre + EncodeAll(ProgramCode(fl, sticky, e))
  {
    hide EncodeAll;
    hide Encode;
    hide Compile;
    var code := Compile(fl, e, false);
    Encode2(SaveEnd(0), Match);
    Encode3(SaveStart(0), code, [SaveEnd(0), Match]);
    EncodeAllConcat(SearchPrefix(sticky), [SaveStart(0)] + (code + [SaveEnd(0), Match]));
    EncodeU8(0, false);
    EncodePlain(0);
    Associate5(pre, EncodeAll(SearchPrefix(sticky)), [REOP_SAVE_START, 0], EncodeAll(code), [REOP_SAVE_END, 0], [REOP_MATCH]);
  }

  /** The header, its last three fields still empty. */
  function BlankHeader(reFlags: Byte): (h: seq<Byte>)
    ensures |h| == RE_HEADER_LEN
  {
    [reFlags, 0, 0] + U32(0)
  }

  /** The emission part of lre_compile; false for "too many captures". */
  method EmitProgram(fl: Flags, reFlags: Byte, sticky: bool, e: Re) returns (s: ReParseState, ok: bool)
    requires Compilable(fl, sticky, e)
    ensures fresh(s)
    ensures ok <==> 1 + Captures(e) <= CAPTURE_COUNT_MAX
    ensures ok ==> s.captureCount == 1 + Captures(e)
    ensures ok ==> s.byteCode == BlankHeader(reFlags) + EncodeAll(ProgramCode(fl, sticky, e))
  {
    hide EncodeAll;
    hide Compile;
    hide SizeOf;
    hide U32;
    s := new ReParseState(fl);
    s.Put(reFlags);
    s.Put(0);
    s.Put(0);
    s.byteCode := s.byteCode + U32(0);
    ghost var header := BlankHeader(reFlags);
    assert s.byteCode == header;
    if !sticky {
      var pos := s.EmitU32(REOP_SPLIT_GOTO_FIRST, 6);
      s.Put(REOP_ANY);
      pos := s.EmitU32(REOP_GOTO, -11);
      PrefixBytes();
      Associate3(header, [REOP_SPLIT_GOTO_FIRST] + U32(6), [REOP_ANY], [REOP_GOTO] + U32(-11));
    } else {
      EncodeNothing();
      assert header + [] == header;
    }
    s.EmitU8(REOP_SAVE_START, 0);
    ok := s.ParseDisjunction(e, false);
    if ok {
      s.EmitU8(REOP_SAVE_END, 0);
      s.Put(REOP_MATCH);
      ProgramBytes(fl, sticky, e, header);
    }
  }

  /** The last part of lre_compile: the header fields. */
  method FillHeader(s: ReParseState, stackSize: Byte, ghost header: seq<Byte>, ghost code: seq<Byte>) returns (bc: seq<Byte>)
    requires s.byteCode == header + code && |header| == RE_HEADER_LEN && |code| <= INT32_MAX && s.captureCount < 0x100
    modifies s`byteCode
    ensures |bc| == RE_HEADER_LEN + |code| && bc[RE_HEADER_LEN..] == code && bc[0] == header[0]
    ensures bc[RE_HEADER_CAPTURE_COUNT] == s.captureCount && bc[RE_HEADER_STACK_SIZE] == stackSize
    ensures Get32(bc, 3) == |code|
  {
    hide U32;
    hide Get32;
    HeaderBytes(header, code, s.captureCount, stackSize, U32(|s.byteCode| - RE_HEADER_LEN));
    s.Write(RE_HEADER_CAPTURE_COUNT, [s.captureCount]);
    s.Write(RE_HEADER_STACK_SIZE, [stackSize]);
    s.Write(3, U32(|s.byteCode| - RE_HEADER_LEN));
    bc := s.byteCode;
    Get32Put(bc, 3, |bc| - RE_HEADER_LEN);
  }

  /** lre_compile: None for "too many captures" and for "too many imbricated quantifiers". */
  method LreCompile(fl: Flags, reFlags: Byte, sticky: bool, e: Re) returns (r: Option<seq<Byte>>)
    requires Compilable(fl, sticky, e)
    ensures r.Some? <==> 1 + Captures(e) <= 255 && MaxDepth(ProgramCode(fl, sticky, e)) <= 255
    ensures r.Some? ==> IsProgram(fl, sticky, e, r.value) && r.value[0] == reFlags
  {
    hide EncodeAll;
    hide ProgramCode;
    hide U32;
    hide SizeOf;
    hide AllFit;
    hide At;
    hide ScanDepths;
    ghost var code := ProgramCode(fl, sticky, e);
    ghost var header := BlankHeader(reFlags);
    var s, ok := EmitProgram(fl, reFlags, sticky, e);
    if !ok {
      return None;
    }
    var buf := s.byteCode;
    SplitEnd(header, EncodeAll(code));
    ProgramFits(fl, sticky, e);
    EncodedAt(buf, RE_HEADER_LEN, code);
    ProgramScans(fl, sticky, e);
    var stackSize := ComputeStackSize(buf, RE_HEADER_LEN, code);
    if stackSize < 0 {
      return None;
    }
    var bc := FillHeader(s, stackSize, header, EncodeAll(code));
    return Some(bc);
  }

  lemma HeaderBytes(header: seq<Byte>, code: seq<Byte>, count: Byte, stackSize: Byte, size: seq<Byte>)
    requires |header| == 7 && |size| == 4
    ensures var bc := Overwrite(Overwrite(Overwrite(header + code, 1, [count]), 2, [stackSize]), 3, size);
            && |bc| == 7 + |code| && bc[0] == header[0] && bc[1] == count && bc[2] == stackSize
            && bc[3..7] == size && bc[7..] == code
  {
    assert [] + header + code == header + code;
    OverwriteMiddle([], header, code, 1, [count]);
    var h1 := Overwrite(header, 1, [count]);
    OverwriteMiddle([], h1, code, 2, [stackSize]);
    var h2 := Overwrite(h1, 2, [stackSize]);
    OverwriteMiddle([], h2, code, 3, size);
    var h3 := Overwrite(h2, 3, size);
    assert h3[0] == header[0] && h3[1] == count && h3[2] == stackSize && h3[3..7] == size;
    var bc := [] + h3 + code;
    assert bc == h3 + code && bc[..7] == h3;
    assert bc[3..7] == bc[..7][3..7];
  }
}
