/** The operand stack of a run: its depth is the one the linear scan computes at the program counter. */
module RegexDepth {
  import opened ByteType
  import opened Options
  import opened RegexCode
  import opened RegexPattern
  import opened RegexMatcher
  import opened RegexMachine
  import opened RegexLayout
  import opened RegexExec
  import opened RegexStack

  /** The code of a program without its final `match`. */
  function Body(m: Machine, sticky: bool, e: Re): seq<Instr>
    requires Ok(m.s.fl, e)
  {
    SearchPrefix(sticky) + CaptureCode(0, Compile(m.s.fl, e, false), false)
  }

  /** `pc` is a boundary at which the scan computes depth `d`. */
  predicate PcAt(code: seq<Instr>, pc: int, d: int) {
    DepthAt(code, pc - RE_HEADER_LEN) == Some(d)
  }

  predicate FrameOk(m: Machine, code: seq<Instr>, f: Frame) {
    if f.kind == GreedyFrame then
      && PcAt(code, f.pc - 1, |f.stack|)
      && f.pc >= 1
      && (match FetchInstr(m.bc, f.pc - 1) case Some(i) => i.Greedy? case None => false)
    else PcAt(code, f.pc, |f.stack|)
  }

  predicate FramesOk(m: Machine, code: seq<Instr>, frames: seq<Frame>) {
    forall k | 0 <= k < |frames| :: FrameOk(m, code, frames[k])
  }

  /** What every state of a run satisfies. */
  predicate ConfigOk(m: Machine, code: seq<Instr>, c: Config) {
    c.Run? ==> PcAt(code, c.pc, |c.stack|) && FramesOk(m, code, c.frames)
  }

  ghost predicate CodeOk(m: Machine, code: seq<Instr>) {
    At(m.bc, RE_HEADER_LEN, code + [Match]) && Closed(code)
  }

  /** The instruction at a boundary. */
  lemma {:induction false} InstrAt(bc: seq<Byte>, p: nat, whole: seq<Instr>, code: seq<Instr>, off: int, d: int, off0: int, d0: int)
    requires At(bc, p, code) && DepthAt(code, off) == Some(d) && off < SizeOf(code)
    requires JumpsOk(whole, code, off0, d0)
    ensures off >= 0 && FetchInstr(bc, p + off).Some?
    ensures var i := FetchInstr(bc, p + off).value;
            InstrOk(whole, i, off0 + off, d0 + d) && DepthAt(code, off + Size(i)) == Some(d + Delta(i))
    decreases |code|
  {
    hide FetchInstr;
    hide Size;
    hide Delta;
    hide InstrOk;
    if off == 0 {
      assert DepthAt(code[1..], 0) == Some(0);
    } else {
      InstrAt(bc, p + Size(code[0]), whole, code[1..], off - Size(code[0]), d - Delta(code[0]),
              off0 + Size(code[0]), d0 + Delta(code[0]));
    }
  }

  lemma {:induction false} DepthWithin(code: seq<Instr>, off: int)
    requires DepthAt(code, off).Some?
    ensures 0 <= off <= SizeOf(code) && DepthAt(code, off).value <= MaxDepth(code)
    decreases |code|
  {
    if off != 0 {
      DepthWithin(code[1..], off - Size(code[0]));
    }
  }

  /** At a boundary of the body there is an instruction of the body, whose jump is in order, or the
      final `match`. */
  lemma Fetched(m: Machine, code: seq<Instr>, pc: nat, d: nat) returns (i: Instr)
    requires CodeOk(m, code) && PcAt(code, pc, d)
    ensures FetchInstr(m.bc, pc) == Some(i)
    ensures !i.Match? ==> InstrOk(code, i, pc - RE_HEADER_LEN, d) && PcAt(code, pc + Size(i), d + Delta(i))
  {
    hide FetchInstr;
    hide Size;
    hide Delta;
    hide InstrOk;
    AtConcat(m.bc, RE_HEADER_LEN, code, [Match]);
    DepthWithin(code, pc - RE_HEADER_LEN);
    if pc - RE_HEADER_LEN < SizeOf(code) {
      InstrAt(m.bc, RE_HEADER_LEN, code, code, pc - RE_HEADER_LEN, d, 0, 0);
      i := FetchInstr(m.bc, pc).value;
    } else {
      At1(m.bc, RE_HEADER_LEN + SizeOf(code), Match);
      i := Match;
    }
  }

  lemma StepBackOk(m: Machine, code: seq<Instr>, f: Frame, rest: seq<Frame>)
    requires CodeOk(m, code) && FrameOk(m, code, f) && f.kind == GreedyFrame && FramesOk(m, code, rest)
    ensures ConfigOk(m, code, StepBack(m, f, rest))
  {
    hide FetchInstr;
    hide CodeOk;
    var i := Fetched(m, code, f.pc - 1, |f.stack|);
  }

  lemma {:induction false} FailOk(m: Machine, code: seq<Instr>, frames: seq<Frame>)
    requires CodeOk(m, code) && FramesOk(m, code, frames)
    ensures ConfigOk(m, code, Fail(m, frames))
    decreases |frames|
  {
    hide CodeOk;
    hide StepBack;
    if frames != [] {
      var f, rest := frames[|frames| - 1], frames[..|frames| - 1];
      assert FrameOk(m, code, f);
      if f.kind == GreedyFrame {
        StepBackOk(m, code, f, rest);
      } else if f.kind == LookFrame {
        FailOk(m, code, rest);
      }
    }
  }

  lemma {:induction false} SucceedOk(m: Machine, code: seq<Instr>, caps: seq<Option<nat>>, frames: seq<Frame>)
    requires CodeOk(m, code) && FramesOk(m, code, frames)
    ensures ConfigOk(m, code, Succeed(m, caps, frames))
    decreases |frames|
  {
    hide CodeOk;
    if frames != [] {
      var f, rest := frames[|frames| - 1], frames[..|frames| - 1];
      assert FrameOk(m, code, f);
      if f.Plain() {
        SucceedOk(m, code, caps, rest);
      } else {
        FailOk(m, code, rest);
      }
    }
  }

  lemma JumpOk(m: Machine, code: seq<Instr>, i: Instr, c: Config)
    requires CodeOk(m, code) && c.Run? && ConfigOk(m, code, c) && c.x.pos <= m.s.Len()
    requires i.Look? || i.Split? || i.Goto? || i.Loop? || i.Bne?
    requires InstrOk(code, i, c.pc - RE_HEADER_LEN, |c.stack|) && PcAt(code, c.pc + Size(i), |c.stack| + Delta(i))
    ensures ConfigOk(m, code, ExecJump(m, i, c.pc + Size(i), c))
  {
    hide FetchInstr;
    hide CodeOk;
    hide DepthAt;
  }

  lemma GreedyOk(m: Machine, code: seq<Instr>, i: Instr, c: Config)
    requires CodeOk(m, code) && c.Run? && ConfigOk(m, code, c) && c.x.pos <= m.s.Len()
    requires i.Greedy? && FetchInstr(m.bc, c.pc) == Some(i)
    requires InstrOk(code, i, c.pc - RE_HEADER_LEN, |c.stack|)
    ensures ConfigOk(m, code, ExecGreedy(m, c.pc + 17, i.next, i.min, i.max, c))
  {
    hide FetchInstr;
    hide CodeOk;
    hide DepthAt;
    hide RunAtoms;
    hide Fail;
    FailOk(m, code, c.frames);
  }

  predicate Jumping(i: Instr) {
    i.Look? || i.Split? || i.Goto? || i.Loop? || i.Bne?
  }

  /** The other instructions go on to the next one, fail, or abort. */
  lemma SimpleShape(m: Machine, i: Instr, c: Config)
    requires c.Run? && c.x.pos <= m.s.Len() && !Jumping(i) && !i.Greedy? && !i.Match?
    ensures var d := Exec(m, i, c.pc + Size(i), c);
            || d == Abort || d == Fail(m, c.frames)
            || (d.Run? && d.pc == c.pc + Size(i) && d.frames == c.frames && |d.stack| == |c.stack| + Delta(i))
  {
    hide Fail;
    hide CharTest;
    hide AssertHolds;
    hide RefMatch;
    hide Size;
  }

  lemma ExecOk(m: Machine, code: seq<Instr>, i: Instr, c: Config)
    requires CodeOk(m, code) && c.Run? && ConfigOk(m, code, c) && c.x.pos <= m.s.Len()
    requires FetchInstr(m.bc, c.pc) == Some(i)
    requires !i.Match? ==> InstrOk(code, i, c.pc - RE_HEADER_LEN, |c.stack|) && PcAt(code, c.pc + Size(i), |c.stack| + Delta(i))
    ensures ConfigOk(m, code, Exec(m, i, c.pc + Size(i), c))
  {
    hide FetchInstr;
    hide CodeOk;
    hide Fail;
    hide Succeed;
    hide ExecJump;
    hide ExecGreedy;
    hide ExecChar;
    hide DepthAt;
    hide InstrOk;
    if Jumping(i) {
      JumpOk(m, code, i, c);
    } else if i.Greedy? {
      GreedyOk(m, code, i, c);
    } else if i.Match? {
      SucceedOk(m, code, c.x.caps, c.frames);
    } else {
      FailOk(m, code, c.frames);
      SimpleShape(m, i, c);
    }
  }

  /** One step keeps every depth in order. */
  lemma StepOk(m: Machine, code: seq<Instr>, c: Config)
    requires CodeOk(m, code) && ConfigOk(m, code, c)
    ensures ConfigOk(m, code, Step(m, c))
  {
    hide FetchInstr;
    hide CodeOk;
    hide Exec;
    hide FramesOk;
    hide DepthAt;
    hide InstrOk;
    hide Size;
    if c.Run? && c.x.pos <= m.s.Len() {
      var i := Fetched(m, code, c.pc, |c.stack|);
      ExecOk(m, code, i, c);
    }
  }

  lemma {:induction false} StepsOk(m: Machine, code: seq<Instr>, c: Config, n: nat)
    requires CodeOk(m, code) && ConfigOk(m, code, c)
    ensures ConfigOk(m, code, Steps(m, c, n))
    decreases n
  {
    hide Step;
    hide ConfigOk;
    hide CodeOk;
    if n > 0 {
      StepOk(m, code, c);
      StepsOk(m, code, Step(m, c), n - 1);
    }
  }

  lemma ClosedPrefix(sticky: bool)
    ensures Closed(SearchPrefix(sticky))
  {
    if !sticky {
      var pre := SearchPrefix(sticky);
      var split, goto := Split(false, 6), Goto(-11);
      Landmarks(split, [Any], [goto]);
      Size1(Any);
      Size1(goto);
      ClosedOne(Any);
      assert pre == [split] + ([Any] + [goto]);
      SingleOk(pre, goto, 6, 0);
      Assemble(split, [Any], [goto]);
    }
  }

  lemma BodyOk(m: Machine, sticky: bool, e: Re)
    requires Holds(m, sticky, e)
    ensures CodeOk(m, Body(m, sticky, e))
    ensures ProgramCode(m.s.fl, sticky, e) == Body(m, sticky, e) + [Match]
  {
    hide Closed;
    hide At;
    var code := Compile(m.s.fl, e, false);
    CompiledClosed(m.s.fl, e, false);
    ClosedCapture(0, code, false);
    ClosedPrefix(sticky);
    ClosedConcat(SearchPrefix(sticky), CaptureCode(0, code, false));
    assert [SaveStart(0)] + (code + [SaveEnd(0), Match]) == CaptureCode(0, code, false) + [Match];
    assert SearchPrefix(sticky) + (CaptureCode(0, code, false) + [Match]) == Body(m, sticky, e) + [Match];
  }

  lemma StartOk(m: Machine, code: seq<Instr>, cindex: nat)
    ensures ConfigOk(m, code, Start(m, cindex))
  {
  }

  /** Stack-depth soundness: in every state that a run of a compiled program reaches, on any subject and
      from any start, the stack is as deep as the linear scan says at that program counter, and so are
      the stacks saved in the frames at theirs; none is deeper than the size compute_stack_size reserves. */
  lemma StackBounded(m: Machine, sticky: bool, e: Re, cindex: nat, n: nat)
    requires Holds(m, sticky, e)
    ensures var c := Steps(m, Start(m, cindex), n);
            var code := ProgramCode(m.s.fl, sticky, e);
            c.Run? ==>
              && PcAt(code, c.pc, |c.stack|)
              && |c.stack| <= MaxDepth(code)
              && forall k | 0 <= k < |c.frames| :: |c.frames[k].stack| <= MaxDepth(code)
  {
    hide Steps, CodeOk, Step, DepthAt, MaxDepth, At, Body, ProgramCode;
    var body, code := Body(m, sticky, e), ProgramCode(m.s.fl, sticky, e);
    var c := Steps(m, Start(m, cindex), n);
    BodyOk(m, sticky, e);
    StartOk(m, body, cindex);
    StepsOk(m, body, Start(m, cindex), n);
    if c.Run? {
      DepthBefore(body, [Match], c.pc - RE_HEADER_LEN);
      DepthWithin(code, c.pc - RE_HEADER_LEN);
      forall k | 0 <= k < |c.frames|
        ensures |c.frames[k].stack| <= MaxDepth(code)
      {
        var f := c.frames[k];
        assert FrameOk(m, body, f);
        var pc := if f.kind == GreedyFrame then f.pc - 1 else f.pc;
        DepthBefore(body, [Match], pc - RE_HEADER_LEN);
        DepthWithin(code, pc - RE_HEADER_LEN);
      }
    }
  }
}
