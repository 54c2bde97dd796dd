/** The backtracking virtual machine, one instruction at a time over the bytes of a program. */
module RegexMachine {
  import opened Limits
  import opened ByteType
  import opened Options
  import opened RegexText
  import opened RegexCode
  import opened RegexClass
  import opened RegexPattern
  import opened RegexMatcher

  datatype FrameKind = SplitFrame | LookFrame | NegLookFrame | GreedyFrame

  /** REExecState: where to resume, with the captures and the stack at the time of the push. */
  datatype Frame = Frame(kind: FrameKind, pc: nat, x: St, stack: seq<nat>, count: nat) {
    /** A frame that only backtracking looks at. */
    predicate Plain() {
      kind == SplitFrame || kind == GreedyFrame
    }
  }

  /** A program and what it runs on. `bc` is the byte code with its header, `ncap` the capture count. */
  datatype Machine = Machine(s: Subject, bc: seq<Byte>, ncap: nat)

  /** A state of the machine; `frames` grows to the right. `Abort` stands for undefined behaviour. */
  datatype Config =
    | Run(pc: nat, x: St, stack: seq<nat>, frames: seq<Frame>)
    | Matched(caps: seq<Option<nat>>)
    | NoMatch
    | Abort

  /** The unwinding loop entered at `no_match`: drops lookahead frames, resumes at the first other one. */
  function Fail(m: Machine, frames: seq<Frame>): Config
    decreases |frames|
  {
    if frames == [] then NoMatch
    else
      var f, rest := frames[|frames| - 1], frames[..|frames| - 1];
      match f.kind
      case SplitFrame => Run(f.pc, f.x, f.stack, rest)
      case NegLookFrame => Run(f.pc, f.x, f.stack, rest)
      case LookFrame => Fail(m, rest)
      case GreedyFrame => StepBack(m, f, rest)
  }

  /** RE_EXEC_STATE_GREEDY_QUANT: give back one iteration of the atom. */
  function StepBack(m: Machine, f: Frame, rest: seq<Frame>): Config {
    if f.pc == 0 || f.x.pos > m.s.Len() then Abort
    else
      match FetchInstr(m.bc, f.pc - 1)
      case Some(Greedy(next, _, _, len)) =>
        var x := f.x.(pos := m.s.text.BackN(f.x.pos, len));
        var resume := f.pc + 16 + next;
        if f.count == 0 || resume < 0 then Abort
        else if f.count == 1 then Run(resume, x, f.stack, rest)
        else Run(resume, x, f.stack, rest + [f.(x := x, count := f.count - 1)])
      case _ => Abort
  }

  /** The unwinding loop entered at `match`: up to the innermost lookahead frame. */
  function Succeed(m: Machine, caps: seq<Option<nat>>, frames: seq<Frame>): Config
    decreases |frames|
  {
    if frames == [] then Matched(caps)
    else
      var f, rest := frames[|frames| - 1], frames[..|frames| - 1];
      match f.kind
      case SplitFrame => Succeed(m, caps, rest)
      case GreedyFrame => Succeed(m, caps, rest)
      case LookFrame => Run(f.pc, f.x.(caps := caps), f.stack, rest)
      case NegLookFrame => Fail(m, rest)
  }

  /** The test a one-character instruction applies to the character it has read. */
  predicate CharTest(s: Subject, i: Instr, c: nat)
    requires IsCharTest(i)
  {
    match i
    case Char(v) => s.fl.Fold(c) == v
    case Char32(v) => s.fl.Fold(c) == v
    case Dot => !IsLineTerminator(c)
    case Any => true
    case Range(ps) => ps != [] && RangeTest(ps, s.fl.Fold(c))
    case Range32(ps) => ps != [] && Range32Test(ps, s.fl.Fold(c))
  }

  /** One run of the atom of a simple quantifier (`no_recurse`): the position where it matched. */
  function RunAtom(m: Machine, pc: nat, pos: nat): (r: Option<nat>)
    requires pos <= m.s.Len()
    ensures r.Some? ==> pos <= r.value <= m.s.Len()
    decreases |m.bc| - pc
  {
    match FetchInstr(m.bc, pc)
    case None => None
    case Some(i) =>
      if i.Match? then Some(pos)
      else if IsCharTest(i) then
        if pos == m.s.Len() then None
        else
          var (c, p) := m.s.text.Get(pos);
          if CharTest(m.s, i, c) then RunAtom(m, pc + Size(i), p) else None
      else if i.Assert? && AssertHolds(m.s, i.kind, pos) then RunAtom(m, pc + Size(i), pos)
      else None
  }

  /** The loop of simple_greedy_quant: the number of iterations and the final position. An atom that
      does not advance ends the loop; compiled code has none. */
  function RunAtoms(m: Machine, pc: nat, pos: nat, max: nat, q: nat): (r: (nat, nat))
    requires pos <= m.s.Len()
    ensures q <= r.0 && pos <= r.1 <= m.s.Len()
    decreases m.s.Len() - pos
  {
    var a := RunAtom(m, pc, pos);
    if a.None? then (q, pos)
    else if q + 1 >= max && max != INT32_MAX then (q + 1, a.value)
    else if a.value == pos then (q + 1, pos)
    else RunAtoms(m, pc, a.value, max, q + 1)
  }

  /** One iteration of the machine's loop. */
  function Step(m: Machine, c: Config): Config {
    if !c.Run? then c
    else
      match FetchInstr(m.bc, c.pc)
      case None => Abort
      case Some(i) => if c.x.pos > m.s.Len() then Abort else Exec(m, i, c.pc + Size(i), c)
  }

  /** Execution of instruction `i`, with `pc` the address of the next one. */
  function Exec(m: Machine, i: Instr, pc: nat, c: Config): Config
    requires c.Run? && c.x.pos <= m.s.Len() && pc >= Size(i)
  {
    if IsCharTest(i) then ExecChar(m, i, pc, c)
    else if i.Look? || i.Split? || i.Goto? || i.Loop? || i.Bne? then ExecJump(m, i, pc, c)
    else
      match i
      case Match => Succeed(m, c.x.caps, c.frames)
      case Assert(kind) => if AssertHolds(m.s, kind, c.x.pos) then c.(pc := pc) else Fail(m, c.frames)
      case SaveStart(n) => if n < m.ncap then c.(pc := pc, x := c.x.Save(2 * n)) else Abort
      case SaveEnd(n) => if n < m.ncap then c.(pc := pc, x := c.x.Save(2 * n + 1)) else Abort
      case SaveReset(lo, hi) => if hi < m.ncap then c.(pc := pc, x := c.x.Forget(lo, hi + 1)) else Abort
      case PushI32(v) => c.(pc := pc, stack := c.stack + [v])
      case PushPos => c.(pc := pc, stack := c.stack + [c.x.pos])
      case Drop => if c.stack == [] then Abort else c.(pc := pc, stack := c.stack[..|c.stack| - 1])
      case BackRef(back, n) =>
        var r := if n < m.ncap then RefMatch(m.s, n, back, c.x) else None;
        if r.Some? then c.(pc := pc, x := c.x.(pos := r.value)) else Fail(m, c.frames)
      case Prev =>
        if c.x.pos == 0 then Fail(m, c.frames)
        else c.(pc := pc, x := c.x.(pos := m.s.text.Back(c.x.pos)))
      case Greedy(next, min, max, _) => ExecGreedy(m, pc, next, min, max, c)
      case _ => Abort
  }

  function ExecChar(m: Machine, i: Instr, pc: nat, c: Config): Config
    requires c.Run? && c.x.pos <= m.s.Len() && IsCharTest(i)
  {
    if c.x.pos == m.s.Len() then Fail(m, c.frames)
    else
      var (ch, p) := m.s.text.Get(c.x.pos);
      if CharTest(m.s, i, ch) then c.(pc := pc, x := c.x.(pos := p)) else Fail(m, c.frames)
  }

  function ExecJump(m: Machine, i: Instr, pc: nat, c: Config): Config
    requires c.Run? && (i.Look? || i.Split? || i.Goto? || i.Loop? || i.Bne?)
  {
    var target := pc + i.off;
    if target < 0 then Abort
    else
      match i
      case Goto(_) => c.(pc := target)
      case Split(nextFirst, _) =>
        var first, other := if nextFirst then pc else target, if nextFirst then target else pc;
        c.(pc := first, frames := c.frames + [Frame(SplitFrame, other, c.x, c.stack, 0)])
      case Look(neg, _) =>
        var kind := if neg then NegLookFrame else LookFrame;
        c.(pc := pc, frames := c.frames + [Frame(kind, target, c.x, c.stack, 0)])
      case Loop(_) =>
        if c.stack == [] || c.stack[|c.stack| - 1] == 0 then Abort
        else
          var n := c.stack[|c.stack| - 1] - 1;
          c.(pc := if n != 0 then target else pc, stack := c.stack[..|c.stack| - 1] + [n])
      case Bne(_) =>
        if c.stack == [] then Abort
        else
          c.(pc := if c.stack[|c.stack| - 1] != c.x.pos then target else pc, stack := c.stack[..|c.stack| - 1])
  }

  /** simple_greedy_quant: as many iterations as possible, then one frame for all ways to take fewer. */
  function ExecGreedy(m: Machine, pc: nat, next: int, min: nat, max: nat, c: Config): Config
    requires c.Run? && c.x.pos <= m.s.Len() && pc >= 17
  {
    var (q, p) := RunAtoms(m, pc, c.x.pos, max, 0);
    var x := c.x.(pos := p);
    if pc + next < 0 then Abort
    else if q < min then Fail(m, c.frames)
    else if q == min then c.(pc := pc + next, x := x)
    else c.(pc := pc + next, x := x, frames := c.frames + [Frame(GreedyFrame, pc - 16, x, c.stack, q - min)])
  }

  /** The state after `n` iterations. */
  function Steps(m: Machine, c: Config, n: nat): Config
    decreases n
  {
    if n == 0 then c else Steps(m, Step(m, c), n - 1)
  }
}
