/** lre_exec_backtrack and lre_exec: the machine as a loop over mutable state, proved to run exactly as
    the step function of RegexMachine. */
module RegexVm {
  import opened Limits
  import opened ByteType
  import opened Options
  import opened RegexText
  import opened RegexCode
  import opened RegexClass
  import opened RegexPattern
  import opened RegexMatcher
  import opened RegexProgress
  import opened RegexReference
  import opened RegexMachine
  import opened RegexYields
  import opened RegexExec
  import opened RegexStack
  import opened RegexDepth
  import opened RegexCompile

  // ----- loops inside single instructions -----

  /** The binary search of the range instructions. */
  method SearchRange(ps: seq<(nat, nat)>, c: nat) returns (found: bool)
    requires |ps| > 0 && ps[0].0 <= c
    ensures found == BinarySearch(ps, c, 0, |ps| - 1)
  {
    var idxMin, idxMax := 0, |ps| - 1;
    while idxMin <= idxMax
      invariant 0 <= idxMin && -1 < idxMax < |ps|
      invariant BinarySearch(ps, c, 0, |ps| - 1) == BinarySearch(ps, c, idxMin, idxMax)
      decreases idxMax + 1 - idxMin
    {
      var idx := (idxMin + idxMax) / 2;
      var (low, high) := ps[idx];
      if c < low {
        idxMax := idx - 1;
      } else if c > high {
        idxMin := idx + 1;
      } else {
        return true;
      }
    }
    return false;
  }

  /** REOP_range and REOP_range32 after the character has been read. */
  method TestRange(ps: seq<(nat, nat)>, c: nat, wide: bool) returns (ok: bool)
    requires |ps| > 0
    ensures ok == if wide then Range32Test(ps, c) else RangeTest(ps, c)
  {
    var low := ps[0].0;
    if c < low {
      return false;
    }
    var high := ps[|ps| - 1].1;
    if !wide && c >= 0xffff && high == 0xffff {
      return true;
    }
    if c > high {
      return false;
    }
    ok := SearchRange(ps, c);
  }

  /** The test of a one-character instruction. */
  method TestChar(s: Subject, i: Instr, c: nat) returns (ok: bool)
    requires IsCharTest(i)
    ensures ok == CharTest(s, i, c)
  {
    match i
    case Char(v) => ok := s.fl.Fold(c) == v;
    case Char32(v) => ok := s.fl.Fold(c) == v;
    case Dot => ok := !IsLineTerminator(c);
    case Any => ok := true;
    case Range(ps) =>
      if ps == [] { ok := false; } else { ok := TestRange(ps, s.fl.Fold(c), false); }
    case Range32(ps) =>
      if ps == [] { ok := false; } else { ok := TestRange(ps, s.fl.Fold(c), true); }
  }

  /** The loops of the back references: they end behind the repetition of the captured text, if there is one. */
  method MatchRef(s: Subject, n: nat, back: bool, x: St) returns (r: Option<nat>)
    requires x.pos <= s.Len()
    ensures r == RefMatch(s, n, back, x)
    ensures 2 * n + 1 < |x.caps| && CapturesOk(s, x) && s.text.Boundary(x.pos) ==>
            forall q: nat :: r == Some(q) <==> Repeats(s, n, back, x, q)
  {
    RepetitionFound(s, n, back, x);
    hide Repeats, CapturesOk;
    if 2 * n + 1 >= |x.caps| {
      return None;
    }
    if x.caps[2 * n].None? || x.caps[2 * n + 1].None? {
      return Some(x.pos);
    }
    var start, end := x.caps[2 * n].value, x.caps[2 * n + 1].value;
    if end > s.Len() {
      return None;
    }
    var cptr: nat := x.pos;
    if !back {
      var cptr1: nat := start;
      while cptr1 < end
        invariant cptr <= s.Len()
        invariant RefForward(s, start, end, x.pos) == RefForward(s, cptr1, end, cptr)
        decreases end - cptr1
      {
        if cptr >= s.Len() {
          return None;
        }
        var (c1, next1) := if s.text.PairAt(cptr1) && cptr1 + 1 == end then (s.text.units[cptr1], cptr1 + 1)
                           else s.text.Get(cptr1);
        var (c2, next) := s.text.Get(cptr);
        cptr1, cptr := next1, next;
        if s.fl.Fold(c1) != s.fl.Fold(c2) {
          return None;
        }
      }
    } else {
      var cptr1: nat := end;
      while cptr1 > start
        invariant cptr <= s.Len() && cptr1 <= s.Len()
        invariant RefBackward(s, end, start, x.pos) == RefBackward(s, cptr1, start, cptr)
      {
        if cptr == 0 {
          return None;
        }
        var whole := cptr1 - 1 > start || !s.text.PairAt(cptr1 - 2);
        var c1 := if whole then s.text.PrevChar(cptr1) else s.text.units[cptr1 - 1];
        var c2 := s.text.PrevChar(cptr);
        cptr1 := if whole then s.text.Back(cptr1) else cptr1 - 1;
        cptr := s.text.Back(cptr);
        if s.fl.Fold(c1) != s.fl.Fold(c2) {
          return None;
        }
      }
    }
    return Some(cptr);
  }

  /** The machine's loop with `no_recurse`, for the atom of a simple quantifier. */
  method RunSimple(m: Machine, start: nat, from: nat) returns (r: Option<nat>)
    requires from <= m.s.Len()
    ensures r == RunAtom(m, start, from)
  {
    hide FetchInstr;
    hide CharTest;
    hide AssertHolds;
    var pc: nat, cptr: nat := start, from;
    while true
      invariant cptr <= m.s.Len() && RunAtom(m, start, from) == RunAtom(m, pc, cptr)
      decreases |m.bc| - pc
    {
      match FetchInstr(m.bc, pc)
      case None => return None;
      case Some(i) =>
        pc := pc + Size(i);
        if i.Match? {
          return Some(cptr);
        } else if IsCharTest(i) {
          if cptr == m.s.Len() {
            return None;
          }
          var (c, next) := m.s.text.Get(cptr);
          var ok := TestChar(m.s, i, c);
          if !ok {
            return None;
          }
          cptr := next;
        } else if !i.Assert? || !AssertHolds(m.s, i.kind, cptr) {
          return None;
        }
    }
  }

  /** The loop of REOP_simple_greedy_quant. */
  method RunGreedy(m: Machine, pc: nat, from: nat, max: nat) returns (q: nat, cptr: nat)
    requires from <= m.s.Len()
    ensures (q, cptr) == RunAtoms(m, pc, from, max, 0)
    ensures cptr <= m.s.Len()
  {
    q, cptr := 0, from;
    while true
      invariant cptr <= m.s.Len() && RunAtoms(m, pc, from, max, 0) == RunAtoms(m, pc, cptr, max, q)
      decreases m.s.Len() - cptr
    {
      var res := RunSimple(m, pc, cptr);
      if res.None? {
        return;
      }
      var stuck := res.value == cptr;
      cptr := res.value;
      q := q + 1;
      if (q >= max && max != INT32_MAX) || stuck {
        return;
      }
    }
  }

  // ----- the execution context -----

  /** REExecContext with the local variables of the loop. */
  class ExecContext {
    const m: Machine
    const capture: array<Option<nat>>
    const stack: array<nat>
    var stackLen: nat
    var stateStack: seq<Frame>
    var pc: nat
    var cptr: nat

    /** What a saved state needs to be restored into the arrays. */
    ghost predicate FrameFits(f: Frame) {
      |f.x.caps| == capture.Length && |f.stack| <= stack.Length && f.x.pos <= m.s.Len()
    }

    ghost predicate Valid()
      reads this
    {
      && stackLen <= stack.Length
      && cptr <= m.s.Len()
      && forall k | 0 <= k < |stateStack| :: FrameFits(stateStack[k])
    }

    /** The state of the step function that the fields stand for. */
    ghost function State(): Config
      reads this, capture, stack
      requires stackLen <= stack.Length
    {
      Run(pc, St(cptr, capture[..]), stack[..stackLen], stateStack)
    }

    constructor (m: Machine, cindex: nat, stackSizeMax: nat)
      requires cindex <= m.s.Len()
      ensures this.m == m && Valid() && State() == Start(m, cindex)
      ensures stack.Length == stackSizeMax && fresh(capture) && fresh(stack)
      ensures pc == 7 && cptr == cindex && stackLen == 0 && stateStack == []
      ensures capture.Length == 2 * m.ncap && forall k | 0 <= k < capture.Length :: capture[k] == None
    {
      this.m := m;
      capture := new Option<nat>[2 * m.ncap](_ => None);
      stack := new nat[stackSizeMax](_ => 0);
      stackLen := 0;
      stateStack := [];
      pc := RE_HEADER_LEN;
      cptr := cindex;
      new;
      assert capture[..] == NoCaptures(m.ncap);
    }

    /** push_state. */
    method PushState(resume: nat, kind: FrameKind, count: nat)
      requires Valid()
      modifies this`stateStack
      ensures Valid()
      ensures stateStack == old(stateStack) + [Frame(kind, resume, St(cptr, capture[..]), stack[..stackLen], count)]
    {
      stateStack := stateStack + [Frame(kind, resume, St(cptr, capture[..]), stack[..stackLen], count)];
    }

    /** The memcpys of a resumption: the operand stack, and the captures unless they are kept. */
    method Restore(f: Frame, keepCaptures: bool)
      requires Valid() && FrameFits(f)
      modifies this`stackLen, this`pc, this`cptr, capture, stack
      ensures Valid() && pc == f.pc && cptr == f.x.pos && stack[..stackLen] == f.stack
      ensures capture[..] == if keepCaptures then old(capture[..]) else f.x.caps
    {
      if !keepCaptures {
        forall k | 0 <= k < capture.Length {
          capture[k] := f.x.caps[k];
        }
        assert capture[..] == f.x.caps;
      }
      pc := f.pc;
      cptr := f.x.pos;
      stackLen := |f.stack|;
      forall k | 0 <= k < stackLen {
        stack[k] := f.stack[k];
      }
      assert stack[..stackLen] == f.stack;
    }

    /** What unwinding with result `ret` leads to. */
    ghost function Unwound(ret: bool): Config
      reads this, capture
    {
      if ret then Succeed(m, capture[..], stateStack) else Fail(m, stateStack)
    }

    /** One resumption of a greedy quantifier frame. */
    method ResumeGreedy(f: Frame)
      requires Valid() && stateStack != [] && f == stateStack[|stateStack| - 1] && f.kind == GreedyFrame
      requires Fail(m, stateStack) != Abort
      modifies this, capture, stack
      ensures Valid() && State() == old(Fail(m, stateStack))
    {
      var i := FetchInstr(m.bc, f.pc - 1).value;
      var n := |stateStack| - 1;
      Restore(f, false);
      var charCount := i.len;
      while charCount > 0 && cptr > 0
        invariant cptr <= m.s.Len() && Valid() && stack[..stackLen] == f.stack && capture[..] == f.x.caps
        invariant m.s.text.BackN(f.x.pos, i.len) == m.s.text.BackN(cptr, charCount)
        invariant stateStack == old(stateStack)
      {
        cptr := m.s.text.Back(cptr);
        charCount := charCount - 1;
      }
      pc := f.pc + 16 + i.next;
      var g := f.(x := f.x.(pos := cptr), count := f.count - 1);
      if g.count == 0 {
        stateStack := stateStack[..n];
      } else {
        stateStack := stateStack[..n] + [g];
      }
    }

    /** The loop at `recurse`: unwinds until a frame resumes the run; otherwise `ret` is final. */
    method Unwind(ret0: bool) returns (running: bool, ret: bool)
      requires Valid() && Unwound(ret0) != Abort
      modifies this, capture, stack
      ensures Valid()
      ensures running ==> State() == old(Unwound(ret0))
      ensures !running ==> old(Unwound(ret0)) == if ret then Matched(capture[..]) else NoMatch
    {
      ret := ret0;
      while true
        invariant Valid() && Unwound(ret) == old(Unwound(ret0))
        invariant capture[..] == old(capture[..])
        decreases |stateStack|
      {
        if |stateStack| == 0 {
          return false, ret;
        }
        var n := |stateStack| - 1;
        var f := stateStack[n];
        assert FrameFits(f);
        if f.kind == SplitFrame {
          if !ret {
            Restore(f, false);
            stateStack := stateStack[..n];
            return true, ret;
          }
        } else if f.kind == GreedyFrame {
          if !ret {
            ResumeGreedy(f);
            return true, ret;
          }
        } else {
          ret := (f.kind == LookFrame && ret) || (f.kind == NegLookFrame && !ret);
          if ret {
            Restore(f, f.kind == LookFrame);
            stateStack := stateStack[..n];
            return true, ret;
          }
        }
        stateStack := stateStack[..n];
      }
    }

    /** What the next step of the run may assume: it is defined, and its stack fits. */
    ghost predicate StepFits(i: Instr)
      reads this, capture, stack
      requires Valid()
    {
      && FetchInstr(m.bc, pc) == Some(i)
      && Step(m, State()) != Abort
      && (Step(m, State()).Run? ==> |Step(m, State()).stack| <= stack.Length)
    }

    static lemma JumpStep(m: Machine, i: Instr, c: Config)
      requires c.Run? && FetchInstr(m.bc, c.pc) == Some(i) && c.x.pos <= m.s.Len() && Jumping(i)
      ensures Step(m, c) == ExecJump(m, i, c.pc + Size(i), c)
    {
    }

    /** goto, split, lookahead, loop and bne_char_pos. */
    method ExecJumps(i: Instr)
      requires Valid() && StepFits(i) && Jumping(i)
      modifies this, capture, stack
      ensures Valid() && State() == old(Step(m, State()))
    {
      ghost var c := State();
      var next := pc + Size(i);
      var target := next + i.off;
      JumpStep(m, i, c);
      hide Step;
      match i
      case Goto(_) => pc := target;
      case Split(nextFirst, _) =>
        if nextFirst {
          PushState(target, SplitFrame, 0);
          pc := next;
        } else {
          PushState(next, SplitFrame, 0);
          pc := target;
        }
      case Look(neg, _) =>
        PushState(target, if neg then NegLookFrame else LookFrame, 0);
        pc := next;
      case Loop(_) => ExecLoop(i);
      case Bne(_) => ExecBne(i);
    }

    method ExecLoop(i: Instr)
      requires Valid() && StepFits(i) && i.Loop?
      modifies this, stack
      ensures Valid() && State() == old(Step(m, State()))
    {
      ghost var c := State();
      JumpStep(m, i, c);
      hide Step;
      var next := pc + Size(i);
      stack[stackLen - 1] := stack[stackLen - 1] - 1;
      assert stack[..stackLen] == c.stack[..stackLen - 1] + [c.stack[stackLen - 1] - 1];
      pc := if stack[stackLen - 1] != 0 then next + i.off else next;
    }

    method ExecBne(i: Instr)
      requires Valid() && StepFits(i) && i.Bne?
      modifies this
      ensures Valid() && State() == old(Step(m, State()))
    {
      ghost var c := State();
      JumpStep(m, i, c);
      hide Step;
      var next := pc + Size(i);
      stackLen := stackLen - 1;
      assert stack[..stackLen] == c.stack[..stackLen];
      pc := if stack[stackLen] != cptr then next + i.off else next;
    }

    /** save_start, save_end and save_reset. */
    method ExecSaves(i: Instr)
      requires Valid() && StepFits(i) && (i.SaveStart? || i.SaveEnd? || i.SaveReset?)
      modifies this, capture, stack
      ensures Valid() && State() == old(Step(m, State()))
    {
      match i {
        case SaveStart(n) => SavePointer(2 * n);
        case SaveEnd(n) => SavePointer(2 * n + 1);
        case SaveReset(lo, hi) => ResetPointers(lo, hi);
      }
      pc := pc + Size(i);
    }

    method SavePointer(k: nat)
      requires Valid()
      modifies capture
      ensures Valid() && capture[..] == old(St(cptr, capture[..]).Save(k).caps)
    {
      if k < capture.Length {
        capture[k] := Some(cptr);
      }
      assert capture[..] == old(St(cptr, capture[..]).Save(k).caps);
    }

    /** The loop of save_reset. */
    method ResetPointers(lo: nat, hi: nat)
      requires Valid()
      modifies capture
      ensures Valid() && capture[..] == old(St(cptr, capture[..]).Forget(lo, hi + 1).caps)
    {
      var val := lo;
      while val <= hi && 2 * val < capture.Length
        invariant lo <= val && (val <= hi + 1 || val == lo)
        invariant forall k | 0 <= k < capture.Length ::
                    capture[k] == if 2 * lo <= k < 2 * val then None else old(capture[k])
      {
        capture[2 * val] := None;
        if 2 * val + 1 < capture.Length {
          capture[2 * val + 1] := None;
        }
        val := val + 1;
      }
      assert capture[..] == old(St(cptr, capture[..]).Forget(lo, hi + 1).caps);
    }

    /** push_i32, push_char_pos and drop. */
    method ExecStack(i: Instr)
      requires Valid() && StepFits(i) && (i.PushI32? || i.PushPos? || i.Drop?)
      modifies this, capture, stack
      ensures Valid() && State() == old(Step(m, State()))
    {
      ghost var c := State();
      if i.Drop? {
        stackLen := stackLen - 1;
        assert stack[..stackLen] == c.stack[..stackLen];
      } else {
        assert |Step(m, c).stack| == stackLen + 1;
        stack[stackLen] := if i.PushI32? then i.v else cptr;
        stackLen := stackLen + 1;
        assert stack[..stackLen] == c.stack + [stack[stackLen - 1]];
      }
      pc := pc + Size(i);
    }

    /** The instructions that go on or fail: characters, assertions, back references and `prev`. */
    method ExecTests(i: Instr) returns (running: bool, ret: bool)
      requires Valid() && StepFits(i) && (IsCharTest(i) || i.Assert? || i.BackRef? || i.Prev?)
      modifies this, capture, stack
      ensures Valid()
      ensures running ==> State() == old(Step(m, State()))
      ensures !running ==> old(Step(m, State())) == if ret then Matched(capture[..]) else NoMatch
    {
      hide Fail;
      var ok := false;
      var next := cptr;
      if IsCharTest(i) {
        if cptr < m.s.Len() {
          var (c, after) := m.s.text.Get(cptr);
          ok := TestChar(m.s, i, c);
          next := after;
        }
      } else if i.Assert? {
        ok := AssertHolds(m.s, i.kind, cptr);
      } else if i.Prev? {
        ok := cptr != 0;
        if ok {
          next := m.s.text.Back(cptr);
        }
      } else if i.n < m.ncap {
        var r := MatchRef(m.s, i.n, i.backward, St(cptr, capture[..]));
        ok := r.Some?;
        next := if ok then r.value else cptr;
      }
      if ok {
        pc := pc + Size(i);
        cptr := next;
        return true, false;
      }
      running, ret := Unwind(false);
    }

    /** simple_greedy_quant. */
    method ExecGreedys(i: Instr) returns (running: bool, ret: bool)
      requires Valid() && StepFits(i) && i.Greedy?
      modifies this, capture, stack
      ensures Valid()
      ensures running ==> State() == old(Step(m, State()))
      ensures !running ==> old(Step(m, State())) == if ret then Matched(capture[..]) else NoMatch
    {
      hide Fail;
      hide RunAtoms;
      var pc1 := pc + 17;
      var q, p := RunGreedy(m, pc1, cptr, i.max);
      if q < i.min {
        running, ret := Unwind(false);
        return;
      }
      cptr := p;
      if q > i.min {
        PushState(pc1 - 16, GreedyFrame, q - i.min);
      }
      pc := pc1 + i.next;
      return true, false;
    }

    /** One iteration of the loop. */
    method ExecInstr(i: Instr) returns (running: bool, ret: bool)
      requires Valid() && StepFits(i)
      modifies this, capture, stack
      ensures Valid()
      ensures running ==> State() == old(Step(m, State()))
      ensures !running ==> old(Step(m, State())) == if ret then Matched(capture[..]) else NoMatch
    {
      running, ret := true, false;
      if i.Match? {
        running, ret := Unwind(true);
      } else if Jumping(i) {
        ExecJumps(i);
      } else if i.SaveStart? || i.SaveEnd? || i.SaveReset? {
        ExecSaves(i);
      } else if i.PushI32? || i.PushPos? || i.Drop? {
        ExecStack(i);
      } else if i.Greedy? {
        running, ret := ExecGreedys(i);
      } else {
        running, ret := ExecTests(i);
      }
    }

    /** lre_exec_backtrack, from the start of a program whose run stops within `n` steps. */
    method ExecBacktrack(ghost sticky: bool, ghost e: Re, ghost cindex: nat, ghost n: nat) returns (ret: bool)
      requires Valid() && Holds(m, sticky, e) && m.s.text.Boundary(cindex) && State() == Start(m, cindex)
      requires stack.Length == MaxDepth(ProgramCode(m.s.fl, sticky, e))
      requires !Steps(m, Start(m, cindex), n).Run?
      modifies this, capture, stack
      ensures Halts(m, Start(m, cindex), if ret then Matched(capture[..]) else NoMatch)
    {
      hide Steps;
      hide Step;
      hide Holds;
      ghost var c0 := Start(m, cindex);
      ghost var k := 0;
      StepsZero(m, c0);
      while true
        invariant Valid() && State() == Steps(m, c0, k) && k < n
        decreases n - k
      {
        NextFits(m, sticky, e, cindex, k);
        var i := FetchInstr(m.bc, pc).value;
        ghost var d := Step(m, State());
        var running, result := ExecInstr(i);
        k := k + 1;
        if !running {
          assert Reaches(m, c0, d, k);
          return result;
        }
        if k >= n {
          StoppedLater(m, c0, n, k);
        }
      }
    }
  }

  lemma StepsZero(m: Machine, c: Config)
    ensures Steps(m, c, 0) == c
  {
  }

  /** A run that has stopped after `n` steps is not running later. */
  lemma StoppedLater(m: Machine, c: Config, n: nat, k: nat)
    requires !Steps(m, c, n).Run? && n <= k
    ensures !Steps(m, c, k).Run?
  {
    hide Step;
    StepsAdd(m, c, n, k - n);
    StoppedStays(m, Steps(m, c, n), k - n);
  }

  /** The next step of a run of a compiled program is defined and fits the reserved stack. */
  lemma NextFits(m: Machine, sticky: bool, e: Re, cindex: nat, k: nat)
    requires Holds(m, sticky, e) && m.s.text.Boundary(cindex)
    ensures var c := Steps(m, Start(m, cindex), k);
            var d := Step(m, c);
            && d == Steps(m, Start(m, cindex), k + 1)
            && (c.Run? ==> d != Abort && FetchInstr(m.bc, c.pc).Some?
                           && (d.Run? ==> |d.stack| <= MaxDepth(ProgramCode(m.s.fl, sticky, e))))
  {
    hide Holds;
    hide MaxDepth;
    var c0 := Start(m, cindex);
    var c := Steps(m, c0, k);
    var d := Step(m, c);
    StepsAdd(m, c0, k, 1);
    assert Steps(m, c, 1) == d by { OneMore(m, c); }
    if c.Run? {
      if d == Abort {
        assert Reaches(m, c0, Abort, k + 1);
        ProgramNeverAborts(m, sticky, e, cindex);
      }
      StackBounded(m, sticky, e, cindex, k + 1);
    }
  }

  lemma OneMore(m: Machine, c: Config)
    ensures Steps(m, c, 1) == Step(m, c)
  {
    hide Step;
    assert Steps(m, Step(m, c), 0) == Step(m, c);
  }

  /** lre_exec on a compiled pattern: a match with its captures, or none. The run must stop, as it does
      exactly when the matcher comes to a result. */
  method LreExec(bc: seq<Byte>, s: Subject, cindex: nat, ghost sticky: bool, ghost e: Re, ghost fuel: nat)
    returns (r: Option<seq<Option<nat>>>)
    requires Compilable(s.fl, sticky, e) && 1 + Captures(e) <= CAPTURE_COUNT_MAX && SubjectOk(s)
    requires IsProgram(s.fl, sticky, e, bc) && s.text.Boundary(cindex)
    requires Resolve(Meaning(s, sticky, e, St(cindex, NoCaptures(1 + Captures(e))), fuel)).Some?
    ensures Resolve(Meaning(s, sticky, e, St(cindex, NoCaptures(1 + Captures(e))), fuel)) ==
            Some(if r.Some? then Matched(r.value) else NoMatch)
    ensures var m := Machine(s, bc, 1 + Captures(e));
            Halts(m, Start(m, cindex), if r.Some? then Matched(r.value) else NoMatch)
  {
    hide Meaning;
    hide Holds;
    hide IsProgram;
    hide Step;
    assert |bc| >= 7 && bc[1] == 1 + Captures(e) && bc[2] == MaxDepth(ProgramCode(s.fl, sticky, e)) by {
      HeaderOf(s.fl, sticky, e, bc);
    }
    var m := Machine(s, bc, bc[RE_HEADER_CAPTURE_COUNT]);
    ProgramHolds(sticky, e, bc, s);
    ProgramYields(m, sticky, e, cindex, fuel);
    ghost var result := Resolve(Meaning(s, sticky, e, Start(m, cindex).x, fuel)).value;
    ghost var n: nat :| Reaches(m, Start(m, cindex), result, n);
    var ctx := new ExecContext(m, cindex, bc[RE_HEADER_STACK_SIZE]);
    var ret := ctx.ExecBacktrack(sticky, e, cindex, n);
    HaltsOnce(m, Start(m, cindex), result, if ret then Matched(ctx.capture[..]) else NoMatch);
    if ret {
      r := Some(ctx.capture[..]);
    } else {
      r := None;
    }
  }

  lemma HeaderOf(fl: Flags, sticky: bool, e: Re, bc: seq<Byte>)
    requires Ok(fl, e) && IsProgram(fl, sticky, e, bc)
    ensures |bc| >= 7 && bc[1] == 1 + Captures(e) && bc[2] == MaxDepth(ProgramCode(fl, sticky, e))
  {
  }
}
