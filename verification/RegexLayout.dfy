/** Where the pieces of emitted code lie, and what single instructions do to a run. */
module RegexLayout {
  import opened ByteType
  import opened Options
  import opened RegexText
  import opened RegexCode
  import opened RegexClass
  import opened RegexPattern
  import opened RegexMatcher
  import opened RegexProgress
  import opened RegexReference
  import opened RegexMachine
  import opened RegexYields

  // ----- code in place -----

  lemma At1(bc: seq<Byte>, p: nat, i: Instr)
    requires At(bc, p, [i])
    ensures FetchInstr(bc, p) == Some(i)
  {
  }

  lemma At2(bc: seq<Byte>, p: nat, i: Instr, j: Instr)
    requires At(bc, p, [i, j])
    ensures FetchInstr(bc, p) == Some(i) && FetchInstr(bc, p + Size(i)) == Some(j)
  {
    assert [i, j] == [i] + [j];
    AtConcat(bc, p, [i], [j]);
    At1(bc, p + Size(i), j);
  }

  /** An instruction, a body and what follows it. */
  lemma At3(bc: seq<Byte>, p: nat, i: Instr, a: seq<Instr>, b: seq<Instr>)
    requires At(bc, p, [i] + (a + b))
    ensures FetchInstr(bc, p) == Some(i)
    ensures At(bc, p + Size(i), a) && At(bc, p + Size(i) + SizeOf(a), b)
  {
    hide Size;
    AtConcat(bc, p, [i], a + b);
    At1(bc, p, i);
    assert SizeOf([i]) == Size(i) by {
      assert [i][1..] == [];
    }
    AtConcat(bc, p + Size(i), a, b);
  }

  lemma Sizes3(i: Instr, a: seq<Instr>, b: seq<Instr>)
    ensures SizeOf([i] + (a + b)) == Size(i) + SizeOf(a) + SizeOf(b)
  {
    hide Size;
    SizeOfConcat([i], a + b);
    SizeOfConcat(a, b);
    assert [i][1..] == [];
  }

  lemma Size1(i: Instr)
    ensures SizeOf([i]) == Size(i)
  {
    hide Size;
    assert [i][1..] == [];
  }

  lemma Size2(i: Instr, j: Instr)
    ensures SizeOf([i, j]) == Size(i) + Size(j)
  {
    hide Size;
    assert [i, j] == [i] + [j];
    SizeOfConcat([i], [j]);
    Size1(i);
    Size1(j);
  }

  // ----- steps -----

  /** A split at `p` that tries `first` and keeps `second` for backtracking. */
  predicate SplitAt(m: Machine, p: nat, first: nat, second: nat) {
    match FetchInstr(m.bc, p)
    case Some(Split(nextFirst, off)) =>
      if nextFirst then first == p + 5 && second == p + 5 + off else first == p + 5 + off && second == p + 5
    case _ => false
  }

  lemma SplitStep(m: Machine, p: nat, x: St, stk: seq<nat>, F: seq<Frame>, first: nat, second: nat)
    requires SplitAt(m, p, first, second) && x.pos <= m.s.Len()
    ensures Step(m, Run(p, x, stk, F)) == Run(first, x, stk, F + [Frame(SplitFrame, second, x, stk, 0)])
    ensures Fail(m, F + [Frame(SplitFrame, second, x, stk, 0)]) == Run(second, x, stk, F)
  {
  }

  /** The two ways of a split as alternatives. */
  lemma SplitYields(m: Machine, p: nat, x: St, stk: seq<nat>, F: seq<Frame>, first: nat, second: nat,
                    pc: nat, sout: seq<nat>, a: Outs, b: Outs, n: nat)
    requires SplitAt(m, p, first, second) && x.pos <= m.s.Len()
    requires var G := [Frame(SplitFrame, second, x, stk, 0)];
             Yields(m, Run(first, x, stk, F + G), pc, sout, F + G, a, n)
    requires Yields(m, Run(second, x, stk, F), pc, sout, F, b, n)
    ensures Yields(m, Run(p, x, stk, F), pc, sout, F, Append(a, b), n + 1)
  {
    hide Step;
    hide Fail;
    var G := [Frame(SplitFrame, second, x, stk, 0)];
    SplitStep(m, p, x, stk, F, first, second);
    YieldsAppend(m, Run(first, x, stk, F + G), pc, sout, F, G, a, b, n);
    OneStep(m, Run(p, x, stk, F));
    YieldsFrom(m, Run(p, x, stk, F), Run(first, x, stk, F + G), 1, pc, sout, F, Append(a, b), n);
  }

  /** From `pc` with stack `stk` the machine moves on to `pc'` with `stk'` in `k` steps, whatever the match state. */
  ghost predicate Jumps(m: Machine, pc: nat, stk: seq<nat>, pc': nat, stk': seq<nat>, k: nat) {
    forall y: St, F: seq<Frame> | y.pos <= m.s.Len() :: Reaches(m, Run(pc, y, stk, F), Run(pc', y, stk', F), k)
  }

  /** Code that ends in a jump offers its outcomes at the target. */
  lemma {:induction false} YieldsJump(m: Machine, c: Config, pc: nat, stk: seq<nat>, pc': nat, stk': seq<nat>, k: nat,
                                      F: seq<Frame>, o: Outs, n: nat, back: bool, x: St, strict: bool)
    requires Yields(m, c, pc, stk, F, o, n) && AllReachable(m.s, back, x, strict, o)
    requires Jumps(m, pc, stk, pc', stk', k)
    ensures Yields(m, c, pc', stk', F, o, n)
    decreases o
  {
    hide Fail;
    hide Steps;
    if o.More? {
      var j: nat, G: seq<Frame> :| Offers(m, c, pc, stk, F, o.x, o.rest, n, j, G);
      var n' := if n > j then n - j else 0;
      YieldsJump(m, Fail(m, F + G), pc, stk, pc', stk', k, F, o.rest, n', back, x, strict);
      StepsAdd(m, c, j, k);
      assert Reaches(m, Run(pc, o.x, stk, F + G), Run(pc', o.x, stk', F + G), k);
      var n'' := if n > j + k then n - (j + k) else 0;
      YieldsWeaken(m, Fail(m, F + G), pc', stk', F, o.rest, n', n'');
      assert Offers(m, c, pc', stk', F, o.x, o.rest, n, j + k, G);
    }
  }

  lemma GotoJumps(m: Machine, pc: nat, off: int, pc': nat, stk: seq<nat>)
    requires FetchInstr(m.bc, pc) == Some(Goto(off)) && pc' == pc + 5 + off
    ensures Jumps(m, pc, stk, pc', stk, 1)
  {
    forall y: St, F: seq<Frame> | y.pos <= m.s.Len()
      ensures Reaches(m, Run(pc, y, stk, F), Run(pc', y, stk, F), 1)
    {
      OneStep(m, Run(pc, y, stk, F));
    }
  }

  lemma DropStep(m: Machine, pc: nat, y: St, stk: seq<nat>, v: nat, F: seq<Frame>)
    requires FetchInstr(m.bc, pc) == Some(Drop) && y.pos <= m.s.Len()
    ensures Step(m, Run(pc, y, stk + [v], F)) == Run(pc + 1, y, stk, F)
  {
  }

  lemma LoopStep(m: Machine, pc: nat, off: int, y: St, stk: seq<nat>, v: nat, F: seq<Frame>)
    requires FetchInstr(m.bc, pc) == Some(Loop(off)) && y.pos <= m.s.Len() && v > 0 && pc + 5 + off >= 0
    ensures Step(m, Run(pc, y, stk + [v], F)) ==
            Run(if v > 1 then pc + 5 + off else pc + 5, y, stk + [v - 1], F)
  {
    assert (stk + [v])[..|stk|] == stk;
  }

  lemma LoopJumps(m: Machine, pc: nat, off: int, stk: seq<nat>, v: nat)
    requires FetchInstr(m.bc, pc) == Some(Loop(off)) && v > 1 && pc + 5 + off >= 0
    ensures Jumps(m, pc, stk + [v], pc + 5 + off, stk + [v - 1], 1)
  {
    hide Step;
    forall y: St, F: seq<Frame> | y.pos <= m.s.Len()
      ensures Reaches(m, Run(pc, y, stk + [v], F), Run(pc + 5 + off, y, stk + [v - 1], F), 1)
    {
      LoopStep(m, pc, off, y, stk, v, F);
      OneStep(m, Run(pc, y, stk + [v], F));
    }
  }

  /** The last iteration of a counted loop leaves through `loop` and `drop`. */
  lemma LoopEnds(m: Machine, pc: nat, off: int, stk: seq<nat>)
    requires FetchInstr(m.bc, pc) == Some(Loop(off)) && FetchInstr(m.bc, pc + 5) == Some(Drop) && pc + 5 + off >= 0
    ensures Jumps(m, pc, stk + [1], pc + 6, stk, 2)
  {
    hide Step;
    forall y: St, F: seq<Frame> | y.pos <= m.s.Len()
      ensures Reaches(m, Run(pc, y, stk + [1], F), Run(pc + 6, y, stk, F), 2)
    {
      LoopStep(m, pc, off, y, stk, 1, F);
      DropStep(m, pc + 5, y, stk, 0, F);
      OneStep(m, Run(pc, y, stk + [1], F));
      OneStep(m, Run(pc + 5, y, stk + [0], F));
      StepsAdd(m, Run(pc, y, stk + [1], F), 1, 1);
    }
  }

  lemma PushPosStep(m: Machine, pc: nat, y: St, stk: seq<nat>, F: seq<Frame>)
    requires FetchInstr(m.bc, pc) == Some(PushPos) && y.pos <= m.s.Len()
    ensures Step(m, Run(pc, y, stk, F)) == Run(pc + 1, y, stk + [y.pos], F)
  {
  }

  lemma PushStep(m: Machine, pc: nat, v: nat, y: St, stk: seq<nat>, F: seq<Frame>)
    requires FetchInstr(m.bc, pc) == Some(PushI32(v)) && y.pos <= m.s.Len()
    ensures Step(m, Run(pc, y, stk, F)) == Run(pc + 5, y, stk + [v], F)
  {
  }

  lemma BneStep(m: Machine, pc: nat, off: int, y: St, stk: seq<nat>, v: nat, F: seq<Frame>)
    requires FetchInstr(m.bc, pc) == Some(Bne(off)) && y.pos <= m.s.Len() && pc + 5 + off >= 0
    ensures Step(m, Run(pc, y, stk + [v], F)) == Run(if v != y.pos then pc + 5 + off else pc + 5, y, stk, F)
  {
  }

  /** save_start and save_end: `i` is the index of the capture pointer. */
  predicate SaveAt(m: Machine, pc: nat, i: nat) {
    match FetchInstr(m.bc, pc)
    case Some(SaveStart(n)) => n < m.ncap && i == 2 * n
    case Some(SaveEnd(n)) => n < m.ncap && i == 2 * n + 1
    case _ => false
  }

  lemma SaveStep(m: Machine, pc: nat, i: nat, y: St, stk: seq<nat>, F: seq<Frame>)
    requires SaveAt(m, pc, i) && y.pos <= m.s.Len()
    ensures Step(m, Run(pc, y, stk, F)) == Run(pc + 2, y.Save(i), stk, F)
  {
  }

  lemma {:induction false} YieldsSave(m: Machine, c: Config, pc: nat, stk: seq<nat>, F: seq<Frame>, i: nat, o: Outs, n: nat,
                                      back: bool, x: St)
    requires Yields(m, c, pc, stk, F, o, n) && AllReachable(m.s, back, x, false, o) && SaveAt(m, pc, i)
    ensures Yields(m, c, pc + 2, stk, F, SaveAll(o, i), n)
    decreases o
  {
    hide Fail;
    hide Steps;
    hide Step;
    if o.More? {
      var j: nat, G: seq<Frame> :| Offers(m, c, pc, stk, F, o.x, o.rest, n, j, G);
      var n' := if n > j then n - j else 0;
      YieldsSave(m, Fail(m, F + G), pc, stk, F, i, o.rest, n', back, x);
      SaveStep(m, pc, i, o.x, stk, F + G);
      OneStep(m, Run(pc, o.x, stk, F + G));
      StepsAdd(m, c, j, 1);
      var n'' := if n > j + 1 then n - (j + 1) else 0;
      YieldsWeaken(m, Fail(m, F + G), pc + 2, stk, F, SaveAll(o.rest, i), n', n'');
      assert Offers(m, c, pc + 2, stk, F, o.x.Save(i), SaveAll(o.rest, i), n, j + 1, G);
    }
  }

  // ----- tests -----

  /** The tests of an atom's instruction are those of the atom. */
  lemma AtomTest(s: Subject, a: Atom, pos: nat)
    requires AtomOk(s.fl, a) && SubjectOk(s) && pos < s.Len()
    ensures var i := AtomInstr(s.fl, a);
            IsCharTest(i) && (CharTest(s, i, s.text.Get(pos).0) <==> AtomAccepts(s, a, s.text.Get(pos).0))
  {
    if a.Class? {
      ClassRoundTrip(a.points, s.fl.Fold(s.text.Get(pos).0));
    }
  }

  lemma CharStep(m: Machine, pc: nat, i: Instr, y: St, stk: seq<nat>, F: seq<Frame>)
    requires FetchInstr(m.bc, pc) == Some(i) && IsCharTest(i) && y.pos <= m.s.Len()
    ensures Step(m, Run(pc, y, stk, F)) ==
            if y.pos < m.s.Len() && CharTest(m.s, i, m.s.text.Get(y.pos).0)
            then Run(pc + Size(i), y.(pos := m.s.text.Get(y.pos).1), stk, F)
            else Fail(m, F)
  {
    hide Fail;
    hide Size;
  }

  lemma PrevStep(m: Machine, pc: nat, y: St, stk: seq<nat>, F: seq<Frame>)
    requires FetchInstr(m.bc, pc) == Some(Prev) && y.pos <= m.s.Len()
    ensures Step(m, Run(pc, y, stk, F)) ==
            if y.pos == 0 then Fail(m, F) else Run(pc + 1, y.(pos := m.s.text.Back(y.pos)), stk, F)
  {
    hide Fail;
  }

  lemma AtomForward(m: Machine, a: Atom, x: St, p: nat, stk: seq<nat>, F: seq<Frame>, n: nat)
    requires AtomOk(m.s.fl, a) && SubjectOk(m.s) && x.pos <= m.s.Len()
    requires FetchInstr(m.bc, p) == Some(AtomInstr(m.s.fl, a))
    ensures Yields(m, Run(p, x, stk, F), p + Size(AtomInstr(m.s.fl, a)), stk, F, AtomOuts(m.s, a, false, x), n)
  {
    hide Step;
    hide Fail;
    hide Size;
    hide AtomInstr;
    hide CharTest;
    hide AtomAccepts;
    var c := Run(p, x, stk, F);
    var i := AtomInstr(m.s.fl, a);
    OneStep(m, c);
    assert IsCharTest(i) by {
      AtomIsTest(m.s.fl, a);
    }
    CharStep(m, p, i, x, stk, F);
    if x.pos < m.s.Len() {
      AtomTest(m.s, a, x.pos);
      if AtomAccepts(m.s, a, m.s.text.Get(x.pos).0) {
        YieldsOnly(m, c, 1, p + Size(i), stk, F, x.(pos := m.s.text.Get(x.pos).1), n);
      } else {
        YieldsDone(m, c, 1, p + Size(i), stk, F, n);
      }
    } else {
      YieldsDone(m, c, 1, p + Size(i), stk, F, n);
    }
  }

  lemma AtomIsTest(fl: Flags, a: Atom)
    requires AtomOk(fl, a)
    ensures IsCharTest(AtomInstr(fl, a))
  {
  }

  /** A backward atom: `prev`, the test, `prev`. */
  lemma AtomBackward(m: Machine, a: Atom, x: St, p: nat, stk: seq<nat>, F: seq<Frame>, n: nat)
    requires AtomOk(m.s.fl, a) && SubjectOk(m.s) && x.pos <= m.s.Len()
    requires FetchInstr(m.bc, p) == Some(Prev)
    requires FetchInstr(m.bc, p + 1) == Some(AtomInstr(m.s.fl, a))
    requires FetchInstr(m.bc, p + 1 + Size(AtomInstr(m.s.fl, a))) == Some(Prev)
    ensures Yields(m, Run(p, x, stk, F), p + 2 + Size(AtomInstr(m.s.fl, a)), stk, F, AtomOuts(m.s, a, true, x), n)
  {
    hide Step;
    hide Fail;
    hide Size;
    hide AtomInstr;
    hide CharTest;
    hide AtomAccepts;
    var c := Run(p, x, stk, F);
    var i := AtomInstr(m.s.fl, a);
    OneStep(m, c);
    AtomIsTest(m.s.fl, a);
    PrevStep(m, p, x, stk, F);
    if x.pos == 0 {
      YieldsDone(m, c, 1, p + 2 + Size(i), stk, F, n);
    } else {
      var x1 := x.(pos := m.s.text.Back(x.pos));
      var c1 := Run(p + 1, x1, stk, F);
      CharStep(m, p + 1, i, x1, stk, F);
      OneStep(m, c1);
      StepsAdd(m, c, 1, 1);
      AtomTest(m.s, a, x1.pos);
      if AtomAccepts(m.s, a, m.s.text.Get(x1.pos).0) {
        var x2 := x1.(pos := m.s.text.Get(x1.pos).1);
        PrevStep(m, p + 1 + Size(i), x2, stk, F);
        OneStep(m, Run(p + 1 + Size(i), x2, stk, F));
        StepsAdd(m, c, 2, 1);
        GetUndoesBack(m.s.text, x.pos);
        YieldsOnly(m, c, 3, p + 2 + Size(i), stk, F, x1, n);
      } else {
        YieldsDone(m, c, 2, p + 2 + Size(i), stk, F, n);
      }
    }
  }

  lemma AssertYields(m: Machine, kind: AssertKind, x: St, p: nat, stk: seq<nat>, F: seq<Frame>, n: nat)
    requires FetchInstr(m.bc, p) == Some(Assert(kind)) && x.pos <= m.s.Len()
    ensures Yields(m, Run(p, x, stk, F), p + 1, stk, F, if AssertHolds(m.s, kind, x.pos) then Only(x) else Done, n)
  {
    hide Fail;
    OneStep(m, Run(p, x, stk, F));
    if AssertHolds(m.s, kind, x.pos) {
      YieldsOnly(m, Run(p, x, stk, F), 1, p + 1, stk, F, x, n);
    } else {
      YieldsDone(m, Run(p, x, stk, F), 1, p + 1, stk, F, n);
    }
  }

  /** A back reference goes on behind the repetition of the captured text, if there is one. */
  lemma RefYields(m: Machine, k: nat, back: bool, x: St, p: nat, stk: seq<nat>, F: seq<Frame>, n: nat)
    requires FetchInstr(m.bc, p) == Some(BackRef(back, k)) && x.pos <= m.s.Len() && |x.caps| == 2 * m.ncap
    ensures var r := RefMatch(m.s, k, back, x);
            && Yields(m, Run(p, x, stk, F), p + 2, stk, F, if r.Some? then Only(x.(pos := r.value)) else Done, n)
            && (k < m.ncap && CapturesOk(m.s, x) && m.s.text.Boundary(x.pos) ==>
                  forall q: nat :: r == Some(q) <==> Repeats(m.s, k, back, x, q))
  {
    RepetitionFound(m.s, k, back, x);
    hide Fail, Repeats, CapturesOk;
    var r := RefMatch(m.s, k, back, x);
    OneStep(m, Run(p, x, stk, F));
    if r.Some? {
      YieldsOnly(m, Run(p, x, stk, F), 1, p + 2, stk, F, x.(pos := r.value), n);
    } else {
      YieldsDone(m, Run(p, x, stk, F), 1, p + 2, stk, F, n);
    }
  }

  // ----- lookaround -----

  lemma LookStep(m: Machine, p: nat, neg: bool, off: nat, x: St, stk: seq<nat>, F: seq<Frame>)
    requires FetchInstr(m.bc, p) == Some(Look(neg, off)) && x.pos <= m.s.Len()
    ensures var fr := Frame(if neg then NegLookFrame else LookFrame, p + 5 + off, x, stk, 0);
            && Step(m, Run(p, x, stk, F)) == Run(p + 5, x, stk, F + [fr])
            && Fail(m, F + [fr]) == (if neg then Run(p + 5 + off, x, stk, F) else Fail(m, F))
  {
    var fr := Frame(if neg then NegLookFrame else LookFrame, p + 5 + off, x, stk, 0);
    assert (F + [fr])[..|F|] == F;
  }

  /** A match inside a lookaround drops every frame pushed inside it. */
  lemma {:induction false} SucceedDrops(m: Machine, caps: seq<Option<nat>>, F: seq<Frame>, G: seq<Frame>)
    requires AllPlain(G)
    ensures Succeed(m, caps, F + G) == Succeed(m, caps, F)
    decreases |G|
  {
    if G == [] {
      assert F + G == F;
    } else {
      var G' := G[..|G| - 1];
      assert (F + G)[..|F + G| - 1] == F + G';
      assert G[|G| - 1].Plain();
      SucceedDrops(m, caps, F, G');
    }
  }

  lemma MatchStep(m: Machine, p: nat, y: St, stk: seq<nat>, F: seq<Frame>, fr: Frame, G: seq<Frame>)
    requires FetchInstr(m.bc, p) == Some(Match) && y.pos <= m.s.Len() && AllPlain(G)
    requires fr.kind == LookFrame || fr.kind == NegLookFrame
    ensures Step(m, Run(p, y, stk, F + [fr] + G)) ==
            if fr.kind == LookFrame then Run(fr.pc, fr.x.(caps := y.caps), fr.stack, F) else Fail(m, F)
  {
    SucceedDrops(m, y.caps, F + [fr], G);
    assert (F + [fr])[..|F|] == F;
  }

  /** The outcomes inside a lookaround become its decision. */
  lemma LookYields(m: Machine, p: nat, neg: bool, len: nat, x: St, stk: seq<nat>, F: seq<Frame>, o: Outs, n: nat,
                   behind: bool)
    requires FetchInstr(m.bc, p) == Some(Look(neg, len + 1)) && x.pos <= m.s.Len()
    requires FetchInstr(m.bc, p + 5 + len) == Some(Match)
    requires AllReachable(m.s, behind, x, false, o)
    requires var fr := Frame(if neg then NegLookFrame else LookFrame, p + 6 + len, x, stk, 0);
             Yields(m, Run(p + 5, x, stk, F + [fr]), p + 5 + len, stk, F + [fr], o, n)
    ensures Yields(m, Run(p, x, stk, F), p + 6 + len, stk, F, Decide(neg, o, x), n)
  {
    hide Step;
    hide Fail;
    var fr := Frame(if neg then NegLookFrame else LookFrame, p + 6 + len, x, stk, 0);
    var c, c1 := Run(p, x, stk, F), Run(p + 5, x, stk, F + [fr]);
    LookStep(m, p, neg, len + 1, x, stk, F);
    OneStep(m, c);
    match o
    case Stuck =>
      YieldsAfter(m, c, c1, 1, p + 6 + len, stk, F, Stuck, n);
    case Done =>
      var k: nat :| Reaches(m, c1, Fail(m, F + [fr]), k);
      StepsAdd(m, c, 1, k);
      if neg {
        YieldsOnly(m, c, 1 + k, p + 6 + len, stk, F, x, n);
      } else {
        YieldsDone(m, c, 1 + k, p + 6 + len, stk, F, n);
      }
    case More(y, rest) =>
      var k: nat, G: seq<Frame> :| Offers(m, c1, p + 5 + len, stk, F + [fr], y, rest, n, k, G);
      MatchStep(m, p + 5 + len, y, stk, F, fr, G);
      OneStep(m, Run(p + 5 + len, y, stk, F + [fr] + G));
      StepsAdd(m, c1, k, 1);
      StepsAdd(m, c, 1, k + 1);
      if neg {
        YieldsDone(m, c, k + 2, p + 6 + len, stk, F, n);
      } else {
        YieldsOnly(m, c, k + 2, p + 6 + len, stk, F, x.(caps := y.caps), n);
      }
  }
}
