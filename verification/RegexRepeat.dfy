/** The code of repetitions: where its parts lie, and what it makes of the outcomes of its atom. */
module RegexRepeat {
  import opened Limits
  import opened Options
  import opened RegexCode
  import opened RegexPattern
  import opened RegexMatcher
  import opened RegexProgress
  import opened RegexMachine
  import opened RegexYields
  import opened RegexLayout

  // ----- where a job's code lies -----

  /** Repetitions counted down on the stack, entered at the atom. */
  ghost predicate TimesAt(m: Machine, atom: seq<Instr>, p: nat, q: nat) {
    var len: int := SizeOf(atom);
    && At(m.bc, p, atom)
    && FetchInstr(m.bc, p + len) == Some(Loop(-(len + 5)))
    && FetchInstr(m.bc, p + len + 5) == Some(Drop)
    && q == p + len + 6
  }

  /** Optional repetitions counted down on the stack, entered at the split. */
  ghost predicate UpToAt(m: Machine, atom: seq<Instr>, greedy: bool, p: nat, q: nat) {
    var len: int := SizeOf(atom);
    && (if greedy then SplitAt(m, p, p + 5, p + len + 10) else SplitAt(m, p, p + len + 10, p + 5))
    && At(m.bc, p + 5, atom)
    && FetchInstr(m.bc, p + 5 + len) == Some(Loop(-(len + 10)))
    && FetchInstr(m.bc, p + len + 10) == Some(Drop)
    && q == p + len + 11
  }

  /** A single optional iteration. */
  ghost predicate OptionAt(m: Machine, atom: seq<Instr>, greedy: bool, p: nat, q: nat) {
    && q == p + 5 + SizeOf(atom)
    && (if greedy then SplitAt(m, p, p + 5, q) else SplitAt(m, p, q, p + 5))
    && At(m.bc, p + 5, atom)
  }

  /** The three encodings of an unbounded loop, entered at the split: with the empty-iteration check,
      without it, and with the split behind the atom. */
  datatype Shape = Checked | Unchecked | Plus

  /** The address to which the split of a loop jumps for another iteration. */
  function Again(shape: Shape, p: nat, len: nat): int {
    if shape == Plus then p - len else p + 5
  }

  /** The start of the atom's code. */
  function AtomStart(shape: Shape, p: nat, len: nat): int {
    match shape
    case Checked => p + 6
    case Unchecked => p + 5
    case Plus => p - len
  }

  function LoopExit(shape: Shape, p: nat, len: nat): nat {
    match shape
    case Checked => p + len + 11
    case Unchecked => p + len + 10
    case Plus => p + 5
  }

  ghost predicate StarAt(m: Machine, shape: Shape, atom: seq<Instr>, greedy: bool, p: nat, q: nat) {
    var len: int := SizeOf(atom);
    && q == LoopExit(shape, p, len)
    && Again(shape, p, len) >= 0
    && (var again := Again(shape, p, len);
        if greedy then SplitAt(m, p, again, q) else SplitAt(m, p, q, again))
    && At(m.bc, AtomStart(shape, p, len), atom)
    && (shape == Checked ==>
          FetchInstr(m.bc, p + 5) == Some(PushPos) && FetchInstr(m.bc, p + 6 + len) == Some(Bne(-(len + 11))))
    && (shape == Unchecked ==> FetchInstr(m.bc, p + 5 + len) == Some(Goto(-(len + 10))))
  }

  /** The matcher checks for empty iterations where the code does, or where there are none. */
  predicate CheckAgrees(shape: Shape, atom: seq<Instr>, check: bool) {
    if shape == Checked then check else check ==> ScanAdvance(atom) == Must
  }

  /** The code of `j` is entered at `p` with stack `sin` and left at `q` with stack `sout`. */
  ghost predicate Located(m: Machine, j: Job, back: bool, p: nat, sin: seq<nat>, q: nat, sout: seq<nat>)
    requires Ok(m.s.fl, j.e)
  {
    var atom := Compile(m.s.fl, j.e, back);
    match j
    case Sub(e) => At(m.bc, p, atom) && q == p + SizeOf(atom) && sin == sout
    case Times(e, k) => k >= 1 && TimesAt(m, atom, p, q) && sin == sout + [k]
    case UpTo(e, k, greedy) =>
      || (k >= 1 && UpToAt(m, atom, greedy, p, q) && sin == sout + [k])
      || (k == 1 && OptionAt(m, atom, greedy, p, q) && sin == sout)
    case Star(e, greedy, check) =>
      sin == sout && exists shape :: StarAt(m, shape, atom, greedy, p, q) && CheckAgrees(shape, atom, check)
  }

  /** What a run needs: a boundary position and the capture array of the program. */
  ghost predicate Good(m: Machine, x: St) {
    m.s.text.Boundary(x.pos) && |x.caps| == 2 * m.ncap
  }

  ghost predicate JobOk(m: Machine, e: Re) {
    Ok(m.s.fl, e) && Below(e, m.ncap) && SubjectOk(m.s) && m.ncap <= CAPTURE_COUNT_MAX
  }

  // ----- repetitions, given their atom -----

  /** The atom of a counted loop, entered with `k` on the stack. */
  lemma TimesYields(m: Machine, e: Re, k: nat, back: bool, x: St, fuel: nat, p: nat, q: nat, sout: seq<nat>,
                    F: seq<Frame>, atom: seq<Instr>, o: Outs)
    requires TimesAt(m, atom, p, q) && k >= 1 && AllReachable(m.s, back, x, false, o)
    requires Yields(m, Run(p, x, sout + [k], F), p + SizeOf(atom), sout + [k], F, o, fuel)
    ensures k == 1 ==> Yields(m, Run(p, x, sout + [k], F), q, sout, F, o, fuel)
    ensures k > 1 ==> Yields(m, Run(p, x, sout + [k], F), p, sout + [k - 1], F, o, fuel)
  {
    hide Yields;
    hide At;
    hide FetchInstr;
    var len: int := SizeOf(atom);
    var c := Run(p, x, sout + [k], F);
    if k == 1 {
      LoopEnds(m, p + len, -(len + 5), sout);
      YieldsJump(m, c, p + len, sout + [1], q, sout, 2, F, o, fuel, back, x, false);
    } else {
      LoopJumps(m, p + len, -(len + 5), sout, k);
      YieldsJump(m, c, p + len, sout + [k], p, sout + [k - 1], 1, F, o, fuel, back, x, false);
    }
  }

  /** One iteration of an optional counted loop. */
  lemma UpToYields(m: Machine, k: nat, back: bool, greedy: bool, x: St, fuel: nat, p: nat, q: nat, sout: seq<nat>,
                   F: seq<Frame>, atom: seq<Instr>, o: Outs)
    requires UpToAt(m, atom, greedy, p, q) && k >= 1 && AllReachable(m.s, back, x, false, o)
    requires Yields(m, Run(p + 5, x, sout + [k], F), p + 5 + SizeOf(atom), sout + [k], F, o, fuel)
    ensures k == 1 ==> Yields(m, Run(p + 5, x, sout + [k], F), q, sout, F, o, fuel)
    ensures k > 1 ==> Yields(m, Run(p + 5, x, sout + [k], F), p, sout + [k - 1], F, o, fuel)
  {
    hide Yields;
    hide At;
    hide FetchInstr;
    var len: int := SizeOf(atom);
    var c := Run(p + 5, x, sout + [k], F);
    if k == 1 {
      LoopEnds(m, p + 5 + len, -(len + 10), sout);
      YieldsJump(m, c, p + 5 + len, sout + [1], q, sout, 2, F, o, fuel, back, x, false);
    } else {
      LoopJumps(m, p + 5 + len, -(len + 10), sout, k);
      YieldsJump(m, c, p + 5 + len, sout + [k], p, sout + [k - 1], 1, F, o, fuel, back, x, false);
    }
  }

  /** Leaving an optional counted loop drops the counter. */
  lemma UpToLeaves(m: Machine, k: nat, greedy: bool, x: St, fuel: nat, p: nat, q: nat, sout: seq<nat>,
                   F: seq<Frame>, atom: seq<Instr>)
    requires UpToAt(m, atom, greedy, p, q) && x.pos <= m.s.Len()
    ensures Yields(m, Run(p + SizeOf(atom) + 10, x, sout + [k], F), q, sout, F, Only(x), fuel)
  {
    hide Yields;
    hide At;
    hide FetchInstr;
    hide Step;
    var d := p + SizeOf(atom) + 10;
    DropStep(m, d, x, sout, k, F);
    OneStep(m, Run(d, x, sout + [k], F));
    YieldsOnly(m, Run(d, x, sout + [k], F), 1, q, sout, F, x, fuel);
  }

  /** An outcome of the atom of an unbounded loop: the run leaves the loop if the check says so, and
      is back at the split otherwise. */
  lemma StarReturn(m: Machine, shape: Shape, atom: seq<Instr>, greedy: bool, p: nat, q: nat, sout: seq<nat>,
                   from: nat, y: St, F: seq<Frame>) returns (k: nat)
    requires StarAt(m, shape, atom, greedy, p, q) && y.pos <= m.s.Len()
    ensures var c := Run(AtomStart(shape, p, SizeOf(atom)) + SizeOf(atom), y, InLoop(shape, sout, from), F);
            if shape == Checked && y.pos == from then Reaches(m, c, Run(q, y, sout, F), k)
            else Reaches(m, c, Run(p, y, sout, F), k)
  {
    hide At;
    hide FetchInstr;
    hide Step;
    var len: int := SizeOf(atom);
    var c := Run(AtomStart(shape, p, len) + len, y, InLoop(shape, sout, from), F);
    OneStep(m, c);
    match shape
    case Checked =>
      BneStep(m, p + 6 + len, -(len + 11), y, sout, from, F);
      k := 1;
    case Unchecked =>
      GotoJumps(m, p + 5 + len, -(len + 10), p, sout);
      k := 1;
    case Plus =>
      k := 0;
  }

  /** The stack while the atom of a loop runs. */
  function InLoop(shape: Shape, sout: seq<nat>, from: nat): seq<nat> {
    if shape == Checked then sout + [from] else sout
  }

  /** Entering the atom of a loop from its split. */
  lemma StarEnter(m: Machine, shape: Shape, atom: seq<Instr>, greedy: bool, p: nat, q: nat, sout: seq<nat>,
                  x: St, F: seq<Frame>, o: Outs, n: nat)
    requires StarAt(m, shape, atom, greedy, p, q) && x.pos <= m.s.Len()
    requires Yields(m, Run(AtomStart(shape, p, SizeOf(atom)), x, InLoop(shape, sout, x.pos), F), q, sout, F, o, n)
    ensures Yields(m, Run(Again(shape, p, SizeOf(atom)), x, sout, F), q, sout, F, o, n)
  {
    hide Yields;
    hide At;
    hide FetchInstr;
    hide Step;
    if shape == Checked {
      var c := Run(p + 5, x, sout, F);
      PushPosStep(m, p + 5, x, sout, F);
      OneStep(m, c);
      YieldsAfter(m, c, Run(p + 6, x, sout + [x.pos], F), 1, q, sout, F, o, n);
    }
  }

  /** The two ways at the split of a loop. */
  lemma StarSplit(m: Machine, shape: Shape, atom: seq<Instr>, greedy: bool, p: nat, q: nat, sout: seq<nat>,
                  x: St, F: seq<Frame>, o: Outs, fuel: nat)
    requires StarAt(m, shape, atom, greedy, p, q) && x.pos <= m.s.Len()
    requires forall G: seq<Frame> ::
               Yields(m, Run(Again(shape, p, SizeOf(atom)), x, sout, F + G), q, sout, F + G, o, if fuel > 0 then fuel - 1 else 0)
    ensures Yields(m, Run(p, x, sout, F), q, sout, F, if greedy then Append(o, Only(x)) else More(x, o), fuel)
  {
    hide Yields;
    hide At;
    hide FetchInstr;
    hide SplitAt;
    var n := if fuel > 0 then fuel - 1 else 0;
    var again := Again(shape, p, SizeOf(atom));
    assert F + [] == F;
    assert Yields(m, Run(again, x, sout, F + []), q, sout, F + [], o, n);
    if greedy {
      ExitNow(m, q, x, sout, F, n);
      SplitYields(m, p, x, sout, F, again, q, q, sout, o, Only(x), n);
      YieldsWeaken(m, Run(p, x, sout, F), q, sout, F, Append(o, Only(x)), n + 1, fuel);
    } else {
      ExitNow(m, q, x, sout, F + [Frame(SplitFrame, again, x, sout, 0)], n);
      SplitYields(m, p, x, sout, F, q, again, q, sout, Only(x), o, n);
      assert Append(Only(x), o) == More(x, o);
      YieldsWeaken(m, Run(p, x, sout, F), q, sout, F, More(x, o), n + 1, fuel);
    }
  }

  lemma ExitNow(m: Machine, q: nat, x: St, sout: seq<nat>, F: seq<Frame>, n: nat)
    ensures Yields(m, Run(q, x, sout, F), q, sout, F, Only(x), n)
  {
    hide Step;
    assert Reaches(m, Run(q, x, sout, F), Run(q, x, sout, F), 0);
    YieldsOnly(m, Run(q, x, sout, F), 0, q, sout, F, x, n);
  }

  lemma PushJumps(m: Machine, p: nat, v: nat, stk: seq<nat>)
    requires FetchInstr(m.bc, p) == Some(PushI32(v))
    ensures Jumps(m, p, stk, p + 5, stk + [v], 1)
  {
    hide Step;
    forall y: St, F: seq<Frame> | y.pos <= m.s.Len()
      ensures Reaches(m, Run(p, y, stk, F), Run(p + 5, y, stk + [v], F), 1)
    {
      PushStep(m, p, v, y, stk, F);
      OneStep(m, Run(p, y, stk, F));
    }
  }

  // ----- layout of quantifier code -----

  lemma StarLayout(m: Machine, atom: seq<Instr>, greedy: bool, check: bool, p: nat)
    requires At(m.bc, p, StarCode(atom, greedy, check))
    ensures StarAt(m, if check then Checked else Unchecked, atom, greedy, p, p + SizeOf(StarCode(atom, greedy, check)))
  {
    hide At;
    hide FetchInstr;
    hide SizeOf;
    var len: int := SizeOf(atom);
    if check {
      var inner := [PushPos] + (atom + [Bne(-(len + 11))]);
      At3(m.bc, p, Split(greedy, len + 6), [], inner) by {
        assert [] + inner == inner;
      }
      assert SizeOf([]) == 0 by { EmptySize(); }
      At3(m.bc, p + 5, PushPos, atom, [Bne(-(len + 11))]);
      At1(m.bc, p + 6 + len, Bne(-(len + 11)));
      Sizes3(PushPos, atom, [Bne(-(len + 11))]);
      Size1(Bne(-(len + 11)));
      Sizes3(Split(greedy, len + 6), [], inner);
    } else {
      At3(m.bc, p, Split(greedy, len + 5), atom, [Goto(-(len + 10))]);
      At1(m.bc, p + 5 + len, Goto(-(len + 10)));
      Sizes3(Split(greedy, len + 5), atom, [Goto(-(len + 10))]);
      Size1(Goto(-(len + 10)));
    }
  }

  lemma EmptySize()
    ensures SizeOf([]) == 0
  {
  }

  lemma UpToLayout(m: Machine, atom: seq<Instr>, k: nat, greedy: bool, p: nat)
    requires At(m.bc, p, UpToCode(atom, k, greedy))
    ensures FetchInstr(m.bc, p) == Some(PushI32(k))
    ensures UpToAt(m, atom, greedy, p + 5, p + SizeOf(UpToCode(atom, k, greedy)))
  {
    hide At;
    hide FetchInstr;
    hide SizeOf;
    var len: int := SizeOf(atom);
    var tail := [Loop(-(len + 10)), Drop];
    var inner := [Split(greedy, len + 5)] + (atom + tail);
    assert [] + inner == inner;
    EmptySize();
    At3(m.bc, p, PushI32(k), [], inner);
    At3(m.bc, p + 5, Split(greedy, len + 5), atom, tail);
    At2(m.bc, p + 10 + len, Loop(-(len + 10)), Drop);
    Sizes3(PushI32(k), [], inner);
    Sizes3(Split(greedy, len + 5), atom, tail);
    Size2(Loop(-(len + 10)), Drop);
  }

  lemma TimesLayout(m: Machine, atom: seq<Instr>, k: nat, p: nat)
    requires k != 1 && At(m.bc, p, TimesCode(atom, k))
    ensures FetchInstr(m.bc, p) == Some(PushI32(k))
    ensures TimesAt(m, atom, p + 5, p + SizeOf(TimesCode(atom, k)))
  {
    hide At;
    hide FetchInstr;
    hide SizeOf;
    var len: int := SizeOf(atom);
    var tail := [Loop(-(len + 5)), Drop];
    At3(m.bc, p, PushI32(k), atom, tail);
    At2(m.bc, p + 5 + len, Loop(-(len + 5)), Drop);
    Sizes3(PushI32(k), atom, tail);
    Size2(Loop(-(len + 5)), Drop);
  }

  lemma OptionLayout(m: Machine, atom: seq<Instr>, greedy: bool, p: nat)
    requires At(m.bc, p, [Split(greedy, SizeOf(atom))] + atom)
    ensures OptionAt(m, atom, greedy, p, p + SizeOf([Split(greedy, SizeOf(atom))] + atom))
  {
    hide At;
    hide FetchInstr;
    hide SizeOf;
    assert [] + atom == atom;
    EmptySize();
    At3(m.bc, p, Split(greedy, SizeOf(atom)), [], atom);
    Sizes3(Split(greedy, SizeOf(atom)), [], atom);
  }

  /** Code and one instruction behind it. */
  lemma LastAt(m: Machine, p: nat, code: seq<Instr>, i: Instr)
    requires At(m.bc, p, code + [i])
    ensures At(m.bc, p, code) && FetchInstr(m.bc, p + SizeOf(code)) == Some(i)
    ensures SizeOf(code + [i]) == SizeOf(code) + Size(i)
  {
    hide *;
    AtConcat(m.bc, p, code, [i]);
    At1(m.bc, p + SizeOf(code), i);
    SizeOfConcat(code, [i]);
    Size1(i);
  }

  lemma PlusLayout(m: Machine, atom: seq<Instr>, greedy: bool, p: nat)
    requires At(m.bc, p, atom + [Split(!greedy, -(SizeOf(atom) + 5))])
    ensures At(m.bc, p, atom)
    ensures StarAt(m, Plus, atom, greedy, p + SizeOf(atom), p + SizeOf(atom + [Split(!greedy, -(SizeOf(atom) + 5))]))
  {
    hide At, FetchInstr, SizeOf;
    LastAt(m, p, atom, Split(!greedy, -(SizeOf(atom) + 5)));
  }
}
