/** The fast path for greedy quantifiers over straight runs of tests: `simple_greedy_quant` offers the
    same outcomes in the same order as the general repetition. */
module RegexFast {
  import opened Limits
  import opened ByteType
  import opened Options
  import opened RegexText
  import opened RegexCode
  import opened RegexPattern
  import opened RegexMatcher
  import opened RegexAnalysis
  import opened RegexMachine
  import opened RegexYields
  import opened RegexLayout

  // ----- one run of the atom -----

  /** A straight run of tests from `pos`. */
  function RunCode(s: Subject, code: seq<Instr>, pos: nat): (r: Option<nat>)
    requires pos <= s.Len()
    ensures r.Some? ==> pos <= r.value <= s.Len()
    decreases |code|
  {
    if code == [] then Some(pos)
    else if IsCharTest(code[0]) then
      if pos < s.Len() && CharTest(s, code[0], s.text.Get(pos).0) then RunCode(s, code[1..], s.text.Get(pos).1)
      else None
    else if code[0].Assert? && AssertHolds(s, code[0].kind, pos) then RunCode(s, code[1..], pos)
    else None
  }

  lemma {:induction false} RunConcat(s: Subject, a: seq<Instr>, b: seq<Instr>, pos: nat)
    requires pos <= s.Len()
    ensures RunCode(s, a + b, pos) ==
            (var r := RunCode(s, a, pos); if r.Some? then RunCode(s, b, r.value) else None)
    decreases |a|
  {
    hide CharTest;
    hide AssertHolds;
    if a == [] {
      assert a + b == b;
    } else {
      assert (a + b)[1..] == a[1..] + b;
      if IsCharTest(a[0]) && pos < s.Len() {
        RunConcat(s, a[1..], b, s.text.Get(pos).1);
      }
      RunConcat(s, a[1..], b, pos);
    }
  }

  /** A run of `n` character tests reads `n` characters. */
  lemma {:induction false} RunReads(s: Subject, code: seq<Instr>, pos: nat)
    requires pos <= s.Len() && SimpleLength(code).Some? && RunCode(s, code, pos).Some?
    ensures GetN(s.text, pos, SimpleLength(code).value) == RunCode(s, code, pos)
    decreases |code|
  {
    hide CharTest;
    hide AssertHolds;
    if code != [] {
      RunReads(s, code[1..], if IsCharTest(code[0]) then s.text.Get(pos).1 else pos);
    }
  }

  /** The machine's inner run is that run. */
  lemma {:induction false} RunAtomIsRun(m: Machine, code: seq<Instr>, pc: nat, pos: nat)
    requires pos <= m.s.Len() && SimpleLength(code).Some? && At(m.bc, pc, code)
    requires FetchInstr(m.bc, pc + SizeOf(code)) == Some(Match)
    ensures RunAtom(m, pc, pos) == RunCode(m.s, code, pos)
    decreases |code|
  {
    hide CharTest;
    hide AssertHolds;
    hide FetchInstr;
    if code != [] {
      if IsCharTest(code[0]) {
        if pos < m.s.Len() {
          RunAtomIsRun(m, code[1..], pc + Size(code[0]), m.s.text.Get(pos).1);
        }
      } else {
        RunAtomIsRun(m, code[1..], pc + Size(code[0]), pos);
      }
    }
  }

  /** The outcomes of an attempt that ends nowhere or at one position, with the captures untouched. */
  function AtMostOne(x: St, r: Option<nat>): Outs {
    if r.Some? then Only(x.(pos := r.value)) else Done
  }

  lemma ForgetNothing(x: St, lo: nat, hi: nat)
    requires lo >= hi
    ensures x.Forget(lo, hi) == x
  {
    assert x.Forget(lo, hi).caps == x.caps;
  }

  lemma AppendDone(o: Outs)
    ensures Append(o, Done) == o
  {
  }

  lemma SimpleThen(s: Subject, x: St, r: Option<nat>, e: Re, back: bool, fuel: nat)
    ensures Then(s, AtMostOne(x, r), Sub(e), back, fuel) ==
            if r.Some? then Outcomes(s, Sub(e), back, x.(pos := r.value), fuel) else Done
  {
    hide Outcomes;
    if r.Some? {
      AppendDone(Outcomes(s, Sub(e), back, x.(pos := r.value), fuel));
      assert Then(s, Done, Sub(e), back, fuel) == Done;
    }
  }

  lemma RunOne(s: Subject, a: Atom, x: St)
    requires AtomOk(s.fl, a) && SubjectOk(s) && x.pos <= s.Len()
    ensures AtomOuts(s, a, false, x) == AtMostOne(x, RunCode(s, [AtomInstr(s.fl, a)], x.pos))
  {
    hide CharTest;
    hide AtomAccepts;
    hide AtomInstr;
    AtomIsTest(s.fl, a);
    if x.pos < s.Len() {
      AtomTest(s, a, x.pos);
      assert [AtomInstr(s.fl, a)][1..] == [];
    }
  }

  /** A pattern compiled to a straight run of tests matches in at most one way, as the run does. */
  lemma {:induction false} SimpleOutcomes(s: Subject, e: Re, back: bool, x: St, fuel: nat)
    requires Ok(s.fl, e) && SubjectOk(s) && x.pos <= s.Len()
    requires SimpleLength(Compile(s.fl, e, back)).Some?
    ensures Outcomes(s, Sub(e), back, x, fuel) == AtMostOne(x, RunCode(s, Compile(s.fl, e, back), x.pos))
  {
    hide QuantCode;
    hide AtomInstr;
    match e
    case Empty =>
    case One(a) => RunOne(s, a, x);
    case Test(kind) =>
      assert [Assert(kind)][1..] == [];
    case Ref(_) =>
    case Seq(l, r) =>
      var (first, second) := if back then (r, l) else (l, r);
      var c1, c2 := Compile(s.fl, first, back), Compile(s.fl, second, back);
      SimpleConcat(c1, c2);
      RunConcat(s, c1, c2, x.pos);
      SimpleOutcomes(s, first, back, x, fuel);
      var r1 := RunCode(s, c1, x.pos);
      SimpleThen(s, x, r1, second, back, fuel);
      if r1.Some? {
        SimpleOutcomes(s, second, back, x.(pos := r1.value), fuel);
      }
    case Group(b) => SimpleOutcomes(s, b, back, x, fuel);
    case Quant(b, min, max, greedy, lo, hi) =>
      SimpleQuant(Compile(s.fl, b, back), min, max, greedy, lo, hi);
      if max == 0 {
        ForgetNothing(x, lo, hi);
      } else {
        SimpleOutcomes(s, b, back, x, fuel);
      }
    case _ =>
  }

  // ----- repeated runs -----

  /** The position after `k` runs in a row. */
  function Iter(s: Subject, code: seq<Instr>, pos: nat, k: nat): (r: Option<nat>)
    requires pos <= s.Len()
    ensures r.Some? ==> pos <= r.value <= s.Len()
    decreases k
  {
    if k == 0 then Some(pos)
    else
      var r := RunCode(s, code, pos);
      if r.Some? then Iter(s, code, r.value, k - 1) else None
  }

  lemma {:induction false} IterSnoc(s: Subject, code: seq<Instr>, pos: nat, k: nat)
    requires pos <= s.Len()
    ensures Iter(s, code, pos, k + 1) ==
            (var r := Iter(s, code, pos, k); if r.Some? then RunCode(s, code, r.value) else None)
    decreases k
  {
    if k > 0 {
      var r := RunCode(s, code, pos);
      if r.Some? {
        IterSnoc(s, code, r.value, k - 1);
      }
    }
  }

  lemma {:induction false} IterEarlier(s: Subject, code: seq<Instr>, pos: nat, k: nat, j: nat)
    requires pos <= s.Len() && Iter(s, code, pos, k).Some? && j <= k
    ensures Iter(s, code, pos, j).Some?
    decreases k
  {
    if j > 0 {
      IterEarlier(s, code, RunCode(s, code, pos).value, k - 1, j - 1);
    }
  }

  /** The positions after `q`, `q - 1`, ..., `i` runs, in this order. */
  function Descent(s: Subject, code: seq<Instr>, x: St, q: nat, i: nat): Outs
    requires x.pos <= s.Len() && i <= q && Iter(s, code, x.pos, q).Some?
    decreases q - i
  {
    IterEarlier(s, code, x.pos, q, if q == i then q else q - 1);
    More(x.(pos := Iter(s, code, x.pos, q).value), if q == i then Done else Descent(s, code, x, q - 1, i))
  }

  lemma {:induction false} DescentSnoc(s: Subject, code: seq<Instr>, x: St, q: nat, i: nat)
    requires x.pos <= s.Len() && i < q && Iter(s, code, x.pos, q).Some? && Iter(s, code, x.pos, i).Some?
    ensures Append(Descent(s, code, x, q, i + 1), Only(x.(pos := Iter(s, code, x.pos, i).value))) ==
            Descent(s, code, x, q, i)
    decreases q - i
  {
    IterEarlier(s, code, x.pos, q, q - 1);
    if i + 1 < q {
      DescentSnoc(s, code, x, q - 1, i);
    }
  }

  /** `q` is the greatest number of runs from `pos` within the limit. */
  predicate Maximal(s: Subject, code: seq<Instr>, pos: nat, q: nat, limit: nat)
    requires pos <= s.Len()
  {
    && q <= limit
    && Iter(s, code, pos, q).Some?
    && (q == limit || RunCode(s, code, Iter(s, code, pos, q).value).None?)
  }

  // ----- the matcher's repetitions -----

  /** The atom matches as the code runs. */
  ghost predicate Behaves(s: Subject, b: Re, back: bool, code: seq<Instr>, fuel: nat) {
    forall y: St | y.pos <= s.Len() ::
      Outcomes(s, Sub(b), back, y, fuel) == AtMostOne(y, RunCode(s, code, y.pos))
  }

  lemma {:induction false} TimesIter(s: Subject, b: Re, back: bool, code: seq<Instr>, x: St, k: nat, fuel: nat)
    requires Behaves(s, b, back, code, fuel) && x.pos <= s.Len() && k >= 1
    ensures Outcomes(s, Times(b, k), back, x, fuel) == AtMostOne(x, Iter(s, code, x.pos, k))
    decreases k
  {
    hide Outcomes, RunCode, Behaves;
    BehavesAt(s, b, back, code, x, fuel);
    TimesUnfold(s, b, back, x, k, fuel);
    var r := RunCode(s, code, x.pos);
    if k > 1 && r.Some? {
      var y := x.(pos := r.value);
      TimesIter(s, b, back, code, y, k - 1, fuel);
      ThenOnly(s, y, Times(b, k - 1), back, fuel);
    }
  }

  lemma BehavesAt(s: Subject, b: Re, back: bool, code: seq<Instr>, x: St, fuel: nat)
    requires Behaves(s, b, back, code, fuel) && x.pos <= s.Len()
    ensures Outcomes(s, Sub(b), back, x, fuel) == AtMostOne(x, RunCode(s, code, x.pos))
  {
    hide Outcomes, RunCode;
  }

  lemma TimesUnfold(s: Subject, b: Re, back: bool, x: St, k: nat, fuel: nat)
    requires k >= 1
    ensures Outcomes(s, Times(b, k), back, x, fuel) ==
            if k == 1 then Outcomes(s, Sub(b), back, x, fuel)
            else Then(s, Outcomes(s, Sub(b), back, x, fuel), Times(b, k - 1), back, fuel)
  {
    hide Then;
  }

  lemma ThenOnly(s: Subject, y: St, j: Job, back: bool, fuel: nat)
    ensures Then(s, Only(y), j, back, fuel) == Outcomes(s, j, back, y, fuel)
  {
    hide Outcomes;
    AppendDone(Outcomes(s, j, back, y, fuel));
    assert Then(s, Done, j, back, fuel) == Done;
  }

  lemma UpToStops(s: Subject, b: Re, back: bool, k: nat, y: St, fuel: nat)
    requires k == 0 || Outcomes(s, Sub(b), back, y, fuel) == Done
    ensures Outcomes(s, UpTo(b, k, true), back, y, fuel) == Only(y)
  {
    if k > 1 {
      assert Then(s, Done, UpTo(b, k - 1, true), back, fuel) == Done;
    }
  }

  lemma UpToMoves(s: Subject, b: Re, back: bool, k: nat, y: St, z: St, fuel: nat)
    requires k > 0 && Outcomes(s, Sub(b), back, y, fuel) == Only(z)
    ensures Outcomes(s, UpTo(b, k, true), back, y, fuel) ==
            Append(Outcomes(s, UpTo(b, k - 1, true), back, z, fuel), Only(y))
  {
    if k > 1 {
      ThenOnly(s, z, UpTo(b, k - 1, true), back, fuel);
    }
  }

  /** A greedy bounded repetition from the position after `i` runs. */
  lemma {:induction false} UpToDescent(s: Subject, b: Re, back: bool, code: seq<Instr>, x: St, i: nat, q: nat, limit: nat, fuel: nat)
    requires Behaves(s, b, back, code, fuel) && x.pos <= s.Len()
    requires Maximal(s, code, x.pos, q, limit) && i <= q && Iter(s, code, x.pos, i).Some?
    ensures Outcomes(s, UpTo(b, limit - i, true), back, x.(pos := Iter(s, code, x.pos, i).value), fuel) ==
            Descent(s, code, x, q, i)
    decreases q - i
  {
    hide RunCode, Outcomes;
    var y := x.(pos := Iter(s, code, x.pos, i).value);
    IterSnoc(s, code, x.pos, i);
    if i < q {
      IterEarlier(s, code, x.pos, q, i + 1);
      var z := x.(pos := Iter(s, code, x.pos, i + 1).value);
      UpToMoves(s, b, back, limit - i, y, z, fuel);
      UpToDescent(s, b, back, code, x, i + 1, q, limit, fuel);
      DescentSnoc(s, code, x, q, i);
    } else {
      UpToStops(s, b, back, limit - i, y, fuel);
    }
  }

  lemma StarStops(s: Subject, b: Re, check: bool, y: St, fuel: nat)
    requires Outcomes(s, Sub(b), false, y, fuel) == Done
    ensures Outcomes(s, Star(b, true, check), false, y, fuel) == Only(y)
  {
    assert Iterate(s, Done, Star(b, true, check), false, y.pos, fuel) == Done;
  }

  lemma StarMoves(s: Subject, b: Re, check: bool, y: St, z: St, fuel: nat)
    requires Outcomes(s, Sub(b), false, y, fuel) == Only(z) && y.pos < z.pos <= s.Len()
    ensures Outcomes(s, Star(b, true, check), false, y, fuel) ==
            Append(Outcomes(s, Star(b, true, check), false, z, fuel), Only(y))
  {
    var j := Star(b, true, check);
    assert Iterate(s, Done, j, false, y.pos, fuel) == Done;
    AppendDone(Outcomes(s, j, false, z, fuel));
    assert Iterate(s, Only(z), j, false, y.pos, fuel) == Outcomes(s, j, false, z, fuel);
  }

  /** A greedy unbounded repetition of an atom that reads at least one character. */
  lemma {:induction false} StarDescent(s: Subject, b: Re, check: bool, code: seq<Instr>, x: St, i: nat, q: nat, fuel: nat)
    requires Behaves(s, b, false, code, fuel) && x.pos <= s.Len()
    requires SimpleLength(code).Some? && SimpleLength(code).value > 0
    requires i <= q && Iter(s, code, x.pos, i).Some? && Iter(s, code, x.pos, q).Some?
    requires RunCode(s, code, Iter(s, code, x.pos, q).value).None?
    ensures Outcomes(s, Star(b, true, check), false, x.(pos := Iter(s, code, x.pos, i).value), fuel) ==
            Descent(s, code, x, q, i)
    decreases q - i
  {
    hide RunCode, Outcomes, SimpleLength;
    var y := x.(pos := Iter(s, code, x.pos, i).value);
    IterSnoc(s, code, x.pos, i);
    if i < q {
      IterEarlier(s, code, x.pos, q, i + 1);
      var z := x.(pos := Iter(s, code, x.pos, i + 1).value);
      RunReads(s, code, y.pos);
      StarMoves(s, b, check, y, z, fuel);
      StarDescent(s, b, check, code, x, i + 1, q, fuel);
      DescentSnoc(s, code, x, q, i);
    } else {
      StarStops(s, b, check, y, fuel);
    }
  }

  /** The general meaning of a greedy quantifier over a straight run: the positions after the greatest
      possible number of runs down to the smallest allowed one. */
  lemma QuantDescent(s: Subject, b: Re, min: nat, max: nat, lo: nat, hi: nat, code: seq<Instr>, x: St, q: nat, fuel: nat)
    requires Behaves(s, b, false, code, fuel) && x.pos <= s.Len() && lo >= hi && min <= max && max > 0
    requires SimpleLength(code).Some? && SimpleLength(code).value > 0
    requires Maximal(s, code, x.pos, q, if max == INT32_MAX then q + 1 else max)
    ensures min <= q ==> Outcomes(s, Sub(Quant(b, min, max, true, lo, hi)), false, x, fuel) == Descent(s, code, x, q, min)
    ensures min > q ==> Outcomes(s, Sub(Quant(b, min, max, true, lo, hi)), false, x, fuel) == Done
  {
    hide RunCode;
    ForgetNothing(x, lo, hi);
    var t := Tail(b, min, max, true);
    if min > q {
      IterSnoc(s, code, x.pos, q);
      if Iter(s, code, x.pos, min).Some? {
        IterEarlier(s, code, x.pos, min, q + 1);
      }
      TimesIter(s, b, false, code, x, min, fuel);
      assert Then(s, Done, t, false, fuel) == Done;
    } else {
      IterEarlier(s, code, x.pos, q, min);
      var y := x.(pos := Iter(s, code, x.pos, min).value);
      if max == INT32_MAX {
        StarDescent(s, b, Guarded(b, true), code, x, min, q, fuel);
      } else {
        UpToDescent(s, b, false, code, x, min, q, max, fuel);
      }
      if min > 0 {
        TimesIter(s, b, false, code, x, min, fuel);
        ThenOnly(s, y, t, false, fuel);
      }
    }
  }

  // ----- the machine's repetitions -----

  /** The loop of simple_greedy_quant runs the atom as often as it can. */
  lemma {:induction false} RunAtomsMaximal(m: Machine, code: seq<Instr>, pc: nat, start: nat, pos: nat, max: nat, k: nat)
    requires start <= m.s.Len() && pos <= m.s.Len() && SimpleLength(code).Some? && SimpleLength(code).value > 0
    requires At(m.bc, pc, code) && FetchInstr(m.bc, pc + SizeOf(code)) == Some(Match)
    requires Iter(m.s, code, start, k) == Some(pos) && (max == INT32_MAX || k < max)
    ensures var (q, p) := RunAtoms(m, pc, pos, max, k);
            Iter(m.s, code, start, q) == Some(p) && Maximal(m.s, code, start, q, if max == INT32_MAX then q + 1 else max)
    decreases m.s.Len() - pos
  {
    hide RunCode;
    hide RunAtom;
    RunAtomIsRun(m, code, pc, pos);
    var a := RunAtom(m, pc, pos);
    IterSnoc(m.s, code, start, k);
    if a.Some? {
      RunReads(m.s, code, pos);
      if max == INT32_MAX || k + 1 < max {
        RunAtomsMaximal(m, code, pc, start, a.value, max, k + 1);
      }
    }
  }

  /** A `GreedyFrame` that stands for the descent from `i` to `min`. */
  function GreedyAt(m: Machine, p: nat, code: seq<Instr>, x: St, stk: seq<nat>, i: nat, min: nat): Frame
    requires x.pos <= m.s.Len() && min < i && Iter(m.s, code, x.pos, i).Some?
  {
    Frame(GreedyFrame, p + 1, x.(pos := Iter(m.s, code, x.pos, i).value), stk, i - min)
  }

  /** As many PREV_CHARs as the atom has characters undo one run. */
  lemma IterBack(s: Subject, code: seq<Instr>, pos: nat, i: nat)
    requires s.text.Boundary(pos) && SimpleLength(code).Some?
    requires i > 0 && Iter(s, code, pos, i).Some? && Iter(s, code, pos, i - 1).Some?
    ensures s.text.BackN(Iter(s, code, pos, i).value, SimpleLength(code).value) == Iter(s, code, pos, i - 1).value
  {
    hide RunCode;
    var y := Iter(s, code, pos, i - 1).value;
    IterBoundary(s, code, pos, i - 1);
    IterSnoc(s, code, pos, i - 1);
    RunReads(s, code, y);
    BackNUndoesGetN(s.text, y, SimpleLength(code).value);
  }

  /** One step back gives up one run of the atom. */
  lemma StepBackOnce(m: Machine, p: nat, code: seq<Instr>, lo: nat, hi: nat, x: St, stk: seq<nat>, i: nat, min: nat, F: seq<Frame>)
    requires m.s.text.Boundary(x.pos) && min < i && Iter(m.s, code, x.pos, i).Some? && Iter(m.s, code, x.pos, i - 1).Some?
    requires SimpleLength(code).Some?
    requires FetchInstr(m.bc, p) == Some(Greedy(SizeOf(code) + 1, lo, hi, SimpleLength(code).value))
    ensures var y := x.(pos := Iter(m.s, code, x.pos, i - 1).value);
            Fail(m, F + [GreedyAt(m, p, code, x, stk, i, min)]) ==
            Run(p + 18 + SizeOf(code), y, stk,
                F + if i - 1 == min then [] else [GreedyAt(m, p, code, x, stk, i - 1, min)])
  {
    hide Iter;
    hide SimpleLength;
    hide FetchInstr;
    var f := GreedyAt(m, p, code, x, stk, i, min);
    IterBack(m.s, code, x.pos, i);
    assert (F + [f])[..|F|] == F;
    assert F + [] == F;
  }

  lemma {:induction false} IterBoundary(s: Subject, code: seq<Instr>, pos: nat, k: nat)
    requires s.text.Boundary(pos) && SimpleLength(code).Some? && Iter(s, code, pos, k).Some?
    ensures s.text.Boundary(Iter(s, code, pos, k).value)
    decreases k
  {
    hide RunCode;
    if k > 0 {
      RunReads(s, code, pos);
      GetNBoundary(s.text, pos, SimpleLength(code).value);
      IterBoundary(s, code, RunCode(s, code, pos).value, k - 1);
    }
  }

  /** The frame offers the descent below `i`, once per failure. */
  lemma {:induction false} GreedyFrameYields(m: Machine, p: nat, code: seq<Instr>, lo: nat, hi: nat, x: St, stk: seq<nat>,
                                             i: nat, min: nat, F: seq<Frame>, n: nat)
    requires m.s.text.Boundary(x.pos) && min < i && Iter(m.s, code, x.pos, i).Some? && Iter(m.s, code, x.pos, i - 1).Some?
    requires SimpleLength(code).Some?
    requires FetchInstr(m.bc, p) == Some(Greedy(SizeOf(code) + 1, lo, hi, SimpleLength(code).value))
    ensures Yields(m, Fail(m, F + [GreedyAt(m, p, code, x, stk, i, min)]), p + 18 + SizeOf(code), stk, F,
                   Descent(m.s, code, x, i - 1, min), n)
    decreases i
  {
    hide RunCode;
    hide Fail;
    hide Step;
    var exit := p + 18 + SizeOf(code);
    var c := Fail(m, F + [GreedyAt(m, p, code, x, stk, i, min)]);
    StepBackOnce(m, p, code, lo, hi, x, stk, i, min, F);
    var y := x.(pos := Iter(m.s, code, x.pos, i - 1).value);
    assert Reaches(m, c, c, 0);
    if i - 1 == min {
      assert F + [] == F;
      YieldsOnly(m, c, 0, exit, stk, F, y, n);
    } else {
      IterEarlier(m.s, code, x.pos, i - 1, i - 2);
      var G := [GreedyAt(m, p, code, x, stk, i - 1, min)];
      GreedyFrameYields(m, p, code, lo, hi, x, stk, i - 1, min, F, n);
      assert Offers(m, c, exit, stk, F, y, Descent(m.s, code, x, i - 2, min), n, 0, G);
    }
  }

  lemma GreedyStep(m: Machine, p: nat, code: seq<Instr>, min: nat, max: nat, x: St, stk: seq<nat>, F: seq<Frame>, q: nat)
    requires x.pos <= m.s.Len() && SimpleLength(code).Some?
    requires FetchInstr(m.bc, p) == Some(Greedy(SizeOf(code) + 1, min, max, SimpleLength(code).value))
    requires Iter(m.s, code, x.pos, q).Some?
    requires RunAtoms(m, p + 17, x.pos, max, 0) == (q, Iter(m.s, code, x.pos, q).value)
    ensures Step(m, Run(p, x, stk, F)) ==
            if q < min then Fail(m, F)
            else Run(p + 18 + SizeOf(code), x.(pos := Iter(m.s, code, x.pos, q).value), stk,
                     F + if q == min then [] else [GreedyAt(m, p, code, x, stk, q, min)])
  {
    hide RunAtoms;
    hide Fail;
    hide Iter;
    assert F + [] == F;
  }

  /** What the instruction offers: the positions after the greatest possible number of runs, and fewer. */
  lemma GreedyYields(m: Machine, code: seq<Instr>, min: nat, max: nat, x: St, p: nat, stk: seq<nat>, F: seq<Frame>, q: nat, n: nat)
    requires m.s.text.Boundary(x.pos) && SimpleLength(code).Some?
    requires FetchInstr(m.bc, p) == Some(Greedy(SizeOf(code) + 1, min, max, SimpleLength(code).value))
    requires Iter(m.s, code, x.pos, q).Some?
    requires RunAtoms(m, p + 17, x.pos, max, 0) == (q, Iter(m.s, code, x.pos, q).value)
    ensures Yields(m, Run(p, x, stk, F), p + 18 + SizeOf(code), stk, F,
                   if q < min then Done else Descent(m.s, code, x, q, min), n)
  {
    hide RunCode;
    hide Step;
    hide Fail;
    hide RunAtoms;
    GreedyStep(m, p, code, min, max, x, stk, F, q);
    var c, exit := Run(p, x, stk, F), p + 18 + SizeOf(code);
    OneStep(m, c);
    if q < min {
      YieldsDone(m, c, 1, exit, stk, F, n);
    } else {
      var y := x.(pos := Iter(m.s, code, x.pos, q).value);
      if q == min {
        assert F + [] == F;
        YieldsOnly(m, c, 1, exit, stk, F, y, n);
      } else {
        IterEarlier(m.s, code, x.pos, q, q - 1);
        var G := [GreedyAt(m, p, code, x, stk, q, min)];
        GreedyFrameYields(m, p, code, min, max, x, stk, q, min, F, if n > 1 then n - 1 else 0);
        assert Offers(m, c, exit, stk, F, y, Descent(m.s, code, x, q - 1, min), n, 1, G);
      }
    }
  }

  lemma SimpleBehaves(s: Subject, b: Re, fuel: nat)
    requires Ok(s.fl, b) && SubjectOk(s) && SimpleLength(Compile(s.fl, b, false)).Some?
    ensures Behaves(s, b, false, Compile(s.fl, b, false), fuel)
  {
    hide RunCode;
    hide Outcomes;
    hide Compile;
    forall y: St | y.pos <= s.Len()
      ensures Outcomes(s, Sub(b), false, y, fuel) == AtMostOne(y, RunCode(s, Compile(s.fl, b, false), y.pos))
    {
      SimpleOutcomes(s, b, false, y, fuel);
    }
  }

  lemma FastLayout(bc: seq<Byte>, p: nat, code: seq<Instr>, min: nat, max: nat)
    requires SimpleLength(code).Some? && At(bc, p, FastQuantCode(code, min, max))
    ensures FetchInstr(bc, p) == Some(Greedy(SizeOf(code) + 1, min, max, SimpleLength(code).value))
    ensures At(bc, p + 17, code) && FetchInstr(bc, p + 17 + SizeOf(code)) == Some(Match)
    ensures SizeOf(FastQuantCode(code, min, max)) == 18 + SizeOf(code)
  {
    hide FetchInstr;
    hide SimpleLength;
    var greedy := Greedy(SizeOf(code) + 1, min, max, SimpleLength(code).value);
    At3(bc, p, greedy, code, [Match]);
    At1(bc, p + 17 + SizeOf(code), Match);
    Sizes3(greedy, code, [Match]);
    Size1(Match);
  }

  /** The fast path agrees with the general meaning of the quantifier, outcome by outcome. */
  lemma FastCorrect(m: Machine, b: Re, min: nat, max: nat, lo: nat, hi: nat, x: St, fuel: nat, p: nat, stk: seq<nat>, F: seq<Frame>)
    requires Ok(m.s.fl, b) && lo >= hi && min <= max && max > 0
    requires SubjectOk(m.s) && m.s.text.Boundary(x.pos)
    requires UsesFastPath(Compile(m.s.fl, b, false), max, true)
    requires At(m.bc, p, FastQuantCode(Compile(m.s.fl, b, false), min, max))
    ensures Yields(m, Run(p, x, stk, F), p + SizeOf(FastQuantCode(Compile(m.s.fl, b, false), min, max)), stk, F,
                   Outcomes(m.s, Sub(Quant(b, min, max, true, lo, hi)), false, x, fuel), fuel)
  {
    hide RunCode;
    hide RunAtoms;
    hide Compile;
    hide Outcomes;
    hide Yields;
    hide Behaves;
    hide SizeOf;
    hide At;
    hide FetchInstr;
    hide SimpleLength;
    hide FastQuantCode;
    hide Ok;
    hide Descent;
    var code := Compile(m.s.fl, b, false);
    FastLayout(m.bc, p, code, min, max);
    SimpleBehaves(m.s, b, fuel);
    RunAtomsMaximal(m, code, p + 17, x.pos, x.pos, max, 0);
    var q := RunAtoms(m, p + 17, x.pos, max, 0).0;
    QuantDescent(m.s, b, min, max, lo, hi, code, x, q, fuel);
    GreedyYields(m, code, min, max, x, p, stk, F, q, fuel);
  }
}
