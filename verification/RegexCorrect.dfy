/** Compiler correctness: emitted code offers, on the machine, exactly the outcomes of the matcher. */
module RegexCorrect {
  import opened Limits
  import opened Options
  import opened RegexCode
  import opened RegexPattern
  import opened RegexMatcher
  import opened RegexProgress
  import opened RegexAnalysis
  import opened RegexMachine
  import opened RegexYields
  import opened RegexLayout
  import opened RegexFast
  import opened RegexRepeat

  /** The central lemma: wherever the code of a job lies in a program, the machine offers there the
      outcomes of the job, in their order, and nothing else; and while the matcher is stuck for want of
      fuel, the machine has not stopped either. */
  lemma {:induction false} Correct(m: Machine, j: Job, back: bool, x: St, fuel: nat,
                                   p: nat, sin: seq<nat>, q: nat, sout: seq<nat>, F: seq<Frame>)
    requires JobOk(m, j.e) && Good(m, x) && Located(m, j, back, p, sin, q, sout)
    ensures Yields(m, Run(p, x, sin, F), q, sout, F, Outcomes(m.s, j, back, x, fuel), fuel)
    decreases j.e, j.Tag(), j.Count(), fuel, Room(m.s, back, x.pos), 3
  {
    hide Outcomes;
    hide Yields;
    hide At;
    match j
    case Times(e, k) => TimesCorrect(m, e, k, back, x, fuel, p, q, sout, F);
    case UpTo(e, k, greedy) =>
      if UpToAt(m, Compile(m.s.fl, e, back), greedy, p, q) && sin == sout + [k] {
        UpToCorrect(m, e, k, greedy, back, x, fuel, p, q, sout, F);
      } else {
        OptionCorrect(m, e, greedy, back, x, fuel, p, q, sout, F);
      }
    case Star(e, greedy, check) =>
      var atom := Compile(m.s.fl, e, back);
      var shape :| StarAt(m, shape, atom, greedy, p, q) && CheckAgrees(shape, atom, check);
      StarCorrect(m, e, greedy, check, back, x, fuel, shape, p, q, sout, F);
    case Sub(e) => SubCorrect(m, e, back, x, fuel, p, sout, F);
  }

  lemma {:induction false} ThenCorrect(m: Machine, c: Config, o: Outs, j: Job, back: bool, fuel: nat,
                                       mid: nat, smid: seq<nat>, q: nat, sout: seq<nat>, F: seq<Frame>, n: nat, x: St)
    requires JobOk(m, j.e) && Good(m, x) && Located(m, j, back, mid, smid, q, sout)
    requires Yields(m, c, mid, smid, F, o, n) && n <= fuel && AllReachable(m.s, back, x, false, o)
    ensures Yields(m, c, q, sout, F, Then(m.s, o, j, back, fuel), n)
    decreases j.e, j.Tag(), j.Count(), fuel, m.s.Len() + 1, 0, o
  {
    hide Outcomes;
    hide Fail;
    hide Located;
    hide Steps;
    match o
    case Done =>
    case Stuck =>
    case More(y, rest) =>
      var k: nat, G: seq<Frame> :| Offers(m, c, mid, smid, F, y, rest, n, k, G);
      var n' := if n > k then n - k else 0;
      var d := Run(mid, y, smid, F + G);
      var first, others := Outcomes(m.s, j, back, y, fuel), Then(m.s, rest, j, back, fuel);
      Correct(m, j, back, y, fuel, mid, smid, q, sout, F + G);
      YieldsWeaken(m, d, q, sout, F + G, first, fuel, n');
      ThenCorrect(m, Fail(m, F + G), rest, j, back, fuel, mid, smid, q, sout, F, n', x);
      YieldsAppend(m, d, q, sout, F, G, first, others, n');
      YieldsFrom(m, c, d, k, q, sout, F, Append(first, others), n');
      YieldsWeaken(m, c, q, sout, F, Append(first, others), n' + k, n);
  }

  lemma {:induction false} TimesCorrect(m: Machine, e: Re, k: nat, back: bool, x: St, fuel: nat,
                                        p: nat, q: nat, sout: seq<nat>, F: seq<Frame>)
    requires JobOk(m, e) && Good(m, x) && k >= 1 && TimesAt(m, Compile(m.s.fl, e, back), p, q)
    ensures Yields(m, Run(p, x, sout + [k], F), q, sout, F, Outcomes(m.s, Times(e, k), back, x, fuel), fuel)
    decreases e, 1, k, fuel, Room(m.s, back, x.pos), 2
  {
    hide Yields;
    hide At;
    hide FetchInstr;
    hide Compile;
    var atom := Compile(m.s.fl, e, back);
    var o := Outcomes(m.s, Sub(e), back, x, fuel);
    Correct(m, Sub(e), back, x, fuel, p, sout + [k], p + SizeOf(atom), sout + [k], F);
    OutcomesReachable(m.s, Sub(e), back, x, fuel);
    TimesYields(m, e, k, back, x, fuel, p, q, sout, F, atom, o);
    if k > 1 {
      ThenCorrect(m, Run(p, x, sout + [k], F), o, Times(e, k - 1), back, fuel, p, sout + [k - 1], q, sout, F, fuel, x);
    }
  }

  /** One more optional iteration, and those after it. */
  lemma {:induction false} UpToAgain(m: Machine, e: Re, k: nat, greedy: bool, back: bool, x: St, fuel: nat,
                                     p: nat, q: nat, sout: seq<nat>, F: seq<Frame>)
    requires JobOk(m, e) && Good(m, x) && k >= 1 && UpToAt(m, Compile(m.s.fl, e, back), greedy, p, q)
    ensures var o := Outcomes(m.s, Sub(e), back, x, fuel);
            Yields(m, Run(p + 5, x, sout + [k], F), q, sout, F,
                   if k == 1 then o else Then(m.s, o, UpTo(e, k - 1, greedy), back, fuel), fuel)
    decreases e, 1, k, fuel, Room(m.s, back, x.pos), 1
  {
    hide Yields;
    hide At;
    hide FetchInstr;
    hide Compile;
    hide SplitAt;
    var atom := Compile(m.s.fl, e, back);
    var o := Outcomes(m.s, Sub(e), back, x, fuel);
    Correct(m, Sub(e), back, x, fuel, p + 5, sout + [k], p + 5 + SizeOf(atom), sout + [k], F);
    OutcomesReachable(m.s, Sub(e), back, x, fuel);
    UpToYields(m, k, back, greedy, x, fuel, p, q, sout, F, atom, o);
    if k > 1 {
      ThenCorrect(m, Run(p + 5, x, sout + [k], F), o, UpTo(e, k - 1, greedy), back, fuel,
                  p, sout + [k - 1], q, sout, F, fuel, x);
    }
  }

  lemma {:induction false} UpToCorrect(m: Machine, e: Re, k: nat, greedy: bool, back: bool, x: St, fuel: nat,
                                       p: nat, q: nat, sout: seq<nat>, F: seq<Frame>)
    requires JobOk(m, e) && Good(m, x) && k >= 1 && UpToAt(m, Compile(m.s.fl, e, back), greedy, p, q)
    ensures Yields(m, Run(p, x, sout + [k], F), q, sout, F, Outcomes(m.s, UpTo(e, k, greedy), back, x, fuel), fuel)
    decreases e, 1, k, fuel, Room(m.s, back, x.pos), 2
  {
    hide Yields;
    hide At;
    hide FetchInstr;
    hide Compile;
    hide SplitAt;
    var atom := Compile(m.s.fl, e, back);
    var drop := p + SizeOf(atom) + 10;
    var o := Outcomes(m.s, Sub(e), back, x, fuel);
    var again := if k == 1 then o else Then(m.s, o, UpTo(e, k - 1, greedy), back, fuel);
    var c := Run(p, x, sout + [k], F);
    if greedy {
      UpToAgain(m, e, k, greedy, back, x, fuel, p, q, sout, F + [Frame(SplitFrame, drop, x, sout + [k], 0)]);
      UpToLeaves(m, k, greedy, x, fuel, p, q, sout, F, atom);
      SplitYields(m, p, x, sout + [k], F, p + 5, drop, q, sout, again, Only(x), fuel);
      YieldsWeaken(m, c, q, sout, F, Append(again, Only(x)), fuel + 1, fuel);
    } else {
      UpToLeaves(m, k, greedy, x, fuel, p, q, sout, F + [Frame(SplitFrame, p + 5, x, sout + [k], 0)], atom);
      UpToAgain(m, e, k, greedy, back, x, fuel, p, q, sout, F);
      SplitYields(m, p, x, sout + [k], F, drop, p + 5, q, sout, Only(x), again, fuel);
      assert Append(Only(x), again) == More(x, again);
      YieldsWeaken(m, c, q, sout, F, More(x, again), fuel + 1, fuel);
    }
  }

  lemma {:induction false} OptionCorrect(m: Machine, e: Re, greedy: bool, back: bool, x: St, fuel: nat,
                                         p: nat, q: nat, stk: seq<nat>, F: seq<Frame>)
    requires JobOk(m, e) && Good(m, x) && OptionAt(m, Compile(m.s.fl, e, back), greedy, p, q)
    ensures Yields(m, Run(p, x, stk, F), q, stk, F, Outcomes(m.s, UpTo(e, 1, greedy), back, x, fuel), fuel)
    decreases e, 1, 1, fuel, Room(m.s, back, x.pos), 2
  {
    hide Yields;
    hide At;
    hide FetchInstr;
    hide Compile;
    hide SplitAt;
    var o := Outcomes(m.s, Sub(e), back, x, fuel);
    var c := Run(p, x, stk, F);
    if greedy {
      Correct(m, Sub(e), back, x, fuel, p + 5, stk, q, stk, F + [Frame(SplitFrame, q, x, stk, 0)]);
      ExitNow(m, q, x, stk, F, fuel);
      SplitYields(m, p, x, stk, F, p + 5, q, q, stk, o, Only(x), fuel);
      YieldsWeaken(m, c, q, stk, F, Append(o, Only(x)), fuel + 1, fuel);
    } else {
      ExitNow(m, q, x, stk, F + [Frame(SplitFrame, p + 5, x, stk, 0)], fuel);
      Correct(m, Sub(e), back, x, fuel, p + 5, stk, q, stk, F);
      SplitYields(m, p, x, stk, F, q, p + 5, q, stk, Only(x), o, fuel);
      assert Append(Only(x), o) == More(x, o);
      YieldsWeaken(m, c, q, stk, F, More(x, o), fuel + 1, fuel);
    }
  }

  // ----- unbounded loops -----

  lemma {:induction false} StarCorrect(m: Machine, e: Re, greedy: bool, check: bool, back: bool, x: St, fuel: nat,
                                       shape: Shape, p: nat, q: nat, sout: seq<nat>, F: seq<Frame>)
    requires JobOk(m, e) && Good(m, x)
    requires StarAt(m, shape, Compile(m.s.fl, e, back), greedy, p, q)
    requires CheckAgrees(shape, Compile(m.s.fl, e, back), check)
    ensures Yields(m, Run(p, x, sout, F), q, sout, F, Outcomes(m.s, Star(e, greedy, check), back, x, fuel), fuel)
    decreases e, 1, 0, fuel, Room(m.s, back, x.pos), 2
  {
    hide Yields;
    hide At;
    hide FetchInstr;
    hide Compile;
    hide SplitAt;
    hide Iterate;
    var atom := Compile(m.s.fl, e, back);
    var n := if fuel > 0 then fuel - 1 else 0;
    var again := Iterate(m.s, Outcomes(m.s, Sub(e), back, x, fuel), Star(e, greedy, check), back, x.pos, fuel);
    forall G: seq<Frame>
      ensures Yields(m, Run(Again(shape, p, SizeOf(atom)), x, sout, F + G), q, sout, F + G, again, n)
    {
      StarAgain(m, e, greedy, check, back, x, fuel, shape, p, q, sout, F + G);
    }
    StarSplit(m, shape, atom, greedy, p, q, sout, x, F, again, fuel);
  }

  /** Another iteration of a loop, and those after it. */
  lemma {:induction false} StarAgain(m: Machine, e: Re, greedy: bool, check: bool, back: bool, x: St, fuel: nat,
                                     shape: Shape, p: nat, q: nat, sout: seq<nat>, F: seq<Frame>)
    requires JobOk(m, e) && Good(m, x)
    requires StarAt(m, shape, Compile(m.s.fl, e, back), greedy, p, q)
    requires CheckAgrees(shape, Compile(m.s.fl, e, back), check)
    ensures Yields(m, Run(Again(shape, p, SizeOf(Compile(m.s.fl, e, back))), x, sout, F), q, sout, F,
                   Iterate(m.s, Outcomes(m.s, Sub(e), back, x, fuel), Star(e, greedy, check), back, x.pos, fuel),
                   if fuel > 0 then fuel - 1 else 0)
    decreases e, 1, 0, fuel, Room(m.s, back, x.pos), 1
  {
    hide Yields;
    hide At;
    hide FetchInstr;
    hide Compile;
    hide SplitAt;
    hide Iterate;
    hide Outcomes;
    var atom := Compile(m.s.fl, e, back);
    var n := if fuel > 0 then fuel - 1 else 0;
    var j := Star(e, greedy, check);
    var o := Outcomes(m.s, Sub(e), back, x, fuel);
    var a, stk := AtomStart(shape, p, SizeOf(atom)), InLoop(shape, sout, x.pos);
    var strict := shape != Checked && check;
    Correct(m, Sub(e), back, x, fuel, a, stk, a + SizeOf(atom), stk, F);
    YieldsWeaken(m, Run(a, x, stk, F), a + SizeOf(atom), stk, F, o, fuel, n);
    if strict {
      MustAdvance(m.s, e, back, x, fuel);
    } else {
      OutcomesReachable(m.s, Sub(e), back, x, fuel);
    }
    IterateCorrect(m, Run(a, x, stk, F), o, e, greedy, check, back, x, fuel, shape, p, q, sout, F, n);
    StarEnter(m, shape, atom, greedy, p, q, sout, x, F, Iterate(m.s, o, j, back, x.pos, fuel), n);
  }

  /** After one iteration of a loop that began at `x` and ended at `y`. */
  lemma {:induction false} IterationCorrect(m: Machine, e: Re, greedy: bool, check: bool, back: bool, x: St, y: St, fuel: nat,
                                            shape: Shape, p: nat, q: nat, sout: seq<nat>, F: seq<Frame>, n: nat)
    requires JobOk(m, e) && Good(m, x)
    requires StarAt(m, shape, Compile(m.s.fl, e, back), greedy, p, q)
    requires CheckAgrees(shape, Compile(m.s.fl, e, back), check)
    requires Reachable(m.s, back, x, shape != Checked && check, y) && (n < fuel || n == 0)
    ensures var len := SizeOf(Compile(m.s.fl, e, back));
            Yields(m, Run(AtomStart(shape, p, len) + len, y, InLoop(shape, sout, x.pos), F), q, sout, F,
                   Iteration(m.s, y, Star(e, greedy, check), back, x.pos, fuel), n)
    decreases e, 1, 0, fuel, Room(m.s, back, x.pos), 0, 0
  {
    hide At;
    hide FetchInstr;
    hide Compile;
    hide SplitAt;
    hide Outcomes;
    hide Yields;
    hide Step;
    var atom := Compile(m.s.fl, e, back);
    var len := SizeOf(atom);
    var j := Star(e, greedy, check);
    var d := Run(AtomStart(shape, p, len) + len, y, InLoop(shape, sout, x.pos), F);
    var k := StarReturn(m, shape, atom, greedy, p, q, sout, x.pos, y, F);
    if check && y.pos == x.pos {
      YieldsOnly(m, d, k, q, sout, F, y, n);
    } else if !Advanced(m.s, back, x.pos, y.pos) && fuel == 0 {
      StuckNow(m, d, q, sout, F);
    } else {
      var fuel' := if Advanced(m.s, back, x.pos, y.pos) then fuel else fuel - 1;
      Correct(m, j, back, y, fuel', p, sout, q, sout, F);
      YieldsAfter(m, d, Run(p, y, sout, F), k, q, sout, F, Outcomes(m.s, j, back, y, fuel'), fuel');
      YieldsWeaken(m, d, q, sout, F, Outcomes(m.s, j, back, y, fuel'), fuel', n);
    }
  }

  lemma StuckNow(m: Machine, c: Config, q: nat, sout: seq<nat>, F: seq<Frame>)
    requires c.Run?
    ensures Yields(m, c, q, sout, F, Stuck, 0)
  {
    hide Step;
    assert Steps(m, c, 0) == c;
  }

  lemma {:induction false} IterateCorrect(m: Machine, c: Config, o: Outs, e: Re, greedy: bool, check: bool, back: bool,
                                          x: St, fuel: nat, shape: Shape, p: nat, q: nat, sout: seq<nat>, F: seq<Frame>, n: nat)
    requires JobOk(m, e) && Good(m, x)
    requires StarAt(m, shape, Compile(m.s.fl, e, back), greedy, p, q)
    requires CheckAgrees(shape, Compile(m.s.fl, e, back), check)
    requires AllReachable(m.s, back, x, shape != Checked && check, o) && (n < fuel || n == 0)
    requires var len := SizeOf(Compile(m.s.fl, e, back));
             Yields(m, c, AtomStart(shape, p, len) + len, InLoop(shape, sout, x.pos), F, o, n)
    ensures Yields(m, c, q, sout, F, Iterate(m.s, o, Star(e, greedy, check), back, x.pos, fuel), n)
    decreases e, 1, 0, fuel, Room(m.s, back, x.pos), 0, 1, o
  {
    hide At;
    hide FetchInstr;
    hide Compile;
    hide SplitAt;
    hide Outcomes;
    hide Iteration;
    hide Steps;
    hide Fail;
    hide StarAt;
    hide CheckAgrees;
    var len := SizeOf(Compile(m.s.fl, e, back));
    var j := Star(e, greedy, check);
    match o
    case Done =>
    case Stuck =>
    case More(y, rest) =>
      var r, stk := AtomStart(shape, p, len) + len, InLoop(shape, sout, x.pos);
      var k: nat, G: seq<Frame> :| Offers(m, c, r, stk, F, y, rest, n, k, G);
      var n' := if n > k then n - k else 0;
      var d := Run(r, y, stk, F + G);
      var first, others := Iteration(m.s, y, j, back, x.pos, fuel), Iterate(m.s, rest, j, back, x.pos, fuel);
      IterationCorrect(m, e, greedy, check, back, x, y, fuel, shape, p, q, sout, F + G, n');
      IterateCorrect(m, Fail(m, F + G), rest, e, greedy, check, back, x, fuel, shape, p, q, sout, F, n');
      YieldsAppend(m, d, q, sout, F, G, first, others, n');
      YieldsFrom(m, c, d, k, q, sout, F, Append(first, others), n');
      YieldsWeaken(m, c, q, sout, F, Append(first, others), n' + k, n);
  }

  // ----- patterns -----

  lemma OneCorrect(m: Machine, a: Atom, back: bool, x: St, n: nat, p: nat, stk: seq<nat>, F: seq<Frame>)
    requires AtomOk(m.s.fl, a) && SubjectOk(m.s) && x.pos <= m.s.Len()
    requires At(m.bc, p, BackwardWrap(AtomInstr(m.s.fl, a), back))
    ensures Yields(m, Run(p, x, stk, F), p + SizeOf(BackwardWrap(AtomInstr(m.s.fl, a), back)), stk, F,
                   AtomOuts(m.s, a, back, x), n)
  {
    hide Yields;
    hide At;
    hide FetchInstr;
    hide SizeOf;
    hide AtomInstr;
    hide AtomOuts;
    var i := AtomInstr(m.s.fl, a);
    if back {
      At3(m.bc, p, Prev, [i], [Prev]);
      At1(m.bc, p + 1, i);
      Size1(i);
      At1(m.bc, p + 1 + Size(i), Prev);
      Sizes3(Prev, [i], [Prev]);
      Size1(Prev);
      AtomBackward(m, a, x, p, stk, F, n);
    } else {
      At1(m.bc, p, i);
      Size1(i);
      AtomForward(m, a, x, p, stk, F, n);
    }
  }

  lemma {:induction false} SubCorrect(m: Machine, e: Re, back: bool, x: St, fuel: nat, p: nat, stk: seq<nat>, F: seq<Frame>)
    requires JobOk(m, e) && Good(m, x) && At(m.bc, p, Compile(m.s.fl, e, back))
    ensures Yields(m, Run(p, x, stk, F), p + SizeOf(Compile(m.s.fl, e, back)), stk, F,
                   Outcomes(m.s, Sub(e), back, x, fuel), fuel)
    decreases e, 0, 0, fuel, Room(m.s, back, x.pos), 2
  {
    hide Yields, At, FetchInstr, SizeOf, AtomOuts, BackwardWrap, QuantCode, CaptureCode, EitherCode, AroundCode;
    hide Steps, GeneralQuantCode, FastQuantCode, AssertHolds, RefMatch, AtomInstr;
    match e
    case Empty =>
      EmptySize();
      ExitNow(m, p, x, stk, F, fuel);
    case One(a) => OneCorrect(m, a, back, x, fuel, p, stk, F);
    case Test(kind) =>
      At1(m.bc, p, Assert(kind));
      Size1(Assert(kind));
      AssertYields(m, kind, x, p, stk, F, fuel);
    case Ref(n) =>
      At1(m.bc, p, BackRef(back, n));
      Size1(BackRef(back, n));
      RefYields(m, n, back, x, p, stk, F, fuel);
    case Seq(l, r) =>
      var (first, second) := if back then (r, l) else (l, r);
      var c1, c2 := Compile(m.s.fl, first, back), Compile(m.s.fl, second, back);
      AtConcat(m.bc, p, c1, c2);
      SizeOfConcat(c1, c2);
      SubCorrect(m, first, back, x, fuel, p, stk, F);
      OutcomesReachable(m.s, Sub(first), back, x, fuel);
      ThenCorrect(m, Run(p, x, stk, F), Outcomes(m.s, Sub(first), back, x, fuel), Sub(second), back, fuel,
                  p + SizeOf(c1), stk, p + SizeOf(c1) + SizeOf(c2), stk, F, fuel, x);
    case Either(l, r) => EitherCorrect(m, l, r, back, x, fuel, p, stk, F);
    case Group(b) => SubCorrect(m, b, back, x, fuel, p, stk, F);
    case Capture(n, b) => CaptureCorrect(m, n, b, back, x, fuel, p, stk, F);
    case Around(neg, behind, b) => AroundCorrect(m, neg, behind, b, back, x, fuel, p, stk, F);
    case Quant(b, min, max, greedy, lo, hi) =>
      var atom := Compile(m.s.fl, b, back);
      if UsesFastPath(atom, max, greedy) {
        if back {
          BackwardIsSlow(m.s.fl, b);
        }
        SimpleHasNoCaptures(m.s.fl, b, back);
        FastCorrect(m, b, min, max, lo, hi, x, fuel, p, stk, F) by { FastIs(atom, min, max, greedy, lo, hi); }
        FastIs(atom, min, max, greedy, lo, hi);
      } else {
        QuantCorrect(m, b, min, max, greedy, lo, hi, back, x, fuel, p, stk, F) by {
          GeneralIs(atom, min, max, greedy, lo, hi);
        }
        GeneralIs(atom, min, max, greedy, lo, hi);
      }
  }

  lemma FastIs(atom: seq<Instr>, min: nat, max: nat, greedy: bool, lo: nat, hi: nat)
    requires min <= max && UsesFastPath(atom, max, greedy)
    ensures QuantCode(atom, min, max, greedy, lo, hi) == FastQuantCode(atom, min, max)
  {
  }

  lemma GeneralIs(atom: seq<Instr>, min: nat, max: nat, greedy: bool, lo: nat, hi: nat)
    requires min <= max && !UsesFastPath(atom, max, greedy)
    ensures QuantCode(atom, min, max, greedy, lo, hi) == GeneralQuantCode(atom, min, max, greedy, lo, hi)
  {
  }

  lemma {:induction false} EitherCorrect(m: Machine, l: Re, r: Re, back: bool, x: St, fuel: nat, p: nat, stk: seq<nat>, F: seq<Frame>)
    requires JobOk(m, Either(l, r)) && Good(m, x)
    requires At(m.bc, p, EitherCode(Compile(m.s.fl, l, back), Compile(m.s.fl, r, back)))
    ensures Yields(m, Run(p, x, stk, F), p + SizeOf(EitherCode(Compile(m.s.fl, l, back), Compile(m.s.fl, r, back))), stk, F,
                   Append(Outcomes(m.s, Sub(l), back, x, fuel), Outcomes(m.s, Sub(r), back, x, fuel)), fuel)
    decreases Either(l, r), 0, 0, fuel, Room(m.s, back, x.pos), 1
  {
    hide Yields;
    hide At;
    hide FetchInstr;
    hide SizeOf;
    hide Compile;
    hide Outcomes;
    var cl, cr := Compile(m.s.fl, l, back), Compile(m.s.fl, r, back);
    var len := SizeOf(cl);
    var split := Split(true, len + 5);
    At3(m.bc, p, split, cl, [Goto(SizeOf(cr))] + cr);
    assert [] + cr == cr;
    At3(m.bc, p + 5 + len, Goto(SizeOf(cr)), [], cr);
    EmptySize();
    Sizes3(split, cl, [Goto(SizeOf(cr))] + cr);
    Sizes3(Goto(SizeOf(cr)), [], cr);
    var other, q := p + 10 + len, p + 10 + len + SizeOf(cr);
    var ol, or := Outcomes(m.s, Sub(l), back, x, fuel), Outcomes(m.s, Sub(r), back, x, fuel);
    var F' := F + [Frame(SplitFrame, other, x, stk, 0)];
    SubCorrect(m, l, back, x, fuel, p + 5, stk, F');
    OutcomesReachable(m.s, Sub(l), back, x, fuel);
    GotoJumps(m, p + 5 + len, SizeOf(cr), q, stk);
    YieldsJump(m, Run(p + 5, x, stk, F'), p + 5 + len, stk, q, stk, 1, F', ol, fuel, back, x, false);
    SubCorrect(m, r, back, x, fuel, other, stk, F);
    SplitYields(m, p, x, stk, F, p + 5, other, q, stk, ol, or, fuel);
    YieldsWeaken(m, Run(p, x, stk, F), q, stk, F, Append(ol, or), fuel + 1, fuel);
  }

  lemma {:induction false} CaptureCorrect(m: Machine, n: nat, b: Re, back: bool, x: St, fuel: nat, p: nat, stk: seq<nat>, F: seq<Frame>)
    requires JobOk(m, Capture(n, b)) && Good(m, x)
    requires At(m.bc, p, CaptureCode(n, Compile(m.s.fl, b, back), back))
    ensures Yields(m, Run(p, x, stk, F), p + SizeOf(CaptureCode(n, Compile(m.s.fl, b, back), back)), stk, F,
                   Outcomes(m.s, Sub(Capture(n, b)), back, x, fuel), fuel)
    decreases Capture(n, b), 0, 0, fuel, Room(m.s, back, x.pos), 1
  {
    hide Yields;
    hide At;
    hide FetchInstr;
    hide SizeOf;
    hide Compile;
    hide Step;
    var code := Compile(m.s.fl, b, back);
    var (i1, i2) := if back then (SaveEnd(n), SaveStart(n)) else (SaveStart(n), SaveEnd(n));
    var (first, last) := if back then (2 * n + 1, 2 * n) else (2 * n, 2 * n + 1);
    At3(m.bc, p, i1, code, [i2]);
    At1(m.bc, p + 2 + SizeOf(code), i2);
    Sizes3(i1, code, [i2]);
    Size1(i2);
    var y, q := x.Save(first), p + 4 + SizeOf(code);
    var o := Outcomes(m.s, Sub(b), back, y, fuel);
    SaveStep(m, p, first, x, stk, F);
    OneStep(m, Run(p, x, stk, F));
    SubCorrect(m, b, back, y, fuel, p + 2, stk, F);
    OutcomesReachable(m.s, Sub(b), back, y, fuel);
    YieldsSave(m, Run(p + 2, y, stk, F), p + 2 + SizeOf(code), stk, F, last, o, fuel, back, y);
    YieldsAfter(m, Run(p, x, stk, F), Run(p + 2, y, stk, F), 1, q, stk, F, SaveAll(o, last), fuel);
  }

  lemma {:induction false} AroundCorrect(m: Machine, neg: bool, behind: bool, b: Re, back: bool, x: St, fuel: nat,
                                         p: nat, stk: seq<nat>, F: seq<Frame>)
    requires JobOk(m, Around(neg, behind, b)) && Good(m, x)
    requires At(m.bc, p, AroundCode(neg, Compile(m.s.fl, b, behind)))
    ensures Yields(m, Run(p, x, stk, F), p + SizeOf(AroundCode(neg, Compile(m.s.fl, b, behind))), stk, F,
                   Outcomes(m.s, Sub(Around(neg, behind, b)), back, x, fuel), fuel)
    decreases Around(neg, behind, b), 0, 0, fuel, Room(m.s, back, x.pos), 1
  {
    hide Yields;
    hide At;
    hide FetchInstr;
    hide SizeOf;
    hide Compile;
    var code := Compile(m.s.fl, b, behind);
    var len := SizeOf(code);
    At3(m.bc, p, Look(neg, len + 1), code, [Match]);
    At1(m.bc, p + 5 + len, Match);
    Sizes3(Look(neg, len + 1), code, [Match]);
    Size1(Match);
    var fr := Frame(if neg then NegLookFrame else LookFrame, p + 6 + len, x, stk, 0);
    SubCorrect(m, b, behind, x, fuel, p + 5, stk, F + [fr]);
    OutcomesReachable(m.s, Sub(b), behind, x, fuel);
    LookYields(m, p, neg, len, x, stk, F, Outcomes(m.s, Sub(b), behind, x, fuel), fuel, behind);
  }

  // ----- quantifiers -----

  /** The loop is checked in the code exactly where the matcher checks, except that the code leaves out
      the check for atoms that always advance. */
  lemma CheckAgreement(m: Machine, b: Re, greedy: bool, back: bool)
    requires Ok(m.s.fl, b)
    ensures var atom := Compile(m.s.fl, b, back);
            var check := greedy && CheckAdvance(atom) == Some(May);
            && CheckAgrees(if check then Checked else Unchecked, atom, Guarded(b, greedy))
            && (!check ==> CheckAgrees(Plus, atom, Guarded(b, greedy)))
  {
    hide Compile;
    CheckAdvanceMeaning(m.s.fl, b, back);
  }

  /** The code of the optional iterations continues what came before it. */
  lemma {:induction false} TailAfter(m: Machine, c: Config, o: Outs, b: Re, min: nat, max: nat, greedy: bool, back: bool,
                                     x: St, fuel: nat, p: nat, stk: seq<nat>, F: seq<Frame>, code: seq<Instr>)
    requires JobOk(m, b) && Good(m, x) && min <= max && (max == INT32_MAX || max > min)
    requires var atom := Compile(m.s.fl, b, back);
             code == TailCode(atom, min, max, greedy, greedy && CheckAdvance(atom) == Some(May))
    requires At(m.bc, p, code)
    requires Yields(m, c, p, stk, F, o, fuel) && AllReachable(m.s, back, x, false, o)
    ensures Yields(m, c, p + SizeOf(code), stk, F, Then(m.s, o, Tail(b, min, max, greedy), back, fuel), fuel)
    decreases b, 2
  {
    hide Yields;
    hide At;
    hide FetchInstr;
    hide Compile;
    hide SizeOf;
    hide StarCode;
    hide UpToCode;
    hide CheckAdvance;
    hide CheckAgrees;
    hide Guarded;
    hide StarAt;
    var atom := Compile(m.s.fl, b, back);
    var check := greedy && CheckAdvance(atom) == Some(May);
    var q := p + SizeOf(code);
    if max == INT32_MAX {
      StarLayout(m, atom, greedy, check, p);
      CheckAgreement(m, b, greedy, back);
      ThenCorrect(m, c, o, Star(b, greedy, Guarded(b, greedy)), back, fuel, p, stk, q, stk, F, fuel, x);
    } else {
      UpToLayout(m, atom, max - min, greedy, p);
      PushJumps(m, p, max - min, stk);
      YieldsJump(m, c, p, stk, p + 5, stk + [max - min], 1, F, o, fuel, back, x, false);
      ThenCorrect(m, c, o, UpTo(b, max - min, greedy), back, fuel, p + 5, stk + [max - min], q, stk, F, fuel, x);
    }
  }

  /** Forgetting the captures of an atom that may be left out. */
  lemma ResetStep(m: Machine, lo: nat, hi: nat, x: St, p: nat, stk: seq<nat>, F: seq<Frame>) returns (k: nat)
    requires At(m.bc, p, Reset(lo, hi)) && x.pos <= m.s.Len() && hi <= m.ncap
    ensures Reaches(m, Run(p, x, stk, F), Run(p + SizeOf(Reset(lo, hi)), x.Forget(lo, hi), stk, F), k)
    ensures Good(m, x) ==> Good(m, x.Forget(lo, hi))
  {
    hide Steps;
    OneStep(m, Run(p, x, stk, F));
    if lo < hi {
      At1(m.bc, p, SaveReset(lo, hi - 1));
      Size1(SaveReset(lo, hi - 1));
      k := 1;
    } else {
      ForgetNothing(x, lo, hi);
      StepsAdd(m, Run(p, x, stk, F), 0, 0);
      assert Reaches(m, Run(p, x, stk, F), Run(p, x, stk, F), 0) by { NoStep(m, Run(p, x, stk, F)); }
      k := 0;
    }
  }

  lemma NoStep(m: Machine, c: Config)
    ensures Reaches(m, c, c, 0)
  {
  }

  /** The mandatory iterations. */
  lemma {:induction false} MandatoryCorrect(m: Machine, b: Re, k: nat, back: bool, x: St, fuel: nat, p: nat, stk: seq<nat>, F: seq<Frame>)
    requires JobOk(m, b) && Good(m, x) && k >= 1 && At(m.bc, p, TimesCode(Compile(m.s.fl, b, back), k))
    ensures Yields(m, Run(p, x, stk, F), p + SizeOf(TimesCode(Compile(m.s.fl, b, back), k)), stk, F,
                   Outcomes(m.s, Times(b, k), back, x, fuel), fuel)
    decreases b, 2
  {
    hide Yields;
    hide At;
    hide FetchInstr;
    hide Compile;
    hide SizeOf;
    hide Step;
    var atom := Compile(m.s.fl, b, back);
    if k == 1 {
      SubCorrect(m, b, back, x, fuel, p, stk, F);
    } else {
      TimesLayout(m, atom, k, p);
      PushStep(m, p, k, x, stk, F);
      OneStep(m, Run(p, x, stk, F));
      var q := p + SizeOf(TimesCode(atom, k));
      TimesCorrect(m, b, k, back, x, fuel, p + 5, q, stk, F);
      YieldsAfter(m, Run(p, x, stk, F), Run(p + 5, x, stk + [k], F), 1, q, stk, F,
                  Outcomes(m.s, Times(b, k), back, x, fuel), fuel);
    }
  }

  /** What follows the capture reset of a quantifier that may leave out its atom. */
  function OptionalCode(atom: seq<Instr>, max: nat, greedy: bool): seq<Instr> {
    if max == 0 then []
    else if max == 1 then [Split(greedy, SizeOf(atom))] + atom
    else TailCode(atom, 0, max, greedy, greedy && CheckAdvance(atom) == Some(May))
  }

  lemma {:induction false} OptionalRest(m: Machine, b: Re, max: nat, greedy: bool, back: bool,
                                        x: St, fuel: nat, p: nat, stk: seq<nat>, F: seq<Frame>)
    requires JobOk(m, b) && Good(m, x) && max <= INT32_MAX
    requires At(m.bc, p, OptionalCode(Compile(m.s.fl, b, back), max, greedy))
    ensures Yields(m, Run(p, x, stk, F), p + SizeOf(OptionalCode(Compile(m.s.fl, b, back), max, greedy)), stk, F,
                   if max == 0 then Only(x) else Outcomes(m.s, Tail(b, 0, max, greedy), back, x, fuel), fuel)
    decreases b, 3
  {
    hide Yields, At, FetchInstr, Compile, SizeOf, TailCode, CheckAdvance, Steps, Outcomes;
    var atom := Compile(m.s.fl, b, back);
    var code := OptionalCode(atom, max, greedy);
    ExitNow(m, p, x, stk, F, fuel);
    if max == 0 {
      EmptySize();
    } else if max == 1 {
      OptionLayout(m, atom, greedy, p);
      OptionCorrect(m, b, greedy, back, x, fuel, p, p + SizeOf(code), stk, F);
    } else {
      TailAfter(m, Run(p, x, stk, F), Only(x), b, 0, max, greedy, back, x, fuel, p, stk, F, code);
      ThenOnly(m.s, x, Tail(b, 0, max, greedy), back, fuel);
    }
  }

  /** A quantifier that may leave out its atom. */
  lemma {:induction false} OptionalCorrect(m: Machine, b: Re, max: nat, greedy: bool, lo: nat, hi: nat, back: bool,
                                           x: St, fuel: nat, p: nat, stk: seq<nat>, F: seq<Frame>)
    requires JobOk(m, b) && Good(m, x) && hi <= m.ncap && max <= INT32_MAX
    requires At(m.bc, p, GeneralQuantCode(Compile(m.s.fl, b, back), 0, max, greedy, lo, hi))
    ensures Yields(m, Run(p, x, stk, F),
                   p + SizeOf(GeneralQuantCode(Compile(m.s.fl, b, back), 0, max, greedy, lo, hi)), stk, F,
                   Outcomes(m.s, Sub(Quant(b, 0, max, greedy, lo, hi)), back, x, fuel), fuel)
    decreases b, 4
  {
    hide Yields, At, FetchInstr, Compile, SizeOf, Reset, TailCode, CheckAdvance, Steps;
    var opt := OptionalCode(Compile(m.s.fl, b, back), max, greedy);
    assert GeneralQuantCode(Compile(m.s.fl, b, back), 0, max, greedy, lo, hi) == Reset(lo, hi) + opt;
    hide OptionalCode, GeneralQuantCode;
    AtConcat(m.bc, p, Reset(lo, hi), opt);
    SizeOfConcat(Reset(lo, hi), opt);
    var k := ResetStep(m, lo, hi, x, p, stk, F);
    var x0, p0 := x.Forget(lo, hi), p + SizeOf(Reset(lo, hi));
    OptionalRest(m, b, max, greedy, back, x0, fuel, p0, stk, F);
    YieldsAfter(m, Run(p, x, stk, F), Run(p0, x0, stk, F), k, p0 + SizeOf(opt), stk, F,
                if max == 0 then Only(x0) else Outcomes(m.s, Tail(b, 0, max, greedy), back, x0, fuel), fuel);
  }

  /** The general encoding of quantifiers. */
  lemma {:induction false} QuantCorrect(m: Machine, b: Re, min: nat, max: nat, greedy: bool, lo: nat, hi: nat, back: bool,
                                        x: St, fuel: nat, p: nat, stk: seq<nat>, F: seq<Frame>)
    requires JobOk(m, b) && Good(m, x) && hi <= m.ncap && min <= max <= INT32_MAX
    requires At(m.bc, p, GeneralQuantCode(Compile(m.s.fl, b, back), min, max, greedy, lo, hi))
    ensures Yields(m, Run(p, x, stk, F),
                   p + SizeOf(GeneralQuantCode(Compile(m.s.fl, b, back), min, max, greedy, lo, hi)), stk, F,
                   Outcomes(m.s, Sub(Quant(b, min, max, greedy, lo, hi)), back, x, fuel), fuel)
    decreases b, 5
  {
    hide Yields;
    hide At;
    hide FetchInstr;
    hide Compile;
    hide SizeOf;
    hide TailCode;
    hide TimesCode;
    hide CheckAdvance;
    hide CheckAgrees;
    hide StarAt;
    hide Guarded;
    var atom := Compile(m.s.fl, b, back);
    var check := greedy && CheckAdvance(atom) == Some(May);
    var c := Run(p, x, stk, F);
    if min == 0 {
      OptionalCorrect(m, b, max, greedy, lo, hi, back, x, fuel, p, stk, F);
    } else if min == 1 && max == INT32_MAX && !check {
      var o := Outcomes(m.s, Sub(b), back, x, fuel);
      PlusLayout(m, atom, greedy, p);
      CheckAgreement(m, b, greedy, back);
      SubCorrect(m, b, back, x, fuel, p, stk, F);
      OutcomesReachable(m.s, Sub(b), back, x, fuel);
      ThenCorrect(m, c, o, Star(b, greedy, Guarded(b, greedy)), back, fuel, p + SizeOf(atom), stk,
                  p + SizeOf(GeneralQuantCode(atom, min, max, greedy, lo, hi)), stk, F, fuel, x);
    } else {
      var o := Outcomes(m.s, Times(b, min), back, x, fuel);
      var times, tail := TimesCode(atom, min), TailCode(atom, min, max, greedy, check);
      AtConcat(m.bc, p, times, tail);
      SizeOfConcat(times, tail);
      MandatoryCorrect(m, b, min, back, x, fuel, p, stk, F);
      OutcomesReachable(m.s, Times(b, min), back, x, fuel);
      if max == INT32_MAX || max > min {
        TailAfter(m, c, o, b, min, max, greedy, back, x, fuel, p + SizeOf(times), stk, F, tail);
      } else {
        EmptyTail(atom, min, greedy, check);
      }
    }
  }

  lemma EmptyTail(atom: seq<Instr>, min: nat, greedy: bool, check: bool)
    requires min != INT32_MAX
    ensures TailCode(atom, min, min, greedy, check) == [] && SizeOf([]) == 0
  {
  }

  /** Code of a lookbehind reads no character without stepping back first, so it is never simple. */
  lemma {:induction false} BackwardIsSlow(fl: Flags, e: Re)
    requires Ok(fl, e) && SimpleLength(Compile(fl, e, true)).Some?
    ensures SimpleLength(Compile(fl, e, true)).value == 0
  {
    hide AtomInstr;
    hide QuantCode;
    match e
    case One(_) =>
    case Seq(l, r) =>
      SimpleConcat(Compile(fl, r, true), Compile(fl, l, true));
      BackwardIsSlow(fl, l);
      BackwardIsSlow(fl, r);
    case Group(b) => BackwardIsSlow(fl, b);
    case Quant(b, min, max, greedy, lo, hi) =>
      SimpleQuant(Compile(fl, b, true), min, max, greedy, lo, hi);
      if max == 1 {
        BackwardIsSlow(fl, b);
      }
    case _ =>
  }
}
