/** When a run halts: loops with the empty-iteration guard, or whose atoms advance, cannot spin;
    the loops without either can. */
module RegexTermination {
  import opened Limits
  import opened Options
  import opened RegexText
  import opened RegexCode
  import opened RegexPattern
  import opened RegexMatcher
  import opened RegexProgress
  import opened RegexAnalysis
  import opened RegexMachine
  import opened RegexFast
  import opened RegexExec

  /** What the code generator knows of an atom makes an unbounded loop over it safe: either it emits the
      loop greedy and `re_check_advance` did not return -1, or `re_check_advance` found an advance. */
  predicate SafeLoop(fl: Flags, b: Re, greedy: bool, back: bool)
    requires Ok(fl, b)
  {
    var code := Compile(fl, b, back);
    (greedy && CheckAdvance(code).Some?) || ScanAdvance(code) == Must
  }

  /** Every unbounded quantifier that is not cut away is safe. */
  predicate Safe(fl: Flags, e: Re, back: bool)
    requires Ok(fl, e)
  {
    match e
    case Seq(l, r) => Safe(fl, l, back) && Safe(fl, r, back)
    case Either(l, r) => Safe(fl, l, back) && Safe(fl, r, back)
    case Group(b) => Safe(fl, b, back)
    case Capture(_, b) => Safe(fl, b, back)
    case Around(_, behind, b) => Safe(fl, b, behind)
    case Quant(b, _, max, greedy, _, _) =>
      max == 0 || (Safe(fl, b, back) && (max == INT32_MAX ==> SafeLoop(fl, b, greedy, back)))
    case _ => true
  }

  predicate NoStuck(o: Outs) {
    match o
    case Done => true
    case Stuck => false
    case More(_, rest) => NoStuck(rest)
  }

  lemma {:induction false} AppendNoStuck(a: Outs, b: Outs)
    requires NoStuck(a) && NoStuck(b)
    ensures NoStuck(Append(a, b))
  {
    if a.More? {
      AppendNoStuck(a.rest, b);
    }
  }

  lemma {:induction false} SaveAllNoStuck(o: Outs, i: nat)
    requires NoStuck(o)
    ensures NoStuck(SaveAll(o, i))
  {
    if o.More? {
      SaveAllNoStuck(o.rest, i);
    }
  }

  /** A job over a safe pattern; an unguarded loop needs an atom that always advances. */
  predicate SafeJob(s: Subject, j: Job, back: bool) {
    && Ok(s.fl, j.e) && Safe(s.fl, j.e, back)
    && (j.Star? && !j.check ==> ScanAdvance(Compile(s.fl, j.e, back)) == Must)
  }

  lemma TailSafe(s: Subject, b: Re, min: nat, max: nat, greedy: bool, back: bool)
    requires Ok(s.fl, b) && Safe(s.fl, b, back) && (max == INT32_MAX ==> SafeLoop(s.fl, b, greedy, back))
    ensures SafeJob(s, Tail(b, min, max, greedy), back)
  {
    hide Compile;
    CheckAdvanceMeaning(s.fl, b, back);
  }

  /** The matcher never runs out of fuel on a safe pattern, whatever the fuel. */
  lemma {:induction false} OutcomesTerminate(s: Subject, j: Job, back: bool, x: St, fuel: nat)
    requires SafeJob(s, j, back) && s.text.Boundary(x.pos)
    ensures NoStuck(Outcomes(s, j, back, x, fuel))
    decreases j.e, j.Tag(), j.Count(), fuel, Room(s, back, x.pos), 2
  {
    hide Compile;
    match j
    case Times(e, k) =>
      if k > 0 {
        OutcomesTerminate(s, Sub(e), back, x, fuel);
        OutcomesReachable(s, Sub(e), back, x, fuel);
        if k > 1 {
          ThenTerminates(s, Outcomes(s, Sub(e), back, x, fuel), Times(e, k - 1), back, fuel, x);
        }
      }
    case UpTo(e, k, greedy) =>
      if k > 0 {
        OutcomesTerminate(s, Sub(e), back, x, fuel);
        OutcomesReachable(s, Sub(e), back, x, fuel);
        var o := Outcomes(s, Sub(e), back, x, fuel);
        if k > 1 {
          ThenTerminates(s, o, UpTo(e, k - 1, greedy), back, fuel, x);
        }
        AppendNoStuck(if k == 1 then o else Then(s, o, UpTo(e, k - 1, greedy), back, fuel), Only(x));
      }
    case Star(e, greedy, check) =>
      OutcomesTerminate(s, Sub(e), back, x, fuel);
      var o := Outcomes(s, Sub(e), back, x, fuel);
      if check {
        OutcomesReachable(s, Sub(e), back, x, fuel);
      } else {
        MustAdvance(s, e, back, x, fuel);
      }
      IterateTerminates(s, o, j, back, x, fuel);
      AppendNoStuck(Iterate(s, o, j, back, x.pos, fuel), Only(x));
    case Sub(e) => SubTerminates(s, e, back, x, fuel);
  }

  lemma {:induction false} SubTerminates(s: Subject, e: Re, back: bool, x: St, fuel: nat)
    requires Ok(s.fl, e) && Safe(s.fl, e, back) && s.text.Boundary(x.pos)
    ensures NoStuck(Outcomes(s, Sub(e), back, x, fuel))
    decreases e, 0, 0, fuel, Room(s, back, x.pos), 1
  {
    hide SafeLoop;
    match e
    case Empty =>
    case One(_) =>
    case Test(_) =>
    case Ref(_) =>
    case Seq(l, r) =>
      var (first, second) := if back then (r, l) else (l, r);
      OutcomesTerminate(s, Sub(first), back, x, fuel);
      OutcomesReachable(s, Sub(first), back, x, fuel);
      ThenTerminates(s, Outcomes(s, Sub(first), back, x, fuel), Sub(second), back, fuel, x);
    case Either(l, r) =>
      OutcomesTerminate(s, Sub(l), back, x, fuel);
      OutcomesTerminate(s, Sub(r), back, x, fuel);
      AppendNoStuck(Outcomes(s, Sub(l), back, x, fuel), Outcomes(s, Sub(r), back, x, fuel));
    case Group(b) =>
      OutcomesTerminate(s, Sub(b), back, x, fuel);
    case Capture(n, b) =>
      var (first, last) := if back then (2 * n + 1, 2 * n) else (2 * n, 2 * n + 1);
      OutcomesTerminate(s, Sub(b), back, x.Save(first), fuel);
      SaveAllNoStuck(Outcomes(s, Sub(b), back, x.Save(first), fuel), last);
    case Around(_, behind, b) =>
      OutcomesTerminate(s, Sub(b), behind, x, fuel);
    case Quant(b, min, max, greedy, lo, hi) =>
      var x0 := if min == 0 then x.Forget(lo, hi) else x;
      var t := Tail(b, min, max, greedy);
      if max > 0 {
        TailSafe(s, b, min, max, greedy, back);
        if min == 0 {
          OutcomesTerminate(s, t, back, x0, fuel);
        } else {
          OutcomesTerminate(s, Times(b, min), back, x, fuel);
          OutcomesReachable(s, Times(b, min), back, x, fuel);
          ThenTerminates(s, Outcomes(s, Times(b, min), back, x, fuel), t, back, fuel, x);
        }
      }
  }

  lemma {:induction false} ThenTerminates(s: Subject, o: Outs, j: Job, back: bool, fuel: nat, x: St)
    requires SafeJob(s, j, back) && NoStuck(o) && AllReachable(s, back, x, false, o)
    ensures NoStuck(Then(s, o, j, back, fuel))
    decreases j.e, j.Tag(), j.Count(), fuel, s.Len() + 1, 0, o
  {
    hide SafeJob;
    if o.More? {
      OutcomesTerminate(s, j, back, o.x, fuel);
      ThenTerminates(s, o.rest, j, back, fuel, x);
      AppendNoStuck(Outcomes(s, j, back, o.x, fuel), Then(s, o.rest, j, back, fuel));
    }
  }

  lemma {:induction false} IterateTerminates(s: Subject, o: Outs, j: Job, back: bool, x: St, fuel: nat)
    requires j.Star? && SafeJob(s, j, back) && NoStuck(o) && s.text.Boundary(x.pos)
    requires AllReachable(s, back, x, !j.check, o)
    ensures NoStuck(Iterate(s, o, j, back, x.pos, fuel))
    decreases j.e, j.Tag(), j.Count(), fuel, Room(s, back, x.pos), 1, o
  {
    hide SafeJob;
    if o.More? {
      if !(j.check && o.x.pos == x.pos) {
        assert Advanced(s, back, x.pos, o.x.pos);
        OutcomesTerminate(s, j, back, o.x, fuel);
      }
      IterateTerminates(s, o.rest, j, back, x, fuel);
      AppendNoStuck(Iteration(s, o.x, j, back, x.pos, fuel), Iterate(s, o.rest, j, back, x.pos, fuel));
    }
  }

  lemma {:induction false} SearchTerminates(s: Subject, e: Re, x: St, fuel: nat)
    requires Ok(s.fl, e) && Safe(s.fl, e, false) && s.text.Boundary(x.pos)
    ensures NoStuck(Search(s, e, x, fuel))
    decreases s.Len() - x.pos
  {
    hide Outcomes;
    OutcomesTerminate(s, Sub(Capture(0, e)), false, x, fuel) by {
      CaptureSafe(s, e);
    }
    var others := if x.pos >= s.Len() then Done else Search(s, e, x.(pos := s.text.Get(x.pos).1), fuel);
    if x.pos < s.Len() {
      BackUndoesGet(s.text, x.pos);
      SearchTerminates(s, e, x.(pos := s.text.Get(x.pos).1), fuel);
    }
    AppendNoStuck(Attempt(s, e, x, fuel), others);
  }

  lemma CaptureSafe(s: Subject, e: Re)
    requires Ok(s.fl, e) && Safe(s.fl, e, false)
    ensures SafeJob(s, Sub(Capture(0, e)), false)
  {
  }

  /** Termination: if every unbounded quantifier is safe, every run of the program halts, from every
      boundary of every subject, and reports a match or no match. */
  lemma SafeProgramsHalt(m: Machine, sticky: bool, e: Re, cindex: nat)
    requires Holds(m, sticky, e) && m.s.text.Boundary(cindex) && Safe(m.s.fl, e, false)
    ensures exists r: Config :: Halts(m, Start(m, cindex), r) && (r == NoMatch || r.Matched?)
  {
    hide Halts;
    hide Outcomes;
    hide Search;
    var x := Start(m, cindex).x;
    ProgramYields(m, sticky, e, cindex, 0);
    if sticky {
      CaptureSafe(m.s, e);
      OutcomesTerminate(m.s, Sub(Capture(0, e)), false, x, 0);
    } else {
      SearchTerminates(m.s, e, x, 0);
    }
    var o := Meaning(m.s, sticky, e, x, 0);
    assert NoStuck(o) && Resolve(o).Some?;
    assert Halts(m, Start(m, cindex), Resolve(o).value);
  }

  /** No back references, and lazy loops only over single characters. */
  predicate Regular(e: Re) {
    match e
    case Ref(_) => false
    case Seq(l, r) => Regular(l) && Regular(r)
    case Either(l, r) => Regular(l) && Regular(r)
    case Group(b) => Regular(b)
    case Capture(_, b) => Regular(b)
    case Around(_, _, b) => Regular(b)
    case Quant(b, _, _, greedy, _, _) => Regular(b) && (greedy || b.One?)
    case _ => true
  }

  lemma {:induction false} RegularNoRefs(e: Re)
    requires Regular(e)
    ensures Refs(e) == {}
  {
    match e
    case Seq(l, r) => RegularNoRefs(l); RegularNoRefs(r);
    case Either(l, r) => RegularNoRefs(l); RegularNoRefs(r);
    case Group(b) => RegularNoRefs(b);
    case Capture(_, b) => RegularNoRefs(b);
    case Around(_, _, b) => RegularNoRefs(b);
    case Quant(b, _, _, _, _, _) => RegularNoRefs(b);
    case _ =>
  }

  lemma {:induction false} RegularSafe(fl: Flags, e: Re, back: bool)
    requires Ok(fl, e) && Regular(e)
    ensures Safe(fl, e, back)
  {
    match e
    case Seq(l, r) => RegularSafe(fl, l, back); RegularSafe(fl, r, back);
    case Either(l, r) => RegularSafe(fl, l, back); RegularSafe(fl, r, back);
    case Group(b) => RegularSafe(fl, b, back);
    case Capture(_, b) => RegularSafe(fl, b, back);
    case Around(_, behind, b) => RegularSafe(fl, b, behind);
    case Quant(b, _, _, greedy, _, _) =>
      RegularSafe(fl, b, back);
      RegularNoRefs(b);
      CheckAdvanceMeaning(fl, b, back);
      if b.One? {
        OneAdvances(fl, b.atom, back);
      }
    case _ =>
  }

  /** A single character always advances. */
  lemma OneAdvances(fl: Flags, a: Atom, back: bool)
    requires AtomOk(fl, a)
    ensures ScanAdvance(Compile(fl, One(a), back)) == Must
  {
    var i := AtomInstr(fl, a);
    assert IsCharTest(i) && AdvanceOf(i) == Must;
    assert [Prev] + ([i] + [Prev]) == [Prev, i, Prev];
    assert [Prev, i, Prev][1..] == [i, Prev];
  }

  /** In particular every pattern without back references whose loops are greedy, or lazy over single characters,
      halts on every subject. */
  lemma RegularProgramsHalt(m: Machine, sticky: bool, e: Re, cindex: nat)
    requires Holds(m, sticky, e) && m.s.text.Boundary(cindex) && Regular(e)
    ensures exists r: Config :: Halts(m, Start(m, cindex), r) && (r == NoMatch || r.Matched?)
  {
    hide Halts;
    RegularSafe(m.s.fl, e, false);
    SafeProgramsHalt(m, sticky, e, cindex);
  }

  // ----- the loops that spin -----

  /** The first way to match `b` at `x` ends in `y`. */
  ghost predicate FirstOutcome(s: Subject, b: Re, back: bool, x: St, fuel: nat, y: St) {
    var o := Outcomes(s, Sub(b), back, x, fuel);
    o.More? && o.x == y
  }

  /** An unguarded greedy loop never gets past an atom whose first choice is to stay where it is. */
  lemma {:induction false} GreedySpins(s: Subject, b: Re, back: bool, x: St, y: St, fuel: nat)
    requires x.pos == y.pos
    requires forall f: nat :: FirstOutcome(s, b, back, x, f, y) && FirstOutcome(s, b, back, y, f, y)
    ensures Outcomes(s, Star(b, true, false), back, x, fuel) == Stuck
    decreases fuel
  {
    assert FirstOutcome(s, b, back, x, fuel, y);
    var o, j := Outcomes(s, Sub(b), back, x, fuel), Star(b, true, false);
    if fuel > 0 {
      GreedySpins(s, b, back, y, y, fuel - 1);
    }
    assert Iteration(s, y, j, back, x.pos, fuel) == Stuck;
    assert Iterate(s, o, j, back, x.pos, fuel) == Stuck;
  }

  /** A lazy loop, which is never guarded, does not get past such an atom either if what follows the loop fails. */
  lemma {:induction false} LazySpins(s: Subject, b: Re, back: bool, x: St, y: St, next: Job, f: nat, fuel: nat)
    requires x.pos == y.pos
    requires forall f: nat :: FirstOutcome(s, b, back, x, f, y) && FirstOutcome(s, b, back, y, f, y)
    requires Outcomes(s, next, back, x, fuel) == Done && Outcomes(s, next, back, y, fuel) == Done
    ensures Then(s, Outcomes(s, Star(b, false, false), back, x, f), next, back, fuel) == Stuck
    decreases f
  {
    assert FirstOutcome(s, b, back, x, f, y);
    var o, j := Outcomes(s, Sub(b), back, x, f), Star(b, false, false);
    var again := Iterate(s, o, j, back, x.pos, f);
    if f > 0 {
      LazySpins(s, b, back, y, y, next, f - 1, fuel);
    }
    assert again == Append(Iteration(s, y, j, back, x.pos, f), Iterate(s, o.rest, j, back, x.pos, f));
    ThenStuck(s, Iteration(s, y, j, back, x.pos, f), Iterate(s, o.rest, j, back, x.pos, f), next, back, fuel);
  }

  lemma {:induction false} ThenStuck(s: Subject, a: Outs, b: Outs, next: Job, back: bool, fuel: nat)
    requires Then(s, a, next, back, fuel) == Stuck
    ensures Then(s, Append(a, b), next, back, fuel) == Stuck
    decreases a
  {
    if a.More? {
      var o := Outcomes(s, next, back, a.x, fuel);
      AppendStuck(o, Then(s, a.rest, next, back, fuel), Then(s, Append(a.rest, b), next, back, fuel));
      if o == Done {
        ThenStuck(s, a.rest, b, next, back, fuel);
      }
    }
  }

  /** What makes a list begin with `Stuck`. */
  lemma AppendStuck(o: Outs, a: Outs, b: Outs)
    ensures Append(o, a) == Stuck <==> o == Stuck || (o == Done && a == Stuck)
    ensures Append(o, b) == Stuck <==> o == Stuck || (o == Done && b == Stuck)
  {
  }

  /** `(?:()\1)*`: the atom refers back to a capture it sets, so the loop has no guard. */
  function SelfReferring(): Re {
    Quant(Group(Seq(Capture(1, Empty), Ref(1))), 0, INT32_MAX, true, 1, 2)
  }

  lemma SelfReferringFirst(s: Subject, x: St, fuel: nat)
    requires x.pos <= s.Len() && |x.caps| == 4
    ensures FirstOutcome(s, SelfReferring().body, false, x, fuel, x.Save(2).Save(3))
  {
    var y := x.Save(2).Save(3);
    assert SaveAll(Only(x.Save(2)), 3) == Only(y);
    assert Outcomes(s, Sub(Capture(1, Empty)), false, x, fuel) == Only(y);
    ThenOnly(s, y, Sub(Ref(1)), false, fuel);
    assert RefForward(s, x.pos, x.pos, x.pos) == Some(x.pos);
    assert Outcomes(s, Sub(Ref(1)), false, y, fuel) == Only(y);
  }

  /** The sticky program of `(?:()\1)*` runs forever, on every subject. */
  lemma SelfReferringDiverges(m: Machine, cindex: nat, r: Config)
    requires Holds(m, true, SelfReferring()) && m.s.text.Boundary(cindex)
    ensures !Halts(m, Start(m, cindex), r)
  {
    hide Outcomes;
    hide Halts;
    hide At;
    hide Attempt;
    var e := SelfReferring();
    var x := Start(m, cindex).x;
    forall fuel: nat
      ensures Meaning(m.s, true, e, x, fuel) == Stuck
    {
      SelfReferringStuck(m.s, x, fuel);
    }
    ProgramCorrect(m, true, e, cindex, r);
  }

  lemma SelfReferringStuck(s: Subject, x: St, fuel: nat)
    requires x.pos <= s.Len() && |x.caps| == 4
    ensures Attempt(s, SelfReferring(), x, fuel) == Stuck
  {
    hide Outcomes;
    var e := SelfReferring();
    var x0 := x.Save(0).Forget(1, 2);
    var y := x0.Save(2).Save(3);
    forall f: nat
      ensures FirstOutcome(s, e.body, false, x0, f, y) && FirstOutcome(s, e.body, false, y, f, y)
    {
      SelfReferringFirst(s, x0, f);
      SelfReferringFirst(s, y, f);
      assert y.Save(2).Save(3) == y;
    }
    GreedySpins(s, e.body, false, x0, y, fuel);
    assert Sets(e.body) == {1} && Refs(e.body) == {1};
    assert 1 in Sets(e.body) * Refs(e.body);
    GreedyOuter(s, e.body, 1, 2, x, fuel);
  }

  /** `(?:)*?c`: a lazy loop is never guarded. */
  function LazyEmpty(c: nat): Re {
    Seq(Quant(Group(Empty), 0, INT32_MAX, false, 1, 1), One(Lit(c)))
  }

  /** The sticky program of `(?:)*?c` runs forever from the end of every subject. */
  lemma LazyEmptyDiverges(m: Machine, c: nat, r: Config)
    requires Holds(m, true, LazyEmpty(c))
    ensures !Halts(m, Start(m, m.s.Len()), r)
  {
    hide Outcomes;
    hide Halts;
    var e := LazyEmpty(c);
    var x := Start(m, m.s.Len()).x;
    forall fuel: nat
      ensures Meaning(m.s, true, e, x, fuel) == Stuck
    {
      var x0 := x.Save(0);
      LitFails(m.s, c, x0, fuel);
      EmptyStays(m.s, x0);
      LazySpins(m.s, Group(Empty), false, x0, x0, Sub(One(Lit(c))), fuel, fuel);
      ForgetNothing(x0, 1, 1);
      LazyOuter(m.s, Group(Empty), 1, 1, One(Lit(c)), x, fuel);
    }
    ProgramCorrect(m, true, e, m.s.Len(), r);
  }

  lemma EmptyStays(s: Subject, x: St)
    ensures forall f: nat :: FirstOutcome(s, Group(Empty), false, x, f, x)
  {
    forall f: nat
      ensures FirstOutcome(s, Group(Empty), false, x, f, x)
    {
      assert Outcomes(s, Sub(Empty), false, x, f) == Only(x);
    }
  }

  lemma LitFails(s: Subject, c: nat, x: St, fuel: nat)
    requires x.pos == s.Len()
    ensures Outcomes(s, Sub(One(Lit(c))), false, x, fuel) == Done
  {
  }

  // ----- exactly when the loops without a guard halt -----

  function Perhaps(x: Option<St>): Outs {
    match x
    case None => Done
    case Some(y) => Only(y)
  }

  ghost predicate OneWay(s: Subject, b: Re, back: bool, x: St, f: nat, y: Option<St>) {
    Outcomes(s, Sub(b), back, x, f) == Perhaps(y)
  }

  /** `b` has at most one way to match at a state with `width` capture slots, the one that `next` gives. */
  ghost predicate Single(s: Subject, b: Re, back: bool, width: nat, next: St -> Option<St>) {
    forall x: St, f: nat | s.text.Boundary(x.pos) && |x.caps| == width :: OneWay(s, b, back, x, f, next(x))
  }

  /** `j` always comes to a result, and succeeds at the states that `accepts` holds of. */
  ghost predicate Settles(s: Subject, j: Job, back: bool, width: nat, accepts: St -> bool) {
    forall x: St, f: nat | s.text.Boundary(x.pos) && |x.caps| == width :: Settled(Outcomes(s, j, back, x, f), accepts(x))
  }

  predicate Settled(o: Outs, accepted: bool) {
    if accepted then o.More? else o == Done
  }

  /** After at most `n` iterations from `x`, what follows the loop accepts or the atom does not match again. */
  predicate Leaves(next: St -> Option<St>, accepts: St -> bool, x: St, n: nat)
    decreases n
  {
    accepts(x) || next(x).None? || (n > 0 && Leaves(next, accepts, next(x).value, n - 1))
  }

  /** A greedy loop asks nobody before its next iteration. */
  predicate Never(x: St) {
    false
  }

  lemma SingleStep(s: Subject, b: Re, back: bool, width: nat, next: St -> Option<St>, x: St, fuel: nat)
    requires Single(s, b, back, width, next) && s.text.Boundary(x.pos) && |x.caps| == width
    ensures Outcomes(s, Sub(b), back, x, fuel) == Perhaps(next(x))
    ensures next(x).Some? ==> Reachable(s, back, x, false, next(x).value)
  {
    hide Outcomes;
    assert OneWay(s, b, back, x, fuel, next(x));
    OutcomesReachable(s, Sub(b), back, x, fuel);
  }

  /** The further iterations of a loop over such an atom. */
  lemma SingleAgain(s: Subject, b: Re, greedy: bool, back: bool, width: nat, next: St -> Option<St>, x: St, fuel: nat)
    requires Single(s, b, back, width, next) && s.text.Boundary(x.pos) && |x.caps| == width
    ensures var j := Star(b, greedy, false);
            Iterate(s, Outcomes(s, Sub(b), back, x, fuel), j, back, x.pos, fuel) ==
            if next(x).None? then Done else Iteration(s, next(x).value, j, back, x.pos, fuel)
  {
    hide Outcomes, Iteration;
    SingleStep(s, b, back, width, next, x, fuel);
    var j := Star(b, greedy, false);
    assert Iterate(s, Done, j, back, x.pos, fuel) == Done;
    if next(x).Some? {
      AppendDone(Iteration(s, next(x).value, j, back, x.pos, fuel));
    }
  }

  lemma {:induction false} GreedyLeaves(s: Subject, b: Re, back: bool, width: nat, next: St -> Option<St>, x: St,
                                        n: nat, fuel: nat)
    requires Single(s, b, back, width, next) && s.text.Boundary(x.pos) && |x.caps| == width
    requires Leaves(next, Never, x, n) && n <= fuel
    ensures !Outcomes(s, Star(b, true, false), back, x, fuel).Stuck?
    decreases n
  {
    hide Single;
    SingleAgain(s, b, true, back, width, next, x, fuel);
    SingleStep(s, b, back, width, next, x, fuel);
    if next(x).Some? {
      GreedyLeaves(s, b, back, width, next, next(x).value, n - 1, fuel);
      GreedyLeaves(s, b, back, width, next, next(x).value, n - 1, fuel - 1);
    }
  }

  lemma {:induction false} GreedyLeft(s: Subject, b: Re, back: bool, width: nat, next: St -> Option<St>, x: St, fuel: nat)
    returns (n: nat)
    requires Single(s, b, back, width, next) && s.text.Boundary(x.pos) && |x.caps| == width
    requires !Outcomes(s, Star(b, true, false), back, x, fuel).Stuck?
    ensures Leaves(next, Never, x, n)
    decreases fuel, Room(s, back, x.pos)
  {
    hide Single;
    SingleAgain(s, b, true, back, width, next, x, fuel);
    SingleStep(s, b, back, width, next, x, fuel);
    n := 0;
    if next(x).Some? {
      var y := next(x).value;
      n := GreedyLeft(s, b, back, width, next, y, if Advanced(s, back, x.pos, y.pos) then fuel else fuel - 1);
      n := n + 1;
    }
  }

  lemma {:induction false} LazyLeaves(s: Subject, b: Re, back: bool, width: nat, next: St -> Option<St>, j: Job,
                                      accepts: St -> bool, x: St, n: nat, f: nat, fuel: nat)
    requires Single(s, b, back, width, next) && s.text.Boundary(x.pos) && |x.caps| == width
    requires Settles(s, j, back, width, accepts) && Leaves(next, accepts, x, n) && n <= f
    ensures !Then(s, Outcomes(s, Star(b, false, false), back, x, f), j, back, fuel).Stuck?
    decreases n
  {
    hide Single;
    SingleAgain(s, b, false, back, width, next, x, f);
    SingleStep(s, b, back, width, next, x, f);
    assert Settled(Outcomes(s, j, back, x, fuel), accepts(x));
    if !accepts(x) && next(x).Some? {
      LazyLeaves(s, b, back, width, next, j, accepts, next(x).value, n - 1, f, fuel);
      LazyLeaves(s, b, back, width, next, j, accepts, next(x).value, n - 1, f - 1, fuel);
    }
  }

  lemma {:induction false} LazyLeft(s: Subject, b: Re, back: bool, width: nat, next: St -> Option<St>, j: Job,
                                    accepts: St -> bool, x: St, f: nat, fuel: nat) returns (n: nat)
    requires Single(s, b, back, width, next) && s.text.Boundary(x.pos) && |x.caps| == width
    requires Settles(s, j, back, width, accepts)
    requires !Then(s, Outcomes(s, Star(b, false, false), back, x, f), j, back, fuel).Stuck?
    ensures Leaves(next, accepts, x, n)
    decreases f, Room(s, back, x.pos)
  {
    hide Single;
    SingleAgain(s, b, false, back, width, next, x, f);
    SingleStep(s, b, back, width, next, x, f);
    assert Settled(Outcomes(s, j, back, x, fuel), accepts(x));
    n := 0;
    if !accepts(x) && next(x).Some? {
      var y := next(x).value;
      n := LazyLeft(s, b, back, width, next, j, accepts, y, if Advanced(s, back, x.pos, y.pos) then f else f - 1, fuel);
      n := n + 1;
    }
  }

  /** An unguarded greedy loop over an atom with at most one way to match halts exactly if it comes to a
      state at which the atom does not match. */
  lemma GreedyLoopHalts(m: Machine, b: Re, lo: nat, hi: nat, cindex: nat, next: St -> Option<St>)
    requires var e := Quant(b, 0, INT32_MAX, true, lo, hi); Holds(m, true, e)
    requires m.s.text.Boundary(cindex) && !Guarded(b, true) && Single(m.s, b, false, 2 * m.ncap, next)
    ensures (exists r: Config :: Halts(m, Start(m, cindex), r)) <==>
            exists n: nat :: Leaves(next, Never, Start(m, cindex).x.Save(0).Forget(lo, hi), n)
  {
    hide Halts, Holds, Outcomes, Single, Leaves, Guarded, Attempt;
    var e := Quant(b, 0, INT32_MAX, true, lo, hi);
    var x := Start(m, cindex).x;
    var x0 := x.Save(0).Forget(lo, hi);
    if n: nat :| Leaves(next, Never, x0, n) {
      GreedyLeaves(m.s, b, false, 2 * m.ncap, next, x0, n, n);
      GreedyOuter(m.s, b, lo, hi, x, n);
      ProgramYields(m, true, e, cindex, n);
    }
    if r: Config :| Halts(m, Start(m, cindex), r) {
      ProgramCorrect(m, true, e, cindex, r);
      var fuel: nat :| Resolve(Meaning(m.s, true, e, x, fuel)) == Some(r);
      GreedyOuter(m.s, b, lo, hi, x, fuel);
      var n := GreedyLeft(m.s, b, false, 2 * m.ncap, next, x0, fuel);
    }
  }

  lemma GreedyOuter(s: Subject, b: Re, lo: nat, hi: nat, x: St, fuel: nat)
    requires !Guarded(b, true)
    ensures Attempt(s, Quant(b, 0, INT32_MAX, true, lo, hi), x, fuel).Stuck? <==>
            Outcomes(s, Star(b, true, false), false, x.Save(0).Forget(lo, hi), fuel).Stuck?
  {
    hide Guarded;
    var e := Quant(b, 0, INT32_MAX, true, lo, hi);
    assert Tail(b, 0, INT32_MAX, true) == Star(b, true, false);
    assert Outcomes(s, Sub(e), false, x.Save(0), fuel) ==
           Outcomes(s, Star(b, true, false), false, x.Save(0).Forget(lo, hi), fuel);
  }

  /** A lazy loop over such an atom, followed by `c`, halts exactly if it comes to a state at which `c`
      matches or the atom does not. */
  lemma LazyLoopHalts(m: Machine, b: Re, lo: nat, hi: nat, c: Re, cindex: nat, next: St -> Option<St>, accepts: St -> bool)
    requires var e := Seq(Quant(b, 0, INT32_MAX, false, lo, hi), c); Holds(m, true, e)
    requires m.s.text.Boundary(cindex) && Single(m.s, b, false, 2 * m.ncap, next)
    requires Settles(m.s, Sub(c), false, 2 * m.ncap, accepts)
    ensures (exists r: Config :: Halts(m, Start(m, cindex), r)) <==>
            exists n: nat :: Leaves(next, accepts, Start(m, cindex).x.Save(0).Forget(lo, hi), n)
  {
    hide Halts, Holds, Outcomes, Single, Leaves, Settles, Attempt;
    var e := Seq(Quant(b, 0, INT32_MAX, false, lo, hi), c);
    var x := Start(m, cindex).x;
    var x0 := x.Save(0).Forget(lo, hi);
    if n: nat :| Leaves(next, accepts, x0, n) {
      LazyLeaves(m.s, b, false, 2 * m.ncap, next, Sub(c), accepts, x0, n, n, n);
      LazyOuter(m.s, b, lo, hi, c, x, n);
      ProgramYields(m, true, e, cindex, n);
    }
    if r: Config :| Halts(m, Start(m, cindex), r) {
      ProgramCorrect(m, true, e, cindex, r);
      var fuel: nat :| Resolve(Meaning(m.s, true, e, x, fuel)) == Some(r);
      LazyOuter(m.s, b, lo, hi, c, x, fuel);
      var n := LazyLeft(m.s, b, false, 2 * m.ncap, next, Sub(c), accepts, x0, fuel, fuel);
    }
  }

  lemma LazyOuter(s: Subject, b: Re, lo: nat, hi: nat, c: Re, x: St, fuel: nat)
    ensures Attempt(s, Seq(Quant(b, 0, INT32_MAX, false, lo, hi), c), x, fuel).Stuck? <==>
            Then(s, Outcomes(s, Star(b, false, false), false, x.Save(0).Forget(lo, hi), fuel), Sub(c), false, fuel).Stuck?
  {
    var l := Quant(b, 0, INT32_MAX, false, lo, hi);
    assert Tail(b, 0, INT32_MAX, false) == Star(b, false, false);
    assert Outcomes(s, Sub(l), false, x.Save(0), fuel) ==
           Outcomes(s, Star(b, false, false), false, x.Save(0).Forget(lo, hi), fuel);
    assert Outcomes(s, Sub(Seq(l, c)), false, x.Save(0), fuel) ==
           Then(s, Outcomes(s, Sub(l), false, x.Save(0), fuel), Sub(c), false, fuel);
  }
}
