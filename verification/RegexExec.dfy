/** Whole programs: what lre_exec returns, the leftmost search, and when it returns at all. */
module RegexExec {
  import opened Limits
  import opened Options
  import opened RegexText
  import opened RegexCode
  import opened RegexPattern
  import opened RegexMatcher
  import opened RegexProgress
  import opened RegexMachine
  import opened RegexYields
  import opened RegexLayout
  import opened RegexRepeat
  import opened RegexCorrect

  const RE_HEADER_LEN := 7

  /** The machine holds the program of `e`, with captures numbered from 1 by their parentheses. */
  ghost predicate Holds(m: Machine, sticky: bool, e: Re) {
    && Ok(m.s.fl, e) && Numbered(e, 1) && SubjectOk(m.s)
    && m.ncap == 1 + Captures(e) <= CAPTURE_COUNT_MAX
    && At(m.bc, RE_HEADER_LEN, ProgramCode(m.s.fl, sticky, e))
  }

  function NoCaptures(ncap: nat): seq<Option<nat>> {
    seq(2 * ncap, _ => None)
  }

  /** The state in which lre_exec starts the machine. */
  function Start(m: Machine, cindex: nat): Config {
    Run(RE_HEADER_LEN, St(cindex, NoCaptures(m.ncap)), [], [])
  }

  /** The match attempts of a whole pattern at one position; capture 0 is the match itself. */
  ghost function Attempt(s: Subject, e: Re, x: St, fuel: nat): Outs {
    Outcomes(s, Sub(Capture(0, e)), false, x, fuel)
  }

  /** The attempts at one position after another. */
  ghost function Search(s: Subject, e: Re, x: St, fuel: nat): Outs
    decreases s.Len() - x.pos
  {
    Append(Attempt(s, e, x, fuel),
           if x.pos >= s.Len() then Done else Search(s, e, x.(pos := s.text.Get(x.pos).1), fuel))
  }

  ghost function Meaning(s: Subject, sticky: bool, e: Re, x: St, fuel: nat): Outs {
    if sticky then Attempt(s, e, x, fuel) else Search(s, e, x, fuel)
  }

  /** The result that a list of outcomes decides; None if the matcher is stuck before the first one. */
  function Resolve(o: Outs): Option<Config> {
    match o
    case Done => Some(NoMatch)
    case Stuck => None
    case More(x, _) => Some(Matched(x.caps))
  }

  /** The machine stops with result `r`. */
  ghost predicate Halts(m: Machine, c: Config, r: Config) {
    !r.Run? && exists n: nat :: Reaches(m, c, r, n)
  }

  /** The program is the search prefix, the pattern as capture 0, and `match`. */
  lemma ProgramLayout(m: Machine, sticky: bool, e: Re)
    requires Holds(m, sticky, e)
    ensures var body := CaptureCode(0, Compile(m.s.fl, e, false), false);
            var p := RE_HEADER_LEN + SizeOf(SearchPrefix(sticky));
            At(m.bc, p, body) && FetchInstr(m.bc, p + SizeOf(body)) == Some(Match)
    ensures !sticky ==> SplitAt(m, RE_HEADER_LEN, RE_HEADER_LEN + 11, RE_HEADER_LEN + 5)
                        && FetchInstr(m.bc, RE_HEADER_LEN + 5) == Some(Any)
                        && FetchInstr(m.bc, RE_HEADER_LEN + 6) == Some(Goto(-11))
                        && SizeOf(SearchPrefix(sticky)) == 11
  {
    hide FetchInstr;
    hide Compile;
    hide SizeOf;
    var code := Compile(m.s.fl, e, false);
    var pre, body := SearchPrefix(sticky), CaptureCode(0, code, false);
    assert [SaveStart(0)] + (code + [SaveEnd(0), Match]) == body + [Match];
    AtConcat(m.bc, RE_HEADER_LEN, pre, body + [Match]);
    AtConcat(m.bc, RE_HEADER_LEN + SizeOf(pre), body, [Match]);
    At1(m.bc, RE_HEADER_LEN + SizeOf(pre) + SizeOf(body), Match);
    if !sticky {
      assert pre == [Split(false, 6)] + ([Any] + [Goto(-11)]);
      At3(m.bc, RE_HEADER_LEN, Split(false, 6), [Any], [Goto(-11)]);
      Size1(Any);
      At1(m.bc, RE_HEADER_LEN + 5, Any);
      At1(m.bc, RE_HEADER_LEN + 6, Goto(-11));
      Sizes3(Split(false, 6), [Any], [Goto(-11)]);
      Size1(Goto(-11));
    }
  }

  lemma AttemptYields(m: Machine, sticky: bool, e: Re, x: St, fuel: nat, F: seq<Frame>)
    requires Holds(m, sticky, e) && Good(m, x)
    ensures var p := RE_HEADER_LEN + SizeOf(SearchPrefix(sticky));
            Yields(m, Run(p, x, [], F), p + SizeOf(CaptureCode(0, Compile(m.s.fl, e, false), false)), [], F,
                   Attempt(m.s, e, x, fuel), fuel)
  {
    hide Yields;
    hide At;
    hide Compile;
    hide SizeOf;
    NumberedBelow(e, 1, m.ncap);
    ProgramLayout(m, sticky, e);
    CaptureCorrect(m, 0, e, false, x, fuel, RE_HEADER_LEN + SizeOf(SearchPrefix(sticky)), [], F);
  }

  /** The search prefix tries the positions one after another. */
  lemma {:induction false} SearchYields(m: Machine, e: Re, x: St, fuel: nat)
    requires Holds(m, false, e) && Good(m, x)
    ensures Yields(m, Run(RE_HEADER_LEN, x, [], []),
                   RE_HEADER_LEN + 11 + SizeOf(CaptureCode(0, Compile(m.s.fl, e, false), false)), [], [],
                   Search(m.s, e, x, fuel), fuel)
    decreases m.s.Len() - x.pos
  {
    hide Yields;
    hide At;
    hide Compile;
    hide SizeOf;
    hide Step;
    hide FetchInstr;
    hide SplitAt;
    hide Attempt;
    ProgramLayout(m, false, e);
    var any := RE_HEADER_LEN + 5;
    var q := RE_HEADER_LEN + 11 + SizeOf(CaptureCode(0, Compile(m.s.fl, e, false), false));
    var F := [Frame(SplitFrame, any, x, [], 0)];
    assert [] + F == F;
    AttemptYields(m, false, e, x, fuel, F);
    CharStep(m, any, Any, x, [], []);
    var c := Run(any, x, [], []);
    OneStep(m, c);
    var others := if x.pos >= m.s.Len() then Done else Search(m.s, e, x.(pos := m.s.text.Get(x.pos).1), fuel);
    if x.pos == m.s.Len() {
      YieldsDone(m, c, 1, q, [], [], fuel);
    } else {
      var y := x.(pos := m.s.text.Get(x.pos).1);
      BackUndoesGet(m.s.text, x.pos);
      assert CharTest(m.s, Any, m.s.text.Get(x.pos).0);
      GotoJumps(m, any + 1, -11, RE_HEADER_LEN, []);
      assert Reaches(m, Run(any + 1, y, [], []), Run(RE_HEADER_LEN, y, [], []), 1);
      SearchYields(m, e, y, fuel);
      YieldsAfter(m, Run(any + 1, y, [], []), Run(RE_HEADER_LEN, y, [], []), 1, q, [], [], others, fuel);
      YieldsAfter(m, c, Run(any + 1, y, [], []), 1, q, [], [], others, fuel);
    }
    SplitYields(m, RE_HEADER_LEN, x, [], [], RE_HEADER_LEN + 11, any, q, [], Attempt(m.s, e, x, fuel), others, fuel);
    YieldsWeaken(m, Run(RE_HEADER_LEN, x, [], []), q, [], [], Search(m.s, e, x, fuel), fuel + 1, fuel);
  }

  /** A program that has offered its outcomes at `match` stops with the first, and runs on if stuck. */
  lemma YieldsResult(m: Machine, c: Config, q: nat, o: Outs, n: nat, x: St)
    requires Yields(m, c, q, [], [], o, n) && FetchInstr(m.bc, q) == Some(Match)
    requires AllReachable(m.s, false, x, false, o)
    ensures o.Stuck? ==> Alive(m, c, n)
    ensures Resolve(o).Some? ==> Halts(m, c, Resolve(o).value)
  {
    hide Step;
    match o
    case Stuck =>
    case Done => assert Fail(m, []) == NoMatch;
    case More(y, rest) =>
      var k: nat, G: seq<Frame> :| Offers(m, c, q, [], [], y, rest, n, k, G);
      assert [] + G == G;
      FinalStep(m, q, y, G);
      OneStep(m, Run(q, y, [], G));
      StepsAdd(m, c, k, 1);
      assert Reaches(m, c, Matched(y.caps), k + 1);
  }

  lemma FinalStep(m: Machine, q: nat, y: St, G: seq<Frame>)
    requires FetchInstr(m.bc, q) == Some(Match) && AllPlain(G) && y.pos <= m.s.Len()
    ensures Step(m, Run(q, y, [], G)) == Matched(y.caps)
  {
    assert [] + G == G;
    SucceedDrops(m, y.caps, [], G);
  }

  lemma {:induction false} SearchReachable(s: Subject, e: Re, x: St, fuel: nat)
    requires s.text.Boundary(x.pos)
    ensures AllReachable(s, false, x, false, Search(s, e, x, fuel))
    decreases s.Len() - x.pos
  {
    hide Attempt;
    OutcomesReachable(s, Sub(Capture(0, e)), false, x, fuel);
    assert AllReachable(s, false, x, false, Attempt(s, e, x, fuel)) by { AttemptIs(s, e, x, fuel); }
    var others := if x.pos >= s.Len() then Done else Search(s, e, x.(pos := s.text.Get(x.pos).1), fuel);
    if x.pos < s.Len() {
      BackUndoesGet(s.text, x.pos);
      var y := x.(pos := s.text.Get(x.pos).1);
      SearchReachable(s, e, y, fuel);
      ReachableTrans(s, false, x, false, y, false, others);
    }
    AppendReachable(s, false, x, false, Attempt(s, e, x, fuel), others);
  }

  lemma AttemptIs(s: Subject, e: Re, x: St, fuel: nat)
    ensures Attempt(s, e, x, fuel) == Outcomes(s, Sub(Capture(0, e)), false, x, fuel)
  {
  }

  lemma ProgramYields(m: Machine, sticky: bool, e: Re, cindex: nat, fuel: nat)
    requires Holds(m, sticky, e) && m.s.text.Boundary(cindex)
    ensures var o := Meaning(m.s, sticky, e, Start(m, cindex).x, fuel);
            && (o.Stuck? ==> Alive(m, Start(m, cindex), fuel))
            && (Resolve(o).Some? ==> Halts(m, Start(m, cindex), Resolve(o).value))
  {
    hide Yields;
    hide Halts;
    hide Alive;
    hide Compile;
    hide Attempt;
    hide Search;
    hide At;
    hide FetchInstr;
    hide SizeOf;
    hide SplitAt;
    hide AllReachable;
    var x := Start(m, cindex).x;
    ProgramLayout(m, sticky, e);
    var q := RE_HEADER_LEN + SizeOf(SearchPrefix(sticky)) + SizeOf(CaptureCode(0, Compile(m.s.fl, e, false), false));
    if sticky {
      EmptySize();
      AttemptYields(m, sticky, e, x, fuel, []);
      AttemptIs(m.s, e, x, fuel);
      OutcomesReachable(m.s, Sub(Capture(0, e)), false, x, fuel);
    } else {
      SearchYields(m, e, x, fuel);
      SearchReachable(m.s, e, x, fuel);
    }
    YieldsResult(m, Start(m, cindex), q, Meaning(m.s, sticky, e, x, fuel), fuel, x);
  }

  lemma HaltsOnce(m: Machine, c: Config, r1: Config, r2: Config)
    requires Halts(m, c, r1) && Halts(m, c, r2)
    ensures r1 == r2
  {
    hide Step;
    var n1: nat :| Reaches(m, c, r1, n1);
    var n2: nat :| Reaches(m, c, r2, n2);
    if n1 <= n2 {
      StepsAdd(m, c, n1, n2 - n1);
      StoppedStays(m, r1, n2 - n1);
    } else {
      StepsAdd(m, c, n2, n1 - n2);
      StoppedStays(m, r2, n1 - n2);
    }
  }

  /** Compiler correctness for whole programs. On every subject and from every boundary, the machine
      stops with result `r` exactly when the backtracking matcher comes to result `r`: the same success
      or failure with the same captures, and it runs forever exactly when the matcher does. */
  lemma ProgramCorrect(m: Machine, sticky: bool, e: Re, cindex: nat, r: Config)
    requires Holds(m, sticky, e) && m.s.text.Boundary(cindex)
    ensures Halts(m, Start(m, cindex), r) <==>
            exists fuel: nat :: Resolve(Meaning(m.s, sticky, e, Start(m, cindex).x, fuel)) == Some(r)
  {
    hide Step;
    hide Meaning;
    hide Holds;
    var c := Start(m, cindex);
    if fuel: nat :| Resolve(Meaning(m.s, sticky, e, c.x, fuel)) == Some(r) {
      ProgramYields(m, sticky, e, cindex, fuel);
    }
    if Halts(m, c, r) {
      var n: nat :| Reaches(m, c, r, n);
      ProgramYields(m, sticky, e, cindex, n);
      var o := Meaning(m.s, sticky, e, c.x, n);
      if Resolve(o).Some? {
        HaltsOnce(m, c, r, Resolve(o).value);
      }
      assert Resolve(o) == Some(r);
    }
  }

  /** The captures of a match lie on code-point boundaries, both ends of each that is set. */
  lemma CapturesOnBoundaries(m: Machine, sticky: bool, e: Re, cindex: nat, caps: seq<Option<nat>>)
    requires Holds(m, sticky, e) && m.s.text.Boundary(cindex) && Halts(m, Start(m, cindex), Matched(caps))
    ensures |caps| == 2 * m.ncap && forall i | 0 <= i < |caps| && caps[i].Some? :: m.s.text.Boundary(caps[i].value)
  {
    hide Halts, Holds, Attempt, Search;
    ProgramCorrect(m, sticky, e, cindex, Matched(caps));
    var x := Start(m, cindex).x;
    var fuel: nat :| Resolve(Meaning(m.s, sticky, e, x, fuel)) == Some(Matched(caps));
    if sticky {
      AttemptIs(m.s, e, x, fuel);
      OutcomesReachable(m.s, Sub(Capture(0, e)), false, x, fuel);
    } else {
      SearchReachable(m.s, e, x, fuel);
    }
    assert CapturesOk(m.s, x);
    assert Reachable(m.s, false, x, false, Meaning(m.s, sticky, e, x, fuel).x);
  }

  /** No run of a compiled program ever does anything undefined. */
  lemma ProgramNeverAborts(m: Machine, sticky: bool, e: Re, cindex: nat)
    requires Holds(m, sticky, e) && m.s.text.Boundary(cindex)
    ensures !Halts(m, Start(m, cindex), Abort)
  {
    hide Meaning;
    ProgramCorrect(m, sticky, e, cindex, Abort);
  }
}
