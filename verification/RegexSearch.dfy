/** The non-sticky search: the leftmost match. */
module RegexSearch {
  import opened Options
  import opened RegexText
  import opened RegexCode
  import opened RegexPattern
  import opened RegexMatcher
  import opened RegexMachine
  import opened RegexCaptures
  import opened RegexExec
  import opened RegexYields

  /** The sticky attempt from `pos`, with no captures set. */
  ghost function AttemptAt(m: Machine, e: Re, pos: nat, fuel: nat): Outs {
    Attempt(m.s, e, Start(m, pos).x, fuel)
  }

  /** The sticky attempt from `pos` succeeds. */
  ghost predicate MatchesAt(m: Machine, e: Re, pos: nat, fuel: nat) {
    AttemptAt(m, e, pos, fuel).More?
  }

  /** Capture 0 of a match starts where the match was attempted. */
  lemma AttemptStartsAt(m: Machine, e: Re, pos: nat, fuel: nat)
    requires Numbered(e, 1) && m.ncap >= 1 && MatchesAt(m, e, pos, fuel)
    ensures var caps := AttemptAt(m, e, pos, fuel).x.caps;
            |caps| == 2 * m.ncap && caps[0] == Some(pos) && caps[1].Some?
  {
    var x := Start(m, pos).x;
    NumberedLeaves(e, 1, 0);
    OutcomesKeep(m.s, Sub(e), false, x.Save(0), fuel, 0);
  }

  /** The search finds the first boundary at which an attempt succeeds, if it gets that far. */
  lemma {:induction false} SearchFirst(m: Machine, e: Re, pos: nat, fuel: nat, first: nat)
    requires m.s.text.Boundary(pos) && m.s.text.Boundary(first) && pos <= first
    requires MatchesAt(m, e, first, fuel)
    requires forall j: nat | pos <= j < first && m.s.text.Boundary(j) :: AttemptAt(m, e, j, fuel) == Done
    ensures Search(m.s, e, Start(m, pos).x, fuel).More?
    ensures Search(m.s, e, Start(m, pos).x, fuel).x == AttemptAt(m, e, first, fuel).x
    decreases first - pos
  {
    hide Attempt;
    var x := Start(m, pos).x;
    if pos < first {
      BackUndoesGet(m.s.text, pos);
      NextBoundary(m.s.text, pos, first);
      assert AttemptAt(m, e, pos, fuel) == Done;
      assert x.(pos := m.s.text.Get(pos).1) == Start(m, m.s.text.Get(pos).1).x;
      SearchFirst(m, e, m.s.text.Get(pos).1, fuel, first);
    }
  }

  lemma {:induction false} SearchNone(m: Machine, e: Re, pos: nat, fuel: nat)
    requires m.s.text.Boundary(pos)
    requires forall j: nat | pos <= j && m.s.text.Boundary(j) :: AttemptAt(m, e, j, fuel) == Done
    ensures Search(m.s, e, Start(m, pos).x, fuel) == Done
    decreases m.s.Len() - pos
  {
    hide Attempt;
    var x := Start(m, pos).x;
    assert AttemptAt(m, e, pos, fuel) == Done;
    if pos < m.s.Len() {
      BackUndoesGet(m.s.text, pos);
      assert x.(pos := m.s.text.Get(pos).1) == Start(m, m.s.text.Get(pos).1).x;
      SearchNone(m, e, m.s.text.Get(pos).1, fuel);
    }
  }

  /** The search stops with a match only at the first boundary with one. */
  lemma {:induction false} SearchFinds(m: Machine, e: Re, pos: nat, fuel: nat) returns (first: nat)
    requires m.s.text.Boundary(pos) && Search(m.s, e, Start(m, pos).x, fuel).More?
    ensures pos <= first && m.s.text.Boundary(first) && MatchesAt(m, e, first, fuel)
    ensures Search(m.s, e, Start(m, pos).x, fuel).x == AttemptAt(m, e, first, fuel).x
    ensures forall j: nat | pos <= j < first && m.s.text.Boundary(j) :: AttemptAt(m, e, j, fuel) == Done
    decreases m.s.Len() - pos
  {
    hide Attempt;
    var x := Start(m, pos).x;
    first := pos;
    if AttemptAt(m, e, pos, fuel) == Done {
      var next := m.s.text.Get(pos).1;
      BackUndoesGet(m.s.text, pos);
      assert x.(pos := next) == Start(m, next).x;
      first := SearchFinds(m, e, next, fuel);
      forall j: nat | pos <= j < first && m.s.text.Boundary(j)
        ensures AttemptAt(m, e, j, fuel) == Done
      {
        if pos < j { NextBoundary(m.s.text, pos, j); }
      }
    }
  }

  /** The search fails only if every attempt does. */
  lemma {:induction false} SearchTriesAll(m: Machine, e: Re, pos: nat, fuel: nat)
    requires m.s.text.Boundary(pos) && Search(m.s, e, Start(m, pos).x, fuel) == Done
    ensures forall j: nat | pos <= j && m.s.text.Boundary(j) :: AttemptAt(m, e, j, fuel) == Done
    decreases m.s.Len() - pos
  {
    hide Attempt;
    var x := Start(m, pos).x;
    assert AttemptAt(m, e, pos, fuel) == Done;
    if pos < m.s.Len() {
      var next := m.s.text.Get(pos).1;
      BackUndoesGet(m.s.text, pos);
      assert x.(pos := next) == Start(m, next).x;
      SearchTriesAll(m, e, next, fuel);
      forall j: nat | pos <= j && m.s.text.Boundary(j)
        ensures AttemptAt(m, e, j, fuel) == Done
      {
        if pos < j { NextBoundary(m.s.text, pos, j); }
      }
    }
  }

  // ----- attempts and runs of the sticky program -----

  /** An attempt that comes to a result is a run of the sticky program that stops with it. */
  lemma AttemptHalts(m: Machine, ms: Machine, e: Re, pos: nat, fuel: nat)
    requires SameSearch(m, ms, e) && m.s.text.Boundary(pos)
    ensures var r := Resolve(AttemptAt(m, e, pos, fuel)); r.Some? ==> Halts(ms, Start(ms, pos), r.value)
  {
    hide Attempt;
    hide Halts;
    hide Alive;
    hide Holds;
    SameStart(m, ms, e, pos);
    ProgramYields(ms, true, e, pos, fuel);
  }

  /** A run that stops within `n` steps is an attempt that comes to the same result on any such budget. */
  lemma HaltedAttempt(m: Machine, ms: Machine, e: Re, pos: nat, r: Config, n: nat, fuel: nat)
    requires SameSearch(m, ms, e) && m.s.text.Boundary(pos)
    requires !r.Run? && Reaches(ms, Start(ms, pos), r, n) && n <= fuel
    ensures Resolve(AttemptAt(m, e, pos, fuel)) == Some(r)
  {
    hide Attempt;
    hide Step;
    hide Holds;
    SameStart(m, ms, e, pos);
    ProgramYields(ms, true, e, pos, fuel);
    StepsAdd(ms, Start(ms, pos), n, fuel - n);
    StoppedStays(ms, r, fuel - n);
    var o := AttemptAt(m, e, pos, fuel);
    HaltsOnce(ms, Start(ms, pos), r, Resolve(o).value);
  }

  lemma SameStart(m: Machine, ms: Machine, e: Re, pos: nat)
    requires SameSearch(m, ms, e)
    ensures Start(m, pos) == Start(ms, pos)
  {
    hide At;
  }

  /** The non-sticky and the sticky program of one pattern on one subject. */
  ghost predicate SameSearch(m: Machine, ms: Machine, e: Re) {
    Holds(m, false, e) && Holds(ms, true, e) && m.s == ms.s
  }

  /** The sticky program finds no match at the boundaries of [pos, end). */
  ghost predicate FailsOn(ms: Machine, pos: nat, end: nat) {
    forall j: nat | pos <= j < end && ms.s.text.Boundary(j) :: Halts(ms, Start(ms, j), NoMatch)
  }

  /** The attempts at the boundaries of [pos, end) fail, whatever the fuel from `least` on. */
  ghost predicate AttemptsFail(m: Machine, e: Re, pos: nat, end: nat, least: nat) {
    forall j: nat, fuel: nat | pos <= j < end && m.s.text.Boundary(j) && least <= fuel :: AttemptAt(m, e, j, fuel) == Done
  }

  /** Finitely many runs that stop have a budget in common. */
  lemma {:induction false} CommonBudget(m: Machine, ms: Machine, e: Re, pos: nat, end: nat) returns (least: nat)
    requires SameSearch(m, ms, e) && pos <= end && FailsOn(ms, pos, end)
    ensures AttemptsFail(m, e, pos, end, least)
    decreases end - pos
  {
    hide Attempt, AttemptAt, Holds, Steps;
    least := 0;
    if pos < end {
      var rest := CommonBudget(m, ms, e, pos + 1, end);
      least := rest;
      if m.s.text.Boundary(pos) {
        var n: nat :| Reaches(ms, Start(ms, pos), NoMatch, n);
        least := if n > rest then n else rest;
        forall fuel: nat | least <= fuel
          ensures AttemptAt(m, e, pos, fuel) == Done
        {
          HaltedAttempt(m, ms, e, pos, NoMatch, n, fuel);
        }
      }
    }
  }

  /** The sticky program matches at `i` with the captures `caps`, and at no boundary from `cindex` on before. */
  ghost predicate IsLeastMatch(ms: Machine, cindex: nat, i: nat, caps: seq<Option<nat>>) {
    && cindex <= i && ms.s.text.Boundary(i)
    && Halts(ms, Start(ms, i), Matched(caps))
    && FailsOn(ms, cindex, i)
  }

  /** Leftmost search, as runs of the two programs of a pattern. The non-sticky one stops without a match
      exactly if the sticky one does at every boundary at or after `cindex`. It stops with the captures
      `caps` exactly if they are those of the sticky match at the least such boundary that has one, the
      runs before it all stopping without; and capture 0 starts at that boundary. */
  lemma LeftmostSearch(m: Machine, ms: Machine, e: Re, cindex: nat, caps: seq<Option<nat>>)
    requires SameSearch(m, ms, e) && m.s.text.Boundary(cindex)
    ensures Halts(m, Start(m, cindex), NoMatch) <==> FailsOn(ms, cindex, m.s.Len() + 1)
    ensures Halts(m, Start(m, cindex), Matched(caps)) <==> exists i: nat :: IsLeastMatch(ms, cindex, i, caps)
    ensures Halts(m, Start(m, cindex), Matched(caps)) ==>
            0 < |caps| == 2 * m.ncap && caps[0].Some? && IsLeastMatch(ms, cindex, caps[0].value, caps)
  {
    hide *;
    if Halts(m, Start(m, cindex), NoMatch) {
      FailureFails(m, ms, e, cindex);
    }
    if FailsOn(ms, cindex, m.s.Len() + 1) {
      FailuresFail(m, ms, e, cindex);
    }
    if Halts(m, Start(m, cindex), Matched(caps)) {
      MatchIsLeast(m, ms, e, cindex, caps);
      var first: nat := caps[0].value;
      assert IsLeastMatch(ms, cindex, first, caps);
    }
    if i: nat :| IsLeastMatch(ms, cindex, i, caps) {
      LeastIsMatch(m, ms, e, cindex, i, caps);
    }
  }

  lemma FailureFails(m: Machine, ms: Machine, e: Re, cindex: nat)
    requires SameSearch(m, ms, e) && m.s.text.Boundary(cindex) && Halts(m, Start(m, cindex), NoMatch)
    ensures FailsOn(ms, cindex, m.s.Len() + 1)
  {
    hide Attempt, Search, Halts, Holds;
    ProgramCorrect(m, false, e, cindex, NoMatch);
    var fuel: nat :| Resolve(Meaning(m.s, false, e, Start(m, cindex).x, fuel)) == Some(NoMatch);
    SearchTriesAll(m, e, cindex, fuel);
    forall j: nat | cindex <= j < m.s.Len() + 1 && m.s.text.Boundary(j)
      ensures Halts(ms, Start(ms, j), NoMatch)
    {
      AttemptHalts(m, ms, e, j, fuel);
      assert AttemptAt(m, e, j, fuel) == Done;
    }
  }

  lemma FailuresFail(m: Machine, ms: Machine, e: Re, cindex: nat)
    requires SameSearch(m, ms, e) && m.s.text.Boundary(cindex) && FailsOn(ms, cindex, m.s.Len() + 1)
    ensures Halts(m, Start(m, cindex), NoMatch)
  {
    hide Attempt, AttemptAt, Search, Halts, Holds, Alive, FailsOn;
    var fuel := CommonBudget(m, ms, e, cindex, m.s.Len() + 1);
    assert forall j: nat | cindex <= j && m.s.text.Boundary(j) :: AttemptAt(m, e, j, fuel) == Done;
    SearchNone(m, e, cindex, fuel);
    ProgramYields(m, false, e, cindex, fuel);
  }

  lemma MatchIsLeast(m: Machine, ms: Machine, e: Re, cindex: nat, caps: seq<Option<nat>>)
    requires SameSearch(m, ms, e) && m.s.text.Boundary(cindex) && Halts(m, Start(m, cindex), Matched(caps))
    ensures 0 < |caps| == 2 * m.ncap && caps[0].Some? && IsLeastMatch(ms, cindex, caps[0].value, caps)
  {
    hide Attempt, Search, Halts, At;
    ProgramCorrect(m, false, e, cindex, Matched(caps));
    var fuel: nat :| Resolve(Meaning(m.s, false, e, Start(m, cindex).x, fuel)) == Some(Matched(caps));
    var first := SearchFinds(m, e, cindex, fuel);
    AttemptHalts(m, ms, e, first, fuel);
    AttemptStartsAt(m, e, first, fuel);
    forall j: nat | cindex <= j < first && m.s.text.Boundary(j)
      ensures Halts(ms, Start(ms, j), NoMatch)
    {
      AttemptHalts(m, ms, e, j, fuel);
      assert AttemptAt(m, e, j, fuel) == Done;
    }
  }

  lemma LeastIsMatch(m: Machine, ms: Machine, e: Re, cindex: nat, i: nat, caps: seq<Option<nat>>)
    requires SameSearch(m, ms, e) && m.s.text.Boundary(cindex) && IsLeastMatch(ms, cindex, i, caps)
    ensures Halts(m, Start(m, cindex), Matched(caps))
  {
    hide Attempt, Search, Holds, Alive, Steps;
    var least := CommonBudget(m, ms, e, cindex, i);
    var n: nat :| Reaches(ms, Start(ms, i), Matched(caps), n);
    var fuel := if n > least then n else least;
    HaltedAttempt(m, ms, e, i, Matched(caps), n, fuel);
    assert MatchesAt(m, e, i, fuel);
    forall j: nat | cindex <= j < i && m.s.text.Boundary(j)
      ensures AttemptAt(m, e, j, fuel) == Done
    {
      hide AttemptAt;
    }
    SearchFirst(m, e, cindex, fuel, i);
    ProgramYields(m, false, e, cindex, fuel);
  }
}
