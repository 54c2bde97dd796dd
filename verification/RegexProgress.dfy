/** Where outcomes lie: outcomes never move against the direction of matching, keep to code-point
    boundaries, and an atom that `re_check_advance` rates 1 moves strictly. */
module RegexProgress {
  import opened RegexText
  import opened RegexPattern
  import opened RegexMatcher

  /** Every capture pointer that is set lies on a boundary. */
  ghost predicate CapturesOk(s: Subject, x: St) {
    forall i | 0 <= i < |x.caps| && x.caps[i].Some? :: s.text.Boundary(x.caps[i].value)
  }

  /** `y` may be an outcome of a match attempt from `x`; a strict one has moved. */
  ghost predicate Reachable(s: Subject, back: bool, x: St, strict: bool, y: St) {
    && |y.caps| == |x.caps|
    && s.text.Boundary(y.pos)
    && (if back then y.pos <= x.pos else x.pos <= y.pos)
    && (strict ==> y.pos != x.pos)
    && (CapturesOk(s, x) ==> CapturesOk(s, y))
  }

  ghost predicate AllReachable(s: Subject, back: bool, x: St, strict: bool, o: Outs) {
    match o
    case Done => true
    case Stuck => true
    case More(y, rest) => Reachable(s, back, x, strict, y) && AllReachable(s, back, x, strict, rest)
  }

  lemma {:induction false} AppendReachable(s: Subject, back: bool, x: St, strict: bool, a: Outs, b: Outs)
    requires AllReachable(s, back, x, strict, a) && AllReachable(s, back, x, strict, b)
    ensures AllReachable(s, back, x, strict, Append(a, b))
  {
    if a.More? {
      AppendReachable(s, back, x, strict, a.rest, b);
    }
  }

  /** Moving on from an outcome: the second leg counts from the first start. */
  lemma {:induction false} ReachableTrans(s: Subject, back: bool, x: St, strict: bool, y: St, strict': bool, o: Outs)
    requires Reachable(s, back, x, strict, y) && AllReachable(s, back, y, strict', o)
    ensures AllReachable(s, back, x, strict || strict', o)
    decreases o
  {
    if o.More? {
      ReachableTrans(s, back, x, strict, y, strict', o.rest);
    }
  }

  lemma {:induction false} SaveAllReachable(s: Subject, back: bool, x: St, i: nat, strict: bool, o: Outs)
    requires AllReachable(s, back, x, strict, o)
    ensures AllReachable(s, back, x, strict, SaveAll(o, i))
  {
    if o.More? {
      SaveAllReachable(s, back, x, i, strict, o.rest);
    }
  }

  /** Only the position and the number of captures of the start matter. */
  lemma {:induction false} ReachableFrom(s: Subject, back: bool, x: St, x': St, strict: bool, o: Outs)
    requires x.pos == x'.pos && |x.caps| == |x'.caps| && AllReachable(s, back, x, strict, o)
    requires CapturesOk(s, x') ==> CapturesOk(s, x)
    ensures AllReachable(s, back, x', strict, o)
    decreases o
  {
    if o.More? {
      ReachableFrom(s, back, x, x', strict, o.rest);
    }
  }

  lemma AtomReachable(s: Subject, a: Atom, back: bool, x: St)
    requires s.text.Boundary(x.pos)
    ensures AllReachable(s, back, x, true, AtomOuts(s, a, back, x))
  {
    if back && x.pos > 0 {
      GetUndoesBack(s.text, x.pos);
    } else if x.pos < s.Len() {
      BackUndoesGet(s.text, x.pos);
    }
  }

  lemma {:induction false} RefForwardBoundary(s: Subject, p: nat, end: nat, pos: nat)
    requires s.text.Boundary(pos) && end <= s.Len()
    ensures RefForward(s, p, end, pos).Some? ==> s.text.Boundary(RefForward(s, p, end, pos).value)
    decreases end - p
  {
    if p < end && pos < s.Len() {
      BackUndoesGet(s.text, pos);
      var p1 := if s.text.PairAt(p) && p + 1 == end then p + 1 else s.text.Get(p).1;
      RefForwardBoundary(s, p1, end, s.text.Get(pos).1);
    }
  }

  lemma {:induction false} RefBackwardBoundary(s: Subject, p: nat, start: nat, pos: nat)
    requires s.text.Boundary(pos) && p <= s.Len()
    ensures RefBackward(s, p, start, pos).Some? ==> s.text.Boundary(RefBackward(s, p, start, pos).value)
    decreases p
  {
    if p > start && pos > 0 {
      GetUndoesBack(s.text, pos);
      var whole := p - 1 > start || !s.text.PairAt(p - 2);
      RefBackwardBoundary(s, if whole then s.text.Back(p) else p - 1, start, s.text.Back(pos));
    }
  }

  lemma RefReachable(s: Subject, n: nat, back: bool, x: St)
    requires s.text.Boundary(x.pos) && RefMatch(s, n, back, x).Some?
    ensures Reachable(s, back, x, false, x.(pos := RefMatch(s, n, back, x).value))
  {
    if 2 * n + 1 < |x.caps| && x.caps[2 * n].Some? && x.caps[2 * n + 1].Some? {
      var start, end := x.caps[2 * n].value, x.caps[2 * n + 1].value;
      if end <= s.Len() {
        RefForwardBoundary(s, start, end, x.pos);
        RefBackwardBoundary(s, end, start, x.pos);
      }
    }
  }

  /** Every outcome of every job lies in the direction of matching, on a boundary. */
  lemma {:induction false} OutcomesReachable(s: Subject, j: Job, back: bool, x: St, fuel: nat)
    requires s.text.Boundary(x.pos)
    ensures AllReachable(s, back, x, false, Outcomes(s, j, back, x, fuel))
    decreases j.e, j.Tag(), j.Count(), fuel, Room(s, back, x.pos), 2
  {
    match j
    case Times(e, k) =>
      if k > 0 {
        OutcomesReachable(s, Sub(e), back, x, fuel);
        if k > 1 {
          ThenReachable(s, Outcomes(s, Sub(e), back, x, fuel), Times(e, k - 1), back, fuel, x, false);
        }
      }
    case UpTo(e, k, greedy) =>
      if k > 0 {
        OutcomesReachable(s, Sub(e), back, x, fuel);
        var o := Outcomes(s, Sub(e), back, x, fuel);
        if k > 1 {
          ThenReachable(s, o, UpTo(e, k - 1, greedy), back, fuel, x, false);
        }
        var again := if k == 1 then o else Then(s, o, UpTo(e, k - 1, greedy), back, fuel);
        AppendReachable(s, back, x, false, again, Only(x));
      }
    case Star(e, greedy, check) =>
      OutcomesReachable(s, Sub(e), back, x, fuel);
      var o := Outcomes(s, Sub(e), back, x, fuel);
      IterateReachable(s, o, j, back, x, fuel);
      AppendReachable(s, back, x, false, Iterate(s, o, j, back, x.pos, fuel), Only(x));
    case Sub(e) => SubReachable(s, e, back, x, fuel);
  }

  lemma {:induction false} SubReachable(s: Subject, e: Re, back: bool, x: St, fuel: nat)
    requires s.text.Boundary(x.pos)
    ensures AllReachable(s, back, x, false, Outcomes(s, Sub(e), back, x, fuel))
    decreases e, 0, 0, fuel, Room(s, back, x.pos), 1
  {
    match e
    case Empty =>
    case One(a) =>
      AtomReachable(s, a, back, x);
    case Test(_) =>
    case Ref(n) =>
      if RefMatch(s, n, back, x).Some? {
        RefReachable(s, n, back, x);
      }
    case Seq(l, r) =>
      var (first, second) := if back then (r, l) else (l, r);
      OutcomesReachable(s, Sub(first), back, x, fuel);
      ThenReachable(s, Outcomes(s, Sub(first), back, x, fuel), Sub(second), back, fuel, x, false);
    case Either(l, r) =>
      OutcomesReachable(s, Sub(l), back, x, fuel);
      OutcomesReachable(s, Sub(r), back, x, fuel);
      AppendReachable(s, back, x, false, Outcomes(s, Sub(l), back, x, fuel), Outcomes(s, Sub(r), back, x, fuel));
    case Group(b) =>
      OutcomesReachable(s, Sub(b), back, x, fuel);
    case Capture(n, b) =>
      var (first, last) := if back then (2 * n + 1, 2 * n) else (2 * n, 2 * n + 1);
      OutcomesReachable(s, Sub(b), back, x.Save(first), fuel);
      var o := Outcomes(s, Sub(b), back, x.Save(first), fuel);
      ReachableFrom(s, back, x.Save(first), x, false, o);
      SaveAllReachable(s, back, x, last, false, o);
    case Around(neg, behind, b) =>
      OutcomesReachable(s, Sub(b), behind, x, fuel);
    case Quant(b, min, max, greedy, lo, hi) =>
      var x0 := if min == 0 then x.Forget(lo, hi) else x;
      var t := Tail(b, min, max, greedy);
      if max == 0 {
      } else if min == 0 {
        OutcomesReachable(s, t, back, x0, fuel);
        ReachableFrom(s, back, x0, x, false, Outcomes(s, t, back, x0, fuel));
      } else {
        OutcomesReachable(s, Times(b, min), back, x, fuel);
        ThenReachable(s, Outcomes(s, Times(b, min), back, x, fuel), t, back, fuel, x, false);
      }
  }

  lemma {:induction false} ThenReachable(s: Subject, o: Outs, j: Job, back: bool, fuel: nat, x: St, strict: bool)
    requires AllReachable(s, back, x, strict, o)
    ensures AllReachable(s, back, x, strict, Then(s, o, j, back, fuel))
    decreases j.e, j.Tag(), j.Count(), fuel, s.Len() + 1, 0, o
  {
    if o.More? {
      OutcomesReachable(s, j, back, o.x, fuel);
      ReachableTrans(s, back, x, strict, o.x, false, Outcomes(s, j, back, o.x, fuel));
      ThenReachable(s, o.rest, j, back, fuel, x, strict);
      AppendReachable(s, back, x, strict, Outcomes(s, j, back, o.x, fuel), Then(s, o.rest, j, back, fuel));
    }
  }

  lemma {:induction false} IterateReachable(s: Subject, o: Outs, j: Job, back: bool, x: St, fuel: nat)
    requires j.Star? && s.text.Boundary(x.pos) && AllReachable(s, back, x, false, o)
    ensures AllReachable(s, back, x, false, Iterate(s, o, j, back, x.pos, fuel))
    decreases j.e, j.Tag(), j.Count(), fuel, Room(s, back, x.pos), 1, o
  {
    if o.More? {
      var y := o.x;
      if !(j.check && y.pos == x.pos) {
        if Advanced(s, back, x.pos, y.pos) {
          OutcomesReachable(s, j, back, y, fuel);
          ReachableTrans(s, back, x, false, y, false, Outcomes(s, j, back, y, fuel));
        } else if fuel > 0 {
          OutcomesReachable(s, j, back, y, fuel - 1);
          ReachableTrans(s, back, x, false, y, false, Outcomes(s, j, back, y, fuel - 1));
        }
      }
      IterateReachable(s, o.rest, j, back, x, fuel);
      AppendReachable(s, back, x, false, Iteration(s, y, j, back, x.pos, fuel),
                      Iterate(s, o.rest, j, back, x.pos, fuel));
    }
  }
}
