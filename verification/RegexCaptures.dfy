/** A pattern changes no capture but its own. */
module RegexCaptures {
  import opened RegexPattern
  import opened RegexMatcher

  /** The pattern never writes capture `n`. */
  predicate Leaves(e: Re, n: nat) {
    match e
    case Seq(l, r) => Leaves(l, n) && Leaves(r, n)
    case Either(l, r) => Leaves(l, n) && Leaves(r, n)
    case Group(b) => Leaves(b, n)
    case Capture(k, b) => k != n && Leaves(b, n)
    case Around(_, _, b) => Leaves(b, n)
    case Quant(b, _, _, _, lo, hi) => !(lo <= n < hi) && Leaves(b, n)
    case _ => true
  }

  predicate Keeps(x: St, i: nat, y: St) {
    |y.caps| == |x.caps| && (i < |x.caps| ==> y.caps[i] == x.caps[i])
  }

  predicate AllKeep(x: St, i: nat, o: Outs) {
    o.More? ==> Keeps(x, i, o.x) && AllKeep(x, i, o.rest)
  }

  lemma {:induction false} AppendKeeps(x: St, i: nat, a: Outs, b: Outs)
    requires AllKeep(x, i, a) && AllKeep(x, i, b)
    ensures AllKeep(x, i, Append(a, b))
  {
    if a.More? {
      AppendKeeps(x, i, a.rest, b);
    }
  }

  lemma {:induction false} KeepsTrans(x: St, i: nat, y: St, o: Outs)
    requires Keeps(x, i, y) && AllKeep(y, i, o)
    ensures AllKeep(x, i, o)
    decreases o
  {
    if o.More? {
      KeepsTrans(x, i, y, o.rest);
    }
  }

  lemma {:induction false} SaveAllKeeps(x: St, i: nat, o: Outs, k: nat)
    requires AllKeep(x, i, o) && k != i
    ensures AllKeep(x, i, SaveAll(o, k))
  {
    if o.More? {
      SaveAllKeeps(x, i, o.rest, k);
    }
  }

  /** Whatever a job does, it leaves alone the captures that do not occur in its pattern. */
  lemma {:induction false} OutcomesKeep(s: Subject, j: Job, back: bool, x: St, fuel: nat, i: nat)
    requires Leaves(j.e, i / 2)
    ensures AllKeep(x, i, Outcomes(s, j, back, x, fuel))
    decreases j.e, j.Tag(), j.Count(), fuel, Room(s, back, x.pos), 2
  {
    match j
    case Times(e, k) =>
      if k > 0 {
        OutcomesKeep(s, Sub(e), back, x, fuel, i);
        if k > 1 {
          ThenKeeps(s, Outcomes(s, Sub(e), back, x, fuel), Times(e, k - 1), back, fuel, x, i);
        }
      }
    case UpTo(e, k, greedy) =>
      if k > 0 {
        OutcomesKeep(s, Sub(e), back, x, fuel, i);
        var o := Outcomes(s, Sub(e), back, x, fuel);
        if k > 1 {
          ThenKeeps(s, o, UpTo(e, k - 1, greedy), back, fuel, x, i);
        }
        AppendKeeps(x, i, if k == 1 then o else Then(s, o, UpTo(e, k - 1, greedy), back, fuel), Only(x));
      }
    case Star(e, greedy, check) =>
      OutcomesKeep(s, Sub(e), back, x, fuel, i);
      var o := Outcomes(s, Sub(e), back, x, fuel);
      IterateKeeps(s, o, j, back, x, fuel, x.pos, i);
      AppendKeeps(x, i, Iterate(s, o, j, back, x.pos, fuel), Only(x));
    case Sub(e) => SubKeeps(s, e, back, x, fuel, i);
  }

  lemma {:induction false} SubKeeps(s: Subject, e: Re, back: bool, x: St, fuel: nat, i: nat)
    requires Leaves(e, i / 2)
    ensures AllKeep(x, i, Outcomes(s, Sub(e), back, x, fuel))
    decreases e, 0, 0, fuel, Room(s, back, x.pos), 1
  {
    match e
    case Empty =>
    case One(_) =>
    case Test(_) =>
    case Ref(_) =>
    case Seq(l, r) =>
      var (first, second) := if back then (r, l) else (l, r);
      OutcomesKeep(s, Sub(first), back, x, fuel, i);
      ThenKeeps(s, Outcomes(s, Sub(first), back, x, fuel), Sub(second), back, fuel, x, i);
    case Either(l, r) =>
      OutcomesKeep(s, Sub(l), back, x, fuel, i);
      OutcomesKeep(s, Sub(r), back, x, fuel, i);
      AppendKeeps(x, i, Outcomes(s, Sub(l), back, x, fuel), Outcomes(s, Sub(r), back, x, fuel));
    case Group(b) =>
      OutcomesKeep(s, Sub(b), back, x, fuel, i);
    case Capture(n, b) =>
      var (first, last) := if back then (2 * n + 1, 2 * n) else (2 * n, 2 * n + 1);
      OutcomesKeep(s, Sub(b), back, x.Save(first), fuel, i);
      KeepsTrans(x, i, x.Save(first), Outcomes(s, Sub(b), back, x.Save(first), fuel));
      SaveAllKeeps(x, i, Outcomes(s, Sub(b), back, x.Save(first), fuel), last);
    case Around(_, behind, b) =>
      OutcomesKeep(s, Sub(b), behind, x, fuel, i);
    case Quant(b, min, max, greedy, lo, hi) =>
      var x0 := if min == 0 then x.Forget(lo, hi) else x;
      var t := Tail(b, min, max, greedy);
      if max > 0 && min == 0 {
        OutcomesKeep(s, t, back, x0, fuel, i);
        KeepsTrans(x, i, x0, Outcomes(s, t, back, x0, fuel));
      } else if max > 0 {
        OutcomesKeep(s, Times(b, min), back, x, fuel, i);
        ThenKeeps(s, Outcomes(s, Times(b, min), back, x, fuel), t, back, fuel, x, i);
      }
  }

  lemma {:induction false} ThenKeeps(s: Subject, o: Outs, j: Job, back: bool, fuel: nat, x: St, i: nat)
    requires Leaves(j.e, i / 2) && AllKeep(x, i, o)
    ensures AllKeep(x, i, Then(s, o, j, back, fuel))
    decreases j.e, j.Tag(), j.Count(), fuel, s.Len() + 1, 0, o
  {
    if o.More? {
      OutcomesKeep(s, j, back, o.x, fuel, i);
      KeepsTrans(x, i, o.x, Outcomes(s, j, back, o.x, fuel));
      ThenKeeps(s, o.rest, j, back, fuel, x, i);
      AppendKeeps(x, i, Outcomes(s, j, back, o.x, fuel), Then(s, o.rest, j, back, fuel));
    }
  }

  lemma {:induction false} IterateKeeps(s: Subject, o: Outs, j: Job, back: bool, x: St, fuel: nat, from: nat, i: nat)
    requires j.Star? && Leaves(j.e, i / 2) && AllKeep(x, i, o)
    ensures AllKeep(x, i, Iterate(s, o, j, back, from, fuel))
    decreases j.e, j.Tag(), j.Count(), fuel, Room(s, back, from), 1, o
  {
    if o.More? {
      var y := o.x;
      if !(j.check && y.pos == from) {
        if Advanced(s, back, from, y.pos) {
          OutcomesKeep(s, j, back, y, fuel, i);
          KeepsTrans(x, i, y, Outcomes(s, j, back, y, fuel));
        } else if fuel > 0 {
          OutcomesKeep(s, j, back, y, fuel - 1, i);
          KeepsTrans(x, i, y, Outcomes(s, j, back, y, fuel - 1));
        }
      }
      IterateKeeps(s, o.rest, j, back, x, fuel, from, i);
      AppendKeeps(x, i, Iteration(s, y, j, back, from, fuel), Iterate(s, o.rest, j, back, from, fuel));
    }
  }

  /** Captures numbered from `cc` on leave the earlier ones alone. */
  lemma {:induction false} NumberedLeaves(e: Re, cc: nat, n: nat)
    requires Numbered(e, cc) && n < cc
    ensures Leaves(e, n)
  {
    match e
    case Seq(l, r) => NumberedLeaves(l, cc, n); NumberedLeaves(r, cc + Captures(l), n);
    case Either(l, r) => NumberedLeaves(l, cc, n); NumberedLeaves(r, cc + Captures(l), n);
    case Group(b) => NumberedLeaves(b, cc, n);
    case Capture(_, b) => NumberedLeaves(b, cc + 1, n);
    case Around(_, _, b) => NumberedLeaves(b, cc, n);
    case Quant(b, _, _, _, _, _) => NumberedLeaves(b, cc, n);
    case _ =>
  }
}
