/** Back references: they match exactly where the captured text repeats. */
module RegexReference {
  import opened Options
  import opened RegexText
  import opened RegexMatcher
  import opened RegexProgress

  /** The characters of [a, b), canonicalised. */
  function Folded(s: Subject, a: nat, b: nat): (r: seq<nat>)
    requires b <= s.Len()
    ensures a < b <==> r != []
    decreases b - a
  {
    if a >= b then [] else [s.fl.Fold(s.text.Get(a).0)] + Folded(s, s.text.Get(a).1, b)
  }

  /** Text between boundaries ends with the character in front of its end. */
  lemma {:induction false} FoldedSnoc(s: Subject, a: nat, b: nat)
    requires s.text.Boundary(a) && s.text.Boundary(b) && a < b
    ensures Folded(s, a, b) == Folded(s, a, s.text.Back(b)) + [s.fl.Fold(s.text.PrevChar(b))]
    decreases b - a
  {
    var next := s.text.Get(a).1;
    BackUndoesGet(s.text, a);
    GetUndoesBack(s.text, b);
    NextBoundary(s.text, a, b);
    PrevBoundary(s.text, a, b);
    if next < b {
      FoldedSnoc(s, next, b);
      PrevBoundary(s.text, next, b);
    } else {
      assert Folded(s, next, b) == [];
    }
  }

  /** The forward loop stops at `q` exactly if the text up to there is the captured one. */
  lemma {:induction false} ForwardRepeats(s: Subject, p: nat, end: nat, pos: nat, q: nat)
    requires s.text.Boundary(p) && s.text.Boundary(end) && s.text.Boundary(pos)
    ensures RefForward(s, p, end, pos) == Some(q) <==>
            pos <= q && s.text.Boundary(q) && Folded(s, pos, q) == Folded(s, p, end)
    decreases end - p
  {
    if p < end && pos < s.Len() {
      var next, next1 := s.text.Get(pos).1, s.text.Get(p).1;
      BackUndoesGet(s.text, p);
      BackUndoesGet(s.text, pos);
      NextBoundary(s.text, p, end);
      ForwardRepeats(s, next1, end, next, q);
      if pos < q && s.text.Boundary(q) {
        NextBoundary(s.text, pos, q);
        HeadAndTail(s.fl.Fold(s.text.Get(pos).0), Folded(s, next, q), s.fl.Fold(s.text.Get(p).0), Folded(s, next1, end));
      }
    }
  }

  lemma HeadAndTail(x: nat, a: seq<nat>, y: nat, b: seq<nat>)
    ensures [x] + a == [y] + b <==> x == y && a == b
    ensures a + [x] == b + [y] <==> x == y && a == b
  {
    if [x] + a == [y] + b {
      assert ([x] + a)[0] == ([y] + b)[0] && ([x] + a)[1..] == a && ([y] + b)[1..] == b;
    }
    if a + [x] == b + [y] {
      assert (a + [x])[|a|] == x && (b + [y])[|b|] == y && |a + [x]| == |b + [y]|;
      assert (a + [x])[..|a|] == a && (b + [y])[..|b|] == b;
    }
  }

  /** The backward loop stops at `q` exactly if the text from there is the captured one. */
  lemma {:induction false} BackwardRepeats(s: Subject, p: nat, start: nat, pos: nat, q: nat)
    requires s.text.Boundary(p) && s.text.Boundary(start) && s.text.Boundary(pos)
    ensures RefBackward(s, p, start, pos) == Some(q) <==>
            q <= pos && s.text.Boundary(q) && Folded(s, q, pos) == Folded(s, start, p)
    decreases p
  {
    if start < p && pos > 0 {
      var next, next1 := s.text.Back(pos), s.text.Back(p);
      GetUndoesBack(s.text, p);
      GetUndoesBack(s.text, pos);
      PrevBoundary(s.text, start, p);
      FoldedSnoc(s, start, p);
      BackwardRepeats(s, next1, start, next, q);
      if q < pos && s.text.Boundary(q) {
        PrevBoundary(s.text, q, pos);
        FoldedSnoc(s, q, pos);
        HeadAndTail(s.fl.Fold(s.text.PrevChar(pos)), Folded(s, q, next), s.fl.Fold(s.text.PrevChar(p)), Folded(s, start, next1));
      }
    }
  }

  /** A back reference to capture `n` may take the matcher from `x` to `q`: the text between the two,
      canonicalised, is the captured text; a capture that is not set stands for the empty text. */
  ghost predicate Repeats(s: Subject, n: nat, back: bool, x: St, q: nat)
    requires 2 * n + 1 < |x.caps| && CapturesOk(s, x) && s.text.Boundary(x.pos)
  {
    if x.caps[2 * n].None? || x.caps[2 * n + 1].None? then q == x.pos
    else
      var captured := Folded(s, x.caps[2 * n].value, x.caps[2 * n + 1].value);
      s.text.Boundary(q) && (if back then q <= x.pos && Folded(s, q, x.pos) == captured
                             else x.pos <= q && Folded(s, x.pos, q) == captured)
  }

  /** A back reference matches exactly where the captured text repeats. */
  lemma RefRepeats(s: Subject, n: nat, back: bool, x: St, q: nat)
    requires 2 * n + 1 < |x.caps| && CapturesOk(s, x) && s.text.Boundary(x.pos)
    ensures RefMatch(s, n, back, x) == Some(q) <==> Repeats(s, n, back, x, q)
  {
    if x.caps[2 * n].Some? && x.caps[2 * n + 1].Some? {
      var start, end := x.caps[2 * n].value, x.caps[2 * n + 1].value;
      ForwardRepeats(s, start, end, x.pos, q);
      BackwardRepeats(s, end, start, x.pos, q);
    }
  }

  /** The same for all ends at once. */
  lemma RepetitionFound(s: Subject, n: nat, back: bool, x: St)
    ensures 2 * n + 1 < |x.caps| && CapturesOk(s, x) && s.text.Boundary(x.pos) ==>
            forall q: nat :: RefMatch(s, n, back, x) == Some(q) <==> Repeats(s, n, back, x, q)
  {
    hide RefMatch, Repeats, CapturesOk;
    if 2 * n + 1 < |x.caps| && CapturesOk(s, x) && s.text.Boundary(x.pos) {
      forall q: nat
        ensures RefMatch(s, n, back, x) == Some(q) <==> Repeats(s, n, back, x, q)
      {
        RefRepeats(s, n, back, x, q);
      }
    }
  }
}
