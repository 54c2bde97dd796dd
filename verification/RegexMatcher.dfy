/** The meaning of patterns: an ordered backtracking matcher on syntax trees. */
module RegexMatcher {
  import opened Limits
  import opened Options
  import opened RegexText
  import opened RegexCode
  import opened RegexPattern
  import CR = RangePoints

  /** A match state: the position and the capture pointers, two to a capture. */
  datatype St = St(pos: nat, caps: seq<Option<nat>>) {
    function Save(i: nat): St {
      if i < |caps| then this.(caps := caps[i := Some(pos)]) else this
    }

    /** The captures lo, ..., hi - 1 forgotten. */
    function Forget(lo: nat, hi: nat): St {
      this.(caps := seq(|caps|, (i: nat) requires i < |caps| => if 2 * lo <= i < 2 * hi then None else caps[i]))
    }
  }

  /** What is matched: the text and the flags. */
  datatype Subject = Subject(fl: Flags, text: Text) {
    function Len(): nat {
      |text.units|
    }
  }

  /** Canonicalised characters of the text are code points. */
  ghost predicate SubjectOk(s: Subject) {
    forall i: nat | i < s.Len() :: s.fl.Fold(s.text.Get(i).0) < UINT32_MAX
  }

  /** The outcomes of a match attempt in order of preference. The list ends in `Done` when there are no
      more outcomes, and in `Stuck` when a loop without an empty-iteration check has used up its budget
      of iterations that do not advance. */
  datatype Outs = Done | Stuck | More(x: St, rest: Outs)

  function Append(a: Outs, b: Outs): Outs {
    match a
    case Done => b
    case Stuck => Stuck
    case More(x, rest) => More(x, Append(rest, b))
  }

  function Only(x: St): Outs {
    More(x, Done)
  }

  // ----- single steps -----

  ghost predicate AtomAccepts(s: Subject, a: Atom, c: nat) {
    match a
    case Lit(v) => s.fl.Fold(v) == s.fl.Fold(c)
    case AnyChar => s.fl.dotall || !IsLineTerminator(c)
    case Class(points) => CR.In(points, s.fl.Fold(c))
  }

  ghost function AtomOuts(s: Subject, a: Atom, back: bool, x: St): Outs {
    if x.pos > s.Len() then Done
    else if back then
      if x.pos == 0 then Done
      else
        var p := s.text.Back(x.pos);
        if AtomAccepts(s, a, s.text.Get(p).0) then Only(x.(pos := p)) else Done
    else
      if x.pos == s.Len() then Done
      else
        var (c, p) := s.text.Get(x.pos);
        if AtomAccepts(s, a, c) then Only(x.(pos := p)) else Done
  }

  predicate AssertHolds(s: Subject, kind: AssertKind, pos: nat) {
    && pos <= s.Len()
    && match kind
       case LineStart => pos == 0 || (s.fl.multiline && IsLineTerminator(s.text.PrevChar(pos)))
       case LineEnd => pos == s.Len() || (s.fl.multiline && IsLineTerminator(s.text.Get(pos).0))
       case WordBoundary => WordBefore(s, pos) != WordAfter(s, pos)
       case NotWordBoundary => WordBefore(s, pos) == WordAfter(s, pos)
  }

  predicate WordBefore(s: Subject, pos: nat)
    requires pos <= s.Len()
  {
    pos != 0 && IsWordChar(s.text.PrevChar(pos))
  }

  predicate WordAfter(s: Subject, pos: nat)
    requires pos <= s.Len()
  {
    pos < s.Len() && IsWordChar(s.text.Get(pos).0)
  }

  /** The forward loop of a back reference: compares the captured text from `p` to `end` with the text
      at `pos`; the result is the position after it. A pair is not read across `end`. */
  function RefForward(s: Subject, p: nat, end: nat, pos: nat): (r: Option<nat>)
    requires pos <= s.Len() && end <= s.Len()
    ensures r.Some? ==> pos <= r.value <= s.Len()
    decreases end - p
  {
    if p >= end then Some(pos)
    else if pos >= s.Len() then None
    else
      var (c1, p1) := if s.text.PairAt(p) && p + 1 == end then (s.text.units[p], p + 1) else s.text.Get(p);
      var (c2, pos1) := s.text.Get(pos);
      if s.fl.Fold(c1) == s.fl.Fold(c2) then RefForward(s, p1, end, pos1) else None
  }

  /** The backward loop, from `p` down to `start`. A pair is not read across `start`. */
  function RefBackward(s: Subject, p: nat, start: nat, pos: nat): (r: Option<nat>)
    requires pos <= s.Len() && p <= s.Len()
    ensures r.Some? ==> r.value <= pos
    decreases p
  {
    if p <= start then Some(pos)
    else if pos == 0 then None
    else
      var whole := p - 1 > start || !s.text.PairAt(p - 2);
      var c1 := if whole then s.text.PrevChar(p) else s.text.units[p - 1];
      var p1 := if whole then s.text.Back(p) else p - 1;
      if s.fl.Fold(c1) == s.fl.Fold(s.text.PrevChar(pos)) then RefBackward(s, p1, start, s.text.Back(pos))
      else None
  }

  /** A back reference to a capture that is not set matches the empty string. */
  function RefMatch(s: Subject, n: nat, back: bool, x: St): (r: Option<nat>)
    ensures r.Some? && x.pos <= s.Len() ==> r.value <= s.Len()
  {
    if x.pos > s.Len() || 2 * n + 1 >= |x.caps| then None
    else if x.caps[2 * n].None? || x.caps[2 * n + 1].None? then Some(x.pos)
    else
      var start, end := x.caps[2 * n].value, x.caps[2 * n + 1].value;
      if end > s.Len() then None
      else if back then RefBackward(s, end, start, x.pos)
      else RefForward(s, start, end, x.pos)
  }

  // ----- which loops are guarded against empty iterations -----

  /** The captures a pattern sets or resets, as far as the code generator looks. */
  function Sets(e: Re): set<nat> {
    match e
    case Seq(l, r) => Sets(l) + Sets(r)
    case Either(l, r) => Sets(l) + Sets(r)
    case Group(b) => Sets(b)
    case Capture(n, b) => {n} + Sets(b)
    case Around(_, _, b) => Sets(b)
    case Quant(b, min, max, _, lo, hi) =>
      (if min == 0 && lo < hi then Interval(lo, hi - 1) else {}) + (if max == 0 then {} else Sets(b))
    case _ => {}
  }

  /** The captures a pattern refers back to. */
  function Refs(e: Re): set<nat> {
    match e
    case Ref(n) => {n}
    case Seq(l, r) => Refs(l) + Refs(r)
    case Either(l, r) => Refs(l) + Refs(r)
    case Group(b) => Refs(b)
    case Capture(_, b) => Refs(b)
    case Around(_, _, b) => Refs(b)
    case Quant(b, _, max, _, _, _) => if max == 0 then {} else Refs(b)
    case _ => {}
  }

  /** An iteration that consumes nothing ends the loop, except in lazy loops and in loops whose atom
      refers back to a capture it sets itself. */
  predicate Guarded(e: Re, greedy: bool) {
    greedy && Sets(e) * Refs(e) == {}
  }

  // ----- the matcher -----

  /** The pieces of work the matcher does: a pattern, or (part of) a repetition of one. */
  datatype Job =
    | Sub(e: Re)
    | Times(e: Re, k: nat)
    | UpTo(e: Re, k: nat, greedy: bool)
    | Star(e: Re, greedy: bool, check: bool)
  {
    function Tag(): nat {
      if Sub? then 0 else 1
    }

    function Count(): nat {
      if Times? || UpTo? then k else 0
    }
  }

  predicate Advanced(s: Subject, back: bool, from: nat, to: nat) {
    from <= s.Len() && to <= s.Len() && (if back then to < from else from < to)
  }

  function Room(s: Subject, back: bool, pos: nat): (r: nat)
    ensures r <= s.Len()
  {
    if pos > s.Len() then s.Len() else if back then pos else s.Len() - pos
  }

  /** The outcomes of `j` from `x`. `fuel` bounds the iterations without advance of unguarded loops. */
  ghost function Outcomes(s: Subject, j: Job, back: bool, x: St, fuel: nat): Outs
    decreases j.e, j.Tag(), j.Count(), fuel, Room(s, back, x.pos), 2
  {
    match j
    case Times(e, k) =>
      if k == 0 then Only(x)
      else if k == 1 then Outcomes(s, Sub(e), back, x, fuel)
      else Then(s, Outcomes(s, Sub(e), back, x, fuel), Times(e, k - 1), back, fuel)
    case UpTo(e, k, greedy) =>
      if k == 0 then Only(x)
      else
        var o := Outcomes(s, Sub(e), back, x, fuel);
        var again := if k == 1 then o else Then(s, o, UpTo(e, k - 1, greedy), back, fuel);
        if greedy then Append(again, Only(x)) else More(x, again)
    case Star(e, greedy, check) =>
      var again := Iterate(s, Outcomes(s, Sub(e), back, x, fuel), j, back, x.pos, fuel);
      if greedy then Append(again, Only(x)) else More(x, again)
    case Sub(e) =>
      match e
      case Empty => Only(x)
      case One(a) => AtomOuts(s, a, back, x)
      case Test(kind) => if AssertHolds(s, kind, x.pos) then Only(x) else Done
      case Ref(n) =>
        var r := RefMatch(s, n, back, x);
        if r.Some? then Only(x.(pos := r.value)) else Done
      case Seq(l, r) =>
        if back then Then(s, Outcomes(s, Sub(r), back, x, fuel), Sub(l), back, fuel)
        else Then(s, Outcomes(s, Sub(l), back, x, fuel), Sub(r), back, fuel)
      case Either(l, r) => Append(Outcomes(s, Sub(l), back, x, fuel), Outcomes(s, Sub(r), back, x, fuel))
      case Group(b) => Outcomes(s, Sub(b), back, x, fuel)
      case Capture(n, b) =>
        var first, last := if back then 2 * n + 1 else 2 * n, if back then 2 * n else 2 * n + 1;
        SaveAll(Outcomes(s, Sub(b), back, x.Save(first), fuel), last)
      case Around(neg, behind, b) => Decide(neg, Outcomes(s, Sub(b), behind, x, fuel), x)
      case Quant(b, min, max, greedy, lo, hi) =>
        var x0 := if min == 0 then x.Forget(lo, hi) else x;
        if max == 0 then Only(x0)
        else if min == 0 then Outcomes(s, Tail(b, min, max, greedy), back, x0, fuel)
        else
          var o := Outcomes(s, Times(b, min), back, x0, fuel);
          if min == max && max != INT32_MAX then o else Then(s, o, Tail(b, min, max, greedy), back, fuel)
  }

  /** The optional iterations after the first `min`. */
  function Tail(b: Re, min: nat, max: nat, greedy: bool): (j: Job)
    ensures j.e == b
  {
    if max == INT32_MAX then Star(b, greedy, Guarded(b, greedy))
    else UpTo(b, if max > min then max - min else 0, greedy)
  }

  /** Each outcome in turn continued with `j`. */
  ghost function Then(s: Subject, o: Outs, j: Job, back: bool, fuel: nat): Outs
    decreases j.e, j.Tag(), j.Count(), fuel, s.Len() + 1, 0, o
  {
    match o
    case Done => Done
    case Stuck => Stuck
    case More(y, rest) => Append(Outcomes(s, j, back, y, fuel), Then(s, rest, j, back, fuel))
  }

  /** Each outcome of one iteration of the loop `j` that began at `from` continued with more iterations. */
  ghost function Iterate(s: Subject, o: Outs, j: Job, back: bool, from: nat, fuel: nat): Outs
    requires j.Star?
    decreases j.e, j.Tag(), j.Count(), fuel, Room(s, back, from), 1, o
  {
    match o
    case Done => Done
    case Stuck => Stuck
    case More(y, rest) => Append(Iteration(s, y, j, back, from, fuel), Iterate(s, rest, j, back, from, fuel))
  }

  ghost function Iteration(s: Subject, y: St, j: Job, back: bool, from: nat, fuel: nat): Outs
    requires j.Star?
    decreases j.e, j.Tag(), j.Count(), fuel, Room(s, back, from), 0
  {
    if j.check && y.pos == from then Only(y)
    else if Advanced(s, back, from, y.pos) then Outcomes(s, j, back, y, fuel)
    else if fuel == 0 then Stuck
    else Outcomes(s, j, back, y, fuel - 1)
  }

  function SaveAll(o: Outs, i: nat): Outs {
    match o
    case Done => Done
    case Stuck => Stuck
    case More(y, rest) => More(y.Save(i), SaveAll(rest, i))
  }

  /** A lookaround commits to the first outcome inside. A positive one keeps its captures. */
  function Decide(neg: bool, inside: Outs, x: St): Outs {
    match inside
    case Stuck => Stuck
    case Done => if neg then Only(x) else Done
    case More(y, _) => if neg then Done else Only(x.(caps := y.caps))
  }
}
