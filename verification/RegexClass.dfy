/** Character classes: how a canonical character range becomes a `range` or `range32`
    instruction, and the binary search with which the machine tests it. */
module RegexClass {
  import opened Limits
  import opened RegexCode
  import CR = RangePoints

  /** The pairs of the 16-bit form: inclusive bounds, 0xffff standing for infinity. */
  function Pack16(points: seq<nat>): (ps: seq<(nat, nat)>)
    requires CR.Canonical(points)
  {
    seq(|points| / 2, (i: nat) requires i < |points| / 2 =>
      assert points[2 * i] < points[2 * i + 1];
      (points[2 * i], if points[2 * i + 1] == UINT32_MAX then 0xffff else points[2 * i + 1] - 1))
  }

  /** The pairs of the 32-bit form: inclusive bounds. */
  function Pack32(points: seq<nat>): (ps: seq<(nat, nat)>)
    requires CR.Canonical(points)
  {
    seq(|points| / 2, (i: nat) requires i < |points| / 2 =>
      assert points[2 * i] < points[2 * i + 1];
      (points[2 * i], points[2 * i + 1] - 1))
  }

  /** The largest finite bound, which decides between the two forms. */
  function HighBound(points: seq<nat>): nat
    requires CR.Canonical(points) && points != []
  {
    var high := points[|points| - 1];
    if high == UINT32_MAX then points[|points| - 2] else high
  }

  /** re_emit_range. */
  function ClassInstr(points: seq<nat>): Instr
    requires CR.Canonical(points)
  {
    if points == [] then Char32(UINT32_MAX)
    else if HighBound(points) <= 0xffff then Range(Pack16(points))
    else Range32(Pack32(points))
  }

  /** The search loop of both range instructions. Its index never runs below zero, because the
      caller has already compared `c` with the first bound. */
  function BinarySearch(ps: seq<(nat, nat)>, c: nat, lo: nat, hi: nat): bool
    requires hi < |ps| && ps[0].0 <= c
    decreases hi + 1 - lo
  {
    if lo > hi then false
    else
      var idx := (lo + hi) / 2;
      if c < ps[idx].0 then BinarySearch(ps, c, lo, idx - 1)
      else if c > ps[idx].1 then (if idx + 1 > hi then false else BinarySearch(ps, c, idx + 1, hi))
      else true
  }

  /** REOP_range. */
  function RangeTest(ps: seq<(nat, nat)>, c: nat): bool
    requires ps != []
  {
    if c < ps[0].0 then false
    else if c >= 0xffff && ps[|ps| - 1].1 == 0xffff then true
    else if c > ps[|ps| - 1].1 then false
    else BinarySearch(ps, c, 0, |ps| - 1)
  }

  /** REOP_range32. */
  function Range32Test(ps: seq<(nat, nat)>, c: nat): bool
    requires ps != []
  {
    if c < ps[0].0 then false
    else if c > ps[|ps| - 1].1 then false
    else BinarySearch(ps, c, 0, |ps| - 1)
  }

  /** Sorted, disjoint, non-empty closed intervals. */
  ghost predicate SortedPairs(ps: seq<(nat, nat)>) {
    && (forall i | 0 <= i < |ps| :: ps[i].0 <= ps[i].1)
    && (forall i, j | 0 <= i < j < |ps| :: ps[i].1 < ps[j].0)
  }

  /** Binary search decides membership. */
  lemma {:induction false} SearchDecides(ps: seq<(nat, nat)>, c: nat, lo: nat, hi: nat)
    requires SortedPairs(ps) && lo <= hi < |ps| && ps[0].0 <= c
    ensures BinarySearch(ps, c, lo, hi) <==> exists i :: lo <= i <= hi && ps[i].0 <= c <= ps[i].1
    decreases hi - lo
  {
    var idx := (lo + hi) / 2;
    if c < ps[idx].0 {
      if lo <= idx - 1 {
        SearchDecides(ps, c, lo, idx - 1);
      }
    } else if c > ps[idx].1 {
      if idx + 1 <= hi {
        SearchDecides(ps, c, idx + 1, hi);
      }
    }
  }

  /** What the machine does with a class instruction and a character. */
  function Accepts(i: Instr, c: nat): bool
    requires i.Char32? || (i.Range? && i.ps != []) || (i.Range32? && i.ps != [])
  {
    match i
    case Char32(v) => v == c
    case Range(ps) => RangeTest(ps, c)
    case Range32(ps) => Range32Test(ps, c)
  }

  /** If the pairs of a sorted list cover what the intervals of `points` cover, up to `c`, the
      binary search decides membership of `c`. */
  lemma SearchIsMembership(points: seq<nat>, ps: seq<(nat, nat)>, c: nat)
    requires |ps| > 0 && |ps| == |points| / 2 && SortedPairs(ps) && ps[0].0 <= c
    requires forall i | 0 <= i < |ps| :: ps[i].0 <= c <= ps[i].1 <==> CR.Within(points, i, c)
    ensures BinarySearch(ps, c, 0, |ps| - 1) <==> CR.In(points, c)
  {
    SearchDecides(ps, c, 0, |ps| - 1);
    if CR.In(points, c) {
      var i: nat :| CR.Within(points, i, c);
      assert ps[i].0 <= c <= ps[i].1;
    }
  }

  lemma OutsideHull(points: seq<nat>, c: nat)
    requires CR.Canonical(points) && points != []
    requires c < points[0] || points[|points| - 1] <= c
    ensures !CR.In(points, c)
  {
    forall i: nat
      ensures !CR.Within(points, i, c)
    {
      assert 2 * i + 1 < |points| ==> points[0] <= points[2 * i] && points[2 * i + 1] <= points[|points| - 1];
    }
  }

  lemma Packed16(points: seq<nat>)
    requires CR.Canonical(points) && points != [] && HighBound(points) <= 0xffff
    ensures var ps := Pack16(points);
            SortedPairs(ps) && forall p | p in ps :: p.0 < 0x1_0000 && p.1 < 0x1_0000
  {
    var ps := Pack16(points);
    forall i | 0 <= i < |ps|
      ensures ps[i].0 <= ps[i].1 < 0x1_0000
      ensures forall j | i < j < |ps| :: ps[i].1 < ps[j].0
    {
      assert points[2 * i] < points[2 * i + 1] <= points[|points| - 1];
      forall j | i < j < |ps|
        ensures ps[i].1 < ps[j].0
      {
        assert points[2 * i + 1] < points[2 * j] < points[2 * j + 1];
      }
    }
  }

  /** A pair of the 16-bit form covers what its interval covers below 0xffff. */
  lemma PairIsInterval16(points: seq<nat>, c: nat, i: nat)
    requires CR.Canonical(points) && points != [] && HighBound(points) <= 0xffff && c < 0xffff && i < |points| / 2
    ensures Pack16(points)[i].0 <= c <= Pack16(points)[i].1 <==> CR.Within(points, i, c)
  {
  }

  lemma Accepts16(points: seq<nat>, c: nat)
    requires CR.Canonical(points) && points != [] && c < UINT32_MAX
    requires HighBound(points) <= 0xffff
    ensures RangeTest(Pack16(points), c) <==> CR.In(points, c)
  {
    Packed16(points);
    var ps := Pack16(points);
    var n := |ps|;
    var last := points[2 * (n - 1) + 1];
    if c < points[0] || last <= c {
      OutsideHull(points, c);
    } else if c >= 0xffff {
      assert CR.Within(points, n - 1, c);
    } else {
      forall i | 0 <= i < n
        ensures ps[i].0 <= c <= ps[i].1 <==> CR.Within(points, i, c)
      {
        PairIsInterval16(points, c, i);
      }
      hide CR.Within, CR.Canonical, SortedPairs;
      SearchIsMembership(points, ps, c);
    }
  }

  lemma Packed32(points: seq<nat>)
    requires CR.Canonical(points)
    ensures var ps := Pack32(points);
            SortedPairs(ps) && forall p | p in ps :: p.0 <= UINT32_MAX && p.1 <= UINT32_MAX
  {
    var ps := Pack32(points);
    forall i | 0 <= i < |ps|
      ensures ps[i].0 <= ps[i].1 <= UINT32_MAX
      ensures forall j | i < j < |ps| :: ps[i].1 < ps[j].0
    {
      assert points[2 * i] < points[2 * i + 1];
      forall j | i < j < |ps|
        ensures ps[i].1 < ps[j].0
      {
        assert points[2 * i + 1] < points[2 * j];
      }
    }
  }

  lemma Accepts32(points: seq<nat>, c: nat)
    requires CR.Canonical(points) && points != []
    ensures Range32Test(Pack32(points), c) <==> CR.In(points, c)
  {
    Packed32(points);
    var ps := Pack32(points);
    if c < points[0] || points[|points| - 1] <= c {
      OutsideHull(points, c);
    } else {
      forall i | 0 <= i < |ps|
        ensures ps[i].0 <= c <= ps[i].1 <==> CR.Within(points, i, c)
      {
      }
      SearchIsMembership(points, ps, c);
    }
  }

  /** Round trip of a class: for every canonical range and every character, the emitted instruction,
      in whichever of its three forms, accepts exactly the members; and it fits its fields. */
  lemma ClassRoundTrip(points: seq<nat>, c: nat)
    requires CR.Canonical(points) && |points| / 2 < 0xffff && c < UINT32_MAX
    ensures Accepts(ClassInstr(points), c) <==> CR.In(points, c)
    ensures Fits(ClassInstr(points))
  {
    if points == [] {
      assert !CR.In(points, c);
    } else if HighBound(points) <= 0xffff {
      Packed16(points);
      Accepts16(points, c);
    } else {
      Packed32(points);
      Accepts32(points, c);
    }
  }
}
