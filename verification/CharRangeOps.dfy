/** The CharRange type of libunicode: a growing array of boundary points, and the set operations on it. */
module CharRangeOps {
  import opened Limits
  import opened RangePoints
  import opened CharRangeSets

  datatype Op = Union | Inter | Xor

  /** `is_in` of cr_op, from the parities of the points consumed. */
  predicate Combine(op: Op, a: bool, b: bool) {
    match op
    case Union => a || b
    case Inter => a && b
    case Xor => a != b
  }

  /** A boundary array as the set operations take it: pairs of points in order. */
  predicate Sorted(s: seq<nat>) {
    NonDecreasing(s) && |s| % 2 == 0
  }

  // ----- cr_compress -----

  /** The points of `out` are all points of `s`. */
  ghost predicate PointsFrom(out: seq<nat>, s: seq<nat>) {
    forall k | 0 <= k < |out| :: out[k] in s
  }

  /** `out` is the compressed form of the part of `s` before `i`. */
  ghost predicate Compressed(out: seq<nat>, s: seq<nat>, i: nat)
    requires i <= |s|
  {
    && |out| % 2 == 0 && |out| <= i && i % 2 == 0
    && StrictlyIncreasing(out) && SameSet(out, s[..i])
    && (out != [] && i < |s| ==> out[|out| - 1] < s[i])
    && PointsFrom(out, s)
  }

  lemma SkipEmpty(out: seq<nat>, s: seq<nat>, i: nat)
    requires Sorted(s) && i + 1 < |s| && Compressed(out, s, i) && s[i] == s[i + 1]
    ensures Compressed(out, s, i + 2)
  {
    forall x: nat
      ensures Odd(out, x) == Odd(s[..i + 2], x)
    {
      OddTake(s, i, x);
      OddTake(s, i + 1, x);
    }
  }

  /** [s(i), s(j+1)) is the union of the intervals from `i` to `j`, each beginning where the last ended. */
  ghost predicate Chained(s: seq<nat>, i: nat, j: nat)
    requires i <= j && j + 2 <= |s|
  {
    forall x: nat :: Odd(s[..j + 2], x) == (Odd(s[..i], x) != ((s[i] <= x) != (s[j + 1] <= x)))
  }

  lemma ChainStarts(s: seq<nat>, i: nat)
    requires i + 1 < |s|
    ensures Chained(s, i, i)
  {
    forall x: nat
      ensures Odd(s[..i + 2], x) == (Odd(s[..i], x) != ((s[i] <= x) != (s[i + 1] <= x)))
    {
      OddTake(s, i, x);
      OddTake(s, i + 1, x);
    }
  }

  lemma ChainGrows(s: seq<nat>, i: nat, j: nat)
    requires i <= j && j + 3 < |s| && Chained(s, i, j) && s[j + 1] == s[j + 2]
    ensures Chained(s, i, j + 2)
  {
    forall x: nat
      ensures Odd(s[..j + 4], x) == (Odd(s[..i], x) != ((s[i] <= x) != (s[j + 3] <= x)))
    {
      OddTake(s, j + 2, x);
      OddTake(s, j + 3, x);
    }
  }

  lemma CopyInterval(out: seq<nat>, s: seq<nat>, i: nat, j: nat)
    requires Sorted(s) && i <= j && j + 1 < |s| && j % 2 == 0 && s[i] < s[i + 1]
    requires Compressed(out, s, i) && Chained(s, i, j) && (j + 3 >= |s| || s[j + 1] != s[j + 2])
    ensures Compressed(out + [s[i], s[j + 1]], s, j + 2)
  {
    var more := out + [s[i], s[j + 1]];
    assert s[i + 1] <= s[j + 1];
    forall x: nat
      ensures Odd(more, x) == Odd(s[..j + 2], x)
    {
      assert more == (out + [s[i]]) + [s[j + 1]];
      OddSnoc(out, s[i], x);
      OddSnoc(out + [s[i]], s[j + 1], x);
    }
    hide SameSet;
    assert StrictlyIncreasing(more);
  }

  lemma StrictStart(out: seq<nat>, s: seq<nat>, i: nat)
    requires Sorted(s) && i + 1 < |s| && s[i] != s[i + 1] && Compressed(out, s, i)
    ensures s[i] < s[i + 1] && i % 2 == 0 && |out| % 2 == 0
  {
  }

  lemma CompressStarts(s: seq<nat>)
    ensures Compressed([], s, 0)
  {
    assert s[..0] == [];
  }

  lemma CompressEnds(out: seq<nat>, s: seq<nat>)
    requires Compressed(out, s, |s|)
    ensures |out| % 2 == 0 && StrictlyIncreasing(out) && SameSet(out, s)
    ensures PointsFrom(out, s)
  {
    assert s[..|s|] == s;
  }

  lemma EvenLength(out: seq<nat>, s: seq<nat>, i: nat)
    requires Sorted(s) && i <= |s| && Compressed(out, s, i) && i + 1 >= |s|
    ensures i == |s|
  {
  }

  // ----- the merge of cr_op -----

  /** The merged part: what `r` denotes, and how it stands to the points not yet consumed. */
  ghost predicate Merged(op: Op, r: seq<nat>, a: seq<nat>, b: seq<nat>, i: nat, j: nat)
    requires i <= |a| && j <= |b|
  {
    && (|r| % 2 == 1 <==> Combine(op, i % 2 == 1, j % 2 == 1))
    && NonDecreasing(r)
    && (forall x: nat :: Odd(r, x) == Combine(op, Odd(a[..i], x), Odd(b[..j], x)))
    && forall v: nat | Pending(a, b, i, j, v) :: AllBelow(r, v) && AllBelow(a[..i], v) && AllBelow(b[..j], v)
  }

  /** A point still to be consumed. */
  ghost predicate Pending(a: seq<nat>, b: seq<nat>, i: nat, j: nat, v: nat)
    requires i <= |a| && j <= |b|
  {
    v in a[i..] || v in b[j..]
  }

  ghost predicate AllBelow(s: seq<nat>, v: nat) {
    forall k | 0 <= k < |s| :: s[k] <= v
  }

  /** The next point `v` of either or both arrays is consumed, and added when the status changes. */
  lemma MergePoint(op: Op, r: seq<nat>, a: seq<nat>, b: seq<nat>, i: nat, j: nat, i': nat, j': nat, v: nat)
    requires NonDecreasing(a) && NonDecreasing(b) && i <= i' <= |a| && j <= j' <= |b|
    requires Merged(op, r, a, b, i, j) && (i < i' || j < j')
    requires i' == i || (i' == i + 1 && a[i] == v)
    requires j' == j || (j' == j + 1 && b[j] == v)
    requires forall w: nat | Pending(a, b, i', j', w) :: v <= w
    ensures var more := if Combine(op, i' % 2 == 1, j' % 2 == 1) != (|r| % 2 == 1) then r + [v] else r;
            Merged(op, more, a, b, i', j')
  {
    var more := if Combine(op, i' % 2 == 1, j' % 2 == 1) != (|r| % 2 == 1) then r + [v] else r;
    assert Pending(a, b, i, j, v) by {
      assert i < i' ==> v == a[i..][0];
      assert j < j' ==> v == b[j..][0];
    }
    forall x: nat
      ensures Odd(more, x) == Combine(op, Odd(a[..i'], x), Odd(b[..j'], x))
    {
      MergedAt(op, r, more, a, b, i, j, i', j', v, x);
    }
    forall w: nat | Pending(a, b, i', j', w)
      ensures AllBelow(more, w) && AllBelow(a[..i'], w) && AllBelow(b[..j'], w)
    {
    }
  }

  lemma MergedAt(op: Op, r: seq<nat>, more: seq<nat>, a: seq<nat>, b: seq<nat>, i: nat, j: nat, i': nat, j': nat,
                 v: nat, x: nat)
    requires i <= i' <= |a| && j <= j' <= |b|
    requires |r| % 2 == 1 <==> Combine(op, i % 2 == 1, j % 2 == 1)
    requires Odd(r, x) == Combine(op, Odd(a[..i], x), Odd(b[..j], x))
    requires AllBelow(r, v) && AllBelow(a[..i], v) && AllBelow(b[..j], v)
    requires i' == i || (i' == i + 1 && a[i] == v)
    requires j' == j || (j' == j + 1 && b[j] == v)
    requires more == if Combine(op, i' % 2 == 1, j' % 2 == 1) != (|r| % 2 == 1) then r + [v] else r
    ensures Odd(more, x) == Combine(op, Odd(a[..i'], x), Odd(b[..j'], x))
  {
    hide Combine, Odd, AllBelow;
    if v <= x {
      OddUpTo(r, v, x);
      OddUpTo(a[..i], v, x);
      OddUpTo(b[..j], v, x);
      assert i < i' ==> a[..i'] == a[..i] + [v];
      assert j < j' ==> b[..j'] == b[..j] + [v];
    } else {
      OddSnoc(r, v, x);
      if i < i' {
        OddTake(a, i, x);
      }
      if j < j' {
        OddTake(b, j, x);
      }
    }
  }

  /** At or above all points, also when one more is added, the parity is that of the length. */
  lemma OddUpTo(s: seq<nat>, v: nat, x: nat)
    requires AllBelow(s, v) && v <= x
    ensures Odd(s, x) == (|s| % 2 == 1)
    ensures Odd(s + [v], x) == (|s| % 2 == 0)
  {
    OddBelow(s, x);
    OddSnoc(s, v, x);
  }

  /** `t` is the canonical array of the complement of `s` in [0, UINT32_MAX). */
  ghost predicate Complement(t: seq<nat>, s: seq<nat>) {
    Canonical(t) && forall x: nat :: Odd(t, x) <==> x < UINT32_MAX && !Odd(s, x)
  }

  class CharRange {
    var points: array<nat>
    var len: nat

    ghost predicate Valid()
      reads this
    {
      len <= points.Length
    }

    /** The points of the range. */
    function Contents(): seq<nat>
      reads this, points
      requires Valid()
    {
      points[..len]
    }

    /** cr_init. */
    constructor ()
      ensures Valid() && fresh(points) && Contents() == []
    {
      points := new nat[0];
      len := 0;
    }

    /** cr_realloc: grows by at least a half. */
    method Realloc(size: nat)
      requires Valid()
      modifies this
      ensures Valid() && points.Length >= size && Contents() == old(Contents()) && len == old(len)
      ensures points == old(points) || fresh(points)
    {
      if size > points.Length {
        var half := points.Length * 3 / 2;
        var newBuf := new nat[if size > half then size else half](_ => 0);
        forall i | 0 <= i < len {
          newBuf[i] := points[i];
        }
        assert newBuf[..len] == points[..len];
        points := newBuf;
      }
    }

    method AddPoint(v: nat)
      requires Valid()
      modifies this, points
      ensures Valid() && Contents() == old(Contents()) + [v]
      ensures points == old(points) || fresh(points)
    {
      if len >= points.Length {
        Realloc(len + 1);
      }
      points[len] := v;
      len := len + 1;
    }

    method AddInterval(c1: nat, c2: nat)
      requires Valid()
      modifies this, points
      ensures Valid() && Contents() == old(Contents()) + [c1, c2]
      ensures points == old(points) || fresh(points)
    {
      if len + 2 > points.Length {
        Realloc(len + 2);
      }
      points[len] := c1;
      points[len + 1] := c2;
      len := len + 2;
    }

    /** cr_copy. */
    method Copy(other: seq<nat>)
      requires Valid()
      modifies this, points
      ensures Valid() && Contents() == other
      ensures points == old(points) || fresh(points)
    {
      Realloc(|other|);
      forall i | 0 <= i < |other| {
        points[i] := other[i];
      }
      len := |other|;
    }

    /** The inner loop of cr_compress: the last interval of the chain that begins at `i`. */
    method ChainEnd(i: nat, n: nat, ghost s: seq<nat>) returns (j: nat)
      requires i + 1 < n == |s| <= points.Length && i % 2 == 0
      requires forall h | i <= h < n :: points[h] == s[h]
      ensures i <= j && j + 1 < n && j % 2 == 0 && Chained(s, i, j)
      ensures j + 3 < n ==> s[j + 1] != s[j + 2]
    {
      hide Chained;
      j := i;
      ChainStarts(s, i);
      while j + 3 < n && points[j + 1] == points[j + 2]
        invariant i <= j && j + 1 < n && j % 2 == 0 && Chained(s, i, j)
      {
        ChainGrows(s, i, j);
        j := j + 2;
      }
    }

    /** "just copy": the interval from point `i` to point `j` becomes the one at `k`. */
    method KeepInterval(k: nat, i: nat, j: nat)
      requires k <= i < j < points.Length
      modifies points
      ensures points[..k + 2] == old(points[..k] + [points[i], points[j]])
      ensures forall h | j < h < points.Length :: points[h] == old(points[h])
    {
      points[k] := points[i];
      points[k + 1] := points[j];
    }

    /** The loop of cr_compress over the first `n` points. */
    method MergeIntervals(n: nat, ghost s: seq<nat>) returns (k: nat)
      requires n <= points.Length && s == points[..n] && Sorted(s)
      modifies points
      ensures k <= n && Compressed(points[..k], s, n)
    {
      hide *;
      var i: nat := 0;
      k := 0;
      CompressStarts(s);
      while i + 1 < n
        invariant k <= i <= n <= points.Length
        invariant Compressed(points[..k], s, i)
        invariant forall h | i <= h < n :: points[h] == s[h]
      {
        if points[i] == points[i + 1] {
          SkipEmpty(points[..k], s, i);
          i := i + 2;
        } else {
          StrictStart(points[..k], s, i);
          var j := ChainEnd(i, n, s);
          CopyInterval(points[..k], s, i, j);
          KeepInterval(k, i, j + 1);
          k := k + 2;
          i := j + 2;
        }
      }
      EvenLength(points[..k], s, i);
    }

    /** cr_compress: merges adjacent intervals and drops empty ones, in place. */
    method Compress()
      requires Valid() && Sorted(Contents())
      modifies this`len, points
      ensures Valid() && |Contents()| % 2 == 0 && StrictlyIncreasing(Contents())
      ensures SameSet(Contents(), old(Contents()))
      ensures PointsFrom(Contents(), old(Contents()))
    {
      hide Compressed, Sorted, SameSet, PointsFrom, StrictlyIncreasing;
      ghost var s := Contents();
      len := MergeIntervals(len, s);
      CompressEnds(points[..len], s);
    }

    /** cr_op: merges two boundary arrays into this range, which is empty. */
    method Operate(a: seq<nat>, b: seq<nat>, op: Op)
      requires Valid() && Contents() == []
      requires Sorted(a) && Sorted(b)
      modifies this, points
      ensures Valid() && |Contents()| % 2 == 0 && StrictlyIncreasing(Contents())
      ensures forall x: nat :: Odd(Contents(), x) == Combine(op, Odd(a, x), Odd(b, x))
      ensures op == Union ==> forall x: nat :: In(Contents(), x) <==> In(a, x) || In(b, x)
      ensures op == Inter ==> forall x: nat :: In(Contents(), x) <==> In(a, x) && In(b, x)
      ensures op == Xor ==> forall x: nat :: In(Contents(), x) <==> In(a, x) != In(b, x)
      ensures PointsFrom(Contents(), a + b)
      ensures points == old(points) || fresh(points)
    {
      var i, j: nat := 0, 0;
      MergeStarts(op, a, b);
      while i < |a| || j < |b|
        invariant Valid() && 0 <= i <= |a| && j <= |b| && Merged(op, Contents(), a, b, i, j)
        invariant PointsFrom(Contents(), a + b)
        invariant points == old(points) || fresh(points)
        decreases |a| + |b| - i - j
      {
        hide Merged;
        ghost var r, i0, j0 := Contents(), i, j;
        var v;
        if j >= |b| || (i < |a| && a[i] < b[j]) {
          v := a[i];
          i := i + 1;
        } else if i >= |a| || b[j] < a[i] {
          v := b[j];
          j := j + 1;
        } else {
          v := a[i];
          i, j := i + 1, j + 1;
        }
        NextIsLeast(a, b, i0, j0, i, j, v);
        MergePoint(op, r, a, b, i0, j0, i, j, v);
        if Combine(op, i % 2 == 1, j % 2 == 1) != (len % 2 == 1) {
          AddPoint(v);
        }
      }
      assert a[..|a|] == a && b[..|b|] == b;
      ghost var r := Contents();
      assert Sorted(r);
      Compress();
      OperationIsPointwise(Contents(), a, b, op);
    }

    /** cr_union1. */
    method Union1(b: seq<nat>)
      requires Valid() && Sorted(Contents()) && Sorted(b)
      modifies this, points
      ensures Valid() && |Contents()| % 2 == 0 && StrictlyIncreasing(Contents())
      ensures forall x: nat :: Odd(Contents(), x) <==> old(Odd(Contents(), x)) || Odd(b, x)
      ensures PointsFrom(Contents(), old(Contents()) + b)
      ensures points == old(points) || fresh(points)
    {
      var a := Contents();
      len := 0;
      points := new nat[0];
      Operate(a, b, Union);
    }

    /** The points move up by one, between 0 and UINT32_MAX. */
    method Frame()
      requires Valid()
      modifies this, points
      ensures Valid() && Contents() == [0] + old(Contents()) + [UINT32_MAX]
      ensures points == old(points) || fresh(points)
    {
      var n := len;
      Realloc(n + 2);
      forall k | 0 <= k < n {
        points[k + 1] := points[k];
      }
      points[0] := 0;
      points[n + 1] := UINT32_MAX;
      len := n + 2;
    }

    /** cr_invert: the complement in [0, UINT32_MAX). */
    method Invert()
      requires Valid() && Sorted(Contents()) && forall i | 0 <= i < len :: points[i] <= UINT32_MAX
      modifies this, points
      ensures Valid() && Complement(Contents(), old(Contents()))
      ensures forall x: nat :: In(Contents(), x) <==> x < 0xffff_ffff && !In(old(Contents()), x)
      ensures points == old(points) || fresh(points)
    {
      ghost var s := Contents();
      Framed(s);
      hide Sorted, SameSet, PointsFrom, StrictlyIncreasing, Odd;
      Frame();
      Compress();
      Inverted(Contents(), s);
      ComplementIn(Contents(), s);
    }

    /** cr_union_interval: [c1, c2] is added, its end point `c2 + 1` computed in 32 bits. */
    method UnionInterval(c1: nat, c2: nat)
      requires Valid() && Sorted(Contents()) && c1 <= c2 < UINT32_MAX
      modifies this, points
      ensures Valid() && |Contents()| % 2 == 0 && StrictlyIncreasing(Contents())
      ensures forall x: nat :: Odd(Contents(), x) <==> old(Odd(Contents(), x)) || c1 <= x <= c2
      ensures points == old(points) || fresh(points)
    {
      IntervalDenoted(c1, c2);
      Union1(IntervalPoints(c1, c2));
    }
  }

  /** The points of cr_union_interval, the second one computed in 32 bits. */
  function IntervalPoints(c1: nat, c2: nat): seq<nat> {
    [c1, (c2 + 1) % 0x1_0000_0000]
  }

  ghost predicate Denotes(s: seq<nat>, c1: nat, c2: nat) {
    forall x: nat :: Odd(s, x) <==> c1 <= x <= c2
  }

  /** They denote [c1, c2] exactly if `c2 + 1` does not wrap around. */
  lemma IntervalDenoted(c1: nat, c2: nat)
    requires c1 <= c2 <= UINT32_MAX
    ensures Denotes(IntervalPoints(c1, c2), c1, c2) <==> c2 < UINT32_MAX
  {
    var b := IntervalPoints(c1, c2);
    forall x: nat
      ensures Odd(b, x) <==> (c1 <= x) != (b[1] <= x)
    {
      OddFrom(b, x);
    }
    if c2 == UINT32_MAX {
      assert b[1] == 0 && !Odd(b, c1);
    }
  }

  lemma MergeStarts(op: Op, a: seq<nat>, b: seq<nat>)
    ensures Merged(op, [], a, b, 0, 0)
  {
    assert a[..0] == [] && b[..0] == [];
  }

  lemma NextIsLeast(a: seq<nat>, b: seq<nat>, i: nat, j: nat, i': nat, j': nat, v: nat)
    requires NonDecreasing(a) && NonDecreasing(b) && i <= i' <= |a| && j <= j' <= |b|
    requires if j >= |b| || (i < |a| && a[i] < b[j]) then i < |a| && i' == i + 1 && j' == j && v == a[i]
             else if i >= |a| || b[j] < a[i] then i' == i && j' == j + 1 && v == b[j]
             else i' == i + 1 && j' == j + 1 && v == a[i]
    ensures forall w: nat | Pending(a, b, i', j', w) :: v <= w
  {
  }

  /** A range framed by 0 and UINT32_MAX denotes the complement. */
  lemma Framed(s: seq<nat>)
    requires Sorted(s) && forall i | 0 <= i < |s| :: s[i] <= UINT32_MAX
    ensures var t := [0] + s + [UINT32_MAX];
            Sorted(t) && forall x: nat :: Odd(t, x) <==> x < UINT32_MAX && !Odd(s, x)
  {
    var t := [0] + s + [UINT32_MAX];
    forall x: nat
      ensures Odd(t, x) <==> x < UINT32_MAX && !Odd(s, x)
    {
      OddSnoc([0] + s, UINT32_MAX, x);
      OddConcat([0], s, x);
      OddSnoc([], 0, x);
      assert [] + [0] == [0];
      if x >= UINT32_MAX {
        OddBelow(s, x);
      }
    }
  }

  /** A compressed framed range is the complement. */
  lemma Inverted(t: seq<nat>, s: seq<nat>)
    requires Sorted(s) && forall i | 0 <= i < |s| :: s[i] <= UINT32_MAX
    requires |t| % 2 == 0 && StrictlyIncreasing(t)
    requires SameSet(t, [0] + s + [UINT32_MAX]) && PointsFrom(t, [0] + s + [UINT32_MAX])
    ensures Complement(t, s)
  {
    hide Odd;
    Framed(s);
  }

  lemma ComplementIn(t: seq<nat>, s: seq<nat>)
    requires Complement(t, s) && Sorted(s)
    ensures forall x: nat :: In(t, x) <==> x < 0xffff_ffff && !In(s, x)
  {
    forall x: nat
      ensures In(t, x) == Odd(t, x) && In(s, x) == Odd(s, x)
    {
      InIsOdd(t, x);
      InIsOdd(s, x);
    }
    hide In, Odd, Canonical, Sorted;
  }

  // ----- laws -----

  /** The operations are those of sets: membership in the intervals of the result is the union, the
      intersection or the exclusive or of membership in those of the operands. */
  lemma OperationIsPointwise(r: seq<nat>, a: seq<nat>, b: seq<nat>, op: Op)
    requires Sorted(r) && Sorted(a) && Sorted(b)
    requires forall x: nat :: Odd(r, x) == Combine(op, Odd(a, x), Odd(b, x))
    ensures op == Union ==> forall x: nat :: In(r, x) <==> In(a, x) || In(b, x)
    ensures op == Inter ==> forall x: nat :: In(r, x) <==> In(a, x) && In(b, x)
    ensures op == Xor ==> forall x: nat :: In(r, x) <==> In(a, x) != In(b, x)
  {
    forall x: nat
      ensures In(r, x) == Odd(r, x) && In(a, x) == Odd(a, x) && In(b, x) == Odd(b, x)
    {
      InIsOdd(r, x);
      InIsOdd(a, x);
      InIsOdd(b, x);
    }
    hide Odd, In, Sorted;
  }

  /** Inverting a canonical range twice gives back the same array of points. */
  lemma ComplementTwice(s: seq<nat>, t: seq<nat>, u: seq<nat>)
    requires Canonical(s) && Complement(t, s) && Complement(u, t)
    ensures u == s
  {
    forall x: nat
      ensures Odd(u, x) == Odd(s, x)
    {
      if x >= UINT32_MAX {
        OddBelow(s, x);
      }
    }
    CanonicalUnique(u, s);
  }
}
