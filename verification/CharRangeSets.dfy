/** What boundary arrays denote: parity of the points at or below a value, and uniqueness of the
    canonical form. */
module CharRangeSets {
  import opened RangePoints

  /** An odd number of points is at or below `x`. */
  predicate Odd(points: seq<nat>, x: nat) {
    if points == [] then false
    else
      var n := |points| - 1;
      Odd(points[..n], x) != (points[n] <= x)
  }

  lemma OddSnoc(s: seq<nat>, v: nat, x: nat)
    ensures Odd(s + [v], x) == (Odd(s, x) != (v <= x))
  {
    assert (s + [v])[..|s|] == s;
  }

  lemma OddTake(s: seq<nat>, i: nat, x: nat)
    requires i < |s|
    ensures Odd(s[..i + 1], x) == (Odd(s[..i], x) != (s[i] <= x))
  {
    assert s[..i + 1] == s[..i] + [s[i]];
    OddSnoc(s[..i], s[i], x);
  }

  /** With all points at or below `x`, the parity is that of the length. */
  lemma {:induction false} OddBelow(s: seq<nat>, x: nat)
    requires forall i | 0 <= i < |s| :: s[i] <= x
    ensures Odd(s, x) == (|s| % 2 == 1)
  {
    if s != [] {
      OddBelow(s[..|s| - 1], x);
    }
  }

  lemma {:induction false} OddAbove(s: seq<nat>, x: nat)
    requires forall i | 0 <= i < |s| :: x < s[i]
    ensures !Odd(s, x)
  {
    if s != [] {
      OddAbove(s[..|s| - 1], x);
    }
  }

  lemma {:induction false} OddConcat(s: seq<nat>, t: seq<nat>, x: nat)
    ensures Odd(s + t, x) == (Odd(s, x) != Odd(t, x))
  {
    if t == [] {
      assert s + t == s;
    } else {
      var n := |t| - 1;
      assert s + t == (s + t[..n]) + [t[n]];
      OddSnoc(s + t[..n], t[n], x);
      OddConcat(s, t[..n], x);
    }
  }

  /** The two readings of a boundary array agree: parity, and membership in one of its intervals. */
  lemma {:induction false} InIsOdd(s: seq<nat>, x: nat)
    requires NonDecreasing(s) && |s| % 2 == 0
    ensures In(s, x) <==> Odd(s, x)
  {
    if s != [] {
      var n := |s| - 2;
      var t := s[..n];
      InIsOdd(t, x);
      OddTake(s, n, x);
      OddTake(s, n + 1, x);
      assert s[..n + 2] == s;
      LastInterval(s, x);
      if s[n] <= x < s[n + 1] {
        OddBelow(t, x);
      }
    }
  }

  lemma LastInterval(s: seq<nat>, x: nat)
    requires |s| % 2 == 0 && |s| >= 2
    ensures In(s, x) <==> In(s[..|s| - 2], x) || s[|s| - 2] <= x < s[|s| - 1]
  {
    var t := s[..|s| - 2];
    if In(s, x) {
      var i: nat :| Within(s, i, x);
      if 2 * i + 1 < |t| {
        assert Within(t, i, x);
      }
    }
    if In(t, x) {
      var i: nat :| Within(t, i, x);
      assert Within(s, i, x);
    }
    if s[|s| - 2] <= x < s[|s| - 1] {
      assert Within(s, |s| / 2 - 1, x);
    }
  }

  ghost predicate SameSet(s: seq<nat>, t: seq<nat>) {
    forall x: nat :: Odd(s, x) == Odd(t, x)
  }

  lemma OddFrom(s: seq<nat>, x: nat)
    requires |s| >= 2
    ensures Odd(s, x) == (Odd(s[2..], x) != ((s[0] <= x) != (s[1] <= x)))
  {
    assert s == [s[0], s[1]] + s[2..];
    OddConcat([s[0], s[1]], s[2..], x);
    OddSnoc([], s[0], x);
    OddSnoc([s[0]], s[1], x);
    assert [] + [s[0]] == [s[0]] && [s[0]] + [s[1]] == [s[0], s[1]];
  }

  /** Two canonical arrays with the same members are the same array. */
  lemma {:induction false} CanonicalUnique(s: seq<nat>, t: seq<nat>)
    requires Canonical(s) && Canonical(t) && SameSet(s, t)
    ensures s == t
    decreases |s|
  {
    hide Odd;
    if s == [] {
      if t != [] {
        FirstIn(t);
        OddAbove(s, t[0]);
      }
    } else if t == [] {
      FirstIn(s);
      OddAbove(t, s[0]);
    } else {
      FirstIn(s);
      FirstIn(t);
      if s[0] < t[0] {
        OddAbove(t, s[0]);
      }
      if t[0] < s[0] {
        OddAbove(s, t[0]);
      }
      assert s[0] == t[0];
      SecondOut(s);
      SecondOut(t);
      if s[1] < t[1] {
        BetweenFirst(t, s[1]);
      }
      if t[1] < s[1] {
        BetweenFirst(s, t[1]);
      }
      assert s[1] == t[1];
      SameTails(s, t);
      CanonicalUnique(s[2..], t[2..]);
      assert s == [s[0], s[1]] + s[2..] && t == [t[0], t[1]] + t[2..];
    }
  }

  lemma SameTails(s: seq<nat>, t: seq<nat>)
    requires |s| >= 2 && |t| >= 2 && SameSet(s, t) && s[0] == t[0] && s[1] == t[1]
    ensures SameSet(s[2..], t[2..])
  {
    forall x: nat
      ensures Odd(s[2..], x) == Odd(t[2..], x)
    {
      OddFrom(s, x);
      OddFrom(t, x);
    }
  }

  lemma FirstIn(s: seq<nat>)
    requires Canonical(s) && s != []
    ensures Odd(s, s[0])
  {
    BetweenFirst(s, s[0]);
  }

  lemma BetweenFirst(s: seq<nat>, x: nat)
    requires Canonical(s) && s != [] && s[0] <= x < s[1]
    ensures Odd(s, x)
  {
    OddFrom(s, x);
    OddAbove(s[2..], x);
  }

  lemma SecondOut(s: seq<nat>)
    requires Canonical(s) && s != []
    ensures !Odd(s, s[1])
  {
    OddFrom(s, s[1]);
    OddAbove(s[2..], s[1]);
  }
}
