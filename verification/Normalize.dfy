/** unicode_normalize: decomposition, canonical ordering and composition. The character database is a
    parameter. */
module Normalize {

  /** The character database: combining classes, decompositions (empty when there is none, with a rank that
      bounds their nesting) and composition of pairs (0 when there is none) apart from Hangul. */
  datatype Database = Database(cc: nat -> nat, decomp: (nat, bool) -> seq<nat>, pair: (nat, nat) -> nat,
                               rank: nat -> nat)

  // ----- canonical ordering -----

  predicate Starter(cc: nat -> nat, c: nat) {
    cc(c) == 0
  }

  /** Classes do not decrease. */
  ghost predicate InOrder(cc: nat -> nat, s: seq<nat>) {
    forall i, j | 0 <= i < j < |s| :: cc(s[i]) <= cc(s[j])
  }

  /** The characters of class `v`, in the order in which they occur. */
  function OfClass(cc: nat -> nat, s: seq<nat>, v: nat): seq<nat> {
    if s == [] then []
    else
      var n := |s| - 1;
      OfClass(cc, s[..n], v) + if cc(s[n]) == v then [s[n]] else []
  }

  /** `t` has the characters of `s`, those of the same class in the same order. */
  ghost predicate SameClasses(cc: nat -> nat, s: seq<nat>, t: seq<nat>) {
    |s| == |t| && forall v: nat :: OfClass(cc, s, v) == OfClass(cc, t, v)
  }

  /** `t` is the stable sort of `s` by class. */
  ghost predicate StableSorted(cc: nat -> nat, s: seq<nat>, t: seq<nat>) {
    InOrder(cc, t) && SameClasses(cc, s, t)
  }

  lemma OfClassSnoc(cc: nat -> nat, s: seq<nat>, x: nat, v: nat)
    ensures OfClass(cc, s + [x], v) == OfClass(cc, s, v) + if cc(x) == v then [x] else []
  {
    assert (s + [x])[..|s|] == s;
  }

  lemma {:induction false} OfClassConcat(cc: nat -> nat, s: seq<nat>, t: seq<nat>, v: nat)
    ensures OfClass(cc, s + t, v) == OfClass(cc, s, v) + OfClass(cc, t, v)
  {
    if t == [] {
      assert s + t == s;
    } else {
      var n := |t| - 1;
      assert s + t == (s + t[..n]) + [t[n]];
      OfClassSnoc(cc, s + t[..n], t[n], v);
      OfClassConcat(cc, s, t[..n], v);
    }
  }

  lemma {:induction false} OfClassEmpty(cc: nat -> nat, s: seq<nat>, v: nat)
    requires forall i | 0 <= i < |s| :: cc(s[i]) != v
    ensures OfClass(cc, s, v) == []
  {
    if s != [] {
      OfClassEmpty(cc, s[..|s| - 1], v);
    }
  }

  /** The stable sort is unique. */
  lemma {:induction false} StableSortUnique(cc: nat -> nat, s: seq<nat>, t: seq<nat>, u: seq<nat>)
    requires StableSorted(cc, s, t) && StableSorted(cc, s, u)
    ensures t == u
    decreases |t|
  {
    if t != [] {
      var n := |t| - 1;
      assert t == t[..n] + [t[n]] && u == u[..n] + [u[n]];
      LastIsGreatest(cc, t, u);
      LastIsGreatest(cc, u, t);
      forall v: nat
        ensures OfClass(cc, t[..n], v) == OfClass(cc, u[..n], v)
      {
        assert OfClass(cc, t, v) == OfClass(cc, s, v) == OfClass(cc, u, v);
        SameButLast(cc, t, u, v);
      }
      assert t[n] == u[n] by {
        assert OfClass(cc, t, cc(t[n])) == OfClass(cc, s, cc(t[n])) == OfClass(cc, u, cc(t[n]));
        SameButLast(cc, t, u, cc(t[n]));
      }
      StableSortUnique(cc, t[..n], t[..n], u[..n]);
    }
  }

  lemma SameButLast(cc: nat -> nat, t: seq<nat>, u: seq<nat>, v: nat)
    requires |t| == |u| > 0 && cc(t[|t| - 1]) == cc(u[|u| - 1]) && OfClass(cc, t, v) == OfClass(cc, u, v)
    ensures OfClass(cc, t[..|t| - 1], v) == OfClass(cc, u[..|u| - 1], v)
    ensures v == cc(t[|t| - 1]) ==> t[|t| - 1] == u[|u| - 1]
  {
    var n := |t| - 1;
    var (a, b) := (OfClass(cc, t[..n], v), OfClass(cc, u[..n], v));
    if v == cc(t[n]) {
      assert a + [t[n]] == b + [u[n]];
      assert a == (a + [t[n]])[..|a|] && b == (b + [u[n]])[..|b|];
      assert (a + [t[n]])[|a|] == t[n] && (b + [u[n]])[|b|] == u[n];
    } else {
      assert a + [] == a && b + [] == b;
    }
  }

  lemma LastIsGreatest(cc: nat -> nat, t: seq<nat>, u: seq<nat>)
    requires InOrder(cc, u) && t != [] && SameClasses(cc, t, u)
    ensures cc(t[|t| - 1]) <= cc(u[|u| - 1])
  {
    var x := t[|t| - 1];
    if cc(x) > cc(u[|u| - 1]) {
      OfClassEmpty(cc, u, cc(x));
    }
  }

  /** Insertion from the right, behind everything of the same or a lower class. */
  function Insert(cc: nat -> nat, r: seq<nat>, x: nat): (s: seq<nat>)
    ensures |s| == |r| + 1
  {
    if r == [] || cc(r[|r| - 1]) <= cc(x) then r + [x]
    else Insert(cc, r[..|r| - 1], x) + [r[|r| - 1]]
  }

  lemma {:induction false} InsertInOrder(cc: nat -> nat, r: seq<nat>, x: nat)
    requires InOrder(cc, r)
    ensures InOrder(cc, Insert(cc, r, x))
    ensures forall i | 0 <= i <= |r| :: Insert(cc, r, x)[i] == x || Insert(cc, r, x)[i] in r
  {
    if r != [] && cc(r[|r| - 1]) > cc(x) {
      InsertInOrder(cc, r[..|r| - 1], x);
    }
  }

  lemma {:induction false} InsertKeepsClasses(cc: nat -> nat, r: seq<nat>, x: nat, v: nat)
    ensures OfClass(cc, Insert(cc, r, x), v) == OfClass(cc, r, v) + if cc(x) == v then [x] else []
  {
    if r == [] || cc(r[|r| - 1]) <= cc(x) {
      OfClassSnoc(cc, r, x, v);
    } else {
      var n := |r| - 1;
      InsertKeepsClasses(cc, r[..n], x, v);
      OfClassSnoc(cc, Insert(cc, r[..n], x), r[n], v);
    }
  }

  lemma InsertSorts(cc: nat -> nat, s: seq<nat>, r: seq<nat>, x: nat)
    requires StableSorted(cc, s, r)
    ensures StableSorted(cc, s + [x], Insert(cc, r, x))
  {
    InsertInOrder(cc, r, x);
    forall v: nat
      ensures OfClass(cc, s + [x], v) == OfClass(cc, Insert(cc, r, x), v)
    {
      OfClassSnoc(cc, s, x, v);
      InsertKeepsClasses(cc, r, x, v);
    }
  }

  /** [a, b) is a maximal run of non-starters. */
  ghost predicate Run(cc: nat -> nat, s: seq<nat>, a: nat, b: nat) {
    && a < b <= |s|
    && (forall i | a <= i < b :: !Starter(cc, s[i]))
    && (a == 0 || Starter(cc, s[a - 1])) && (b == |s| || Starter(cc, s[b]))
  }

  /** Canonical ordering up to `n`: starters stay, and every maximal run of non-starters is stably sorted. */
  ghost predicate Reordered(cc: nat -> nat, s: seq<nat>, t: seq<nat>, n: nat) {
    && |s| == |t| && n <= |s|
    && (forall i | 0 <= i < n && Starter(cc, s[i]) :: t[i] == s[i])
    && (forall i | n <= i < |s| :: t[i] == s[i])
    && (forall a: nat, b: nat | Run(cc, s, a, b) && b <= n :: StableSorted(cc, s[a..b], t[a..b]))
  }

  lemma InsertShift(cc: nat -> nat, r: seq<nat>, x: nat, m: nat)
    requires 0 < m <= |r| && cc(r[m - 1]) > cc(x)
    ensures Insert(cc, r[..m], x) + r[m..] == Insert(cc, r[..m - 1], x) + r[m - 1..]
  {
    var q := r[..m];
    assert q[..|q| - 1] == r[..m - 1] && [q[|q| - 1]] + r[m..] == r[m - 1..];
    assert (Insert(cc, r[..m - 1], x) + [q[|q| - 1]]) + r[m..] == Insert(cc, r[..m - 1], x) + ([q[|q| - 1]] + r[m..]);
  }

  lemma InsertHere(cc: nat -> nat, r: seq<nat>, x: nat, m: nat)
    requires m <= |r| && (m == 0 || cc(r[m - 1]) <= cc(x))
    ensures Insert(cc, r[..m], x) + r[m..] == r[..m] + [x] + r[m..]
  {
  }

  /** `bs` is `before`, the first `m` elements of `r`, a gap, the others, and `after`. */
  ghost predicate Shifted(bs: seq<nat>, before: seq<nat>, r: seq<nat>, m: nat, after: seq<nat>)
    requires m <= |r|
  {
    && |bs| == |before| + |r| + 1 + |after|
    && bs[..|before| + m] == before + r[..m]
    && bs[|before| + m + 1..] == r[m..] + after
  }

  lemma ShiftStarts(bs: seq<nat>, start: nat, j: nat)
    requires start <= j < |bs|
    ensures Shifted(bs, bs[..start], bs[start..j], j - start, bs[j + 1..])
  {
  }

  /** One step of the shifting loop: the last of the elements before the gap moves up. */
  lemma ShiftStep(bs: seq<nat>, before: seq<nat>, r: seq<nat>, m: nat, after: seq<nat>)
    requires 0 < m <= |r| && Shifted(bs, before, r, m, after)
    ensures var k := |before| + m - 1;
            k + 1 < |bs| && bs[k] == r[m - 1] && Shifted(bs[k + 1 := bs[k]], before, r, m - 1, after)
  {
    var k := |before| + m - 1;
    assert bs[k] == bs[..k + 1][k];
    var cs := bs[k + 1 := bs[k]];
    assert cs[..k] == bs[..k + 1][..k];
    assert cs[k + 1..] == [bs[k]] + bs[k + 2..];
    assert r[m - 1..] == [r[m - 1]] + r[m..];
  }

  lemma ShiftEnds(bs: seq<nat>, before: seq<nat>, r: seq<nat>, m: nat, after: seq<nat>, c: nat)
    requires m <= |r| && Shifted(bs, before, r, m, after)
    ensures bs[|before| + m := c] == before + (r[..m] + [c] + r[m..]) + after
  {
    var p := |before| + m;
    assert bs[p := c] == bs[..p] + [c] + bs[p + 1..];
  }

  /** An assignment to the array. */
  method Put(buf: array<nat>, k: nat, c: nat)
    requires k < buf.Length
    modifies buf
    ensures buf[..] == old(buf[..])[k := c]
  {
    buf[k] := c;
  }

  /** The shifting loop: what is of a higher class than the character moves up, from `j - 1` down to `k + 1`. */
  method ShiftRun(buf: array<nat>, start: nat, j: nat, cc: nat -> nat, ghost r: seq<nat>) returns (k: int, ghost m: nat)
    requires start <= j < buf.Length && r == buf[..][start..j]
    modifies buf
    ensures start - 1 <= k < j && m == k + 1 - start && m <= |r|
    ensures Shifted(buf[..], old(buf[..])[..start], r, m, old(buf[..])[j + 1..])
    ensures Insert(cc, r, old(buf[j])) == r[..m] + [old(buf[j])] + r[m..]
  {
    hide *;
    ghost var before, after := buf[..][..start], buf[..][j + 1..];
    var ch1 := buf[j];
    k, m := j - 1, |r|;
    ShiftStarts(buf[..], start, j);
    assert r[m..] == [] && r[..m] == r;
    while k >= start && cc(buf[k]) > cc(ch1)
      invariant start - 1 <= k < j && m == k + 1 - start && |before| == start && m <= |r|
      invariant Shifted(buf[..], before, r, m, after)
      invariant Insert(cc, r, ch1) == Insert(cc, r[..m], ch1) + r[m..]
    {
      ShiftStep(buf[..], before, r, m, after);
      assert buf[k] == buf[..][k];
      InsertShift(cc, r, ch1, m);
      Put(buf, k + 1, buf[k]);
      m := m - 1;
      k := k - 1;
    }
    if m > 0 {
      ShiftStep(buf[..], before, r, m, after);
      assert buf[k] == buf[..][k];
    }
    InsertHere(cc, r, ch1, m);
  }

  /** The character at `j` is inserted into the sorted run before it. */
  method InsertChar(buf: array<nat>, start: nat, j: nat, cc: nat -> nat)
    requires start <= j < buf.Length
    modifies buf
    ensures buf[..] == old(buf[..])[..start] + Insert(cc, old(buf[..])[start..j], old(buf[j])) + old(buf[..])[j + 1..]
  {
    hide *;
    ghost var bs := buf[..];
    var ch1 := buf[j];
    var k, m := ShiftRun(buf, start, j, cc, bs[start..j]);
    ShiftEnds(buf[..], bs[..start], bs[start..j], m, bs[j + 1..], ch1);
    Put(buf, k + 1, ch1);
  }

  /** Only the stretch [start, j) differs. */
  ghost predicate Untouched(s: seq<nat>, t: seq<nat>, start: nat, j: nat) {
    |s| == |t| && forall h | 0 <= h < |s| && !(start <= h < j) :: t[h] == s[h]
  }

  lemma InsertedAt(cc: nat -> nat, s: seq<nat>, t: seq<nat>, start: nat, j: nat)
    requires start <= j < |s|
    requires t == s[..start] + Insert(cc, s[start..j], s[j]) + s[j + 1..]
    ensures Untouched(s, t, start, j + 1) && t[start..j + 1] == Insert(cc, s[start..j], s[j])
  {
    InsertLength(cc, s[start..j], s[j]);
    hide Insert;
  }

  lemma {:induction false} InsertLength(cc: nat -> nat, r: seq<nat>, x: nat)
    ensures |Insert(cc, r, x)| == |r| + 1
  {
    if r != [] && cc(r[|r| - 1]) > cc(x) {
      InsertLength(cc, r[..|r| - 1], x);
    }
  }

  /** The run sorted so far, and the next character inserted into it. */
  lemma SortedMore(cc: nat -> nat, s: seq<nat>, t: seq<nat>, u: seq<nat>, start: nat, j: nat)
    requires start < j < |s| && Untouched(s, t, start, j) && !Starter(cc, s[j])
    requires StableSorted(cc, s[start..j], t[start..j])
    requires u == t[..start] + Insert(cc, t[start..j], t[j]) + t[j + 1..]
    ensures Untouched(s, u, start, j + 1) && StableSorted(cc, s[start..j + 1], u[start..j + 1])
  {
    InsertedAt(cc, t, u, start, j);
    InsertSorts(cc, s[start..j], t[start..j], t[j]);
    assert s[start..j + 1] == s[start..j] + [s[j]];
    hide Insert, StableSorted;
  }

  lemma OneSorted(cc: nat -> nat, s: seq<nat>, start: nat)
    requires start < |s|
    ensures StableSorted(cc, s[start..start + 1], s[start..start + 1]) && Untouched(s, s, start, start + 1)
  {
  }

  lemma UntouchedAt(s: seq<nat>, t: seq<nat>, start: nat, j: nat)
    requires Untouched(s, t, start, j)
    ensures |s| == |t| && forall h | 0 <= h < |s| && !(start <= h < j) :: t[h] == s[h]
  {
  }

  /** The loop over one run of non-starters, which is sorted in place. */
  method SortRun(buf: array<nat>, start: nat, cc: nat -> nat) returns (j: nat)
    requires start < buf.Length && !Starter(cc, buf[start])
    modifies buf
    ensures start < j <= buf.Length
    ensures forall h | 0 <= h < start || j <= h < buf.Length :: buf[h] == old(buf[h])
    ensures forall h | start <= h < j :: !Starter(cc, old(buf[h]))
    ensures j == buf.Length || Starter(cc, buf[j])
    ensures StableSorted(cc, old(buf[start..j]), buf[start..j])
  {
    hide *;
    j := start + 1;
    ghost var s := buf[..];
    OneSorted(cc, s, start);
    while j < buf.Length && !Starter(cc, buf[j])
      invariant start < j <= buf.Length && Untouched(s, buf[..], start, j)
      invariant forall h | start <= h < j :: !Starter(cc, s[h])
      invariant StableSorted(cc, s[start..j], buf[..][start..j])
    {
      ghost var t := buf[..];
      UntouchedAt(s, t, start, j);
      InsertChar(buf, start, j, cc);
      SortedMore(cc, s, t, buf[..], start, j);
      j := j + 1;
    }
    UntouchedAt(s, buf[..], start, j);
    assert forall h | 0 <= h < buf.Length :: buf[h] == buf[..][h];
    assert buf[start..j] == buf[..][start..j];
  }

  lemma RunGrows(cc: nat -> nat, s: seq<nat>, t: seq<nat>, u: seq<nat>, i: nat, j: nat)
    requires Reordered(cc, s, t, i) && i < j <= |s| == |u|
    requires i == 0 || Starter(cc, s[i - 1])
    requires forall h | 0 <= h < i || j <= h < |s| :: u[h] == t[h]
    requires forall h | i <= h < j :: !Starter(cc, s[h])
    requires j == |s| || Starter(cc, s[j])
    requires StableSorted(cc, s[i..j], u[i..j])
    ensures Reordered(cc, s, u, j)
    ensures j < |s| ==> Reordered(cc, s, u, j + 1)
  {
    hide StableSorted;
    forall a: nat, b: nat | Run(cc, s, a, b) && b <= j + 1
      ensures StableSorted(cc, s[a..b], u[a..b])
    {
      if b <= i {
        assert u[a..b] == t[a..b];
      } else {
        assert a == i && b == j;
      }
    }
  }

  lemma StarterStays(cc: nat -> nat, s: seq<nat>, t: seq<nat>, i: nat)
    requires Reordered(cc, s, t, i) && i < |s| && Starter(cc, s[i])
    ensures Reordered(cc, s, t, i + 1)
  {
    hide StableSorted;
  }

  /** sort_cc. */
  method SortCc(buf: array<nat>, cc: nat -> nat)
    modifies buf
    ensures Reordered(cc, old(buf[..]), buf[..], buf.Length)
  {
    ghost var s := buf[..];
    var i: nat := 0;
    hide StableSorted;
    while i < buf.Length
      invariant 0 < i <= buf.Length ==> Starter(cc, s[i - 1])
      invariant Reordered(cc, s, buf[..], if i <= buf.Length then i else buf.Length)
    {
      if cc(buf[i]) != 0 {
        ghost var t := buf[..];
        var j := SortRun(buf, i, cc);
        assert s[i..j] == t[i..j];
        RunGrows(cc, s, t, buf[..], i, j);
        i := j;
      } else {
        StarterStays(cc, s, buf[..], i);
      }
      i := i + 1;
    }
  }

  /** The maximal run around a non-starter. */
  lemma RunAround(cc: nat -> nat, s: seq<nat>, i: nat) returns (a: nat, b: nat)
    requires i < |s| && !Starter(cc, s[i])
    ensures a <= i < b && Run(cc, s, a, b)
  {
    a, b := i, i + 1;
    while a > 0 && !Starter(cc, s[a - 1])
      invariant a <= i && forall h | a <= h <= i :: !Starter(cc, s[h])
    {
      a := a - 1;
    }
    while b < |s| && !Starter(cc, s[b])
      invariant i < b <= |s| && forall h | a <= h < b :: !Starter(cc, s[h])
    {
      b := b + 1;
    }
  }

  /** The canonical order of a string is unique. */
  lemma CanonicalOrderUnique(cc: nat -> nat, s: seq<nat>, t: seq<nat>, u: seq<nat>)
    requires Reordered(cc, s, t, |s|) && Reordered(cc, s, u, |s|)
    ensures t == u
  {
    hide StableSorted;
    forall i | 0 <= i < |s|
      ensures t[i] == u[i]
    {
      if !Starter(cc, s[i]) {
        var a, b := RunAround(cc, s, i);
        StableSortUnique(cc, s[a..b], t[a..b], u[a..b]);
        assert t[i] == t[a..b][i - a] && u[i] == u[a..b][i - a];
      }
    }
  }

  /** Canonical order: of two neighbours that are no starters, the second has no lower class. */
  ghost predicate Ordered(cc: nat -> nat, s: seq<nat>) {
    forall i | 0 < i < |s| && !Starter(cc, s[i - 1]) && !Starter(cc, s[i]) :: cc(s[i - 1]) <= cc(s[i])
  }

  lemma SameClassesMember(cc: nat -> nat, s: seq<nat>, t: seq<nat>, k: nat)
    requires SameClasses(cc, s, t) && k < |t| && forall i | 0 <= i < |s| :: !Starter(cc, s[i])
    ensures !Starter(cc, t[k])
  {
    if Starter(cc, t[k]) {
      OfClassEmpty(cc, s, 0);
      assert OfClass(cc, s, 0) == OfClass(cc, t, 0);
      assert t == t[..k] + ([t[k]] + t[k + 1..]);
      OfClassConcat(cc, t[..k], [t[k]] + t[k + 1..], 0);
      OfClassConcat(cc, [t[k]], t[k + 1..], 0);
    }
  }

  /** What sort_cc produces is in canonical order, and has its starters where they were. */
  lemma ReorderedIsOrdered(cc: nat -> nat, s: seq<nat>, t: seq<nat>)
    requires Reordered(cc, s, t, |s|)
    ensures Ordered(cc, t)
    ensures forall i | 0 <= i < |s| :: Starter(cc, t[i]) <==> Starter(cc, s[i])
  {
    hide SameClasses, InOrder;
    forall i | 0 <= i < |s| && !Starter(cc, s[i])
      ensures !Starter(cc, t[i])
      ensures 0 < i && !Starter(cc, s[i - 1]) ==> cc(t[i - 1]) <= cc(t[i])
    {
      var a, b := RunAround(cc, s, i);
      RunOrdered(cc, s, t, a, b, i);
    }
  }

  lemma RunOrdered(cc: nat -> nat, s: seq<nat>, t: seq<nat>, a: nat, b: nat, i: nat)
    requires |s| == |t| && Run(cc, s, a, b) && a <= i < b && StableSorted(cc, s[a..b], t[a..b])
    ensures !Starter(cc, t[i])
    ensures 0 < i && !Starter(cc, s[i - 1]) ==> cc(t[i - 1]) <= cc(t[i])
  {
    SameClassesMember(cc, s[a..b], t[a..b], i - a);
    assert t[i] == t[a..b][i - a];
    if 0 < i && !Starter(cc, s[i - 1]) {
      assert a < i && t[i - 1] == t[a..b][i - 1 - a];
    }
  }

  /** A string in canonical order is its own canonical order. */
  lemma OrderedStays(cc: nat -> nat, s: seq<nat>, t: seq<nat>)
    requires Ordered(cc, s) && Reordered(cc, s, t, |s|)
    ensures t == s
  {
    forall a: nat, b: nat | Run(cc, s, a, b)
      ensures StableSorted(cc, s[a..b], s[a..b])
    {
      RunInOrder(cc, s, a, b);
    }
    CanonicalOrderUnique(cc, s, t, s);
  }

  lemma {:induction false} RunInOrder(cc: nat -> nat, s: seq<nat>, a: nat, b: nat)
    requires Ordered(cc, s) && a <= b <= |s| && forall i | a <= i < b :: !Starter(cc, s[i])
    ensures InOrder(cc, s[a..b])
    decreases b - a
  {
    if a < b {
      RunInOrder(cc, s, a, b - 1);
      var (r, q) := (s[a..b], s[a..b - 1]);
      forall i, j | 0 <= i < j < |r|
        ensures cc(r[i]) <= cc(r[j])
      {
        assert r[i] == q[i];
        if j < |q| {
          assert r[j] == q[j];
        } else {
          assert cc(s[b - 2]) <= cc(s[b - 1]) && s[b - 2] == q[|q| - 1];
        }
      }
    }
  }
}
