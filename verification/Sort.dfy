/** rqsort of cutils.c: a three-way quicksort over an explicit stack of 50 entries, with heapsort as its
    fallback and insertion sort for short stretches. The comparison is any total preorder. */
module Sort {

  /** The sign convention of a comparison callback: it orders all values, ties allowed. */
  ghost predicate TotalPreorder<T(!new)>(cmp: (T, T) -> int) {
    && (forall x, y :: cmp(x, y) <= 0 <==> cmp(y, x) >= 0)
    && (forall x, y, z :: cmp(x, y) <= 0 && cmp(y, z) <= 0 ==> cmp(x, z) <= 0)
  }

  predicate Leq<T>(cmp: (T, T) -> int, x: T, y: T) {
    cmp(x, y) <= 0
  }

  lemma Transitive<T(!new)>(cmp: (T, T) -> int, x: T, y: T, z: T)
    requires TotalPreorder(cmp) && Leq(cmp, x, y) && Leq(cmp, y, z)
    ensures Leq(cmp, x, z)
  {
  }

  lemma Reversed<T(!new)>(cmp: (T, T) -> int, x: T, y: T)
    requires TotalPreorder(cmp)
    ensures cmp(x, y) <= 0 <==> cmp(y, x) >= 0
    ensures cmp(x, y) < 0 <==> cmp(y, x) > 0
    ensures Leq(cmp, x, y) || Leq(cmp, y, x)
  {
  }

  ghost predicate SortedRange<T>(cmp: (T, T) -> int, s: seq<T>, lo: nat, hi: nat)
    requires hi <= |s|
  {
    forall i, j | lo <= i < j < hi :: Leq(cmp, s[i], s[j])
  }

  // ----- permutations of a stretch -----

  /** `t` is `s` with the elements of [lo, hi) rearranged. */
  ghost predicate Permutes<T>(s: seq<T>, t: seq<T>, lo: nat, hi: nat) {
    && lo <= hi <= |s| == |t|
    && s[..lo] == t[..lo] && s[hi..] == t[hi..]
    && multiset(s[lo..hi]) == multiset(t[lo..hi])
  }

  function Swapped<T>(s: seq<T>, i: nat, j: nat): (t: seq<T>)
    requires i < |s| && j < |s|
  {
    s[i := s[j]][j := s[i]]
  }

  lemma SwapPermutes<T>(s: seq<T>, i: nat, j: nat, lo: nat, hi: nat)
    requires lo <= i < hi <= |s| && lo <= j < hi
    ensures Permutes(s, Swapped(s, i, j), lo, hi)
  {
    var t := Swapped(s, i, j);
    var u := s[lo..hi];
    assert t[lo..hi] == u[i - lo := u[j - lo]][j - lo := u[i - lo]];
    assert s[..lo] == t[..lo] && s[hi..] == t[hi..];
  }

  lemma PermutesSelf<T>(s: seq<T>, lo: nat, hi: nat)
    requires lo <= hi <= |s|
    ensures Permutes(s, s, lo, hi)
  {
  }

  lemma PermutesAgain<T>(s: seq<T>, t: seq<T>, u: seq<T>, lo: nat, hi: nat)
    requires Permutes(s, t, lo, hi) && Permutes(t, u, lo, hi)
    ensures Permutes(s, u, lo, hi)
  {
  }

  /** A rearrangement of a part rearranges the whole. */
  lemma PermutesWider<T>(s: seq<T>, t: seq<T>, lo: nat, hi: nat, lo': nat, hi': nat)
    requires Permutes(s, t, lo, hi) && lo' <= lo && hi <= hi' <= |s|
    ensures Permutes(s, t, lo', hi')
  {
    assert s[lo'..hi'] == s[..lo][lo'..] + s[lo..hi] + s[hi..][..hi' - hi];
    assert t[lo'..hi'] == t[..lo][lo'..] + t[lo..hi] + t[hi..][..hi' - hi];
    assert s[..lo'] == s[..lo][..lo'] && t[..lo'] == t[..lo][..lo'];
    assert s[hi'..] == s[hi..][hi' - hi..] && t[hi'..] == t[hi..][hi' - hi..];
  }

  /** Every element of the rearranged stretch was there before. */
  lemma PermutesFrom<T>(s: seq<T>, t: seq<T>, lo: nat, hi: nat, k: nat) returns (j: nat)
    requires Permutes(s, t, lo, hi) && lo <= k < hi
    ensures lo <= j < hi && s[j] == t[k]
  {
    var x := t[lo..hi][k - lo];
    assert x in multiset(t[lo..hi]);
    assert x in s[lo..hi];
    var i: nat :| i < hi - lo && s[lo..hi][i] == x;
    j := lo + i;
  }

  lemma PermutesOutside<T>(s: seq<T>, t: seq<T>, lo: nat, hi: nat, k: nat)
    requires Permutes(s, t, lo, hi) && k < |s| && !(lo <= k < hi)
    ensures s[k] == t[k]
  {
    if k < lo {
      assert s[k] == s[..lo][k] && t[k] == t[..lo][k];
    } else {
      assert s[k] == s[hi..][k - hi] && t[k] == t[hi..][k - hi];
    }
  }

  /** exchange_func: swaps two elements. */
  method Swap<T>(a: array<T>, i: nat, j: nat, ghost lo: nat, ghost hi: nat)
    requires lo <= i < hi <= a.Length && lo <= j < hi
    modifies a
    ensures a[..] == Swapped(old(a[..]), i, j) && Permutes(old(a[..]), a[..], lo, hi)
    ensures a[i] == old(a[j]) && a[j] == old(a[i])
    ensures forall k | 0 <= k < a.Length && k != i && k != j :: a[k] == old(a[k])
  {
    a[i], a[j] := a[j], a[i];
    SwapPermutes(old(a[..]), i, j, lo, hi);
    assert a[..] == Swapped(old(a[..]), i, j);
  }

  // ----- heapsort -----

  function Parent(c: nat): nat {
    if c == 0 then 0 else (c - 1) / 2
  }

  /** Each child in [0, n) whose parent is at or after `from`, and is not `hole`, is at most its parent. */
  ghost predicate Heap<T>(cmp: (T, T) -> int, s: seq<T>, base: nat, from: nat, n: nat, hole: int)
    requires base + n <= |s|
  {
    forall c: nat | 2 * from < c < n && Parent(c) != hole ::
      Leq(cmp, s[base + c], s[base + Parent(c)])
  }

  /** The children of `hole` are at most its parent. */
  ghost predicate Above<T>(cmp: (T, T) -> int, s: seq<T>, base: nat, from: nat, n: nat, hole: nat)
    requires base + n <= |s|
  {
    forall c: nat | 0 < c < n && Parent(c) == hole && 2 * from < hole ::
      Leq(cmp, s[base + c], s[base + Parent(hole)])
  }

  lemma AboveTop<T>(cmp: (T, T) -> int, s: seq<T>, base: nat, from: nat, n: nat)
    requires base + n <= |s|
    ensures Above(cmp, s, base, from, n, from)
  {
  }

  /** The inner loop of heapsortx: moves element `start` down until it is at least its children. */
  method SiftDown<T(!new)>(a: array<T>, base: nat, start: nat, n: nat, cmp: (T, T) -> int)
    requires base + n <= a.Length && start < n && TotalPreorder(cmp)
    requires Heap(cmp, a[..], base, start, n, start)
    modifies a
    ensures Heap(cmp, a[..], base, start, n, -1)
    ensures Permutes(old(a[..]), a[..], base, base + n)
  {
    hide *;
    var r, c := start, 2 * start + 1;
    AboveTop(cmp, a[..], base, start, n);
    PermutesSelf(a[..], base, base + n);
    while c < n
      invariant start <= r < n && c == 2 * r + 1
      invariant Heap(cmp, a[..], base, start, n, r) && Above(cmp, a[..], base, start, n, r)
      invariant Permutes(old(a[..]), a[..], base, base + n)
      decreases n - r
    {
      if c < n - 1 && cmp(a[base + c], a[base + c + 1]) <= 0 {
        c := c + 1;
      }
      ghost var s := a[..];
      ChooseChild(cmp, s, base, n, r, c);
      if cmp(a[base + r], a[base + c]) > 0 {
        Settled(cmp, s, base, start, n, r, c);
        return;
      }
      Sink(a, base, start, n, r, c, cmp);
      PermutesAgain(old(a[..]), s, a[..], base, base + n);
      r, c := c, 2 * c + 1;
    }
    NoChildren(cmp, a[..], base, start, n, r);
  }

  /** The element at `r` changes places with its larger child. */
  method Sink<T(!new)>(a: array<T>, base: nat, ghost from: nat, n: nat, r: nat, c: nat, cmp: (T, T) -> int)
    requires base + n <= a.Length && TotalPreorder(cmp) && from <= r < n && c < n
    requires Heap(cmp, a[..], base, from, n, r) && Above(cmp, a[..], base, from, n, r)
    requires Larger(cmp, a[..], base, n, r, c) && cmp(a[base + r], a[base + c]) <= 0
    modifies a
    ensures Heap(cmp, a[..], base, from, n, c) && Above(cmp, a[..], base, from, n, c)
    ensures Permutes(old(a[..]), a[..], base, base + n)
  {
    hide *;
    ghost var s := a[..];
    NotAbove(cmp, s[base + r], s[base + c]);
    Sunk(cmp, s, base, from, n, r, c);
    Swap(a, base + r, base + c, base, base + n);
  }

  /** `c` is a child of `r` that is at least every child of `r`. */
  ghost predicate Larger<T>(cmp: (T, T) -> int, s: seq<T>, base: nat, n: nat, r: nat, c: nat)
    requires base + n <= |s|
  {
    && r < c < n && Parent(c) == r
    && forall d: nat | 0 < d < n && Parent(d) == r :: Leq(cmp, s[base + d], s[base + c])
  }

  lemma ChooseChild<T(!new)>(cmp: (T, T) -> int, s: seq<T>, base: nat, n: nat, r: nat, c: nat)
    requires base + n <= |s| && TotalPreorder(cmp) && c < n
    requires || (c == 2 * r + 1 && (c == n - 1 || cmp(s[base + c], s[base + c + 1]) > 0))
             || (c == 2 * r + 2 && cmp(s[base + c - 1], s[base + c]) <= 0)
    ensures Larger(cmp, s, base, n, r, c)
  {
    forall d: nat | 0 < d < n && Parent(d) == r
      ensures Leq(cmp, s[base + d], s[base + c])
    {
      assert d == 2 * r + 1 || d == 2 * r + 2;
      Reversed(cmp, s[base + d], s[base + c]);
    }
  }

  lemma NotAbove<T>(cmp: (T, T) -> int, x: T, y: T)
    requires cmp(x, y) <= 0
    ensures Leq(cmp, x, y)
  {
  }

  lemma Settled<T(!new)>(cmp: (T, T) -> int, s: seq<T>, base: nat, from: nat, n: nat, r: nat, c: nat)
    requires base + n <= |s| && TotalPreorder(cmp)
    requires Heap(cmp, s, base, from, n, r) && Larger(cmp, s, base, n, r, c)
    requires cmp(s[base + r], s[base + c]) > 0
    ensures Heap(cmp, s, base, from, n, -1)
  {
    hide TotalPreorder;
    forall d: nat | 2 * from < d < n
      ensures Leq(cmp, s[base + d], s[base + Parent(d)])
    {
      if Parent(d) == r {
        Reversed(cmp, s[base + c], s[base + r]);
        Transitive(cmp, s[base + d], s[base + c], s[base + r]);
      }
    }
  }

  lemma NoChildren<T(!new)>(cmp: (T, T) -> int, s: seq<T>, base: nat, from: nat, n: nat, r: nat)
    requires base + n <= |s| && Heap(cmp, s, base, from, n, r) && 2 * r + 1 >= n
    ensures Heap(cmp, s, base, from, n, -1)
  {
  }

  lemma Sunk<T(!new)>(cmp: (T, T) -> int, s: seq<T>, base: nat, from: nat, n: nat, r: nat, c: nat)
    requires base + n <= |s| && TotalPreorder(cmp) && from <= r
    requires Heap(cmp, s, base, from, n, r) && Above(cmp, s, base, from, n, r)
    requires Larger(cmp, s, base, n, r, c) && Leq(cmp, s[base + r], s[base + c])
    ensures var t := Swapped(s, base + r, base + c);
            Heap(cmp, t, base, from, n, c) && Above(cmp, t, base, from, n, c)
  {
    hide TotalPreorder;
    var t := Swapped(s, base + r, base + c);
    forall d: nat | 2 * from < d < n && Parent(d) != c
      ensures Leq(cmp, t[base + d], t[base + Parent(d)])
    {
      var p := Parent(d);
      if p == r {
        assert t[base + p] == s[base + c];
        assert d != r;
      } else if d == r {
        assert t[base + d] == s[base + c] && t[base + p] == s[base + p];
      } else {
        assert d != c;
        assert t[base + d] == s[base + d] && t[base + p] == s[base + p];
      }
    }
    forall d: nat | 0 < d < n && Parent(d) == c && 2 * from < c
      ensures Leq(cmp, t[base + d], t[base + Parent(c)])
    {
      assert t[base + d] == s[base + d] && t[base + r] == s[base + c];
      assert Leq(cmp, s[base + d], s[base + Parent(d)]);
    }
  }

  /** The root of a heap is its maximum. */
  lemma {:induction false} RootIsMax<T(!new)>(cmp: (T, T) -> int, s: seq<T>, base: nat, n: nat, k: nat)
    requires base + n <= |s| && TotalPreorder(cmp) && Heap(cmp, s, base, 0, n, -1) && k < n
    ensures Leq(cmp, s[base + k], s[base])
  {
    hide TotalPreorder;
    hide Leq;
    if k == 0 {
      Reversed(cmp, s[base], s[base]);
    } else {
      RootIsMax(cmp, s, base, n, Parent(k));
      Transitive(cmp, s[base + k], s[base + Parent(k)], s[base]);
    }
  }

  /** What the second phase of heapsort keeps: [i, n) is sorted and no smaller than what is before it. */
  ghost predicate Drained<T>(cmp: (T, T) -> int, s: seq<T>, base: nat, i: nat, n: nat)
    requires base + n <= |s|
  {
    forall j, k | base <= j < k < base + n && base + i <= k :: Leq(cmp, s[j], s[k])
  }

  lemma DrainOne<T(!new)>(cmp: (T, T) -> int, s: seq<T>, t: seq<T>, base: nat, i: nat, n: nat)
    requires base + n <= |s| && TotalPreorder(cmp) && 0 < i < n
    requires Heap(cmp, s, base, 0, i + 1, -1) && Drained(cmp, s, base, i + 1, n)
    requires Permutes(Swapped(s, base, base + i), t, base, base + i)
    ensures Drained(cmp, t, base, i, n)
  {
    hide *;
    SwappedAt(s, base, base + i, base);
    PermutesLength(Swapped(s, base, base + i), t, base, base + i);
    forall j, k | base <= j < k < base + n && base + i <= k
      ensures Leq(cmp, t[j], t[k])
    {
      DrainPair(cmp, s, t, base, i, n, j, k);
    }
    DrainedAll(cmp, t, base, i, n);
  }

  lemma DrainPair<T(!new)>(cmp: (T, T) -> int, s: seq<T>, t: seq<T>, base: nat, i: nat, n: nat, j: nat, k: nat)
    requires base + n <= |s| == |t| && TotalPreorder(cmp) && 0 < i < n
    requires Heap(cmp, s, base, 0, i + 1, -1) && Drained(cmp, s, base, i + 1, n)
    requires Permutes(Swapped(s, base, base + i), t, base, base + i)
    requires base <= j < k < base + n && base + i <= k
    ensures Leq(cmp, t[j], t[k])
  {
    hide *;
    var was := CameFrom(s, t, base, i, j);
    FixedAbove(s, t, base, i, k);
    if k == base + i {
      RootIsMax(cmp, s, base, i + 1, was - base);
    } else {
      DrainedAt(cmp, s, base, i + 1, n, was, k);
    }
  }

  lemma PermutesLength<T(!new)>(s: seq<T>, t: seq<T>, lo: nat, hi: nat)
    requires lo <= hi <= |s| && Permutes(s, t, lo, hi)
    ensures |t| == |s|
  {
  }

  lemma DrainedAt<T(!new)>(cmp: (T, T) -> int, s: seq<T>, base: nat, i: nat, n: nat, j: nat, k: nat)
    requires base + n <= |s| && Drained(cmp, s, base, i, n) && base <= j < k < base + n && base + i <= k
    ensures Leq(cmp, s[j], s[k])
  {
  }

  lemma DrainedAll<T(!new)>(cmp: (T, T) -> int, s: seq<T>, base: nat, i: nat, n: nat)
    requires base + n <= |s|
    requires forall j, k | base <= j < k < base + n && base + i <= k :: Leq(cmp, s[j], s[k])
    ensures Drained(cmp, s, base, i, n)
  {
  }

  /** Where an element came from when the root was exchanged with element `i` and the rest rearranged. */
  lemma CameFrom<T(!new)>(s: seq<T>, t: seq<T>, base: nat, i: nat, j: nat) returns (was: nat)
    requires base + i < |s| && 0 < i && base <= j < |s| && Permutes(Swapped(s, base, base + i), t, base, base + i)
    ensures j < |t| && was < |s| && t[j] == s[was]
    ensures base <= was && (j < base + i ==> was <= base + i) && (j == base + i ==> was == base) && (j > base + i ==> was == j)
  {
    hide *;
    var u := Swapped(s, base, base + i);
    SwappedAt(s, base, base + i, base);
    PermutesLength(u, t, base, base + i);
    var j' := j;
    if j < base + i {
      j' := PermutesFrom(u, t, base, base + i, j);
    } else {
      PermutesOutside(u, t, base, base + i, j);
    }
    was := if j' == base then base + i else if j' == base + i then base else j';
    SwappedAt(s, base, base + i, j');
  }

  lemma SwappedAt<T>(s: seq<T>, i: nat, j: nat, k: nat)
    requires i < |s| && j < |s| && k < |s|
    ensures |Swapped(s, i, j)| == |s| && Swapped(s, i, j)[k] == s[if k == i then j else if k == j then i else k]
  {
  }

  lemma FixedAbove<T(!new)>(s: seq<T>, t: seq<T>, base: nat, i: nat, k: nat)
    requires base + i <= k < |s| && 0 < i && Permutes(Swapped(s, base, base + i), t, base, base + i)
    ensures k < |t| && t[k] == s[if k == base + i then base else k]
  {
    hide *;
    SwappedAt(s, base, base + i, k);
    PermutesLength(Swapped(s, base, base + i), t, base, base + i);
    PermutesOutside(Swapped(s, base, base + i), t, base, base + i, k);
  }

  lemma HeapEnds<T>(cmp: (T, T) -> int, s: seq<T>, base: nat, n: nat)
    requires base + n <= |s|
    ensures Heap(cmp, s, base, n / 2, n, -1) && Drained(cmp, s, base, n, n)
    ensures Drained(cmp, s, base, 1, n) || n <= 1 ==> SortedRange(cmp, s, base, base + n)
    ensures Permutes(s, s, base, base + n)
  {
  }

  /** Element `i` of a heap from `i + 1` on may have to sink. */
  lemma HeapMore<T>(cmp: (T, T) -> int, s: seq<T>, base: nat, i: nat, n: nat)
    requires base + n <= |s| && i < n && Heap(cmp, s, base, i + 1, n, -1)
    ensures Heap(cmp, s, base, i, n, i)
  {
    forall c: nat | 2 * i < c < n && Parent(c) != i
      ensures Leq(cmp, s[base + c], s[base + Parent(c)])
    {
      assert 2 * (i + 1) < c;
    }
  }

  /** The last element of a heap swapped with the root. */
  lemma HeapLess<T>(cmp: (T, T) -> int, s: seq<T>, base: nat, i: nat)
    requires base + i < |s| && 0 < i && Heap(cmp, s, base, 0, i + 1, -1)
    ensures Heap(cmp, Swapped(s, base, base + i), base, 0, i, 0)
  {
  }

  /** One round of the second loop: the maximum goes to the end of the heap. */
  method MoveMaximum<T(!new)>(a: array<T>, base: nat, i: nat, ghost nmemb: nat, cmp: (T, T) -> int)
    requires base + nmemb <= a.Length && 0 < i < nmemb && TotalPreorder(cmp)
    requires Heap(cmp, a[..], base, 0, i + 1, -1) && Drained(cmp, a[..], base, i + 1, nmemb)
    modifies a
    ensures Heap(cmp, a[..], base, 0, i, -1) && Drained(cmp, a[..], base, i, nmemb)
    ensures Permutes(old(a[..]), a[..], base, base + nmemb)
  {
    hide Heap;
    hide Permutes;
    hide TotalPreorder;
    hide Drained;
    hide Swapped;
    ghost var s := a[..];
    Swap(a, base, base + i, base, base + nmemb);
    ghost var u := a[..];
    HeapLess(cmp, s, base, i);
    SiftDown(a, base, 0, i, cmp);
    DrainOne(cmp, s, a[..], base, i, nmemb);
    PermutesWider(u, a[..], base, base + i, base, base + nmemb);
    PermutesAgain(s, u, a[..], base, base + nmemb);
  }

  /** heapsortx on [base, base + nmemb). */
  method HeapSort<T(!new)>(a: array<T>, base: nat, nmemb: nat, cmp: (T, T) -> int)
    requires base + nmemb <= a.Length && TotalPreorder(cmp)
    modifies a
    ensures SortedRange(cmp, a[..], base, base + nmemb)
    ensures Permutes(old(a[..]), a[..], base, base + nmemb)
  {
    hide *;
    HeapEnds(cmp, a[..], base, nmemb);
    if nmemb <= 1 {
      return;
    }
    var i := nmemb / 2;
    while i > 0
      invariant 0 <= i <= nmemb / 2
      invariant Heap(cmp, a[..], base, i, nmemb, -1)
      invariant Permutes(old(a[..]), a[..], base, base + nmemb)
    {
      i := i - 1;
      ghost var s := a[..];
      HeapMore(cmp, s, base, i, nmemb);
      SiftDown(a, base, i, nmemb, cmp);
      PermutesAgain(old(a[..]), s, a[..], base, base + nmemb);
    }
    i := nmemb - 1;
    HeapEnds(cmp, a[..], base, nmemb);
    while i > 0
      invariant 0 <= i < nmemb
      invariant Heap(cmp, a[..], base, 0, i + 1, -1)
      invariant Drained(cmp, a[..], base, i + 1, nmemb)
      invariant Permutes(old(a[..]), a[..], base, base + nmemb)
    {
      ghost var s := a[..];
      MoveMaximum(a, base, i, nmemb, cmp);
      PermutesAgain(old(a[..]), s, a[..], base, base + nmemb);
      i := i - 1;
    }
    HeapEnds(cmp, a[..], base, nmemb);
  }

  // ----- insertion sort -----

  /** [lo, hi) is sorted if element `hole` is left out of account as the larger of a pair. */
  ghost predicate SortedBut<T>(cmp: (T, T) -> int, s: seq<T>, lo: nat, hi: nat, hole: nat)
    requires hi <= |s|
  {
    forall i, j | lo <= i < j < hi && j != hole :: Leq(cmp, s[i], s[j])
  }

  lemma InsertedLower<T(!new)>(cmp: (T, T) -> int, s: seq<T>, lo: nat, hi: nat, k: nat)
    requires hi <= |s| && lo < k < hi && TotalPreorder(cmp)
    requires SortedBut(cmp, s, lo, hi, k) && cmp(s[k - 1], s[k]) > 0
    ensures SortedBut(cmp, Swapped(s, k, k - 1), lo, hi, k - 1)
  {
    Reversed(cmp, s[k - 1], s[k]);
    hide TotalPreorder;
  }

  lemma InsertedHere<T(!new)>(cmp: (T, T) -> int, s: seq<T>, lo: nat, hi: nat, k: nat)
    requires hi <= |s| && lo <= k < hi && TotalPreorder(cmp)
    requires SortedBut(cmp, s, lo, hi, k) && (k == lo || cmp(s[k - 1], s[k]) <= 0)
    ensures SortedRange(cmp, s, lo, hi)
  {
    hide TotalPreorder;
    forall i | lo <= i < k
      ensures Leq(cmp, s[i], s[k])
    {
      if i < k - 1 {
        Transitive(cmp, s[i], s[k - 1], s[k]);
      }
    }
  }

  lemma InsertStart<T>(cmp: (T, T) -> int, s: seq<T>, lo: nat, k: nat)
    requires lo <= k <= |s|
    ensures k <= lo + 1 ==> SortedRange(cmp, s, lo, k)
    ensures k < |s| && SortedRange(cmp, s, lo, k) ==> SortedBut(cmp, s, lo, k + 1, k)
  {
  }

  /** The inner loop: the element at `pi` moves down to its place in the sorted stretch before it. */
  method InsertDown<T(!new)>(a: array<T>, ptr: nat, pi: nat, ghost top: nat, cmp: (T, T) -> int)
    requires ptr < pi < top <= a.Length && TotalPreorder(cmp) && SortedRange(cmp, a[..], ptr, pi)
    modifies a
    ensures SortedRange(cmp, a[..], ptr, pi + 1)
    ensures Permutes(old(a[..]), a[..], ptr, top)
  {
    hide *;
    var pj := pi;
    InsertStart(cmp, a[..], ptr, pi);
    PermutesSelf(a[..], ptr, top);
    while pj > ptr && cmp(a[pj - 1], a[pj]) > 0
      invariant ptr <= pj <= pi && SortedBut(cmp, a[..], ptr, pi + 1, pj)
      invariant Permutes(old(a[..]), a[..], ptr, top)
    {
      ghost var s := a[..];
      Swap(a, pj, pj - 1, ptr, top);
      InsertedLower(cmp, s, ptr, pi + 1, pj);
      PermutesAgain(old(a[..]), s, a[..], ptr, top);
      pj := pj - 1;
    }
    InsertedHere(cmp, a[..], ptr, pi + 1, pj);
  }

  /** The insertion sort at the end of rqsort, on [ptr, ptr + nmemb). */
  method InsertionSort<T(!new)>(a: array<T>, ptr: nat, nmemb: nat, cmp: (T, T) -> int)
    requires ptr + nmemb <= a.Length && TotalPreorder(cmp)
    modifies a
    ensures SortedRange(cmp, a[..], ptr, ptr + nmemb)
    ensures Permutes(old(a[..]), a[..], ptr, ptr + nmemb)
  {
    hide *;
    var pi, top := ptr + 1, ptr + nmemb;
    PermutesSelf(a[..], ptr, top);
    InsertStart(cmp, a[..], ptr, if pi < top then pi else top);
    while pi < top
      invariant ptr < pi && SortedRange(cmp, a[..], ptr, if pi < top then pi else top)
      invariant Permutes(old(a[..]), a[..], ptr, top)
    {
      ghost var s := a[..];
      InsertDown(a, ptr, pi, top, cmp);
      PermutesAgain(old(a[..]), s, a[..], ptr, top);
      pi := pi + 1;
    }
  }

  // ----- partition -----

  /** med3: the index, of the three, whose value is the median. */
  function Med3<T>(s: seq<T>, a: nat, b: nat, c: nat, cmp: (T, T) -> int): (m: nat)
    requires a < |s| && b < |s| && c < |s|
    ensures m == a || m == b || m == c
  {
    if cmp(s[a], s[b]) < 0 then
      if cmp(s[b], s[c]) < 0 then b else if cmp(s[a], s[c]) < 0 then c else a
    else
      if cmp(s[b], s[c]) > 0 then b else if cmp(s[a], s[c]) < 0 then a else c
  }

  /** Of the two values med3 does not choose, one is at most and one at least the chosen one. */
  lemma Med3IsMedian<T(!new)>(s: seq<T>, a: nat, b: nat, c: nat, cmp: (T, T) -> int)
    requires a < |s| && b < |s| && c < |s| && TotalPreorder(cmp)
    ensures exists x: nat, y: nat | x < |s| && y < |s| && multiset{a, b, c} == multiset{Med3(s, a, b, c, cmp), x, y} ::
              Leq(cmp, s[x], s[Med3(s, a, b, c, cmp)]) && Leq(cmp, s[Med3(s, a, b, c, cmp)], s[y])
  {
    Reversed(cmp, s[a], s[b]);
    Reversed(cmp, s[b], s[c]);
    Reversed(cmp, s[a], s[c]);
    hide TotalPreorder;
    var m := Med3(s, a, b, c, cmp);
    var (x, y) := if m == a then (b, c) else if m == b then (a, c) else (a, b);
    if !Leq(cmp, s[x], s[m]) || !Leq(cmp, s[m], s[y]) {
      x, y := y, x;
    }
    assert multiset{a, b, c} == multiset{m, x, y};
  }

  /** How the elements of a stretch compare with a pivot value. */
  ghost predicate AllEqual<T>(cmp: (T, T) -> int, p: T, s: seq<T>, lo: nat, hi: nat)
    requires hi <= |s|
  {
    forall k | lo <= k < hi :: cmp(p, s[k]) == 0
  }

  ghost predicate AllSmaller<T>(cmp: (T, T) -> int, p: T, s: seq<T>, lo: nat, hi: nat)
    requires hi <= |s|
  {
    forall k | lo <= k < hi :: cmp(p, s[k]) > 0
  }

  ghost predicate AllGreater<T>(cmp: (T, T) -> int, p: T, s: seq<T>, lo: nat, hi: nat)
    requires hi <= |s|
  {
    forall k | lo <= k < hi :: cmp(p, s[k]) < 0
  }

  /** The four parts the scanning loop grows: equal, smaller, then greater and equal at the far end. */
  ghost predicate FourParts<T>(cmp: (T, T) -> int, p: T, s: seq<T>, ptr: nat, plt: nat, pi: nat, pj: nat, pgt: nat,
                               top: nat) {
    && ptr < plt <= pi <= pj <= pgt <= top <= |s| && s[ptr] == p
    && AllEqual(cmp, p, s, ptr, plt) && AllSmaller(cmp, p, s, plt, pi)
    && AllGreater(cmp, p, s, pj, pgt) && AllEqual(cmp, p, s, pgt, top)
  }

  lemma UpEqual<T>(cmp: (T, T) -> int, p: T, s: seq<T>, ptr: nat, plt: nat, pi: nat, pj: nat, pgt: nat, top: nat)
    requires FourParts(cmp, p, s, ptr, plt, pi, pj, pgt, top) && pi < pj && cmp(p, s[pi]) == 0
    ensures FourParts(cmp, p, Swapped(s, plt, pi), ptr, plt + 1, pi + 1, pj, pgt, top)
  {
  }

  lemma UpSmaller<T>(cmp: (T, T) -> int, p: T, s: seq<T>, ptr: nat, plt: nat, pi: nat, pj: nat, pgt: nat, top: nat)
    requires FourParts(cmp, p, s, ptr, plt, pi, pj, pgt, top) && pi < pj && cmp(p, s[pi]) > 0
    ensures FourParts(cmp, p, s, ptr, plt, pi + 1, pj, pgt, top)
  {
  }

  lemma DownEqual<T>(cmp: (T, T) -> int, p: T, s: seq<T>, ptr: nat, plt: nat, pi: nat, pj: nat, pgt: nat, top: nat)
    requires FourParts(cmp, p, s, ptr, plt, pi, pj + 1, pgt, top) && pi <= pj && cmp(p, s[pj]) == 0
    ensures FourParts(cmp, p, Swapped(s, pgt - 1, pj), ptr, plt, pi, pj, pgt - 1, top)
  {
  }

  lemma DownGreater<T>(cmp: (T, T) -> int, p: T, s: seq<T>, ptr: nat, plt: nat, pi: nat, pj: nat, pgt: nat, top: nat)
    requires FourParts(cmp, p, s, ptr, plt, pi, pj + 1, pgt, top) && pi <= pj && cmp(p, s[pj]) < 0
    ensures FourParts(cmp, p, s, ptr, plt, pi, pj, pgt, top)
  {
  }

  /** The swap of the outer loop: a greater element on the left with a smaller one on the right. */
  lemma Exchanged<T>(cmp: (T, T) -> int, p: T, s: seq<T>, ptr: nat, plt: nat, pi: nat, pj: nat, pgt: nat, top: nat)
    requires FourParts(cmp, p, s, ptr, plt, pi, pj + 1, pgt, top) && pi < pj
    requires cmp(p, s[pi]) < 0 && cmp(p, s[pj]) > 0
    ensures FourParts(cmp, p, Swapped(s, pi, pj), ptr, plt, pi + 1, pj, pgt, top)
  {
  }

  lemma Bounds<T>(cmp: (T, T) -> int, p: T, s: seq<T>, ptr: nat, plt: nat, pi: nat, pj: nat, pgt: nat, top: nat)
    requires FourParts(cmp, p, s, ptr, plt, pi, pj, pgt, top)
    ensures ptr < plt <= pi <= pj <= pgt <= top <= |s| && s[ptr] == p
  {
  }

  /** The first inner loop: from the left up to an element greater than the pivot. */
  method ScanUp<T(!new)>(a: array<T>, ptr: nat, plt0: nat, pi0: nat, pj: nat, ghost pgt: nat, top: nat,
                         cmp: (T, T) -> int)
    returns (plt: nat, pi: nat)
    requires top <= a.Length && ptr < top && FourParts(cmp, a[ptr], a[..], ptr, plt0, pi0, pj, pgt, top)
    modifies a
    ensures a[ptr] == old(a[ptr]) && pi0 <= pi <= pj
    ensures FourParts(cmp, a[ptr], a[..], ptr, plt, pi, pj, pgt, top)
    ensures pi == pj || cmp(a[ptr], a[pi]) < 0
    ensures Permutes(old(a[..]), a[..], ptr, top)
  {
    hide *;
    plt, pi := plt0, pi0;
    PermutesSelf(a[..], ptr, top);
    Bounds(cmp, a[ptr], a[..], ptr, plt, pi, pj, pgt, top);
    while pi < pj && cmp(a[ptr], a[pi]) >= 0
      invariant a[ptr] == old(a[ptr]) && ptr < plt <= pi && pi0 <= pi <= pj <= top
      invariant FourParts(cmp, a[ptr], a[..], ptr, plt, pi, pj, pgt, top)
      invariant Permutes(old(a[..]), a[..], ptr, top)
    {
      ghost var s := a[..];
      if cmp(a[ptr], a[pi]) == 0 {
        Swap(a, plt, pi, ptr, top);
        UpEqual(cmp, a[ptr], s, ptr, plt, pi, pj, pgt, top);
        PermutesAgain(old(a[..]), s, a[..], ptr, top);
        plt := plt + 1;
      } else {
        UpSmaller(cmp, a[ptr], s, ptr, plt, pi, pj, pgt, top);
      }
      pi := pi + 1;
    }
  }

  /** The second inner loop: from the right down to an element smaller than the pivot, or to `pi`. */
  method ScanDown<T(!new)>(a: array<T>, ptr: nat, ghost plt: nat, pi: nat, pj0: nat, pgt0: nat, top: nat,
                           cmp: (T, T) -> int)
    returns (pj: int, pgt: nat)
    requires top <= a.Length && ptr < top && FourParts(cmp, a[ptr], a[..], ptr, plt, pi, pj0, pgt0, top)
    requires pi == pj0 || (pi < pj0 <= top && cmp(a[ptr], a[pi]) < 0)
    modifies a
    ensures a[ptr] == old(a[ptr]) && pj < pj0
    ensures pi >= pj ==> FourParts(cmp, a[ptr], a[..], ptr, plt, pi, pi, pgt, top)
    ensures pi < pj ==> && FourParts(cmp, a[ptr], a[..], ptr, plt, pi, pj + 1, pgt, top)
                        && cmp(a[ptr], a[pi]) < 0 && cmp(a[ptr], a[pj]) > 0
    ensures Permutes(old(a[..]), a[..], ptr, top)
  {
    hide *;
    pgt := pgt0;
    pj := pj0 - 1;
    PermutesSelf(a[..], ptr, top);
    Bounds(cmp, a[ptr], a[..], ptr, plt, pi, pj0, pgt, top);
    while pi < pj && cmp(a[ptr], a[pj]) <= 0
      invariant a[ptr] == old(a[ptr]) && ptr < pi && pi - 1 <= pj < pj0 && (pi <= pj || pi == pj0) && pj < pgt <= top
      invariant pi <= pj ==> a[pi] == old(a[pi])
      invariant FourParts(cmp, a[ptr], a[..], ptr, plt, pi, pj + 1, pgt, top)
      invariant Permutes(old(a[..]), a[..], ptr, top)
    {
      ghost var s := a[..];
      if cmp(a[ptr], a[pj]) == 0 {
        pgt := pgt - 1;
        Swap(a, pgt, pj, ptr, top);
        DownEqual(cmp, a[ptr], s, ptr, plt, pi, pj, pgt + 1, top);
        PermutesAgain(old(a[..]), s, a[..], ptr, top);
      } else {
        DownGreater(cmp, a[ptr], s, ptr, plt, pi, pj, pgt, top);
      }
      pj := pj - 1;
    }
    if pi == pj {
      DownGreater(cmp, a[ptr], a[..], ptr, plt, pi, pj, pgt, top);
    }
  }

  /** The scanning loop: every element is compared with the pivot at `ptr` and put in its part. */
  method Scan<T(!new)>(a: array<T>, ptr: nat, top: nat, cmp: (T, T) -> int)
    returns (plt: nat, pi: nat, pgt: nat)
    requires ptr < top <= a.Length && cmp(a[ptr], a[ptr]) == 0
    modifies a
    ensures a[ptr] == old(a[ptr])
    ensures FourParts(cmp, a[ptr], a[..], ptr, plt, pi, pi, pgt, top)
    ensures Permutes(old(a[..]), a[..], ptr, top)
  {
    plt, pi, pgt := ptr + 1, ptr + 1, top;
    var pj: int := top;
    assert FourParts(cmp, a[ptr], a[..], ptr, plt, pi, pj, pgt, top);
    hide *;
    PermutesSelf(a[..], ptr, top);
    while true
      invariant a[ptr] == old(a[ptr]) && pj >= 0
      invariant FourParts(cmp, a[ptr], a[..], ptr, plt, pi, pj, pgt, top)
      invariant Permutes(old(a[..]), a[..], ptr, top)
      decreases pj
    {
      ghost var s := a[..];
      Bounds(cmp, a[ptr], s, ptr, plt, pi, pj, pgt, top);
      plt, pi := ScanUp(a, ptr, plt, pi, pj, pgt, top, cmp);
      ghost var t := a[..];
      PermutesAgain(old(a[..]), s, t, ptr, top);
      pj, pgt := ScanDown(a, ptr, plt, pi, pj, pgt, top, cmp);
      ghost var u := a[..];
      PermutesAgain(old(a[..]), t, u, ptr, top);
      if pi >= pj {
        return;
      }
      Bounds(cmp, a[ptr], u, ptr, plt, pi, pj + 1, pgt, top);
      Swap(a, pi, pj, ptr, top);
      Exchanged(cmp, a[ptr], u, ptr, plt, pi, pj, pgt, top);
      PermutesAgain(old(a[..]), u, a[..], ptr, top);
      pi := pi + 1;
    }
  }

  /** `t` is `s` with [x, x + span) and [y, y + span) exchanged. */
  ghost predicate BlocksSwapped<T>(s: seq<T>, t: seq<T>, x: nat, y: nat, span: nat)
    requires x + span <= y && y + span <= |s| == |t|
  {
    forall k {:trigger t[k]} | 0 <= k < |s| ::
      t[k] == if x <= k < x + span then s[k - x + y] else if y <= k < y + span then s[k - y + x] else s[k]
  }

  lemma BlocksStart<T>(s: seq<T>, x: nat, y: nat)
    requires x <= y <= |s|
    ensures BlocksSwapped(s, s, x, y, 0)
  {
  }

  lemma BlocksMore<T>(s: seq<T>, t: seq<T>, x: nat, y: nat, k: nat)
    requires x + k < y && y + k < |s| == |t| && BlocksSwapped(s, t, x, y, k)
    ensures BlocksSwapped(s, Swapped(t, x + k, y + k), x, y, k + 1)
  {
  }

  /** exchange_func for a block of elements. */
  method SwapBlock<T>(a: array<T>, x: nat, y: nat, span: nat, ghost lo: nat, ghost hi: nat)
    requires lo <= x && x + span <= y && y + span <= hi <= a.Length
    modifies a
    ensures BlocksSwapped(old(a[..]), a[..], x, y, span)
    ensures Permutes(old(a[..]), a[..], lo, hi)
  {
    hide *;
    PermutesSelf(a[..], lo, hi);
    BlocksStart(a[..], x, y);
    for k := 0 to span
      invariant BlocksSwapped(old(a[..]), a[..], x, y, k)
      invariant Permutes(old(a[..]), a[..], lo, hi)
    {
      ghost var s := a[..];
      Swap(a, x + k, y + k, lo, hi);
      BlocksMore(old(a[..]), s, x, y, k);
      PermutesAgain(old(a[..]), s, a[..], lo, hi);
    }
  }

  /** Smaller, equal and greater elements around a pivot value. */
  ghost predicate ThreeParts<T>(cmp: (T, T) -> int, p: T, s: seq<T>, ptr: nat, lt: nat, gt: nat, top: nat) {
    && ptr <= lt < gt <= top <= |s|
    && AllSmaller(cmp, p, s, ptr, lt) && AllEqual(cmp, p, s, lt, gt) && AllGreater(cmp, p, s, gt, top)
  }

  function Min(x: nat, y: nat): nat {
    if x <= y then x else y
  }

  lemma LeftBlock<T>(cmp: (T, T) -> int, p: T, s: seq<T>, t: seq<T>, ptr: nat, plt: nat, pi: nat, pgt: nat, top: nat)
    requires |s| == |t| && FourParts(cmp, p, s, ptr, plt, pi, pi, pgt, top)
    requires var span := Min(plt - ptr, pi - plt); BlocksSwapped(s, t, ptr, pi - span, span)
    ensures AllSmaller(cmp, p, t, ptr, ptr + (pi - plt)) && AllEqual(cmp, p, t, ptr + (pi - plt), pi)
    ensures AllGreater(cmp, p, t, pi, pgt) && AllEqual(cmp, p, t, pgt, top)
  {
  }

  lemma RightBlock<T>(cmp: (T, T) -> int, p: T, s: seq<T>, t: seq<T>, ptr: nat, lt: nat, pi: nat, pgt: nat, top: nat)
    requires |s| == |t| && ptr <= lt < pi <= pgt <= top <= |s|
    requires AllSmaller(cmp, p, s, ptr, lt) && AllEqual(cmp, p, s, lt, pi)
    requires AllGreater(cmp, p, s, pi, pgt) && AllEqual(cmp, p, s, pgt, top)
    requires var span := Min(top - pgt, pgt - pi); BlocksSwapped(s, t, pi, top - span, span)
    ensures ThreeParts(cmp, p, t, ptr, lt, pi + (top - pgt), top)
  {
  }

  /** The two block swaps: the equal elements move from the ends to the middle. */
  method Gather<T(!new)>(a: array<T>, ptr: nat, plt: nat, pi: nat, pgt: nat, top: nat, cmp: (T, T) -> int)
    returns (lt: nat, gt: nat)
    requires top <= a.Length && ptr < top && FourParts(cmp, a[ptr], a[..], ptr, plt, pi, pi, pgt, top)
    modifies a
    ensures ThreeParts(cmp, old(a[ptr]), a[..], ptr, lt, gt, top)
    ensures Permutes(old(a[..]), a[..], ptr, top)
  {
    hide *;
    ghost var pivot, s := a[ptr], a[..];
    Bounds(cmp, pivot, s, ptr, plt, pi, pi, pgt, top);
    lt, gt := ptr + (pi - plt), pi + (top - pgt);
    SpanFits(plt - ptr, pi - plt);
    SpanFits(top - pgt, pgt - pi);
    var span := Min(plt - ptr, pi - plt);
    SwapBlock(a, ptr, pi - span, span, ptr, top);
    ghost var t := a[..];
    LeftBlock(cmp, pivot, s, t, ptr, plt, pi, pgt, top);
    span := Min(top - pgt, pgt - pi);
    SwapBlock(a, pi, top - span, span, ptr, top);
    RightBlock(cmp, pivot, t, a[..], ptr, lt, pi, pgt, top);
    PermutesAgain(s, t, a[..], ptr, top);
  }

  /** One partitioning step of rqsort on [ptr, ptr + nmemb): the bounds of the middle part. */
  method Partition<T(!new)>(a: array<T>, ptr: nat, nmemb: nat, cmp: (T, T) -> int)
    returns (lt: nat, gt: nat, ghost pivot: T)
    requires ptr + nmemb <= a.Length && nmemb > 6 && TotalPreorder(cmp)
    modifies a
    ensures ThreeParts(cmp, pivot, a[..], ptr, lt, gt, ptr + nmemb)
    ensures Permutes(old(a[..]), a[..], ptr, ptr + nmemb)
  {
    hide *;
    var top, m4 := ptr + nmemb, nmemb / 4;
    var m := Med3(a[..], ptr + m4, ptr + 2 * m4, ptr + 3 * m4, cmp);
    Swap(a, ptr, m, ptr, top);
    ghost var s := a[..];
    pivot := a[ptr];
    Reversed(cmp, pivot, pivot);
    var plt, pi, pgt := Scan(a, ptr, top, cmp);
    ghost var t := a[..];
    PermutesAgain(old(a[..]), s, t, ptr, top);
    lt, gt := Gather(a, ptr, plt, pi, pgt, top, cmp);
    PermutesAgain(old(a[..]), t, a[..], ptr, top);
  }

  lemma SpanFits(x: nat, y: nat)
    ensures Min(x, y) <= x && Min(x, y) <= y
  {
  }

  // ----- the explicit stack -----

  /** An entry of the stack: a stretch still to be sorted and the number of partitions that led to it. */
  datatype Segment = Segment(base: nat, count: nat, depth: nat) {
    function Top(): nat {
      base + count
    }

    predicate Covers(i: nat, j: nat) {
      base <= i && j < Top()
    }

    predicate Apart(other: Segment) {
      Top() <= other.base || other.Top() <= base
    }
  }

  /** Positions `i` and `j` belong to one of the pending stretches. */
  ghost predicate Together(pend: seq<Segment>, i: nat, j: nat) {
    exists k | 0 <= k < |pend| :: pend[k].Covers(i, j)
  }

  ghost predicate AllApart(pend: seq<Segment>, n: nat) {
    && (forall k | 0 <= k < |pend| :: pend[k].Top() <= n)
    && forall j, k | 0 <= j < k < |pend| :: pend[j].Apart(pend[k])
  }

  /** Only pairs inside one pending stretch may still be out of order. */
  ghost predicate Ordered<T>(cmp: (T, T) -> int, s: seq<T>, pend: seq<Segment>) {
    forall i: nat, j: nat | i < j < |s| && !Together(pend, i, j) :: Leq(cmp, s[i], s[j])
  }

  /** Rearranging the last pending stretch so that only pairs inside `repl` stay out of order. */
  lemma Refine<T>(cmp: (T, T) -> int, s: seq<T>, t: seq<T>, rest: seq<Segment>, cur: Segment, repl: seq<Segment>)
    requires Ordered(cmp, s, rest + [cur]) && AllApart(rest + [cur], |s|)
    requires Permutes(s, t, cur.base, cur.Top())
    requires forall i: nat, j: nat | cur.base <= i < j < cur.Top() && !Together(repl, i, j) :: Leq(cmp, t[i], t[j])
    ensures Ordered(cmp, t, rest + repl)
  {
    forall i: nat, j: nat | i < j < |t| && !Together(rest + repl, i, j)
      ensures Leq(cmp, t[i], t[j])
    {
      NotTogether(rest, repl, i, j);
      if cur.Covers(i, j) {
      } else {
        var i', j' := i, j;
        if cur.base <= i < cur.Top() {
          i' := PermutesFrom(s, t, cur.base, cur.Top(), i);
        } else {
          PermutesOutside(s, t, cur.base, cur.Top(), i);
        }
        if cur.base <= j < cur.Top() {
          j' := PermutesFrom(s, t, cur.base, cur.Top(), j);
        } else {
          PermutesOutside(s, t, cur.base, cur.Top(), j);
        }
        Straddles(rest, cur, |s|, i, j, i', j');
      }
    }
  }

  lemma NotTogether(rest: seq<Segment>, repl: seq<Segment>, i: nat, j: nat)
    requires !Together(rest + repl, i, j)
    ensures !Together(rest, i, j) && !Together(repl, i, j)
  {
    forall k | 0 <= k < |rest|
      ensures !rest[k].Covers(i, j)
    {
      assert (rest + repl)[k] == rest[k];
    }
    forall k | 0 <= k < |repl|
      ensures !repl[k].Covers(i, j)
    {
      assert (rest + repl)[|rest| + k] == repl[k];
    }
  }

  lemma Straddles(rest: seq<Segment>, cur: Segment, n: nat, i: nat, j: nat, i': nat, j': nat)
    requires AllApart(rest + [cur], n) && !Together(rest, i, j) && i < j && !cur.Covers(i, j)
    requires if cur.base <= i < cur.Top() then cur.base <= i' < cur.Top() else i' == i
    requires if cur.base <= j < cur.Top() then cur.base <= j' < cur.Top() else j' == j
    ensures i' < j' && !Together(rest + [cur], i', j')
  {
    forall k | 0 <= k < |rest| + 1
      ensures !(rest + [cur])[k].Covers(i', j')
    {
      if k < |rest| {
        assert (rest + [cur])[k] == rest[k] && !rest[k].Covers(i, j);
        assert (rest + [cur])[|rest|] == cur;
        assert rest[k].Apart(cur);
      }
    }
  }

  /** After partitioning, the two outer parts replace the stretch, in either order. */
  lemma RefineParts<T(!new)>(cmp: (T, T) -> int, p: T, s: seq<T>, t: seq<T>, rest: seq<Segment>, cur: Segment,
                             x: Segment, y: Segment)
    requires TotalPreorder(cmp) && Ordered(cmp, s, rest + [cur]) && AllApart(rest + [cur], |s|)
    requires Permutes(s, t, cur.base, cur.Top())
    requires x.base == cur.base && y.Top() == cur.Top() && ThreeParts(cmp, p, t, cur.base, x.Top(), y.base, cur.Top())
    ensures Ordered(cmp, t, rest + [x, y]) && AllApart(rest + [x, y], |t|)
    ensures Ordered(cmp, t, rest + [y, x]) && AllApart(rest + [y, x], |t|)
  {
    hide TotalPreorder;
    forall i: nat, j: nat | cur.base <= i < j < cur.Top() && !(x.Covers(i, j) || y.Covers(i, j))
      ensures Leq(cmp, t[i], t[j])
    {
      Reversed(cmp, p, t[i]);
      Transitive(cmp, t[i], p, t[j]);
    }
    assert [x, y][0] == x && [x, y][1] == y && [y, x][0] == y && [y, x][1] == x;
    Refine(cmp, s, t, rest, cur, [x, y]);
    Refine(cmp, s, t, rest, cur, [y, x]);
    assert (rest + [cur])[|rest|] == cur;
    assert forall k | 0 <= k < |rest| :: (rest + [cur])[k] == rest[k];
  }

  /** After sorting, the stretch is no longer pending. */
  lemma RefineSorted<T>(cmp: (T, T) -> int, s: seq<T>, t: seq<T>, rest: seq<Segment>, cur: Segment)
    requires Ordered(cmp, s, rest + [cur]) && AllApart(rest + [cur], |s|)
    requires Permutes(s, t, cur.base, cur.Top()) && SortedRange(cmp, t, cur.base, cur.Top())
    ensures Ordered(cmp, t, rest) && AllApart(rest, |t|)
  {
    Refine(cmp, s, t, rest, cur, []);
    assert rest + [] == rest;
    assert forall k | 0 <= k < |rest| :: (rest + [cur])[k] == rest[k];
  }

  lemma SegmentFits(rest: seq<Segment>, cur: Segment, n: nat)
    requires AllApart(rest + [cur], n)
    ensures cur.Top() <= n
  {
    assert (rest + [cur])[|rest|] == cur;
  }

  /** The depths on the stack are strictly increasing and lie in 1..d. */
  ghost predicate Depths(st: seq<Segment>, d: nat) {
    && (forall k | 0 <= k < |st| :: 1 <= st[k].depth <= d)
    && forall j, k | 0 <= j < k < |st| :: st[j].depth < st[k].depth
  }

  /** So a stack whose depths stop at `d` has at most `d` entries: fifty always suffice. */
  lemma {:induction false} DepthsBound(st: seq<Segment>, d: nat)
    requires Depths(st, d)
    ensures |st| <= d
  {
    if st != [] {
      var n := |st| - 1;
      DepthsBound(st[..n], st[n].depth - 1);
    }
  }

  lemma PushDepth(st: seq<Segment>, g: Segment)
    requires g.depth >= 1 && Depths(st, g.depth - 1)
    ensures Depths(st + [g], g.depth)
  {
  }

  lemma PopDepth(st: seq<Segment>, n: nat)
    requires |st| == n + 1 && Depths(st, 50)
    ensures Depths(st[..n], st[n].depth) && st[n].depth <= 50
  {
  }

  /** Twice the pending elements plus the number of entries: what each round diminishes. */
  ghost function Weight(st: seq<Segment>): nat {
    if st == [] then 0 else Weight(st[..|st| - 1]) + 2 * st[|st| - 1].count + 1
  }

  lemma WeightPush(st: seq<Segment>, g: Segment)
    ensures Weight(st + [g]) == Weight(st) + 2 * g.count + 1
  {
    assert (st + [g])[..|st|] == st;
  }

  /** What holds of the array while `pend` is still to be sorted. */
  ghost predicate Sorting<T>(cmp: (T, T) -> int, was: seq<T>, s: seq<T>, pend: seq<Segment>) {
    && |s| == |was| && Permutes(was, s, 0, |s|)
    && Ordered(cmp, s, pend) && AllApart(pend, |s|)
  }

  lemma SortingStart<T>(cmp: (T, T) -> int, s: seq<T>)
    ensures Sorting(cmp, s, s, [Segment(0, |s|, 0)])
  {
    var pend := [Segment(0, |s|, 0)];
    forall i: nat, j: nat | i < j < |s|
      ensures Together(pend, i, j)
    {
      assert pend[0].Covers(i, j);
    }
  }

  lemma SortingEnd<T>(cmp: (T, T) -> int, was: seq<T>, s: seq<T>)
    requires Sorting(cmp, was, s, [])
    ensures SortedRange(cmp, s, 0, |s|) && multiset(s) == multiset(was)
  {
    assert was[0..|was|] == was && s[0..|s|] == s;
  }

  /** One round of the inner loop: partitions [ptr, ptr + nmemb), keeps the larger outer part for later
      and goes on with the smaller one. */
  method SplitSegment<T(!new)>(a: array<T>, stack: array<Segment>, sp: nat, ptr: nat, nmemb: nat, depth: nat,
                               cmp: (T, T) -> int, ghost was: seq<T>)
    returns (nextPtr: nat, nextCount: nat)
    requires TotalPreorder(cmp) && stack.Length == 50 && nmemb > 6 && 1 <= depth <= 50
    requires sp <= 50 && Depths(stack[..sp], depth - 1)
    requires Sorting(cmp, was, a[..], stack[..sp] + [Segment(ptr, nmemb, depth - 1)])
    requires a as object != stack as object
    modifies a, stack
    ensures sp < 50 && Depths(stack[..sp + 1], depth)
    ensures Sorting(cmp, was, a[..], stack[..sp + 1] + [Segment(nextPtr, nextCount, depth)])
    ensures nextCount < nmemb
    ensures Weight(stack[..sp + 1]) + 2 * nextCount < old(Weight(stack[..sp])) + 2 * nmemb
  {
    hide TotalPreorder, Depths, Permutes, Ordered, AllApart, ThreeParts, Weight;
    ghost var rest, s := stack[..sp], a[..];
    ghost var cur := Segment(ptr, nmemb, depth - 1);
    DepthsBound(rest, depth - 1);
    SegmentFits(rest, cur, |s|);
    var lt, gt, pivot := Partition(a, ptr, nmemb, cmp);
    PartsFit(cmp, pivot, a[..], ptr, lt, gt, ptr + nmemb);
    var left, right := Segment(ptr, lt - ptr, depth), Segment(gt, ptr + nmemb - gt, depth);
    RefineParts(cmp, pivot, s, a[..], rest, cur, left, right);
    PermutesWider(s, a[..], ptr, ptr + nmemb, 0, |s|);
    PermutesAgain(was, s, a[..], 0, |s|);
    ghost var larger;
    if left.count > right.count {
      stack[sp] := left;
      larger, nextPtr, nextCount := left, right.base, right.count;
      assert rest + [left] + [right] == rest + [left, right];
    } else {
      stack[sp] := right;
      larger, nextPtr, nextCount := right, left.base, left.count;
      assert rest + [right] + [left] == rest + [right, left];
    }
    assert stack[..sp + 1] == rest + [larger];
    PushDepth(rest, larger);
    WeightPush(rest, larger);
  }

  lemma PartsFit<T>(cmp: (T, T) -> int, p: T, s: seq<T>, ptr: nat, lt: nat, gt: nat, top: nat)
    requires ThreeParts(cmp, p, s, ptr, lt, gt, top)
    ensures ptr <= lt < gt <= top <= |s|
  {
  }

  /** The entry popped from the stack, sorted by heapsort or insertion sort, leaves the rest pending. */
  lemma SegmentSorted<T>(cmp: (T, T) -> int, was: seq<T>, s: seq<T>, t: seq<T>, rest: seq<Segment>, cur: Segment)
    requires Sorting(cmp, was, s, rest + [cur])
    requires Permutes(s, t, cur.base, cur.base + cur.count) && SortedRange(cmp, t, cur.base, cur.base + cur.count)
    ensures Sorting(cmp, was, t, rest)
    ensures Sorting(cmp, was, t, rest + [Segment(cur.base, 0, cur.depth)])
  {
    RefineSorted(cmp, s, t, rest, cur);
    var none := Segment(cur.base, 0, cur.depth);
    Refine(cmp, s, t, rest, cur, [none]);
    assert (rest + [cur])[|rest|] == cur;
    assert forall k | 0 <= k < |rest| :: (rest + [cur])[k] == rest[k];
    assert AllApart(rest + [none], |t|);
    PermutesWider(s, t, cur.base, cur.Top(), 0, |s|);
    PermutesAgain(was, s, t, 0, |s|);
  }

  lemma SortingFits<T>(cmp: (T, T) -> int, was: seq<T>, s: seq<T>, rest: seq<Segment>, cur: Segment)
    requires Sorting(cmp, was, s, rest + [cur])
    ensures cur.base + cur.count <= |s|
  {
    assert (rest + [cur])[|rest|] == cur;
  }

  lemma DepthsMore(st: seq<Segment>, d: nat, e: nat)
    requires Depths(st, d) && d <= e
    ensures Depths(st, e)
  {
  }

  /** What rqsort does with one entry popped from its stack. */
  method SortSegment<T(!new)>(a: array<T>, stack: array<Segment>, sp0: nat, cmp: (T, T) -> int, ghost was: seq<T>)
    returns (sp: nat)
    requires TotalPreorder(cmp) && stack.Length == 50 && sp0 < 50 && stack[sp0].depth <= 50
    requires Depths(stack[..sp0], stack[sp0].depth) && Sorting(cmp, was, a[..], stack[..sp0] + [stack[sp0]])
    requires a as object != stack as object
    modifies a, stack
    ensures sp <= 50 && Depths(stack[..sp], 50) && Sorting(cmp, was, a[..], stack[..sp])
    ensures Weight(stack[..sp]) < old(Weight(stack[..sp0]) + 2 * stack[sp0].count + 1)
  {
    hide *;
    sp := sp0;
    var ptr, nmemb, depth := stack[sp].base, stack[sp].count, stack[sp].depth;
    while nmemb > 6
      invariant sp <= 50 && depth <= 50 && Depths(stack[..sp], depth)
      invariant Sorting(cmp, was, a[..], stack[..sp] + [Segment(ptr, nmemb, depth)])
      invariant Weight(stack[..sp]) + 2 * nmemb < old(Weight(stack[..sp0]) + 2 * stack[sp0].count + 1)
      decreases nmemb
    {
      ghost var rest, cur, s := stack[..sp], Segment(ptr, nmemb, depth), a[..];
      depth := depth + 1;
      if depth > 50 {
        SortingFits(cmp, was, s, rest, cur);
        HeapSort(a, ptr, nmemb, cmp);
        assert stack[..sp] == rest;
        SegmentSorted(cmp, was, s, a[..], rest, cur);
        nmemb, depth := 0, 50;
        break;
      }
      ptr, nmemb := SplitSegment(a, stack, sp, ptr, nmemb, depth, cmp, was);
      sp := sp + 1;
    }
    ghost var rest, cur, s := stack[..sp], Segment(ptr, nmemb, depth), a[..];
    SortingFits(cmp, was, s, rest, cur);
    InsertionSort(a, ptr, nmemb, cmp);
    assert stack[..sp] == rest;
    SegmentSorted(cmp, was, s, a[..], rest, cur);
    DepthsMore(rest, depth, 50);
  }

  /** rqsort: sorts the array, whatever its length and contents, within fifty stack entries. */
  method Rqsort<T(!new)>(a: array<T>, cmp: (T, T) -> int)
    requires TotalPreorder(cmp)
    modifies a
    ensures forall i, j | 0 <= i < j < a.Length :: cmp(a[i], a[j]) <= 0
    ensures multiset(a[..]) == multiset(old(a[..]))
  {
    if a.Length < 2 {
      return;
    }
    hide *;
    ghost var was := a[..];
    var stack := new Segment[50](_ => Segment(0, 0, 0));
    stack[0] := Segment(0, a.Length, 0);
    var sp: nat := 1;
    assert stack[..sp] == [Segment(0, a.Length, 0)];
    SortingStart(cmp, was);
    while sp > 0
      invariant sp <= 50 == stack.Length && fresh(stack)
      invariant (sp == 1 && stack[0].depth == 0) || Depths(stack[..sp], 50)
      invariant Sorting(cmp, was, a[..], stack[..sp])
      decreases Weight(stack[..sp])
    {
      ghost var st := stack[..sp];
      sp := sp - 1;
      LastSlice(stack, sp);
      if sp == 0 && stack[0].depth == 0 {
        NoDepths();
      } else {
        PopDepth(st, sp);
      }
      WeightPush(st[..sp], stack[sp]);
      sp := SortSegment(a, stack, sp, cmp, was);
    }
    assert stack[..sp] == [];
    SortingEnd(cmp, was, a[..]);
    SortedMeans(cmp, a[..]);
    assert forall i | 0 <= i < a.Length :: a[i] == a[..][i];
  }

  lemma SortedMeans<T>(cmp: (T, T) -> int, s: seq<T>)
    requires SortedRange(cmp, s, 0, |s|)
    ensures forall i, j | 0 <= i < j < |s| :: cmp(s[i], s[j]) <= 0
  {
  }

  /** Numbers compared by their difference are ordered, and so are pairs compared by one component. */
  lemma Comparisons()
    ensures TotalPreorder((x: int, y: int) => x - y)
    ensures TotalPreorder((x: (int, int), y: (int, int)) => x.0 - y.0)
  {
  }

  /** The entries of an array up to `sp` are those before it and the one there. */
  lemma LastSlice<T>(a: array<T>, sp: nat)
    requires sp < a.Length
    ensures a[..sp + 1][..sp] == a[..sp] && a[..sp + 1] == a[..sp] + [a[sp]]
  {
  }

  lemma NoDepths()
    ensures Depths([], 0)
  {
  }
}
