/** What the four normal forms are, in terms of the character database alone. */
module NormalForms {
  import opened Normalize
  import opened Hangul
  import opened Composition

  // ----- canonical order -----

  /** Canonical ordering, written out: starters keep their places, nothing moves across one, no class is
      followed by a lower one, and the characters of each class keep their order. */
  lemma CanonicalOrder(cc: nat -> nat, s: seq<nat>, t: seq<nat>)
    requires Reordered(cc, s, t, |s|)
    ensures |t| == |s| && forall i | 0 <= i < |s| && cc(s[i]) == 0 :: t[i] == s[i]
    ensures forall i | 0 <= i < |s| && cc(s[i]) == 0 ::
              forall v: nat :: OfClass(cc, s[..i], v) == OfClass(cc, t[..i], v)
    ensures forall i | 0 <= i < |s| - 1 && cc(t[i + 1]) != 0 :: cc(t[i]) <= cc(t[i + 1])
    ensures forall v: nat :: OfClass(cc, s, v) == OfClass(cc, t, v)
  {
    ReorderedIsOrdered(cc, s, t);
    forall i | 0 <= i <= |s| && (i < |s| ==> Starter(cc, s[i]))
      ensures forall v: nat :: OfClass(cc, s[..i], v) == OfClass(cc, t[..i], v)
    {
      PrefixClasses(cc, s, t, i);
    }
    assert s[..|s|] == s && t[..|s|] == t;
  }

  /** Up to a starter, behind one, and up to the end, the classes have the same characters in the same order. */
  lemma {:induction false} PrefixClasses(cc: nat -> nat, s: seq<nat>, t: seq<nat>, i: nat)
    requires Reordered(cc, s, t, |s|) && i <= |s|
    requires i == 0 || i == |s| || Starter(cc, s[i - 1]) || Starter(cc, s[i])
    ensures forall v: nat :: OfClass(cc, s[..i], v) == OfClass(cc, t[..i], v)
    decreases i
  {
    hide OfClass, InOrder;
    if i > 0 {
      var n := i - 1;
      if Starter(cc, s[n]) {
        PrefixClasses(cc, s, t, n);
        assert s[..i] == s[..n] + [s[n]] && t[..i] == t[..n] + [s[n]];
        forall v: nat
          ensures OfClass(cc, s[..i], v) == OfClass(cc, t[..i], v)
        {
          OfClassSnoc(cc, s[..n], s[n], v);
          OfClassSnoc(cc, t[..n], s[n], v);
        }
      } else {
        var a, b := RunAround(cc, s, n);
        assert b == i;
        PrefixClasses(cc, s, t, a);
        assert StableSorted(cc, s[a..b], t[a..b]);
        assert s[..i] == s[..a] + s[a..b] && t[..i] == t[..a] + t[a..b];
        forall v: nat
          ensures OfClass(cc, s[..i], v) == OfClass(cc, t[..i], v)
        {
          OfClassConcat(cc, s[..a], s[a..b], v);
          OfClassConcat(cc, t[..a], t[a..b], v);
        }
      }
    }
  }

  // ----- composition -----

  /** The pair is one that the arithmetic of Hangul syllables composes: a leading consonant and a vowel, or a
      syllable without a trailing consonant and one. */
  predicate HangulPair(a: nat, c: nat) {
    || (0x1100 <= a <= 0x1112 && 0x1161 <= c <= 0x1175)
    || (0xac00 <= a <= 0xd7a3 && (a - 0xac00) % 28 == 0 && 0x11a7 <= c <= 0x11c2)
  }

  /** `out[p]` is the last starter, and every character behind it has a class below that of `c`. */
  predicate Unblocked(cc: nat -> nat, out: seq<nat>, p: nat, c: nat) {
    p < |out| && cc(out[p]) == 0 && forall i | p < i < |out| :: 0 < cc(out[i]) < cc(c)
  }

  /** The next character, not blocked from the last starter, is composed with it exactly if the table has the
      pair, or the two are a pair of Hangul parts. */
  lemma ComposesPair(db: Database, out: seq<nat>, p: nat, c: nat, rest: seq<nat>)
    requires Unblocked(db.cc, out, p, c)
    ensures !HangulPair(out[p], c) && db.pair(out[p], c) != 0 ==>
              Compose(db, out, [c] + rest) == Compose(db, out[p := db.pair(out[p], c)], rest)
    ensures !HangulPair(out[p], c) && db.pair(out[p], c) == 0 ==>
              Compose(db, out, [c] + rest) == Compose(db, out + [c], rest)
    ensures 0x1100 <= out[p] <= 0x1112 && 0x1161 <= c <= 0x1175 ==>
              Compose(db, out, [c] + rest) ==
              Compose(db, out[p := 0xac00 + 588 * (out[p] - 0x1100) + 28 * (c - 0x1161)], rest)
    ensures 0xac00 <= out[p] <= 0xd7a3 && (out[p] - 0xac00) % 28 == 0 && 0x11a7 <= c <= 0x11c2 ==>
              Compose(db, out, [c] + rest) == Compose(db, out[p := out[p] + (c - 0x11a7)], rest)
  {
    NextComposed(db, out, p, c, rest);
    hide Compose, Unblocked;
  }

  lemma NextComposed(db: Database, out: seq<nat>, p: nat, c: nat, rest: seq<nat>)
    requires Unblocked(db.cc, out, p, c)
    ensures var q := ComposePair(db, out[p], c);
            Compose(db, out, [c] + rest) ==
            if q != 0 then Compose(db, out[p := q], rest) else Compose(db, out + [c], rest)
  {
    assert LastStarter(db.cc, out) == p;
    assert ([c] + rest)[1..] == rest;
    assert Composite(db, out, c) == ComposePair(db, out[p], c) by {
      hide ComposePair;
    }
    hide ComposePair;
  }

  /** A character is blocked when no starter is in front of it, or when one of its class or a higher one stands
      between the last starter and it; it is put out as it is. */
  lemma BlockedStays(db: Database, out: seq<nat>, c: nat, rest: seq<nat>)
    requires || (forall i | 0 <= i < |out| :: db.cc(out[i]) != 0)
             || exists p, b | 0 <= p < b < |out| ::
                  && db.cc(out[p]) == 0 && (forall i | p < i < |out| :: db.cc(out[i]) != 0)
                  && db.cc(out[b]) >= db.cc(c)
    ensures Compose(db, out, [c] + rest) == Compose(db, out + [c], rest)
  {
    assert ([c] + rest)[1..] == rest;
    if p, b :| 0 <= p < b < |out| && db.cc(out[p]) == 0 && (forall i | p < i < |out| :: db.cc(out[i]) != 0)
              && db.cc(out[b]) >= db.cc(c) {
      assert LastStarter(db.cc, out) == p;
      assert Blocked(db.cc, out, p, c);
    } else {
      assert LastStarter(db.cc, out) == -1;
    }
  }

  lemma ComposesNothing(db: Database, out: seq<nat>)
    ensures Compose(db, out, []) == out
  {
  }

  // ----- the four forms -----

  /** The forms: NFKC and NFKD decompose by compatibility, NFC and NFD canonically; NFC and NFKC compose what
      canonical ordering has left, NFD and NFKD do not; NFC leaves text below U+0100 alone. */
  lemma FormsAre(db: Database, src: seq<nat>, form: Form, ordered: seq<nat>, r: seq<nat>)
    requires WellRanked(db) && Normalized(db, src, form, ordered, r)
    ensures form == NFC && (forall i | 0 <= i < |src| :: src[i] < 0x100) ==> r == src
    ensures form == NFC && (exists i | 0 <= i < |src| :: src[i] >= 0x100) ==>
              Reordered(db.cc, Nfd(db, src, false), ordered, |ordered|) && r == Composed(db, ordered)
    ensures form == NFKC ==> Reordered(db.cc, Nfd(db, src, true), ordered, |ordered|) && r == Composed(db, ordered)
    ensures form == NFD ==> Reordered(db.cc, Nfd(db, src, false), r, |r|)
    ensures form == NFKD ==> Reordered(db.cc, Nfd(db, src, true), r, |r|)
  {
  }

  ghost function Composed(db: Database, s: seq<nat>): seq<nat> {
    if |s| <= 1 then s else Compose(db, s[..1], s[1..])
  }

  /** A canonical composite of the table, in which a starter that does not decompose is followed by a
      character that does not, and which the table composes again. */
  predicate PrimaryComposite(db: Database, q: nat, a: nat, c: nat) {
    && db.decomp(q, false) == [a, c] && db.pair(a, c) == q != 0
    && db.decomp(a, false) == [] && db.decomp(c, false) == []
    && !Syllable(q) && !Syllable(a) && !Syllable(c) && !HangulPair(a, c) && db.cc(a) == 0
  }

  lemma TwoOrdered(cc: nat -> nat, a: nat, c: nat)
    requires cc(a) == 0
    ensures Ordered(cc, [a, c])
  {
  }

  lemma NfdOfOne(db: Database, q: nat, a: nat, c: nat)
    requires WellRanked(db) && PrimaryComposite(db, q, a, c)
    ensures Nfd(db, [q], false) == [a, c] && Nfd(db, [a, c], false) == [a, c]
  {
    NfdOfFull(db, [a, c], false);
    NfdStep(db, [q], false);
    NfdNone(db, false);
    assert [q][1..] == [];
  }

  /** Such a composite survives decomposition and composition: NFD takes it apart and NFC puts it together,
      whether it or its two characters are given. */
  lemma CompositeSurvives(db: Database, q: nat, a: nat, c: nat, form: Form, ordered: seq<nat>, r: seq<nat>, whole: bool)
    requires WellRanked(db) && PrimaryComposite(db, q, a, c) && (whole || a >= 0x100 || c >= 0x100)
    requires Normalized(db, if whole then [q] else [a, c], form, ordered, r)
    ensures form == NFC ==> r == [q]
    ensures form == NFD ==> r == [a, c]
  {
    var src := if whole then [q] else [a, c];
    assert !whole ==> src[0] == a && src[1] == c;
    NfdOfOne(db, q, a, c);
    TwoOrdered(db.cc, a, c);
    if form == NFD || (form == NFC && !Latin1(src)) {
      assert Reordered(db.cc, [a, c], ordered, |ordered|);
      OrderedStays(db.cc, [a, c], ordered);
      assert [a, c][..1] == [a] && [a, c][1..] == [c] + [];
      ComposesPair(db, [a], 0, c, []);
      ComposesNothing(db, [q]);
      assert [a][0 := q] == [q];
    }
  }

  /** The syllable with the `l`-th leading consonant, the `v`-th vowel and the `t`-th trailing consonant (none
      for 0) decomposes into these and is composed of them again, jamo and syllables being starters. */
  lemma SyllableForms(db: Database, l: nat, v: nat, t: nat, form: Form, ordered: seq<nat>, r: seq<nat>)
    requires WellRanked(db) && l < 19 && v < 21 && t < 28
    requires forall x: nat | 0x1100 <= x < 0x1200 || 0xac00 <= x <= 0xd7a3 :: db.cc(x) == 0
    requires Normalized(db, [0xac00 + 588 * l + 28 * v + t], form, ordered, r)
    ensures form == NFD || form == NFKD ==>
              r == if t == 0 then [0x1100 + l, 0x1161 + v] else [0x1100 + l, 0x1161 + v, 0x11a7 + t]
    ensures form == NFC || form == NFKC ==> r == [0xac00 + 588 * l + 28 * v + t]
  {
    var c := 0xac00 + 588 * l + 28 * v + t;
    SyllableIs(l, v, t);
    SyllableParts(db, c, form == NFKC || form == NFKD);
    hide *;
    OneDecomposed(db, c, DecomposeSyllable(c), form, ordered, r);
  }

  lemma SyllableIs(l: nat, v: nat, t: nat)
    requires l < 19 && v < 21 && t < 28
    ensures var c := 0xac00 + 588 * l + 28 * v + t;
            && 0xac00 <= c <= 0xd7a3 && Syllable(c)
            && DecomposeSyllable(c) == if t == 0 then [0x1100 + l, 0x1161 + v] else [0x1100 + l, 0x1161 + v, 0x11a7 + t]
  {
    Positions(l, v, t);
  }

  /** The forms of one character from U+0100 on that is taken apart in canonical order and composed again. */
  lemma OneDecomposed(db: Database, c: nat, parts: seq<nat>, form: Form, ordered: seq<nat>, r: seq<nat>)
    requires WellRanked(db) && c >= 0x100 && Normalized(db, [c], form, ordered, r)
    requires Nfd(db, [c], form == NFKC || form == NFKD) == parts && Ordered(db.cc, parts) && Composed(db, parts) == [c]
    ensures r == if form == NFD || form == NFKD then parts else [c]
  {
    FormsAre(db, [c], form, ordered, r);
    assert [c][0] >= 0x100;
    hide *;
    if form == NFD || form == NFKD {
      SameLength(db.cc, parts, r);
      OrderedStays(db.cc, parts, r);
    } else {
      SameLength(db.cc, parts, ordered);
      OrderedStays(db.cc, parts, ordered);
    }
  }

  lemma SameLength(cc: nat -> nat, s: seq<nat>, t: seq<nat>)
    requires Reordered(cc, s, t, |t|)
    ensures |t| == |s|
  {
  }

  lemma SyllableParts(db: Database, c: nat, k: bool)
    requires WellRanked(db) && Syllable(c)
    requires forall x: nat | 0x1100 <= x < 0x1200 || 0xac00 <= x <= 0xd7a3 :: db.cc(x) == 0
    ensures Nfd(db, [c], k) == DecomposeSyllable(c) && Ordered(db.cc, DecomposeSyllable(c))
    ensures Composed(db, DecomposeSyllable(c)) == [c]
  {
    SyllableComposes(db, c);
    NfdStep(db, [c], k);
    NfdNone(db, k);
    assert [c][1..] == [];
    assert forall x | x in DecomposeSyllable(c) :: Starter(db.cc, x);
  }
}
