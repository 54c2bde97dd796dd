/** Decomposition and composition of characters, with the arithmetic of Hangul syllables. */
module Hangul {
  import opened Normalize

  predicate Syllable(c: nat) {
    0xac00 <= c < 0xd7a4
  }

  /** The Hangul branch of to_nfd_rec. */
  function DecomposeSyllable(c: nat): (s: seq<nat>)
    requires Syllable(c)
  {
    var n := c - 0xac00;
    [0x1100 + n / 588, 0x1161 + n % 588 / 28] + if n % 28 != 0 then [0x11a7 + n % 28] else []
  }

  /** compose_pair. */
  function ComposePair(db: Database, c0: nat, c1: nat): nat {
    if 0x1100 <= c0 < 0x1100 + 19 && 0x1161 <= c1 < 0x1161 + 21 then
      0xac00 + (c0 - 0x1100) * 588 + (c1 - 0x1161) * 28
    else if 0xac00 <= c0 < 0xac00 + 11172 && (c0 - 0xac00) % 28 == 0 && 0x11a7 <= c1 < 0x11a7 + 28 then
      c0 + c1 - 0x11a7
    else db.pair(c0, c1)
  }

  /** Composing the parts of a syllable from the left. */
  function ComposeParts(db: Database, s: seq<nat>): nat
    requires |s| >= 2
  {
    if |s| == 2 then ComposePair(db, s[0], s[1]) else ComposePair(db, ComposeParts(db, s[..|s| - 1]), s[|s| - 1])
  }

  lemma Divided(n: nat)
    requires n < 11172
    ensures n / 588 < 19 && n % 588 / 28 < 21 && (n - n % 28) % 28 == 0
    ensures n / 588 * 588 + n % 588 / 28 * 28 == n - n % 28
  {
    var (q, r) := (n / 588, n % 588);
    assert n == 588 * q + r && r == 28 * (r / 28) + r % 28;
    assert n % 28 == r % 28 by {
      assert n == 28 * (21 * q + r / 28) + r % 28;
      Remainder(21 * q + r / 28, r % 28);
    }
    Remainder(21 * q + r / 28, 0);
  }

  lemma Remainder(q: nat, r: nat)
    requires r < 28
    ensures (28 * q + r) % 28 == r && (28 * q + r) / 28 == q
  {
  }

  /** Composing the decomposition of any syllable restores it. */
  lemma SyllableRoundTrip(db: Database, c: nat)
    requires Syllable(c)
    ensures |DecomposeSyllable(c)| >= 2 && ComposeParts(db, DecomposeSyllable(c)) == c
  {
    var n := c - 0xac00;
    Divided(n);
    var s := DecomposeSyllable(c);
    if n % 28 != 0 {
      assert s[..2] == [s[0], s[1]];
      assert ComposeParts(db, s[..2]) == ComposePair(db, s[0], s[1]) == 0xac00 + (n - n % 28);
    }
  }

  /** The other way round, for a leading consonant and a vowel, and for a syllable without a trailing
      consonant and what compose_pair takes for one: decomposing gives back both exactly when the latter is
      not U+11A7, which compose_pair accepts although no syllable decomposes into it. */
  lemma CompositionRoundTrip(db: Database, l: nat, v: nat, t: nat)
    requires 0x1100 <= l < 0x1100 + 19 && 0x1161 <= v < 0x1161 + 21 && 0x11a7 <= t < 0x11a7 + 28
    ensures var lv := ComposePair(db, l, v);
            && Syllable(lv) && DecomposeSyllable(lv) == [l, v]
            && Syllable(ComposePair(db, lv, t))
            && (DecomposeSyllable(ComposePair(db, lv, t)) == [l, v, t] <==> t != 0x11a7)
  {
    var (x, y, z) := (l - 0x1100, v - 0x1161, t - 0x11a7);
    Positions(x, y, 0);
    Positions(x, y, z);
  }

  lemma Positions(x: nat, y: nat, z: nat)
    requires x < 19 && y < 21 && z < 28
    ensures var n := x * 588 + y * 28 + z;
            n < 11172 && n / 588 == x && n % 588 / 28 == y && n % 28 == z
  {
    var n := x * 588 + y * 28 + z;
    assert n == 588 * x + (28 * y + z) && 28 * y + z < 588;
    assert n % 588 == 28 * y + z;
    Remainder(y, z);
    assert n == 28 * (21 * x + y) + z;
    Remainder(21 * x + y, z);
  }
}
