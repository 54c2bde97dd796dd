/** The two ends of unicode_normalize: full decomposition, and composition of what canonical ordering left. */
module Composition {
  import opened Normalize
  import opened Hangul

  // ----- decomposition -----

  /** Decompositions end: each character of one has a lower rank. */
  ghost predicate WellRanked(db: Database) {
    forall c, k, i {:trigger db.decomp(c, k)[i]} | 0 <= i < |db.decomp(c, k)| :: db.rank(db.decomp(c, k)[i]) < db.rank(c)
  }

  /** A bound on the ranks in a string. */
  ghost function Bound(db: Database, s: seq<nat>): nat {
    if s == [] then 0
    else
      var b := Bound(db, s[1..]);
      if db.rank(s[0]) + 1 > b then db.rank(s[0]) + 1 else b
  }

  lemma {:induction false} BoundIs(db: Database, s: seq<nat>, n: nat)
    requires forall i | 0 <= i < |s| :: db.rank(s[i]) < n
    ensures Bound(db, s) <= n
  {
    if s != [] {
      BoundIs(db, s[1..], n);
    }
  }

  lemma {:induction false} BoundAt(db: Database, s: seq<nat>, i: nat)
    requires i < |s|
    ensures db.rank(s[i]) < Bound(db, s)
  {
    if i > 0 {
      BoundAt(db, s[1..], i - 1);
    }
  }

  lemma BoundDecomp(db: Database, c: nat, k: bool)
    requires WellRanked(db)
    ensures Bound(db, db.decomp(c, k)) <= db.rank(c)
  {
    BoundIs(db, db.decomp(c, k), db.rank(c));
  }

  /** Full decomposition. */
  ghost function Nfd(db: Database, s: seq<nat>, k: bool): seq<nat>
    requires WellRanked(db)
    decreases Bound(db, s), |s|
  {
    if s == [] then []
    else
      BoundDecomp(db, s[0], k);
      var d := db.decomp(s[0], k);
      (if Syllable(s[0]) then DecomposeSyllable(s[0]) else if d != [] then Nfd(db, d, k) else [s[0]])
      + Nfd(db, s[1..], k)
  }

  /** The growing buffer of to_nfd_rec. */
  class Buffer {
    var chars: seq<nat>

    constructor ()
      ensures chars == []
    {
      chars := [];
    }

    method PutU32(c: nat)
      modifies this
      ensures chars == old(chars) + [c]
    {
      chars := chars + [c];
    }

    /** The Hangul branch. */
    method PutSyllable(c: nat)
      requires Syllable(c)
      modifies this
      ensures chars == old(chars) + DecomposeSyllable(c)
    {
      var n := c - 0xac00;
      PutU32(0x1100 + n / 588);
      PutU32(0x1161 + n % 588 / 28);
      var v := n % 28;
      if v != 0 {
        PutU32(0x11a7 + v);
      }
    }

    /** to_nfd_rec. */
    method ToNfdRec(db: Database, src: seq<nat>, isCompat: bool)
      requires WellRanked(db)
      modifies this
      ensures chars == old(chars) + Nfd(db, src, isCompat)
      decreases Bound(db, src)
    {
      hide *;
      var i := 0;
      assert src[0..] == src;
      while i < |src|
        invariant 0 <= i <= |src|
        invariant chars + Nfd(db, src[i..], isCompat) == old(chars) + Nfd(db, src, isCompat)
      {
        var c := src[i];
        ghost var done := chars;
        NfdStep(db, src[i..], isCompat);
        assert src[i..][0] == c && src[i..][1..] == src[i + 1..];
        if 0xac00 <= c < 0xd7a4 {
          IsSyllable(c);
          PutSyllable(c);
        } else {
          IsSyllable(c);
          var res := db.decomp(c, isCompat);
          if |res| != 0 {
            BoundDecomp(db, c, isCompat);
            BoundAt(db, src, i);
            ToNfdRec(db, res, isCompat);
          } else {
            PutU32(c);
          }
        }
        ghost var (part, rest) := (NfdChar(db, c, isCompat), Nfd(db, src[i + 1..], isCompat));
        assert done + (part + rest) == (done + part) + rest && chars == done + part;
        i := i + 1;
      }
      NfdNone(db, isCompat);
      assert src[i..] == [] && chars + [] == chars;
    }
  }

  lemma IsSyllable(c: nat)
    ensures Syllable(c) <==> 0xac00 <= c < 0xd7a4
  {
  }

  /** The full decomposition of one character. */
  ghost function NfdChar(db: Database, c: nat, k: bool): seq<nat>
    requires WellRanked(db)
  {
    if Syllable(c) then DecomposeSyllable(c)
    else if |db.decomp(c, k)| != 0 then Nfd(db, db.decomp(c, k), k) else [c]
  }

  lemma NfdStep(db: Database, s: seq<nat>, k: bool)
    requires WellRanked(db) && s != []
    ensures Nfd(db, s, k) == NfdChar(db, s[0], k) + Nfd(db, s[1..], k)
    ensures NfdChar(db, s[0], k) == if Syllable(s[0]) then DecomposeSyllable(s[0])
                                    else if |db.decomp(s[0], k)| != 0 then Nfd(db, db.decomp(s[0], k), k) else [s[0]]
  {
    BoundDecomp(db, s[0], k);
  }

  lemma NfdNone(db: Database, k: bool)
    requires WellRanked(db)
    ensures Nfd(db, [], k) == []
  {
  }

  /** No character decomposes further. */
  ghost predicate FullyDecomposed(db: Database, s: seq<nat>, k: bool) {
    forall i | 0 <= i < |s| :: !Syllable(s[i]) && db.decomp(s[i], k) == []
  }

  /** The conjoining jamo have no decompositions. */
  ghost predicate JamoAtomic(db: Database) {
    forall c, k | 0x1100 <= c < 0x1200 :: db.decomp(c, k) == []
  }

  /** Decomposition is complete. */
  lemma {:induction false} NfdIsFull(db: Database, s: seq<nat>, k: bool)
    requires WellRanked(db) && JamoAtomic(db)
    ensures FullyDecomposed(db, Nfd(db, s, k), k)
    decreases Bound(db, s), |s|
  {
    if s != [] {
      BoundDecomp(db, s[0], k);
      NfdIsFull(db, s[1..], k);
      if Syllable(s[0]) {
        Divided(s[0] - 0xac00);
      } else if db.decomp(s[0], k) != [] {
        NfdIsFull(db, db.decomp(s[0], k), k);
      }
    }
  }

  /** What does not decompose further stays. */
  lemma {:induction false} NfdOfFull(db: Database, s: seq<nat>, k: bool)
    requires WellRanked(db) && FullyDecomposed(db, s, k)
    ensures Nfd(db, s, k) == s
    decreases |s|
  {
    if s != [] {
      NfdOfFull(db, s[1..], k);
    }
  }

  // ----- composition -----

  /** The position of the last starter of `out`, or -1. */
  function LastStarter(cc: nat -> nat, out: seq<nat>): (p: int)
    ensures -1 <= p < |out|
    ensures p >= 0 ==> Starter(cc, out[p])
    ensures forall i | p < i < |out| :: !Starter(cc, out[i])
  {
    if out == [] then -1
    else if Starter(cc, out[|out| - 1]) then |out| - 1
    else LastStarter(cc, out[..|out| - 1])
  }

  /** `c`, following `out`, is blocked from the starter at `p`: something between is a starter or has the
      same or a higher class (definition D115 in section 3.11 of the Unicode Standard). */
  ghost predicate Blocked(cc: nat -> nat, out: seq<nat>, p: int, c: nat) {
    exists b | p < b < |out| && b >= 0 :: Starter(cc, out[b]) || cc(out[b]) >= cc(c)
  }

  /** The composite that replaces the last starter when `c` follows, or 0. */
  ghost function Composite(db: Database, out: seq<nat>, c: nat): nat {
    var p := LastStarter(db.cc, out);
    if p >= 0 && !Blocked(db.cc, out, p, c) then ComposePair(db, out[p], c) else 0
  }

  /** Canonical composition, character by character. */
  ghost function Compose(db: Database, out: seq<nat>, rest: seq<nat>): seq<nat>
    decreases |rest|
  {
    if rest == [] then out
    else
      var p := Composite(db, out, rest[0]);
      if p != 0 then Compose(db, out[LastStarter(db.cc, out) := p], rest[1..])
      else Compose(db, out + [rest[0]], rest[1..])
  }

  /** Classes lie in 0..255, and composites are starters. */
  ghost predicate WellFormed(db: Database) {
    && (forall c :: db.cc(c) < 256)
    && (forall x, y | ComposePair(db, x, y) != 0 :: Starter(db.cc, ComposePair(db, x, y)))
  }

  /** After the last starter, classes do not decrease. */
  ghost predicate TailOrdered(cc: nat -> nat, out: seq<nat>) {
    forall i, j | LastStarter(cc, out) < i < j < |out| && i >= 0 :: cc(out[i]) <= cc(out[j])
  }

  /** The starter search: the position of the last starter if it is not blocked, else -1. Only the class of
      the character just before is ever compared. */
  method FindStarter(buf: array<nat>, outLen: nat, c: nat, cc: nat -> nat) returns (pos: int)
    requires outLen <= buf.Length && TailOrdered(cc, buf[..outLen])
    requires forall x :: cc(x) < 256
    ensures pos == if Blocked(cc, buf[..outLen], LastStarter(cc, buf[..outLen]), c) then -1
                   else LastStarter(cc, buf[..outLen])
  {
    ghost var out := buf[..outLen];
    ghost var last := LastStarter(cc, out);
    var lastCc := cc(c);
    pos := outLen - 1;
    while pos >= 0
      invariant last <= pos < outLen && out == buf[..outLen]
      invariant lastCc == if pos == outLen - 1 then cc(c) else 256
      invariant pos < outLen - 1 ==> cc(out[outLen - 1]) < cc(c)
    {
      var k := cc(buf[pos]);
      if k == 0 {
        break;
      }
      if k >= lastCc {
        assert out[pos] == buf[pos];
        return -1;
      }
      lastCc := 256;
      pos := pos - 1;
    }
    assert pos == last;
  }

  lemma LastStarterAppend(cc: nat -> nat, out: seq<nat>, c: nat)
    ensures LastStarter(cc, out + [c]) == if Starter(cc, c) then |out| else LastStarter(cc, out)
  {
    assert (out + [c])[..|out|] == out;
  }

  lemma {:induction false} LastStarterReplaced(cc: nat -> nat, out: seq<nat>, p: nat, c: nat)
    requires p == LastStarter(cc, out) && Starter(cc, c)
    ensures LastStarter(cc, out[p := c]) == p
  {
    var n := |out| - 1;
    if p < n {
      LastStarterReplaced(cc, out[..n], p, c);
      assert out[p := c][..n] == out[..n][p := c];
    }
  }

  /** The state of the loop: what is put out, and how it meets what is to come. */
  ghost predicate Composing(db: Database, s: seq<nat>, out: seq<nat>, i: nat) {
    && 1 <= |out| <= i <= |s|
    && Compose(db, out, s[i..]) == Compose(db, s[..1], s[1..])
    && TailOrdered(db.cc, out)
    && (i < |s| && !Starter(db.cc, out[|out| - 1]) && !Starter(db.cc, s[i]) ==> db.cc(out[|out| - 1]) <= db.cc(s[i]))
  }

  lemma ComposedOne(db: Database, s: seq<nat>, out: seq<nat>, i: nat)
    requires Composing(db, s, out, i) && i < |s| && WellFormed(db) && Ordered(db.cc, s)
    requires Composite(db, out, s[i]) != 0
    ensures Composing(db, s, out[LastStarter(db.cc, out) := Composite(db, out, s[i])], i + 1)
  {
    var (p, c) := (LastStarter(db.cc, out), Composite(db, out, s[i]));
    assert s[i..][0] == s[i] && s[i..][1..] == s[i + 1..];
    assert Starter(db.cc, c);
    LastStarterReplaced(db.cc, out, p, c);
    if p < |out| - 1 {
      assert !Blocked(db.cc, out, p, s[i]);
      assert db.cc(out[|out| - 1]) < db.cc(s[i]);
    }
  }

  lemma AppendedOne(db: Database, s: seq<nat>, out: seq<nat>, i: nat)
    requires Composing(db, s, out, i) && i < |s| && WellFormed(db) && Ordered(db.cc, s)
    requires Composite(db, out, s[i]) == 0
    ensures Composing(db, s, out + [s[i]], i + 1)
  {
    assert s[i..][0] == s[i] && s[i..][1..] == s[i + 1..];
    LastStarterAppend(db.cc, out, s[i]);
    var (more, p) := (out + [s[i]], LastStarter(db.cc, out));
    if !Starter(db.cc, s[i]) {
      forall k, j | p < k < j < |more| && k >= 0
        ensures db.cc(more[k]) <= db.cc(more[j])
      {
        if j == |out| {
          assert db.cc(out[k]) <= db.cc(out[|out| - 1]);
        }
      }
    }
  }

  /** One round of the composition loop. */
  method ComposeNext(buf: array<nat>, db: Database, i: nat, outLen0: nat, ghost s: seq<nat>) returns (outLen: nat)
    requires 1 <= outLen0 <= i < buf.Length == |s| && WellFormed(db) && Ordered(db.cc, s)
    requires Composing(db, s, buf[..outLen0], i) && buf[i] == s[i]
    modifies buf
    ensures 1 <= outLen <= i + 1 && Composing(db, s, buf[..outLen], i + 1)
    ensures forall h | i < h < buf.Length :: buf[h] == old(buf[h])
  {
    Classes(db);
    hide *;
    ghost var out := buf[..outLen0];
    ComposingTail(db, s, out, i);
    var pos := FindStarter(buf, outLen0, buf[i], db.cc);
    var p := if pos >= 0 then ComposePair(db, buf[pos], buf[i]) else 0;
    CompositeIs(db, out, s[i], pos, p);
    if p != 0 {
      ComposedOne(db, s, out, i);
      buf[pos] := p;
      outLen := outLen0;
      assert buf[..outLen] == out[pos := p];
    } else {
      AppendedOne(db, s, out, i);
      buf[outLen0] := buf[i];
      outLen := outLen0 + 1;
      assert buf[..outLen] == out + [s[i]];
    }
  }

  lemma Classes(db: Database)
    requires WellFormed(db)
    ensures forall x :: db.cc(x) < 256
  {
  }

  /** The composition loop, in place: `outLen` characters are kept. */
  method ComposeInPlace(buf: array<nat>, db: Database) returns (outLen: nat)
    requires buf.Length >= 1 && WellFormed(db) && Ordered(db.cc, buf[..])
    modifies buf
    ensures outLen <= buf.Length
    ensures buf[..outLen] == Compose(db, old(buf[..1]), old(buf[1..]))
  {
    hide *;
    ghost var s := buf[..];
    var i: nat := 1;
    outLen := 1;
    ComposingStarts(db, s);
    assert buf[..1] == s[..1] && buf[1..] == s[1..];
    while i < buf.Length
      invariant 1 <= outLen <= i <= buf.Length && Composing(db, s, buf[..outLen], i)
      invariant forall h | i <= h < buf.Length :: buf[h] == s[h]
    {
      outLen := ComposeNext(buf, db, i, outLen, s);
      i := i + 1;
    }
    ComposingEnds(db, s, buf[..outLen], i);
  }

  lemma ComposingStarts(db: Database, s: seq<nat>)
    requires |s| >= 1 && Ordered(db.cc, s)
    ensures Composing(db, s, s[..1], 1)
  {
  }

  lemma ComposingTail(db: Database, s: seq<nat>, out: seq<nat>, i: nat)
    requires Composing(db, s, out, i)
    ensures TailOrdered(db.cc, out)
  {
  }

  lemma ComposingEnds(db: Database, s: seq<nat>, out: seq<nat>, i: nat)
    requires Composing(db, s, out, i) && i == |s|
    ensures out == Compose(db, s[..1], s[1..])
  {
    assert s[i..] == [];
  }

  lemma CompositeIs(db: Database, out: seq<nat>, c: nat, pos: int, p: nat)
    requires pos == if Blocked(db.cc, out, LastStarter(db.cc, out), c) then -1 else LastStarter(db.cc, out)
    requires p == if pos >= 0 then ComposePair(db, out[pos], c) else 0
    ensures p == Composite(db, out, c)
    ensures p != 0 ==> pos == LastStarter(db.cc, out)
  {
  }

  // ----- normalisation -----

  /** UNICODE_NFC, UNICODE_NFD, UNICODE_NFKC and UNICODE_NFKD. */
  datatype Form = NFC | NFD | NFKC | NFKD {
    predicate Compat() {
      NFKC? || NFKD?
    }

    predicate Decomposed() {
      NFD? || NFKD?
    }
  }

  predicate Latin1(s: seq<nat>) {
    forall i | 0 <= i < |s| :: s[i] < 0x100
  }

  /** What unicode_normalize computes, with `ordered` the canonical order of the decomposition. */
  ghost predicate Normalized(db: Database, src: seq<nat>, form: Form, ordered: seq<nat>, r: seq<nat>)
    requires WellRanked(db)
  {
    if form.NFC? && Latin1(src) then r == src
    else
      && Reordered(db.cc, Nfd(db, src, form.Compat()), ordered, |ordered|)
      && r == if |ordered| <= 1 || form.Decomposed() then ordered else Compose(db, ordered[..1], ordered[1..])
  }

  /** unicode_normalize. */
  method UnicodeNormalize(db: Database, src: seq<nat>, form: Form) returns (r: seq<nat>)
    requires WellRanked(db) && WellFormed(db)
    ensures exists ordered :: Normalized(db, src, form, ordered, r)
  {
    if form.NFC? {
      var i := 0;
      while i < |src| && src[i] < 0x100
        invariant 0 <= i <= |src| && forall k | 0 <= k < i :: src[k] < 0x100
      {
        i := i + 1;
      }
      if i == |src| {
        assert Normalized(db, src, form, [], src);
        return src;
      }
    }
    hide Nfd, Compose, Reordered, WellFormed, WellRanked, Ordered;
    var dbuf := new Buffer();
    dbuf.ToNfdRec(db, src, form.Compat());
    assert dbuf.chars == Nfd(db, src, form.Compat());
    var buf := new nat[|dbuf.chars|](i requires 0 <= i < |dbuf.chars| reads dbuf => dbuf.chars[i]);
    assert buf[..] == dbuf.chars;
    SortCc(buf, db.cc);
    ghost var ordered := buf[..];
    ReorderedIsOrdered(db.cc, dbuf.chars, ordered);
    if buf.Length <= 1 || form.Decomposed() {
      assert Normalized(db, src, form, ordered, buf[..]);
      return buf[..];
    }
    var outLen := ComposeInPlace(buf, db);
    r := buf[..outLen];
    assert Normalized(db, src, form, ordered, r);
  }

  /** The canonical order of a decomposition keeps its characters, so it decomposes no further. */
  lemma OrderedIsFull(db: Database, s: seq<nat>, t: seq<nat>, k: bool)
    requires FullyDecomposed(db, s, k) && Reordered(db.cc, s, t, |s|)
    ensures FullyDecomposed(db, t, k)
  {
    hide Starter;
    forall i | 0 <= i < |t|
      ensures !Syllable(t[i]) && db.decomp(t[i], k) == []
    {
      if !Starter(db.cc, s[i]) {
        var a, b := RunAround(db.cc, s, i);
        hide Run;
        var j := MemberOf(db.cc, s[a..b], t[a..b], i - a);
        assert t[i] == t[a..b][i - a] == s[a + j];
      }
    }
  }

  /** What a rearrangement class by class contains was there before. */
  lemma MemberOf(cc: nat -> nat, s: seq<nat>, t: seq<nat>, k: nat) returns (j: nat)
    requires SameClasses(cc, s, t) && k < |t|
    ensures j < |s| && s[j] == t[k]
  {
    var v := cc(t[k]);
    assert t == t[..k] + ([t[k]] + t[k + 1..]);
    OfClassConcat(cc, t[..k], [t[k]] + t[k + 1..], v);
    OfClassConcat(cc, [t[k]], t[k + 1..], v);
    OfClassSnoc(cc, [], t[k], v);
    assert [] + [t[k]] == [t[k]];
    assert t[k] in OfClass(cc, t, v);
    assert OfClass(cc, s, v) == OfClass(cc, t, v);
    j := ClassMember(cc, s, v, t[k]);
  }

  lemma {:induction false} ClassMember(cc: nat -> nat, s: seq<nat>, v: nat, x: nat) returns (j: nat)
    requires x in OfClass(cc, s, v)
    ensures j < |s| && s[j] == x
  {
    var n := |s| - 1;
    if cc(s[n]) == v && s[n] == x {
      j := n;
    } else {
      j := ClassMember(cc, s[..n], v, x);
    }
  }

  /** The decomposed forms are stable: normalising again changes nothing. */
  lemma DecomposedFormsStable(db: Database, src: seq<nat>, form: Form, o1: seq<nat>, r1: seq<nat>, o2: seq<nat>, r2: seq<nat>)
    requires WellRanked(db) && JamoAtomic(db) && form.Decomposed()
    requires Normalized(db, src, form, o1, r1) && Normalized(db, r1, form, o2, r2)
    ensures r2 == r1
  {
    var k := form.Compat();
    var d := Nfd(db, src, k);
    NfdIsFull(db, src, k);
    OrderedIsFull(db, d, r1, k);
    NfdOfFull(db, r1, k);
    ReorderedIsOrdered(db.cc, d, r1);
    OrderedStays(db.cc, r1, r2);
  }

  /** A Hangul syllable survives decomposition and composition, jamo being starters. */
  lemma SyllableComposes(db: Database, c: nat)
    requires Syllable(c) && forall x: nat | 0x1100 <= x < 0x1200 || Syllable(x) :: Starter(db.cc, x)
    ensures var s := DecomposeSyllable(c); Compose(db, s[..1], s[1..]) == [c]
  {
    var s := DecomposeSyllable(c);
    var n := c - 0xac00;
    Divided(n);
    SyllableRoundTrip(db, c);
    var lv := ComposePair(db, s[0], s[1]);
    assert lv == 0xac00 + (n - n % 28);
    assert s[..1] == [s[0]] && LastStarter(db.cc, [s[0]]) == 0;
    assert Composite(db, [s[0]], s[1]) == lv && [s[0]][0 := lv] == [lv];
    assert Compose(db, s[..1], s[1..]) == Compose(db, [lv], s[2..]);
    if n % 28 != 0 {
      assert Composite(db, [lv], s[2]) == c && [lv][0 := c] == [c];
      assert s[2..][1..] == [];
      assert Compose(db, [lv], s[2..]) == Compose(db, [c], []);
    }
  }
}
