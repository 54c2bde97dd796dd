/** Soundness of the two analyses that the code generator runs over the code it has just emitted. */
module RegexAnalysis {
  import opened Limits
  import opened Options
  import opened RegexCode
  import opened RegexPattern
  import opened RegexMatcher
  import opened RegexProgress

  lemma {:induction false} ScanConcat(a: seq<Instr>, b: seq<Instr>)
    ensures ScanAdvance(a + b) == if ScanAdvance(a) == Unknown then ScanAdvance(b) else ScanAdvance(a)
  {
    if a == [] {
      assert a + b == b;
    } else {
      assert (a + b)[1..] == a[1..] + b;
      ScanConcat(a[1..], b);
    }
  }

  lemma {:induction false} MarksConcat(a: seq<Instr>, b: seq<Instr>)
    ensures MarkedBy(a + b) == MarkedBy(a) + MarkedBy(b)
    ensures ReferredBy(a + b) == ReferredBy(a) + ReferredBy(b)
  {
    if a == [] {
      assert a + b == b;
    } else {
      assert (a + b)[1..] == a[1..] + b;
      MarksConcat(a[1..], b);
    }
  }

  lemma {:induction false} SimpleConcat(a: seq<Instr>, b: seq<Instr>)
    ensures SimpleLength(a + b).Some? <==> SimpleLength(a).Some? && SimpleLength(b).Some?
    ensures SimpleLength(a + b).Some? ==>
              SimpleLength(a + b).value == SimpleLength(a).value + SimpleLength(b).value
  {
    if a == [] {
      assert a + b == b;
    } else {
      assert (a + b)[1..] == a[1..] + b;
      SimpleConcat(a[1..], b);
    }
  }

  /** What the scan says of a code sequence. */
  ghost predicate Facts(code: seq<Instr>, sets: set<nat>, refs: set<nat>) {
    MarkedBy(code) == sets && ReferredBy(code) == refs
  }

  lemma FactsConcat(a: seq<Instr>, b: seq<Instr>, sa: set<nat>, ra: set<nat>, sb: set<nat>, rb: set<nat>)
    requires Facts(a, sa, ra) && Facts(b, sb, rb)
    ensures Facts(a + b, sa + sb, ra + rb)
  {
    MarksConcat(a, b);
  }

  /** A single instruction that neither saves nor refers back. */
  lemma FactsNone(i: Instr)
    requires Marks(i) == {} && RefsOf(i) == {}
    ensures Facts([i], {}, {})
  {
  }

  /** Instructions around `body` that neither save nor refer back add nothing. */
  lemma FactsAround(pre: Instr, body: seq<Instr>, post: seq<Instr>, sets: set<nat>, refs: set<nat>)
    requires Marks(pre) == {} && RefsOf(pre) == {}
    requires Facts(body, sets, refs) && Facts(post, {}, {})
    ensures Facts([pre] + (body + post), sets, refs)
  {
    FactsConcat(body, post, sets, refs, {}, {});
    FactsNone(pre);
    FactsConcat([pre], body + post, {}, {}, sets, refs);
  }

  lemma FactsStar(atom: seq<Instr>, greedy: bool, check: bool, sets: set<nat>, refs: set<nat>)
    requires Facts(atom, sets, refs)
    ensures Facts(StarCode(atom, greedy, check), sets, refs)
  {
    var len: int := SizeOf(atom);
    FactsNone(Bne(-(len + 11)));
    FactsNone(Goto(-(len + 10)));
    if check {
      FactsAround(PushPos, atom, [Bne(-(len + 11))], sets, refs);
      FactsNone(Split(greedy, len + 6));
      FactsConcat([Split(greedy, len + 6)], [PushPos] + (atom + [Bne(-(len + 11))]), {}, {}, sets, refs);
    } else {
      FactsAround(Split(greedy, len + 5), atom, [Goto(-(len + 10))], sets, refs);
    }
  }

  lemma FactsPair(a: Instr, b: Instr)
    requires Marks(a) == {} && RefsOf(a) == {} && Marks(b) == {} && RefsOf(b) == {}
    ensures Facts([a, b], {}, {})
  {
    FactsNone(a);
    FactsNone(b);
    FactsConcat([a], [b], {}, {}, {}, {});
    assert [a] + [b] == [a, b];
  }

  lemma FactsUpTo(atom: seq<Instr>, k: nat, greedy: bool, sets: set<nat>, refs: set<nat>)
    requires Facts(atom, sets, refs)
    ensures Facts(UpToCode(atom, k, greedy), sets, refs)
  {
    var len: int := SizeOf(atom);
    FactsPair(Loop(-(len + 10)), Drop);
    FactsAround(Split(greedy, len + 5), atom, [Loop(-(len + 10)), Drop], sets, refs);
    FactsNone(PushI32(k));
    FactsConcat([PushI32(k)], [Split(greedy, len + 5)] + (atom + [Loop(-(len + 10)), Drop]), {}, {}, sets, refs);
  }

  lemma FactsTimes(atom: seq<Instr>, k: nat, sets: set<nat>, refs: set<nat>)
    requires Facts(atom, sets, refs)
    ensures Facts(TimesCode(atom, k), sets, refs)
  {
    FactsPair(Loop(-(SizeOf(atom) + 5)), Drop);
    if k != 1 {
      FactsAround(PushI32(k), atom, [Loop(-(SizeOf(atom) + 5)), Drop], sets, refs);
    }
  }

  lemma FactsTail(atom: seq<Instr>, min: nat, max: nat, greedy: bool, check: bool, sets: set<nat>, refs: set<nat>)
    requires Facts(atom, sets, refs) && min <= max
    ensures max == INT32_MAX || max > min ==> Facts(TailCode(atom, min, max, greedy, check), sets, refs)
    ensures !(max == INT32_MAX || max > min) ==> Facts(TailCode(atom, min, max, greedy, check), {}, {})
  {
    FactsStar(atom, greedy, check, sets, refs);
    FactsUpTo(atom, if max > min then max - min else 0, greedy, sets, refs);
  }

  lemma FactsSave(n: nat)
    ensures Facts([SaveStart(n)], {n}, {}) && Facts([SaveEnd(n)], {n}, {})
  {
    assert [SaveStart(n)][1..] == [] && [SaveEnd(n)][1..] == [];
  }

  lemma FactsCapture(n: nat, c: seq<Instr>, back: bool, sets: set<nat>, refs: set<nat>)
    requires Facts(c, sets, refs)
    ensures Facts(CaptureCode(n, c, back), {n} + sets, refs)
  {
    FactsSave(n);
    FactsConcat(c, [SaveEnd(n)], sets, refs, {n}, {});
    FactsConcat(c, [SaveStart(n)], sets, refs, {n}, {});
    FactsConcat([SaveStart(n)], c + [SaveEnd(n)], {n}, {}, sets + {n}, refs);
    FactsConcat([SaveEnd(n)], c + [SaveStart(n)], {n}, {}, sets + {n}, refs);
    assert {n} + (sets + {n}) == {n} + sets;
  }

  lemma FactsEither(cl: seq<Instr>, cr: seq<Instr>, sl: set<nat>, rl: set<nat>, sr: set<nat>, rr: set<nat>)
    requires Facts(cl, sl, rl) && Facts(cr, sr, rr)
    ensures Facts(EitherCode(cl, cr), sl + sr, rl + rr)
  {
    FactsNone(Goto(SizeOf(cr)));
    FactsConcat([Goto(SizeOf(cr))], cr, {}, {}, sr, rr);
    FactsConcat(cl, [Goto(SizeOf(cr))] + cr, sl, rl, sr, rr);
    FactsNone(Split(true, SizeOf(cl) + 5));
    FactsConcat([Split(true, SizeOf(cl) + 5)], cl + ([Goto(SizeOf(cr))] + cr), {}, {}, sl + sr, rl + rr);
  }

  lemma FactsOne(fl: Flags, a: Atom, back: bool)
    requires AtomOk(fl, a)
    ensures Facts(BackwardWrap(AtomInstr(fl, a), back), {}, {})
  {
    var i := AtomInstr(fl, a);
    FactsNone(i);
    FactsNone(Prev);
    FactsAround(Prev, [i], [Prev], {}, {});
  }

  lemma FactsQuant(atom: seq<Instr>, min: nat, max: nat, greedy: bool, lo: nat, hi: nat, sets: set<nat>, refs: set<nat>)
    requires Facts(atom, sets, refs) && min <= max
    requires UsesFastPath(atom, max, greedy) ==> lo >= hi
    ensures Facts(QuantCode(atom, min, max, greedy, lo, hi),
                  (if min == 0 && lo < hi then Interval(lo, hi - 1) else {}) + (if max == 0 then {} else sets),
                  if max == 0 then {} else refs)
  {
    if UsesFastPath(atom, max, greedy) {
      SimpleFacts(atom);
      FactsNone(Match);
      FactsAround(Greedy(SizeOf(atom) + 1, min, max, SimpleLength(atom).value), atom, [Match], {}, {});
    } else {
      FactsGeneral(atom, min, max, greedy, lo, hi, sets, refs);
    }
  }

  lemma FactsLeaf(back: bool, n: nat)
    ensures Facts([], {}, {})
    ensures Facts([BackRef(back, n)], {}, {n})
  {
  }

  lemma FactsReset(lo: nat, hi: nat)
    ensures Facts(Reset(lo, hi), if lo < hi then Interval(lo, hi - 1) else {}, {})
  {
  }

  lemma FactsEmpty()
    ensures Facts([], {}, {})
  {
  }

  /** The shapes with a minimum of 0, behind the reset of the captures. */
  lemma FactsOptional(atom: seq<Instr>, max: nat, greedy: bool, check: bool, lo: nat, hi: nat, sets: set<nat>,
                      refs: set<nat>)
    requires Facts(atom, sets, refs)
    ensures Facts(Reset(lo, hi) + (if max == 0 then []
                                   else if max == 1 then [Split(greedy, SizeOf(atom))] + atom
                                   else TailCode(atom, 0, max, greedy, check)),
                  (if lo < hi then Interval(lo, hi - 1) else {}) + (if max == 0 then {} else sets),
                  if max == 0 then {} else refs)
  {
    FactsReset(lo, hi);
    hide Facts, TailCode, Interval, SizeOf;
    var reset := if lo < hi then Interval(lo, hi - 1) else {};
    if max == 0 {
      FactsEmpty();
      var none: set<nat> := {};
      assert none + none == none;
      FactsConcat(Reset(lo, hi), [], reset, {}, {}, {});
    } else if max == 1 {
      var split := Split(greedy, SizeOf(atom));
      FactsNone(split);
      FactsConcat([split], atom, {}, {}, sets, refs);
      assert {} + sets == sets && {} + refs == refs;
      FactsConcat(Reset(lo, hi), [split] + atom, reset, {}, sets, refs);
    } else {
      FactsTail(atom, 0, max, greedy, check, sets, refs);
      assert {} + refs == refs;
      FactsConcat(Reset(lo, hi), TailCode(atom, 0, max, greedy, check), reset, {}, sets, refs);
    }
  }

  lemma FactsGeneral(atom: seq<Instr>, min: nat, max: nat, greedy: bool, lo: nat, hi: nat, sets: set<nat>, refs: set<nat>)
    requires Facts(atom, sets, refs) && min <= max
    ensures Facts(GeneralQuantCode(atom, min, max, greedy, lo, hi),
                  (if min == 0 && lo < hi then Interval(lo, hi - 1) else {}) + (if max == 0 then {} else sets),
                  if max == 0 then {} else refs)
  {
    hide Facts, CheckAdvance, TailCode, TimesCode, Interval, SizeOf, MarkedBy, ReferredBy;
    var check := greedy && CheckAdvance(atom) == Some(May);
    FactsTail(atom, min, max, greedy, check, sets, refs);
    assert {} + sets == sets == sets + {} == sets + sets && {} + refs == refs == refs + {} == refs + refs;
    if min == 0 {
      FactsOptional(atom, max, greedy, check, lo, hi, sets, refs);
    } else if min == 1 && max == INT32_MAX && !check {
      FactsNone(Split(!greedy, -(SizeOf(atom) + 5)));
      FactsConcat(atom, [Split(!greedy, -(SizeOf(atom) + 5))], sets, refs, {}, {});
    } else {
      FactsTimes(atom, min, sets, refs);
      var tail := TailCode(atom, min, max, greedy, check);
      if max == INT32_MAX || max > min {
        FactsConcat(TimesCode(atom, min), tail, sets, refs, sets, refs);
      } else {
        FactsConcat(TimesCode(atom, min), tail, sets, refs, {}, {});
      }
    }
  }

  /** A straight run of tests saves nothing and refers to nothing. */
  lemma {:induction false} SimpleFacts(code: seq<Instr>)
    requires SimpleLength(code).Some?
    ensures Facts(code, {}, {})
  {
    if code != [] {
      SimpleFacts(code[1..]);
    }
  }

  /** The two bitmaps of re_check_advance, computed from the bytes, are the captures the pattern sets
      and the captures it refers to. */
  lemma {:induction false} CompiledFacts(fl: Flags, e: Re, back: bool)
    requires Ok(fl, e)
    ensures Facts(Compile(fl, e, back), Sets(e), Refs(e))
  {
    hide Facts;
    hide AtomInstr;
    hide QuantCode;
    hide CaptureCode;
    hide EitherCode;
    hide BackwardWrap;
    match e
    case Empty => FactsLeaf(back, 0);
    case One(a) => FactsOne(fl, a, back);
    case Test(kind) => FactsNone(Assert(kind));
    case Ref(n) => FactsLeaf(back, n);
    case Seq(l, r) =>
      CompiledFacts(fl, l, back);
      CompiledFacts(fl, r, back);
      FactsConcat(Compile(fl, l, back), Compile(fl, r, back), Sets(l), Refs(l), Sets(r), Refs(r));
      FactsConcat(Compile(fl, r, back), Compile(fl, l, back), Sets(r), Refs(r), Sets(l), Refs(l));
      assert Sets(r) + Sets(l) == Sets(e) && Refs(r) + Refs(l) == Refs(e);
    case Either(l, r) =>
      CompiledFacts(fl, l, back);
      CompiledFacts(fl, r, back);
      FactsEither(Compile(fl, l, back), Compile(fl, r, back), Sets(l), Refs(l), Sets(r), Refs(r));
    case Group(b) => CompiledFacts(fl, b, back);
    case Capture(n, b) =>
      CompiledFacts(fl, b, back);
      FactsCapture(n, Compile(fl, b, back), back, Sets(b), Refs(b));
    case Around(neg, behind, b) =>
      CompiledFacts(fl, b, behind);
      FactsNone(Match);
      FactsAround(Look(neg, SizeOf(Compile(fl, b, behind)) + 1), Compile(fl, b, behind), [Match], Sets(b), Refs(b));
    case Quant(b, min, max, greedy, lo, hi) =>
      CompiledFacts(fl, b, back);
      var atom := Compile(fl, b, back);
      if UsesFastPath(atom, max, greedy) {
        SimpleHasNoCaptures(fl, b, back);
      }
      FactsQuant(atom, min, max, greedy, lo, hi, Sets(b), Refs(b));
  }

  // ----- simple atoms -----

  lemma SimplePrefix(a: Instr, b: seq<Instr>)
    requires !IsCharTest(a) && !a.Assert?
    ensures SimpleLength([a] + b).None?
  {
    assert ([a] + b)[0] == a;
  }

  /** The quantifiers whose code is a straight run of tests: those that never run the atom, and those
      that run it once and need no instruction of their own. */
  lemma SimpleQuant(atom: seq<Instr>, min: nat, max: nat, greedy: bool, lo: nat, hi: nat)
    requires min <= max && SimpleLength(QuantCode(atom, min, max, greedy, lo, hi)).Some?
    ensures !UsesFastPath(atom, max, greedy)
    ensures (max == 0 && lo >= hi) || (min == 1 && max == 1)
    ensures max == 1 ==> QuantCode(atom, min, max, greedy, lo, hi) == atom
    ensures max == 0 ==> QuantCode(atom, min, max, greedy, lo, hi) == []
  {
    if UsesFastPath(atom, max, greedy) {
      SimplePrefix(Greedy(SizeOf(atom) + 1, min, max, SimpleLength(atom).value), atom + [Match]);
    } else {
      var check := greedy && CheckAdvance(atom) == Some(May);
      var tail := TailCode(atom, min, max, greedy, check);
      var len: int := SizeOf(atom);
      if max == INT32_MAX {
        assert tail[0].Split? && tail == [tail[0]] + tail[1..];
        SimplePrefix(tail[0], tail[1..]);
      } else if max > min {
        assert tail[0].PushI32? && tail == [tail[0]] + tail[1..];
        SimplePrefix(tail[0], tail[1..]);
      }
      if min == 0 {
        var opt := if max == 0 then []
                   else if max == 1 then [Split(greedy, len)] + atom
                   else tail;
        SimpleConcat(Reset(lo, hi), opt);
        assert lo >= hi;
        assert Reset(lo, hi) + opt == opt;
        if max == 1 {
          SimplePrefix(Split(greedy, len), atom);
        }
      } else if min == 1 && max == INT32_MAX && !check {
        SimpleConcat(atom, [Split(!greedy, -(len + 5))]);
        assert [Split(!greedy, -(len + 5))] == [Split(!greedy, -(len + 5))] + [];
        SimplePrefix(Split(!greedy, -(len + 5)), []);
      } else {
        SimpleConcat(TimesCode(atom, min), tail);
        if min > 1 {
          SimplePrefix(PushI32(min), atom + [Loop(-(len + 5)), Drop]);
        }
        assert max == 1 ==> atom + [] == atom;
      }
    }
  }

  /** A pattern whose code is a straight run of tests has no captures left in its code. */
  lemma {:induction false} SimpleHasNoCaptures(fl: Flags, e: Re, back: bool)
    requires Ok(fl, e) && SimpleLength(Compile(fl, e, back)).Some?
    ensures Captures(e) == 0
  {
    match e
    case Seq(l, r) =>
      SimpleConcat(Compile(fl, l, back), Compile(fl, r, back));
      SimpleConcat(Compile(fl, r, back), Compile(fl, l, back));
      SimpleHasNoCaptures(fl, l, back);
      SimpleHasNoCaptures(fl, r, back);
    case Group(b) => SimpleHasNoCaptures(fl, b, back);
    case Quant(b, min, max, greedy, lo, hi) =>
      SimpleQuant(Compile(fl, b, back), min, max, greedy, lo, hi);
      if max == 1 {
        SimpleHasNoCaptures(fl, b, back);
      }
    case _ =>
  }

  /** `re_check_advance` returns -1 exactly for the atoms that refer back to a capture they set: so a
      loop is guarded exactly when it is greedy and its atom is not of that kind. */
  lemma CheckAdvanceMeaning(fl: Flags, e: Re, back: bool)
    requires Ok(fl, e)
    ensures CheckAdvance(Compile(fl, e, back)).None? <==> Sets(e) * Refs(e) != {}
  {
    CompiledFacts(fl, e, back);
  }

  // ----- result 1 -----

  lemma {:induction false} TimesStrict(s: Subject, b: Re, k: nat, back: bool, x: St, fuel: nat)
    requires s.text.Boundary(x.pos) && k >= 1
    requires AllReachable(s, back, x, true, Outcomes(s, Sub(b), back, x, fuel))
    ensures AllReachable(s, back, x, true, Outcomes(s, Times(b, k), back, x, fuel))
  {
    if k > 1 {
      ThenReachable(s, Outcomes(s, Sub(b), back, x, fuel), Times(b, k - 1), back, fuel, x, true);
    }
  }

  lemma ScanTail(atom: seq<Instr>, min: nat, max: nat, greedy: bool, check: bool)
    requires min <= max
    ensures ScanAdvance(TailCode(atom, min, max, greedy, check)) != Must
  {
    var len: int := SizeOf(atom);
    var tail := TailCode(atom, min, max, greedy, check);
    if max == INT32_MAX {
      assert tail[0].Split?;
    } else if max > min {
      ScanConcat([PushI32(max - min)], [Split(greedy, len + 5)] + (atom + [Loop(-(len + 10)), Drop]));
      ScanConcat([Split(greedy, len + 5)], atom + [Loop(-(len + 10)), Drop]);
    }
  }

  lemma ScanTimes(atom: seq<Instr>, k: nat)
    requires ScanAdvance(TimesCode(atom, k)) == Must
    ensures ScanAdvance(atom) == Must
  {
    if k != 1 {
      var rest := [Loop(-(SizeOf(atom) + 5)), Drop];
      ScanConcat([PushI32(k)], atom + rest);
      ScanConcat(atom, rest);
    }
  }

  lemma ScanOptional(atom: seq<Instr>, max: nat, greedy: bool, lo: nat, hi: nat, tail: seq<Instr>)
    requires ScanAdvance(tail) != Must
    ensures ScanAdvance(Reset(lo, hi) + (if max == 0 then []
                                         else if max == 1 then [Split(greedy, SizeOf(atom))] + atom
                                         else tail)) != Must
  {
    ScanConcat([Split(greedy, SizeOf(atom))], atom);
    ScanConcat(Reset(lo, hi), if max == 0 then []
                              else if max == 1 then [Split(greedy, SizeOf(atom))] + atom
                              else tail);
  }

  /** What a quantifier's code starts with, for the scan. */
  lemma ScanQuant(atom: seq<Instr>, min: nat, max: nat, greedy: bool, lo: nat, hi: nat)
    requires min <= max && ScanAdvance(QuantCode(atom, min, max, greedy, lo, hi)) == Must
    ensures min >= 1 && ScanAdvance(atom) == Must
  {
    hide CheckAdvance;
    hide TailCode;
    hide TimesCode;
    hide ScanAdvance;
    if UsesFastPath(atom, max, greedy) {
      ScanGreedy(Greedy(SizeOf(atom) + 1, min, max, SimpleLength(atom).value), atom + [Match]);
    } else {
      var check := greedy && CheckAdvance(atom) == Some(May);
      ScanTail(atom, min, max, greedy, check);
      if min == 0 {
        ScanTail(atom, 0, max, greedy, check);
        ScanOptional(atom, max, greedy, lo, hi, TailCode(atom, 0, max, greedy, check));
      } else if min == 1 && max == INT32_MAX && !check {
        ScanPlus(atom, Split(!greedy, -(SizeOf(atom) + 5)));
      } else {
        ScanConcat(TimesCode(atom, min), TailCode(atom, min, max, greedy, check));
        ScanTimes(atom, min);
      }
    }
  }

  lemma ScanGreedy(i: Instr, rest: seq<Instr>)
    requires i.Greedy?
    ensures ScanAdvance([i] + rest) == May
  {
  }

  lemma ScanPlus(atom: seq<Instr>, i: Instr)
    requires i.Split? && ScanAdvance(atom + [i]) == Must
    ensures ScanAdvance(atom) == Must
  {
    ScanConcat(atom, [i]);
  }

  lemma ScanCapture(n: nat, c: seq<Instr>, back: bool)
    requires ScanAdvance(CaptureCode(n, c, back)) == Must
    ensures ScanAdvance(c) == Must
  {
    var (a, b) := if back then (SaveEnd(n), SaveStart(n)) else (SaveStart(n), SaveEnd(n));
    ScanConcat([a], c + [b]);
    ScanConcat(c, [b]);
  }

  lemma ScanMay(e: Re, fl: Flags, back: bool)
    requires Ok(fl, e) && (e.Either? || e.Around?)
    ensures ScanAdvance(Compile(fl, e, back)) == May
  {
    assert Compile(fl, e, back)[0].Split? || Compile(fl, e, back)[0].Look?;
  }

  /** Result 1 of `re_check_advance` is sound: every way to match the pattern moves strictly in the
      direction of matching. */
  lemma {:induction false} MustAdvance(s: Subject, e: Re, back: bool, x: St, fuel: nat)
    requires Ok(s.fl, e) && s.text.Boundary(x.pos)
    requires ScanAdvance(Compile(s.fl, e, back)) == Must
    ensures AllReachable(s, back, x, true, Outcomes(s, Sub(e), back, x, fuel))
    decreases e, 0
  {
    hide QuantCode;
    hide CaptureCode;
    match e
    case Empty =>
    case One(a) => AtomReachable(s, a, back, x);
    case Test(_) =>
    case Ref(_) =>
    case Seq(l, r) =>
      var (first, second) := if back then (r, l) else (l, r);
      ScanConcat(Compile(s.fl, first, back), Compile(s.fl, second, back));
      if ScanAdvance(Compile(s.fl, first, back)) == Must {
        MustAdvance(s, first, back, x, fuel);
        ThenReachable(s, Outcomes(s, Sub(first), back, x, fuel), Sub(second), back, fuel, x, true);
      } else {
        OutcomesReachable(s, Sub(first), back, x, fuel);
        ThenStrict(s, Outcomes(s, Sub(first), back, x, fuel), second, back, x, fuel);
      }
    case Either(l, r) => ScanMay(e, s.fl, back);
    case Group(b) => MustAdvance(s, b, back, x, fuel);
    case Capture(n, b) =>
      var (first, last) := if back then (2 * n + 1, 2 * n) else (2 * n, 2 * n + 1);
      ScanCapture(n, Compile(s.fl, b, back), back);
      MustAdvance(s, b, back, x.Save(first), fuel);
      ReachableFrom(s, back, x.Save(first), x, true, Outcomes(s, Sub(b), back, x.Save(first), fuel));
      SaveAllReachable(s, back, x, last, true, Outcomes(s, Sub(b), back, x.Save(first), fuel));
    case Around(_, _, _) => ScanMay(e, s.fl, back);
    case Quant(b, min, max, greedy, lo, hi) =>
      ScanQuant(Compile(s.fl, b, back), min, max, greedy, lo, hi);
      MustAdvance(s, b, back, x, fuel);
      TimesStrict(s, b, min, back, x, fuel);
      ThenReachable(s, Outcomes(s, Times(b, min), back, x, fuel), Tail(b, min, max, greedy), back, fuel, x, true);
  }

  lemma {:induction false} ThenStrict(s: Subject, o: Outs, e: Re, back: bool, x: St, fuel: nat)
    requires Ok(s.fl, e) && ScanAdvance(Compile(s.fl, e, back)) == Must
    requires AllReachable(s, back, x, false, o)
    ensures AllReachable(s, back, x, true, Then(s, o, Sub(e), back, fuel))
    decreases e, 1, o
  {
    if o.More? {
      MustAdvance(s, e, back, o.x, fuel);
      ReachableTrans(s, back, x, false, o.x, true, Outcomes(s, Sub(e), back, o.x, fuel));
      ThenStrict(s, o.rest, e, back, x, fuel);
      AppendReachable(s, back, x, true, Outcomes(s, Sub(e), back, o.x, fuel), Then(s, o.rest, Sub(e), back, fuel));
    }
  }
}
