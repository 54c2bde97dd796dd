/** What programs answer, in terms of the code units of the subject alone: characters, classes, assertions and
    captures, without the functions that the matcher and the machine share. */
module RegexAnswers {
  import opened Options
  import opened RegexText
  import opened RegexCode
  import opened RegexPattern
  import opened RegexMatcher
  import opened RegexProgress
  import opened RegexMachine
  import opened RegexCaptures
  import opened RegexExec
  import CR = RangePoints

  // ----- the code points of a subject -----

  /** A high and a low surrogate at `i`, in a buffer read as UTF-16. */
  predicate Paired(t: Text, i: int) {
    t.kind == Utf16 && 0 <= i && i + 1 < |t.units|
    && 0xd800 <= t.units[i] <= 0xdbff && 0xdc00 <= t.units[i + 1] <= 0xdfff
  }

  /** The code point that begins at `i` (section 2.2 of RFC 2781). */
  function CodeAt(t: Text, i: nat): nat
    requires i < |t.units|
  {
    if Paired(t, i) then 0x10000 + 0x400 * (t.units[i] - 0xd800) + (t.units[i + 1] - 0xdc00) else t.units[i]
  }

  /** The code point that ends at `i`. */
  function CodeBefore(t: Text, i: nat): nat
    requires 0 < i <= |t.units|
  {
    if Paired(t, i - 2) then CodeAt(t, i - 2) else t.units[i - 1]
  }

  function Width(t: Text, i: nat): nat {
    if Paired(t, i) then 2 else 1
  }

  /** The access macros read the code points. */
  lemma Reads(t: Text, i: nat)
    ensures i < |t.units| ==> t.Get(i) == (CodeAt(t, i), i + Width(t, i))
    ensures 0 < i <= |t.units| ==> t.PrevChar(i) == CodeBefore(t, i)
    ensures 0 < i <= |t.units| ==> t.Back(i) == if Paired(t, i - 2) then i - 2 else i - 1
    ensures t.Boundary(i) <==> i <= |t.units| && !Paired(t, i - 1)
  {
  }

  /** The UTF-16 encoding of a code point (section 2.1 of RFC 2781). */
  function Utf16Of(c: nat): (s: seq<nat>)
    requires c < 0x110000
  {
    if c < 0x10000 then [c] else [0xd800 + (c - 0x10000) / 0x400, 0xdc00 + (c - 0x10000) % 0x400]
  }

  /** Surrogates are no characters. */
  predicate Scalar(c: nat) {
    c < 0xd800 || 0xe000 <= c < 0x110000
  }

  predicate AllScalar(cs: seq<nat>) {
    forall i | 0 <= i < |cs| :: Scalar(cs[i])
  }

  function Utf16Text(cs: seq<nat>): seq<nat>
    requires AllScalar(cs)
  {
    if cs == [] then [] else Utf16Of(cs[0]) + Utf16Text(cs[1..])
  }

  lemma {:induction false} Utf16Concat(a: seq<nat>, b: seq<nat>)
    requires AllScalar(a) && AllScalar(b)
    ensures AllScalar(a + b) && Utf16Text(a + b) == Utf16Text(a) + Utf16Text(b)
  {
    hide Utf16Of;
    if a == [] {
      assert a + b == b;
    } else {
      assert (a + b)[1..] == a[1..] + b && (a + b)[0] == a[0];
      Utf16Concat(a[1..], b);
    }
  }

  lemma {:induction false} Utf16Ends(a: seq<nat>)
    requires a != [] && AllScalar(a)
    ensures var s := Utf16Text(a); s != [] && !(0xd800 <= s[|s| - 1] <= 0xdbff)
  {
    var n := |a| - 1;
    assert a == a[..n] + [a[n]];
    Utf16Concat(a[..n], [a[n]]);
    OneEncoded(a[n]);
    hide Utf16Text;
  }

  lemma OneEncoded(c: nat)
    requires Scalar(c)
    ensures Utf16Text([c]) == Utf16Of(c)
  {
    assert [c][1..] == [];
    assert Utf16Text([c][1..]) == [];
  }

  lemma FirstEncoded(c: nat, b: seq<nat>)
    requires Scalar(c) && AllScalar(b)
    ensures AllScalar([c] + b) && Utf16Text([c] + b) == Utf16Of(c) + Utf16Text(b)
  {
    hide Utf16Of;
    assert ([c] + b)[1..] == b && ([c] + b)[0] == c;
  }

  /** In well-formed UTF-16, GET_CHAR reads exactly the characters that were encoded, one after another. */
  lemma ReadsUtf16(t: Text, a: seq<nat>, c: nat, b: seq<nat>)
    requires Scalar(c) && AllScalar(a) && AllScalar(b) && AllScalar(a + ([c] + b))
    requires t.kind == Utf16 && t.units == Utf16Text(a + ([c] + b))
    ensures var p := |Utf16Text(a)|;
            p < |t.units| && t.Boundary(p) && t.Get(p) == (c, p + |Utf16Of(c)|)
  {
    if a != [] {
      Utf16Ends(a);
    }
    hide *;
    FirstEncoded(c, b);
    Utf16Concat(a, [c] + b);
    UnitsRead(t, Utf16Text(a), c, Utf16Text(b));
  }

  lemma UnitsRead(t: Text, a: seq<nat>, c: nat, b: seq<nat>)
    requires Scalar(c) && (a == [] || !(0xd800 <= a[|a| - 1] <= 0xdbff))
    requires t.kind == Utf16 && t.units == a + (Utf16Of(c) + b)
    ensures |a| < |t.units| && t.Boundary(|a|) && t.Get(|a|) == (c, |a| + |Utf16Of(c)|)
  {
    var p := |a|;
    Reads(t, p);
    assert t.units[p] == Utf16Of(c)[0];
    if c >= 0x10000 {
      assert t.units[p + 1] == Utf16Of(c)[1];
      Halved(c - 0x10000);
    }
    if a != [] {
      assert t.units[p - 1] == a[p - 1];
    }
  }

  lemma Halved(n: nat)
    requires n < 0x100000
    ensures 0x400 * (n / 0x400) + n % 0x400 == n && n / 0x400 < 0x400 && n % 0x400 < 0x400
  {
  }

  // ----- programs of one element -----

  /** The sticky program of a pattern with at most one way to match halts with that way. */
  lemma OneWayHalts(m: Machine, e: Re, cindex: nat, y: St)
    requires Holds(m, true, e) && m.s.text.Boundary(cindex)
    ensures Outcomes(m.s, Sub(e), false, Start(m, cindex).x.Save(0), 0) == Done ==> Halts(m, Start(m, cindex), NoMatch)
    ensures Outcomes(m.s, Sub(e), false, Start(m, cindex).x.Save(0), 0) == Only(y) ==>
              Halts(m, Start(m, cindex), Matched(y.Save(1).caps))
  {
    hide Outcomes, Holds, Halts;
    ProgramYields(m, true, e, cindex, 0);
    AttemptSaves(m.s, e, Start(m, cindex).x);
  }

  lemma AttemptSaves(s: Subject, e: Re, x: St)
    ensures Attempt(s, e, x, 0) == SaveAll(Outcomes(s, Sub(e), false, x.Save(0), 0), 1)
  {
  }

  /** The captures of a match that sets none but capture 0. */
  lemma WholeMatch(m: Machine, cindex: nat, q: nat)
    requires m.ncap == 1
    ensures var x := Start(m, cindex).x.Save(0); x.pos == cindex && x.(pos := q).Save(1).caps == [Some(cindex), Some(q)]
  {
    var x := Start(m, cindex).x.Save(0);
    assert |x.caps| == 2;
  }

  /** The same character, up to case folding under the i flag. */
  predicate SameChar(fl: Flags, c: nat, d: nat) {
    if fl.ignoreCase then fl.canon(c) == fl.canon(d) else c == d
  }

  /** A character: the program matches one code point that is it. */
  lemma CharacterAnswer(m: Machine, c: nat, cindex: nat)
    requires Holds(m, true, One(Lit(c))) && m.s.text.Boundary(cindex)
    ensures Halts(m, Start(m, cindex),
                  if cindex < |m.s.text.units| && SameChar(m.s.fl, c, CodeAt(m.s.text, cindex))
                  then Matched([Some(cindex), Some(cindex + Width(m.s.text, cindex))]) else NoMatch)
  {
    AtomAnswer(m, Lit(c), cindex);
  }

  /** `.`: any code point but a line terminator, or any at all under the s flag. */
  lemma DotAnswer(m: Machine, cindex: nat)
    requires Holds(m, true, One(AnyChar)) && m.s.text.Boundary(cindex)
    ensures Halts(m, Start(m, cindex),
                  if cindex < |m.s.text.units|
                     && (m.s.fl.dotall || CodeAt(m.s.text, cindex) !in {10, 13, 0x2028, 0x2029})
                  then Matched([Some(cindex), Some(cindex + Width(m.s.text, cindex))]) else NoMatch)
  {
    AtomAnswer(m, AnyChar, cindex);
  }

  /** A class: a code point, canonicalised under the i flag, in one of its intervals. */
  lemma ClassAnswer(m: Machine, points: seq<nat>, cindex: nat)
    requires Holds(m, true, One(Class(points))) && m.s.text.Boundary(cindex)
    ensures cindex == |m.s.text.units| ==> Halts(m, Start(m, cindex), NoMatch)
    ensures cindex < |m.s.text.units| ==>
              var c := CodeAt(m.s.text, cindex);
              var d := if m.s.fl.ignoreCase then m.s.fl.canon(c) else c;
              Halts(m, Start(m, cindex),
                    if exists i: nat :: 2 * i + 1 < |points| && points[2 * i] <= d < points[2 * i + 1]
                    then Matched([Some(cindex), Some(cindex + Width(m.s.text, cindex))]) else NoMatch)
  {
    AtomAnswer(m, Class(points), cindex);
    if cindex < |m.s.text.units| {
      var c := CodeAt(m.s.text, cindex);
      InIntervals(points, if m.s.fl.ignoreCase then m.s.fl.canon(c) else c);
    }
  }

  lemma InIntervals(points: seq<nat>, x: nat)
    ensures CR.In(points, x) <==> exists i: nat :: 2 * i + 1 < |points| && points[2 * i] <= x < points[2 * i + 1]
  {
    if i: nat :| CR.Within(points, i, x) {
      assert 2 * i + 1 < |points| && points[2 * i] <= x < points[2 * i + 1];
    }
    if i: nat :| 2 * i + 1 < |points| && points[2 * i] <= x < points[2 * i + 1] {
      assert CR.Within(points, i, x);
    }
  }

  lemma AtomAnswer(m: Machine, a: Atom, cindex: nat)
    requires Holds(m, true, One(a)) && m.s.text.Boundary(cindex)
    ensures Halts(m, Start(m, cindex),
                  if cindex < |m.s.text.units| && AtomAccepts(m.s, a, CodeAt(m.s.text, cindex))
                  then Matched([Some(cindex), Some(cindex + Width(m.s.text, cindex))]) else NoMatch)
  {
    hide Halts, At, AtomAccepts;
    Reads(m.s.text, cindex);
    var y := Start(m, cindex).x.Save(0).(pos := cindex + Width(m.s.text, cindex));
    WholeMatch(m, cindex, y.pos);
    OneWayHalts(m, One(a), cindex, y);
  }

  predicate Word(c: nat) {
    0x30 <= c <= 0x39 || 0x41 <= c <= 0x5a || c == 0x5f || 0x61 <= c <= 0x7a
  }

  /** ^ and $: at an end of the text, and under the m flag next to a line terminator. \\b goes on where exactly
      one of the neighbouring code points is a word character, \\B where both are or neither is; outside the
      text is none. */
  lemma AssertAnswer(m: Machine, kind: AssertKind, cindex: nat)
    requires Holds(m, true, Test(kind)) && m.s.text.Boundary(cindex)
    ensures var (t, len) := (m.s.text, |m.s.text.units|);
            var before := cindex > 0 && Word(CodeBefore(t, cindex));
            var after := cindex < len && Word(CodeAt(t, cindex));
            var yes := Matched([Some(cindex), Some(cindex)]);
            && (kind == LineStart ==>
                  Halts(m, Start(m, cindex),
                        if cindex == 0 || (m.s.fl.multiline && CodeBefore(t, cindex) in {10, 13, 0x2028, 0x2029})
                        then yes else NoMatch))
            && (kind == LineEnd ==>
                  Halts(m, Start(m, cindex),
                        if cindex == len || (m.s.fl.multiline && CodeAt(t, cindex) in {10, 13, 0x2028, 0x2029})
                        then yes else NoMatch))
            && (kind == WordBoundary ==> Halts(m, Start(m, cindex), if before != after then yes else NoMatch))
            && (kind == NotWordBoundary ==> Halts(m, Start(m, cindex), if before == after then yes else NoMatch))
  {
    hide Halts, At;
    Reads(m.s.text, cindex);
    assert Captures(Test(kind)) == 0;
    WholeMatch(m, cindex, cindex);
    var x := Start(m, cindex).x.Save(0);
    assert x.(pos := cindex) == x;
    OneWayHalts(m, Test(kind), cindex, x);
    assert Outcomes(m.s, Sub(Test(kind)), false, x, 0) == if AssertHolds(m.s, kind, cindex) then Only(x) else Done;
    hide Outcomes, CodeAt, CodeBefore;
  }

  /** A character looked for backwards, in a lookbehind. */
  lemma LookbehindAnswer(m: Machine, c: nat, cindex: nat)
    requires Holds(m, true, Around(false, true, One(Lit(c)))) && m.s.text.Boundary(cindex)
    ensures Halts(m, Start(m, cindex),
                  if cindex > 0 && SameChar(m.s.fl, c, CodeBefore(m.s.text, cindex))
                  then Matched([Some(cindex), Some(cindex)]) else NoMatch)
  {
    hide Halts, At;
    Reads(m.s.text, cindex);
    if cindex > 0 {
      GetUndoesBack(m.s.text, cindex);
    }
    var e, x := Around(false, true, One(Lit(c))), Start(m, cindex).x.Save(0);
    assert Captures(One(Lit(c))) == 0 && Captures(e) == 0;
    WholeMatch(m, cindex, cindex);
    assert x.(caps := x.caps) == x && x.(pos := cindex) == x;
    OneWayHalts(m, e, cindex, x);
    assert Outcomes(m.s, Sub(One(Lit(c))), true, x, 0) == AtomOuts(m.s, Lit(c), true, x);
    assert Outcomes(m.s, Sub(e), false, x, 0) == Decide(false, AtomOuts(m.s, Lit(c), true, x), x);
    hide Outcomes;
  }

  // ----- captures -----

  /** A run starts with no capture set and nothing on its stacks. */
  lemma StartsEmpty(m: Machine, cindex: nat)
    ensures var c := Start(m, cindex);
            && c.Run? && c.pc == 7 && c.stack == [] && c.frames == []
            && c.x.pos == cindex && |c.x.caps| == 2 * m.ncap && forall i | 0 <= i < 2 * m.ncap :: c.x.caps[i] == None
  {
  }

  /** save_start and save_end write the pointer into one slot, save_reset clears both slots of the captures
      from `lo` to `hi`; everything else stays. */
  lemma SavesAre(m: Machine, c: Config)
    requires c.Run? && c.x.pos <= |m.s.text.units| && |c.x.caps| == 2 * m.ncap && FetchInstr(m.bc, c.pc).Some?
    ensures match FetchInstr(m.bc, c.pc).value
            case SaveStart(n) =>
              n < m.ncap ==> Step(m, c) == Run(c.pc + 2, St(c.x.pos, c.x.caps[2 * n := Some(c.x.pos)]), c.stack, c.frames)
            case SaveEnd(n) =>
              n < m.ncap ==>
                Step(m, c) == Run(c.pc + 2, St(c.x.pos, c.x.caps[2 * n + 1 := Some(c.x.pos)]), c.stack, c.frames)
            case SaveReset(lo, hi) =>
              hi < m.ncap ==>
                var d := Step(m, c);
                && d.Run? && d == Run(c.pc + 3, St(c.x.pos, d.x.caps), c.stack, c.frames) && |d.x.caps| == |c.x.caps|
                && forall i | 0 <= i < 2 * m.ncap ::
                     d.x.caps[i] == if lo <= i / 2 <= hi then None else c.x.caps[i]
            case _ => true
  {
  }

  /** The match of a captured pattern: the capture has the ends of the match. */
  lemma CaptureAnswer(m: Machine, b: Re, cindex: nat, caps: seq<Option<nat>>)
    requires Holds(m, true, Capture(1, b)) && m.s.text.Boundary(cindex) && Halts(m, Start(m, cindex), Matched(caps))
    ensures |caps| >= 4 && caps[0] == caps[2] == Some(cindex) && caps[1] == caps[3]
    ensures caps[1].Some? && cindex <= caps[1].value <= |m.s.text.units| && m.s.text.Boundary(caps[1].value)
  {
    hide Outcomes, Halts, At;
    var e, x := Capture(1, b), Start(m, cindex).x;
    ProgramCorrect(m, true, e, cindex, Matched(caps));
    var fuel: nat :| Resolve(Meaning(m.s, true, e, x, fuel)) == Some(Matched(caps));
    var x0 := x.Save(0);
    var o := Outcomes(m.s, Sub(b), false, x0.Save(2), fuel);
    CapturedOutcomes(m.s, b, x, fuel);
    OutcomesReachable(m.s, Sub(b), false, x0.Save(2), fuel);
    NumberedLeaves(b, 2, 0);
    NumberedLeaves(b, 2, 1);
    OutcomesKeep(m.s, Sub(b), false, x0.Save(2), fuel, 0);
    OutcomesKeep(m.s, Sub(b), false, x0.Save(2), fuel, 2);
    assert o.More? && caps == o.x.Save(3).Save(1).caps;
  }

  lemma CapturedOutcomes(s: Subject, b: Re, x: St, fuel: nat)
    ensures Attempt(s, Capture(1, b), x, fuel) ==
            SaveAll(SaveAll(Outcomes(s, Sub(b), false, x.Save(0).Save(2), fuel), 3), 1)
  {
    assert Outcomes(s, Sub(Capture(1, b)), false, x.Save(0), fuel) ==
           SaveAll(Outcomes(s, Sub(b), false, x.Save(0).Save(2), fuel), 3);
  }
}
