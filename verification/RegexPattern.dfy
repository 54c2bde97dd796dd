/** Pattern syntax trees and the code that the parser emits for them. */
module RegexPattern {
  import opened Limits
  import opened Options
  import opened RegexCode
  import opened RegexClass
  import CR = RangePoints

  /** The atoms that consume one character. */
  datatype Atom = Lit(c: nat) | AnyChar | Class(points: seq<nat>)

  /** A pattern. `Capture` carries its capture index; a quantifier carries the range [lo, hi) of the
      capture indexes inside its atom, as `last_capture_count` and `capture_count` stand when it is
      emitted. A repetition without upper limit has `max == INT32_MAX`. */
  datatype Re =
    | Empty
    | One(atom: Atom)
    | Test(kind: AssertKind)
    | Ref(n: nat)
    | Seq(left: Re, right: Re)
    | Either(left: Re, right: Re)
    | Group(body: Re)
    | Capture(n: nat, body: Re)
    | Around(neg: bool, behind: bool, body: Re)
    | Quant(body: Re, min: nat, max: nat, greedy: bool, lo: nat, hi: nat)

  /** The regular-expression flags; `canon` is `lre_canonicalize`, left uninterpreted. */
  datatype Flags = Flags(ignoreCase: bool, multiline: bool, dotall: bool, canon: nat -> nat) {
    function Fold(c: nat): nat {
      if ignoreCase then canon(c) else c
    }
  }

  /** The number of capture groups in a pattern. */
  function Captures(e: Re): nat {
    match e
    case Seq(l, r) => Captures(l) + Captures(r)
    case Either(l, r) => Captures(l) + Captures(r)
    case Group(b) => Captures(b)
    case Capture(_, b) => 1 + Captures(b)
    case Around(_, _, b) => Captures(b)
    case Quant(b, _, _, _, _, _) => Captures(b)
    case _ => 0
  }

  predicate AtomOk(fl: Flags, a: Atom) {
    match a
    case Lit(c) => fl.Fold(c) <= UINT32_MAX
    case AnyChar => true
    case Class(points) => CR.Canonical(points) && |points| / 2 < 0xffff
  }

  /** The operands are those the parser lets through. */
  predicate Ok(fl: Flags, e: Re) {
    match e
    case Empty => true
    case One(a) => AtomOk(fl, a)
    case Test(_) => true
    case Ref(n) => n < CAPTURE_COUNT_MAX
    case Seq(l, r) => Ok(fl, l) && Ok(fl, r)
    case Either(l, r) => Ok(fl, l) && Ok(fl, r)
    case Group(b) => Ok(fl, b)
    case Capture(_, b) => Ok(fl, b)
    case Around(_, _, b) => Ok(fl, b)
    case Quant(b, min, max, _, lo, hi) =>
      Ok(fl, b) && hi == lo + Captures(b) && min <= max <= INT32_MAX
  }

  /** All capture indexes are below `ncap`. */
  predicate Below(e: Re, ncap: nat) {
    match e
    case Seq(l, r) => Below(l, ncap) && Below(r, ncap)
    case Either(l, r) => Below(l, ncap) && Below(r, ncap)
    case Group(b) => Below(b, ncap)
    case Capture(n, b) => n < ncap && Below(b, ncap)
    case Around(_, _, b) => Below(b, ncap)
    case Quant(b, _, _, _, _, hi) => Below(b, ncap) && hi <= ncap
    case _ => true
  }

  /** The captures are numbered in the order of their opening parentheses, starting at `cc`. */
  predicate Numbered(e: Re, cc: nat) {
    match e
    case Seq(l, r) => Numbered(l, cc) && Numbered(r, cc + Captures(l))
    case Either(l, r) => Numbered(l, cc) && Numbered(r, cc + Captures(l))
    case Group(b) => Numbered(b, cc)
    case Capture(n, b) => n == cc && Numbered(b, cc + 1)
    case Around(_, _, b) => Numbered(b, cc)
    case Quant(b, _, _, _, lo, hi) => Numbered(b, cc) && lo == cc && hi == cc + Captures(b)
    case _ => true
  }

  /** Captures numbered from `cc` on stay below their number. */
  lemma {:induction false} NumberedBelow(e: Re, cc: nat, ncap: nat)
    requires Numbered(e, cc) && cc + Captures(e) <= ncap
    ensures Below(e, ncap)
  {
    match e
    case Seq(l, r) => NumberedBelow(l, cc, ncap); NumberedBelow(r, cc + Captures(l), ncap);
    case Either(l, r) => NumberedBelow(l, cc, ncap); NumberedBelow(r, cc + Captures(l), ncap);
    case Group(b) => NumberedBelow(b, cc, ncap);
    case Capture(_, b) => NumberedBelow(b, cc + 1, ncap);
    case Around(_, _, b) => NumberedBelow(b, cc, ncap);
    case Quant(b, _, _, _, _, _) => NumberedBelow(b, cc, ncap);
    case _ =>
  }

  // ----- the two analyses of emitted code -----

  predicate IsCharTest(i: Instr) {
    i.Char? || i.Char32? || i.Dot? || i.Any? || i.Range? || i.Range32?
  }

  /** re_is_simple_quantifier: the number of characters of a straight run of tests; None for -1. */
  function SimpleLength(code: seq<Instr>): (r: Option<nat>) {
    if code == [] then Some(0)
    else
      var rest := SimpleLength(code[1..]);
      if IsCharTest(code[0]) then (if rest.Some? then Some(rest.value + 1) else None)
      else if code[0].Assert? then rest
      else None
  }

  /** What the scan of re_check_advance knows about the first instruction that matters. */
  datatype Advance = Unknown | May | Must

  function AdvanceOf(i: Instr): Advance {
    match i
    case Assert(_) => Unknown
    case PushI32(_) => Unknown
    case PushPos => Unknown
    case Drop => Unknown
    case Prev => Unknown
    case SaveStart(_) => Unknown
    case SaveEnd(_) => Unknown
    case SaveReset(_, _) => Unknown
    case BackRef(_, _) => Unknown
    case _ => if IsCharTest(i) then Must else May
  }

  /** `ret` at the end of the scan, -2 being Unknown. */
  function ScanAdvance(code: seq<Instr>): Advance {
    if code == [] then Unknown
    else if AdvanceOf(code[0]) != Unknown then AdvanceOf(code[0])
    else ScanAdvance(code[1..])
  }

  function Interval(lo: nat, hi: nat): (s: set<nat>)
    ensures forall n: nat :: n in s <==> lo <= n < hi
    decreases hi - lo
  {
    if lo < hi then {lo} + Interval(lo + 1, hi) else {}
  }

  /** The captures an instruction marks with bit 1. Of a reset, the scan leaves out the last one. */
  function Marks(i: Instr): set<nat> {
    match i
    case SaveStart(n) => {n}
    case SaveEnd(n) => {n}
    case SaveReset(lo, hi) => Interval(lo, hi)
    case _ => {}
  }

  function MarkedBy(code: seq<Instr>): set<nat> {
    if code == [] then {} else Marks(code[0]) + MarkedBy(code[1..])
  }

  /** The captures marked with bit 2. */
  function RefsOf(i: Instr): set<nat> {
    if i.BackRef? then {i.n} else {}
  }

  function ReferredBy(code: seq<Instr>): set<nat> {
    if code == [] then {} else RefsOf(code[0]) + ReferredBy(code[1..])
  }

  /** re_check_advance: None stands for -1, `May` for 0 and `Must` for 1. */
  function CheckAdvance(code: seq<Instr>): Option<Advance> {
    if MarkedBy(code) * ReferredBy(code) != {} then None
    else if ScanAdvance(code) == Must then Some(Must)
    else Some(May)
  }

  // ----- code generation -----

  function AtomInstr(fl: Flags, a: Atom): Instr
    requires AtomOk(fl, a)
  {
    match a
    case Lit(c) => if fl.Fold(c) <= 0xffff then Char(fl.Fold(c)) else Char32(fl.Fold(c))
    case AnyChar => if fl.dotall then Any else Dot
    case Class(points) => ClassInstr(points)
  }

  function Reset(lo: nat, hi: nat): seq<Instr> {
    if lo < hi then [SaveReset(lo, hi - 1)] else []
  }

  /** An unbounded loop: `split` over the atom and the jump back, with the guard against
      iterations that consume nothing when `check` holds. */
  function StarCode(atom: seq<Instr>, greedy: bool, check: bool): seq<Instr> {
    var len := SizeOf(atom);
    if check then [Split(greedy, len + 6)] + ([PushPos] + (atom + [Bne(-(len + 11))]))
    else [Split(greedy, len + 5)] + (atom + [Goto(-(len + 10))])
  }

  /** At most `k` iterations, counted down on the stack. */
  function UpToCode(atom: seq<Instr>, k: nat, greedy: bool): seq<Instr> {
    var len := SizeOf(atom);
    [PushI32(k)] + ([Split(greedy, len + 5)] + (atom + [Loop(-(len + 10)), Drop]))
  }

  /** Exactly `k` iterations. */
  function TimesCode(atom: seq<Instr>, k: nat): seq<Instr> {
    if k == 1 then atom else [PushI32(k)] + (atom + [Loop(-(SizeOf(atom) + 5)), Drop])
  }

  /** The optional part that follows `min` mandatory iterations. */
  function TailCode(atom: seq<Instr>, min: nat, max: nat, greedy: bool, check: bool): seq<Instr>
    requires min <= max
  {
    if max == INT32_MAX then StarCode(atom, greedy, check)
    else if max > min then UpToCode(atom, max - min, greedy)
    else []
  }

  /** The general encoding of a quantifier. */
  function GeneralQuantCode(atom: seq<Instr>, min: nat, max: nat, greedy: bool, lo: nat, hi: nat): seq<Instr>
    requires min <= max
  {
    var check := greedy && CheckAdvance(atom) == Some(May);
    if min == 0 then
      Reset(lo, hi) +
      (if max == 0 then []
       else if max == 1 then [Split(greedy, SizeOf(atom))] + atom
       else TailCode(atom, 0, max, greedy, check))
    else if min == 1 && max == INT32_MAX && !check then
      atom + [Split(!greedy, -(SizeOf(atom) + 5))]
    else
      TimesCode(atom, min) + TailCode(atom, min, max, greedy, check)
  }

  predicate UsesFastPath(atom: seq<Instr>, max: nat, greedy: bool) {
    greedy && max > 0 && SimpleLength(atom).Some? && SimpleLength(atom).value > 0
  }

  function FastQuantCode(atom: seq<Instr>, min: nat, max: nat): seq<Instr>
    requires SimpleLength(atom).Some?
  {
    [Greedy(SizeOf(atom) + 1, min, max, SimpleLength(atom).value)] + (atom + [Match])
  }

  function QuantCode(atom: seq<Instr>, min: nat, max: nat, greedy: bool, lo: nat, hi: nat): seq<Instr>
    requires min <= max
  {
    if UsesFastPath(atom, max, greedy) then FastQuantCode(atom, min, max)
    else GeneralQuantCode(atom, min, max, greedy, lo, hi)
  }

  function BackwardWrap(i: Instr, back: bool): seq<Instr> {
    if back then [Prev] + ([i] + [Prev]) else [i]
  }

  /** The code of a pattern, matched towards the end (`back` false) or towards the start. */
  function Compile(fl: Flags, e: Re, back: bool): seq<Instr>
    requires Ok(fl, e)
  {
    match e
    case Empty => []
    case One(a) => BackwardWrap(AtomInstr(fl, a), back)
    case Test(kind) => [Assert(kind)]
    case Ref(n) => [BackRef(back, n)]
    case Seq(l, r) =>
      if back then Compile(fl, r, back) + Compile(fl, l, back)
      else Compile(fl, l, back) + Compile(fl, r, back)
    case Either(l, r) => EitherCode(Compile(fl, l, back), Compile(fl, r, back))
    case Group(b) => Compile(fl, b, back)
    case Capture(n, b) => CaptureCode(n, Compile(fl, b, back), back)
    case Around(neg, behind, b) => AroundCode(neg, Compile(fl, b, behind))
    case Quant(b, min, max, greedy, lo, hi) =>
      QuantCode(Compile(fl, b, back), min, max, greedy, lo, hi)
  }

  function EitherCode(l: seq<Instr>, r: seq<Instr>): seq<Instr> {
    [Split(true, SizeOf(l) + 5)] + (l + ([Goto(SizeOf(r))] + r))
  }

  function CaptureCode(n: nat, body: seq<Instr>, back: bool): seq<Instr> {
    if back then [SaveEnd(n)] + (body + [SaveStart(n)]) else [SaveStart(n)] + (body + [SaveEnd(n)])
  }

  function AroundCode(neg: bool, body: seq<Instr>): seq<Instr> {
    [Look(neg, SizeOf(body) + 1)] + (body + [Match])
  }

  /** The number of bytes in front of the match proper: the search prefix of a non-sticky program. */
  function SearchPrefix(sticky: bool): seq<Instr> {
    if sticky then [] else [Split(false, 6), Any, Goto(-11)]
  }

  /** The instructions of a whole program, after its header. */
  function ProgramCode(fl: Flags, sticky: bool, e: Re): seq<Instr>
    requires Ok(fl, e)
  {
    SearchPrefix(sticky) + ([SaveStart(0)] + (Compile(fl, e, false) + [SaveEnd(0), Match]))
  }
}
