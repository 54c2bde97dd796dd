/** Relocation and stack depth: every jump of compiled code lands on an instruction boundary of the
    same stack depth, so the linear scan of compute_stack_size bounds every run. */
module RegexStack {
  import opened Limits
  import opened Options
  import opened RegexCode
  import opened RegexPattern
  import opened RegexLayout

  const STACK_SIZE_MAX := 255

  /** What an instruction does to the stack depth. */
  function Delta(i: Instr): int {
    match i
    case PushI32(_) => 1
    case PushPos => 1
    case Drop => -1
    case Bne(_) => -1
    case _ => 0
  }

  function Net(code: seq<Instr>): int {
    if code == [] then 0 else Delta(code[0]) + Net(code[1..])
  }

  /** The depth that the linear scan computes at the byte offset `off`, which must be the start of an
      instruction or the end of the code. */
  function DepthAt(code: seq<Instr>, off: int): Option<int>
    decreases |code|
  {
    if off == 0 then Some(0)
    else if code == [] || off < Size(code[0]) then None
    else
      var d := DepthAt(code[1..], off - Size(code[0]));
      if d.Some? then Some(Delta(code[0]) + d.value) else None
  }

  /** The greatest depth during the scan; the result of compute_stack_size where it is not an error. */
  function MaxDepth(code: seq<Instr>): (d: nat) {
    if code == [] then 0
    else
      var rest := Delta(code[0]) + MaxDepth(code[1..]);
      if rest > 0 then rest else 0
  }

  predicate HasJump(i: Instr) {
    i.Goto? || i.Split? || i.Loop? || i.Look? || i.Bne? || i.Greedy?
  }

  function JumpOff(i: Instr): int
    requires HasJump(i)
  {
    if i.Greedy? then i.next else i.off
  }

  /** Instruction `i` at offset `off` and depth `d` pops no more than there is, and jumps to a boundary
      where the scan computes the depth that `i` leaves. */
  predicate InstrOk(whole: seq<Instr>, i: Instr, off: int, d: int) {
    && (i.Drop? || i.Bne? || i.Loop? ==> d >= 1)
    && (HasJump(i) ==> DepthAt(whole, off + Size(i) + JumpOff(i)) == Some(d + Delta(i)))
  }

  predicate JumpsOk(whole: seq<Instr>, code: seq<Instr>, off: int, d: int)
    decreases |code|
  {
    code == [] ||
    (InstrOk(whole, code[0], off, d) && JumpsOk(whole, code[1..], off + Size(code[0]), d + Delta(code[0])))
  }

  /** Code that jumps only inside itself and leaves the stack as deep as it found it. */
  predicate Closed(code: seq<Instr>) {
    Net(code) == 0 && JumpsOk(code, code, 0, 0)
  }

  lemma {:induction false} NetConcat(a: seq<Instr>, b: seq<Instr>)
    ensures Net(a + b) == Net(a) + Net(b)
  {
    if a == [] {
      assert a + b == b;
    } else {
      assert (a + b)[1..] == a[1..] + b;
      NetConcat(a[1..], b);
    }
  }

  lemma {:induction false} JumpsConcat(whole: seq<Instr>, a: seq<Instr>, b: seq<Instr>, off: int, d: int)
    ensures JumpsOk(whole, a + b, off, d) <==>
            JumpsOk(whole, a, off, d) && JumpsOk(whole, b, off + SizeOf(a), d + Net(a))
    decreases |a|
  {
    hide Size;
    hide InstrOk;
    if a == [] {
      assert a + b == b;
    } else {
      assert (a + b)[1..] == a[1..] + b;
      JumpsConcat(whole, a[1..], b, off + Size(a[0]), d + Delta(a[0]));
    }
  }

  /** Boundaries after a prefix. */
  lemma {:induction false} DepthAfter(pre: seq<Instr>, code: seq<Instr>, off: int)
    requires off >= 0
    ensures DepthAt(pre + code, SizeOf(pre) + off) ==
            (var d := DepthAt(code, off); if d.Some? then Some(Net(pre) + d.value) else None)
    decreases |pre|
  {
    hide Size;
    hide Delta;
    if pre == [] {
      assert pre + code == code;
    } else {
      assert (pre + code)[1..] == pre[1..] + code;
      DepthAfter(pre[1..], code, off);
    }
  }

  /** Boundaries inside a prefix. */
  lemma {:induction false} DepthBefore(code: seq<Instr>, post: seq<Instr>, off: int)
    requires DepthAt(code, off).Some?
    ensures DepthAt(code + post, off) == DepthAt(code, off)
    decreases |code|
  {
    hide Size;
    hide Delta;
    if code != [] && off != 0 {
      assert (code + post)[1..] == code[1..] + post;
      DepthBefore(code[1..], post, off - Size(code[0]));
    }
  }

  lemma {:induction false} DepthNonNegative(code: seq<Instr>, off: int)
    requires DepthAt(code, off).Some?
    ensures off >= 0
    decreases |code|
  {
    if off != 0 {
      DepthNonNegative(code[1..], off - Size(code[0]));
    }
  }

  lemma DepthEnd(code: seq<Instr>)
    ensures DepthAt(code, SizeOf(code)) == Some(Net(code))
  {
    DepthAfter(code, [], 0);
    assert code + [] == code;
  }

  /** Relocation: code that is closed keeps its jumps on boundaries of the right depth wherever it is
      put, whatever comes before and after it. */
  lemma {:induction false} Relocate(code: seq<Instr>, part: seq<Instr>, pre: seq<Instr>, post: seq<Instr>, off: int, d: int)
    requires JumpsOk(code, part, off, d) && Net(pre) >= 0
    ensures JumpsOk(pre + (code + post), part, SizeOf(pre) + off, Net(pre) + d)
    decreases |part|
  {
    hide Size;
    if part != [] {
      var i := part[0];
      if HasJump(i) {
        var t := off + Size(i) + JumpOff(i);
        DepthNonNegative(code, t);
        DepthBefore(code, post, t);
        DepthAfter(pre, code + post, t);
      }
      Relocate(code, part[1..], pre, post, off + Size(i), d + Delta(i));
    }
  }

  lemma Embedded(code: seq<Instr>, pre: seq<Instr>, post: seq<Instr>)
    requires Closed(code) && Net(pre) >= 0
    ensures JumpsOk(pre + (code + post), code, SizeOf(pre), Net(pre))
  {
    Relocate(code, code, pre, post, 0, 0);
  }

  lemma ClosedConcat(a: seq<Instr>, b: seq<Instr>)
    requires Closed(a) && Closed(b)
    ensures Closed(a + b)
  {
    NetConcat(a, b);
    Embedded(a, [], b);
    assert [] + (a + b) == a + b;
    Embedded(b, a, []);
    assert a + (b + []) == a + b;
    JumpsConcat(a + b, a, b, 0, 0);
  }

  lemma ClosedOne(i: Instr)
    requires Delta(i) == 0 && !HasJump(i)
    ensures Closed([i])
  {
  }

  lemma SingleOk(whole: seq<Instr>, i: Instr, off: int, d: int)
    ensures JumpsOk(whole, [i], off, d) <==> InstrOk(whole, i, off, d)
    ensures Net([i]) == Delta(i)
  {
    assert [i][1..] == [];
  }

  /** An instruction, a closed body, and closing instructions: what has to be checked is only the jumps
      of the instructions around the body. */
  lemma Assemble(i: Instr, body: seq<Instr>, post: seq<Instr>)
    requires Closed(body) && Delta(i) >= 0 && Delta(i) + Net(post) == 0
    requires var whole := [i] + (body + post);
             InstrOk(whole, i, 0, 0) && JumpsOk(whole, post, Size(i) + SizeOf(body), Delta(i))
    ensures Closed([i] + (body + post))
  {
    hide Size;
    hide InstrOk;
    var whole := [i] + (body + post);
    SingleOk(whole, i, 0, 0);
    Size1(i);
    Embedded(body, [i], post);
    JumpsConcat(whole, body, post, Size(i), Delta(i));
    JumpsConcat(whole, [i], body + post, 0, 0);
    NetConcat(body, post);
    NetConcat([i], body + post);
  }

  /** The same with two leading instructions. */
  lemma Assemble2(i: Instr, j: Instr, body: seq<Instr>, post: seq<Instr>)
    requires Closed(body) && Delta(i) >= 0 && Delta(j) >= 0 && Delta(i) + Delta(j) + Net(post) == 0
    requires var whole := [i] + ([j] + (body + post));
             && InstrOk(whole, i, 0, 0) && InstrOk(whole, j, Size(i), Delta(i))
             && JumpsOk(whole, post, Size(i) + Size(j) + SizeOf(body), Delta(i) + Delta(j))
    ensures Closed([i] + ([j] + (body + post)))
  {
    hide Size;
    hide InstrOk;
    hide Delta;
    var inner := [j] + (body + post);
    var whole := [i] + inner;
    SingleOk(whole, i, 0, 0);
    SingleOk(whole, j, Size(i), Delta(i));
    Size1(i);
    Size1(j);
    Size2(i, j);
    assert [i, j] == [i] + [j];
    NetConcat([i], [j]);
    assert whole == [i, j] + (body + post);
    Embedded(body, [i, j], post);
    JumpsConcat(whole, body, post, Size(i) + Size(j), Delta(i) + Delta(j));
    JumpsConcat(whole, [j], body + post, Size(i), Delta(i));
    JumpsConcat(whole, [i], inner, 0, 0);
    NetConcat(body, post);
    NetConcat([j], body + post);
    NetConcat([i], inner);
  }

  /** The boundaries that matter around a body. */
  lemma Landmarks(i: Instr, body: seq<Instr>, post: seq<Instr>)
    requires Net(body) == 0
    ensures var whole := [i] + (body + post);
            && DepthAt(whole, 0) == Some(0)
            && DepthAt(whole, Size(i)) == Some(Delta(i))
            && DepthAt(whole, Size(i) + SizeOf(body)) == Some(Delta(i))
            && DepthAt(whole, Size(i) + SizeOf(body) + SizeOf(post)) == Some(Delta(i) + Net(post))
  {
    hide Size;
    hide Delta;
    hide SizeOf;
    SingleOk([i], i, 0, 0);
    Size1(i);
    assert DepthAt(body + post, 0) == Some(0);
    DepthAfter([i], body + post, 0);
    BodyEnd(body, post);
    DepthAfter([i], body + post, SizeOf(body));
    DepthAfter([i], body + post, SizeOf(body) + SizeOf(post));
  }

  lemma BodyEnd(body: seq<Instr>, post: seq<Instr>)
    requires Net(body) == 0
    ensures DepthAt(body + post, SizeOf(body)) == Some(0)
    ensures DepthAt(body + post, SizeOf(body) + SizeOf(post)) == Some(Net(post))
  {
    hide Size;
    hide Delta;
    DepthAfter(body, post, 0);
    DepthEnd(post);
    DepthAfter(body, post, SizeOf(post));
  }

  lemma ClosedStar(atom: seq<Instr>, greedy: bool, check: bool)
    requires Closed(atom)
    ensures Closed(StarCode(atom, greedy, check))
  {
    var len: int := SizeOf(atom);
    if check {
      ClosedChecked(atom, Split(greedy, len + 6), Bne(-(len + 11)));
    } else {
      var goto := Goto(-(len + 10));
      Landmarks(Split(greedy, len + 5), atom, [goto]);
      Size1(goto);
      SingleOk([Split(greedy, len + 5)] + (atom + [goto]), goto, len + 5, 0);
      Assemble(Split(greedy, len + 5), atom, [goto]);
    }
  }

  lemma ClosedChecked(atom: seq<Instr>, split: Instr, bne: Instr)
    requires Closed(atom) && split.Split? && split.off == SizeOf(atom) + 6
    requires bne.Bne? && bne.off == -(SizeOf(atom) + 11)
    ensures Closed([split] + ([PushPos] + (atom + [bne])))
  {
    hide SizeOf;
    hide JumpsOk;
    hide Net;
    hide Closed;
    var inner := [PushPos] + (atom + [bne]);
    var whole := [split] + inner;
    SingleOk(whole, bne, SizeOf(atom) + 6, 1);
    ClosedNet(atom);
    Landmarks(PushPos, atom, [bne]);
    Size1(bne);
    Size1(split);
    SingleOk(whole, split, 0, 0);
    DepthAfter([split], inner, SizeOf(atom) + 6);
    assert DepthAt(whole, 0) == Some(0);
    Assemble2(split, PushPos, atom, [bne]);
  }

  lemma ClosedNet(code: seq<Instr>)
    requires Closed(code)
    ensures Net(code) == 0
  {
  }

  lemma LoopDrop(whole: seq<Instr>, loop: Instr, off: int)
    requires loop.Loop? && InstrOk(whole, loop, off, 1)
    ensures JumpsOk(whole, [loop, Drop], off, 1)
    ensures Net([loop, Drop]) == -1
  {
    SingleOk(whole, loop, off, 1);
    SingleOk(whole, Drop, off + 5, 1);
    Size1(loop);
    assert [loop, Drop] == [loop] + [Drop];
    JumpsConcat(whole, [loop], [Drop], off, 1);
    NetConcat([loop], [Drop]);
  }

  lemma ClosedTimes(atom: seq<Instr>, k: nat)
    requires Closed(atom)
    ensures Closed(TimesCode(atom, k))
  {
    if k != 1 {
      var loop := Loop(-(SizeOf(atom) + 5));
      Landmarks(PushI32(k), atom, [loop, Drop]);
      LoopDrop([PushI32(k)] + (atom + [loop, Drop]), loop, SizeOf(atom) + 5);
      Assemble(PushI32(k), atom, [loop, Drop]);
    }
  }

  lemma ClosedUpTo(atom: seq<Instr>, k: nat, greedy: bool)
    requires Closed(atom)
    ensures Closed(UpToCode(atom, k, greedy))
  {
    var len: int := SizeOf(atom);
    var split, loop := Split(greedy, len + 5), Loop(-(len + 10));
    UpToMarks(atom, k, split, loop);
    LoopDrop([PushI32(k)] + ([split] + (atom + [loop, Drop])), loop, len + 10);
    Assemble2(PushI32(k), split, atom, [loop, Drop]);
  }

  /** The boundaries of a counted optional loop: its split, and the `drop` behind it. */
  lemma UpToMarks(atom: seq<Instr>, k: nat, split: Instr, loop: Instr)
    requires Closed(atom) && split.Split? && loop.Loop?
    ensures var whole := [PushI32(k)] + ([split] + (atom + [loop, Drop]));
            DepthAt(whole, 5) == Some(1) && DepthAt(whole, SizeOf(atom) + 15) == Some(1)
    ensures Net([PushI32(k), split]) == 1
  {
    UpToStart(k, split, atom + [loop, Drop]);
    UpToEnd(atom, k, split, loop);
  }

  lemma UpToStart(k: nat, split: Instr, rest: seq<Instr>)
    requires split.Split?
    ensures DepthAt([PushI32(k)] + ([split] + rest), 5) == Some(1)
    ensures Net([PushI32(k), split]) == 1
  {
    assert [PushI32(k), split] == [PushI32(k)] + [split];
    NetConcat([PushI32(k)], [split]);
    SingleOk([], PushI32(k), 0, 0);
    SingleOk([], split, 0, 0);
    Size1(PushI32(k));
    DepthAfter([PushI32(k)], [split] + rest, 0);
  }

  lemma UpToEnd(atom: seq<Instr>, k: nat, split: Instr, loop: Instr)
    requires Closed(atom) && split.Split? && loop.Loop?
    ensures DepthAt([PushI32(k)] + ([split] + (atom + [loop, Drop])), SizeOf(atom) + 15) == Some(1)
  {
    var pre := [PushI32(k)] + ([split] + (atom + [loop]));
    assert [PushI32(k)] + ([split] + (atom + [loop, Drop])) == pre + [Drop];
    UpToNet(atom, k, split, loop);
    hide Net, SizeOf, Closed;
    DepthAfter(pre, [Drop], 0);
  }

  lemma UpToNet(atom: seq<Instr>, k: nat, split: Instr, loop: Instr)
    requires Closed(atom) && split.Split? && loop.Loop?
    ensures var pre := [PushI32(k)] + ([split] + (atom + [loop]));
            Net(pre) == 1 && SizeOf(pre) == SizeOf(atom) + 15
  {
    SingleOk([], PushI32(k), 0, 0);
    SingleOk([], split, 0, 0);
    SingleOk([], loop, 0, 0);
    Size1(PushI32(k));
    Size1(split);
    Size1(loop);
    Sizes3(split, atom, [loop]);
    SizeOfConcat([PushI32(k)], [split] + (atom + [loop]));
    NetConcat(atom, [loop]);
    NetConcat([split], atom + [loop]);
    NetConcat([PushI32(k)], [split] + (atom + [loop]));
  }

  lemma ClosedOption(atom: seq<Instr>, greedy: bool)
    requires Closed(atom)
    ensures Closed([Split(greedy, SizeOf(atom))] + atom)
  {
    Landmarks(Split(greedy, SizeOf(atom)), atom, []);
    assert atom + [] == atom;
    Assemble(Split(greedy, SizeOf(atom)), atom, []);
  }

  lemma ClosedPlus(atom: seq<Instr>, greedy: bool)
    requires Closed(atom)
    ensures Closed(atom + [Split(greedy, -(SizeOf(atom) + 5))])
  {
    var split := Split(greedy, -(SizeOf(atom) + 5));
    var whole := atom + [split];
    Embedded(atom, [], [split]);
    assert [] + (atom + [split]) == whole;
    SingleOk(whole, split, SizeOf(atom), 0);
    JumpsConcat(whole, atom, [split], 0, 0);
    NetConcat(atom, [split]);
  }

  lemma ClosedReset(lo: nat, hi: nat)
    ensures Closed(Reset(lo, hi))
  {
    if lo < hi {
      ClosedOne(SaveReset(lo, hi - 1));
    }
  }

  lemma ClosedFast(atom: seq<Instr>, min: nat, max: nat)
    requires Closed(atom) && SimpleLength(atom).Some?
    ensures Closed(FastQuantCode(atom, min, max))
  {
    var i := Greedy(SizeOf(atom) + 1, min, max, SimpleLength(atom).value);
    Landmarks(i, atom, [Match]);
    Size1(Match);
    SingleOk([i] + (atom + [Match]), Match, 17 + SizeOf(atom), 0);
    Assemble(i, atom, [Match]);
  }

  lemma ClosedTail(atom: seq<Instr>, min: nat, max: nat, greedy: bool, check: bool)
    requires Closed(atom) && min <= max
    ensures Closed(TailCode(atom, min, max, greedy, check))
  {
    hide Closed;
    ClosedStar(atom, greedy, check);
    if max > min {
      ClosedUpTo(atom, max - min, greedy);
    }
    ClosedEmpty();
  }

  lemma ClosedEmpty()
    ensures Closed([])
  {
  }

  lemma ClosedQuant(atom: seq<Instr>, min: nat, max: nat, greedy: bool, lo: nat, hi: nat)
    requires Closed(atom) && min <= max
    ensures Closed(QuantCode(atom, min, max, greedy, lo, hi))
  {
    hide Closed;
    hide StarCode;
    hide TailCode;
    hide CheckAdvance;
    hide SimpleLength;
    var check := greedy && CheckAdvance(atom) == Some(May);
    ClosedEmpty();
    if UsesFastPath(atom, max, greedy) {
      ClosedFast(atom, min, max);
    } else if min == 0 {
      ClosedReset(lo, hi);
      ClosedOption(atom, greedy);
      ClosedTail(atom, 0, max, greedy, check);
      ClosedConcat(Reset(lo, hi), if max == 0 then []
                                  else if max == 1 then [Split(greedy, SizeOf(atom))] + atom
                                  else TailCode(atom, 0, max, greedy, check));
    } else if min == 1 && max == INT32_MAX && !check {
      ClosedPlus(atom, !greedy);
    } else {
      ClosedTimes(atom, min);
      ClosedTail(atom, min, max, greedy, check);
      ClosedConcat(TimesCode(atom, min), TailCode(atom, min, max, greedy, check));
    }
  }

  lemma ClosedEither(l: seq<Instr>, r: seq<Instr>)
    requires Closed(l) && Closed(r)
    ensures Closed(EitherCode(l, r))
  {
    hide SizeOf;
    hide JumpsOk;
    hide Net;
    hide Closed;
    var split, goto := Split(true, SizeOf(l) + 5), Goto(SizeOf(r));
    var post := [goto] + r;
    var whole := [split] + (l + post);
    ClosedNet(l);
    ClosedNet(r);
    Landmarks(split, l, post);
    GotoEnd(goto, r);
    DepthAfter(l, post, 5);
    DepthAfter([split], l + post, SizeOf(l) + 5);
    Size1(split);
    SingleOk(whole, split, 0, 0);
    SingleOk(whole, goto, 5 + SizeOf(l), 0);
    DepthEither(l, r);
    var pre := [split] + (l + [goto]);
    assert pre + (r + []) == whole;
    Embedded(r, pre, []);
    Size1(goto);
    JumpsConcat(whole, [goto], r, 5 + SizeOf(l), 0);
    Assemble(split, l, post);
  }

  lemma GotoEnd(goto: Instr, r: seq<Instr>)
    requires goto.Goto? && Net(r) == 0
    ensures var post := [goto] + r;
            SizeOf(post) == 5 + SizeOf(r) && Net(post) == 0 && DepthAt(post, 5) == Some(0)
  {
    SizeOfConcat([goto], r);
    Size1(goto);
    SingleOk([], goto, 0, 0);
    NetConcat([goto], r);
    DepthAfter([goto], r, 0);
  }

  lemma DepthEither(l: seq<Instr>, r: seq<Instr>)
    requires Closed(l)
    ensures var pre := [Split(true, SizeOf(l) + 5)] + (l + [Goto(SizeOf(r))]);
            Net(pre) == 0 && SizeOf(pre) == SizeOf(l) + 10
  {
    var split, goto := Split(true, SizeOf(l) + 5), Goto(SizeOf(r));
    Sizes3(split, l, [goto]);
    Size1(goto);
    NetConcat(l, [goto]);
    NetConcat([split], l + [goto]);
    SingleOk([], split, 0, 0);
    SingleOk([], goto, 0, 0);
  }

  lemma ClosedCapture(n: nat, body: seq<Instr>, back: bool)
    requires Closed(body)
    ensures Closed(CaptureCode(n, body, back))
  {
    ClosedOne(SaveStart(n));
    ClosedOne(SaveEnd(n));
    ClosedConcat(body, [SaveStart(n)]);
    ClosedConcat(body, [SaveEnd(n)]);
    ClosedConcat([SaveStart(n)], body + [SaveEnd(n)]);
    ClosedConcat([SaveEnd(n)], body + [SaveStart(n)]);
  }

  lemma ClosedAround(neg: bool, body: seq<Instr>)
    requires Closed(body)
    ensures Closed(AroundCode(neg, body))
  {
    var look := Look(neg, SizeOf(body) + 1);
    Landmarks(look, body, [Match]);
    Size1(Match);
    SingleOk([look] + (body + [Match]), Match, 5 + SizeOf(body), 0);
    Assemble(look, body, [Match]);
  }

  lemma ClosedAtom(fl: Flags, a: Atom, back: bool)
    requires AtomOk(fl, a)
    ensures Closed(BackwardWrap(AtomInstr(fl, a), back))
  {
    hide AtomInstr;
    var i := AtomInstr(fl, a);
    AtomIsTest(fl, a);
    ClosedOne(i);
    ClosedOne(Prev);
    ClosedConcat([i], [Prev]);
    ClosedConcat([Prev], [i] + [Prev]);
  }

  /** After all insertions, copies, patches and rotations of the code generator, the code of every
      pattern is closed: each of its jumps lands on one of its own instruction boundaries, at the depth
      the linear scan computes there. */
  lemma {:induction false} CompiledClosed(fl: Flags, e: Re, back: bool)
    requires Ok(fl, e)
    ensures Closed(Compile(fl, e, back))
  {
    hide Closed;
    hide QuantCode;
    hide EitherCode;
    hide CaptureCode;
    hide AroundCode;
    hide AtomInstr;
    match e
    case Empty => ClosedEmpty();
    case One(a) => ClosedAtom(fl, a, back);
    case Test(kind) => ClosedOne(Assert(kind));
    case Ref(n) => ClosedOne(BackRef(back, n));
    case Seq(l, r) =>
      CompiledClosed(fl, l, back);
      CompiledClosed(fl, r, back);
      ClosedConcat(Compile(fl, l, back), Compile(fl, r, back));
      ClosedConcat(Compile(fl, r, back), Compile(fl, l, back));
    case Either(l, r) =>
      CompiledClosed(fl, l, back);
      CompiledClosed(fl, r, back);
      ClosedEither(Compile(fl, l, back), Compile(fl, r, back));
    case Group(b) => CompiledClosed(fl, b, back);
    case Capture(n, b) =>
      CompiledClosed(fl, b, back);
      ClosedCapture(n, Compile(fl, b, back), back);
    case Around(neg, behind, b) =>
      CompiledClosed(fl, b, behind);
      ClosedAround(neg, Compile(fl, b, behind));
    case Quant(b, min, max, greedy, lo, hi) =>
      CompiledClosed(fl, b, back);
      ClosedQuant(Compile(fl, b, back), min, max, greedy, lo, hi);
  }
}
