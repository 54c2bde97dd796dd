/** How a piece of code behaves on the machine: it offers the outcomes of a list one after another,
    the next one each time the rest of the run fails back into it. */
module RegexYields {
  import opened RegexCode
  import opened RegexMatcher
  import opened RegexMachine

  ghost predicate Reaches(m: Machine, c: Config, d: Config, n: nat) {
    Steps(m, c, n) == d
  }

  /** The machine has not stopped after `n` steps. */
  ghost predicate Alive(m: Machine, c: Config, n: nat) {
    Steps(m, c, n).Run?
  }

  ghost predicate AllPlain(frames: seq<Frame>) {
    forall f | f in frames :: f.Plain()
  }

  lemma {:induction false} StepsAdd(m: Machine, c: Config, a: nat, b: nat)
    ensures Steps(m, c, a + b) == Steps(m, Steps(m, c, a), b)
    decreases a
  {
    hide Step;
    if a > 0 {
      StepsAdd(m, Step(m, c), a - 1, b);
    }
  }

  lemma {:induction false} StoppedStays(m: Machine, c: Config, n: nat)
    requires !c.Run?
    ensures Steps(m, c, n) == c
    decreases n
  {
    if n > 0 {
      StoppedStays(m, Step(m, c), n - 1);
    }
  }

  lemma OneStep(m: Machine, c: Config)
    ensures Reaches(m, c, Step(m, c), 1)
  {
    hide Step;
    assert Steps(m, Step(m, c), 0) == Step(m, c);
  }

  lemma AliveEarlier(m: Machine, c: Config, n: nat, k: nat)
    requires Alive(m, c, n) && k <= n
    ensures Alive(m, c, k)
  {
    hide Step;
    StepsAdd(m, c, k, n - k);
    if !Steps(m, c, k).Run? {
      StoppedStays(m, Steps(m, c, k), n - k);
    }
  }

  /** From state `c` with the frames `F` below it, the machine offers the states `o` at address `pc`
      with stack `stk`: `Done` means it fails into `F`, `Stuck` that it is still running after `n`
      steps. What it leaves above `F` is only for backtracking. */
  ghost predicate Yields(m: Machine, c: Config, pc: nat, stk: seq<nat>, F: seq<Frame>, o: Outs, n: nat)
    decreases o, 1
  {
    match o
    case Done => exists k: nat :: Reaches(m, c, Fail(m, F), k)
    case Stuck => Alive(m, c, n)
    case More(x, rest) => exists k: nat, G: seq<Frame> :: Offers(m, c, pc, stk, F, x, rest, n, k, G)
  }

  ghost predicate Offers(m: Machine, c: Config, pc: nat, stk: seq<nat>, F: seq<Frame>, x: St, rest: Outs, n: nat,
                         k: nat, G: seq<Frame>)
    decreases rest, 2
  {
    && AllPlain(G)
    && Reaches(m, c, Run(pc, x, stk, F + G), k)
    && Yields(m, Fail(m, F + G), pc, stk, F, rest, if n > k then n - k else 0)
  }

  lemma {:induction false} YieldsWeaken(m: Machine, c: Config, pc: nat, stk: seq<nat>, F: seq<Frame>, o: Outs, n: nat, n': nat)
    requires Yields(m, c, pc, stk, F, o, n) && n' <= n
    ensures Yields(m, c, pc, stk, F, o, n')
    decreases o
  {
    hide Fail;
    hide Steps;
    match o
    case Done =>
    case Stuck => AliveEarlier(m, c, n, n');
    case More(x, rest) =>
      var k: nat, G: seq<Frame> :| Offers(m, c, pc, stk, F, x, rest, n, k, G);
      YieldsWeaken(m, Fail(m, F + G), pc, stk, F, rest, if n > k then n - k else 0, if n' > k then n' - k else 0);
      assert Offers(m, c, pc, stk, F, x, rest, n', k, G);
  }

  /** Steps taken before the first outcome count. */
  lemma YieldsFrom(m: Machine, c: Config, d: Config, k: nat, pc: nat, stk: seq<nat>, F: seq<Frame>, o: Outs, n: nat)
    requires Reaches(m, c, d, k) && Yields(m, d, pc, stk, F, o, n)
    ensures Yields(m, c, pc, stk, F, o, n + k)
  {
    hide Fail;
    hide Step;
    match o
    case Done =>
      var k' :| Reaches(m, d, Fail(m, F), k');
      StepsAdd(m, c, k, k');
      assert Reaches(m, c, Fail(m, F), k + k');
    case Stuck => StepsAdd(m, c, k, n);
    case More(x, rest) =>
      var k': nat, G: seq<Frame> :| Offers(m, d, pc, stk, F, x, rest, n, k', G);
      StepsAdd(m, c, k, k');
      assert Offers(m, c, pc, stk, F, x, rest, n + k, k + k', G);
  }

  /** The same, forgetting how many steps it took. */
  lemma YieldsAfter(m: Machine, c: Config, d: Config, k: nat, pc: nat, stk: seq<nat>, F: seq<Frame>, o: Outs, n: nat)
    requires Reaches(m, c, d, k) && Yields(m, d, pc, stk, F, o, n)
    ensures Yields(m, c, pc, stk, F, o, n)
  {
    YieldsFrom(m, c, d, k, pc, stk, F, o, n);
    YieldsWeaken(m, c, pc, stk, F, o, n + k, n);
  }

  lemma YieldsOnly(m: Machine, c: Config, k: nat, pc: nat, stk: seq<nat>, F: seq<Frame>, x: St, n: nat)
    requires Reaches(m, c, Run(pc, x, stk, F), k)
    ensures Yields(m, c, pc, stk, F, Only(x), n)
  {
    hide Fail;
    hide Step;
    assert F + [] == F;
    assert Reaches(m, Fail(m, F), Fail(m, F), 0);
    assert Yields(m, Fail(m, F + []), pc, stk, F, Done, if n > k then n - k else 0);
    assert Offers(m, c, pc, stk, F, x, Done, n, k, []);
  }

  lemma YieldsDone(m: Machine, c: Config, k: nat, pc: nat, stk: seq<nat>, F: seq<Frame>, n: nat)
    requires Reaches(m, c, Fail(m, F), k)
    ensures Yields(m, c, pc, stk, F, Done, n)
  {
  }

  /** Alternatives: first the outcomes `a` over the extra frames `G`, then what failing into `G` gives. */
  lemma {:induction false} YieldsAppend(m: Machine, c: Config, pc: nat, stk: seq<nat>, F: seq<Frame>, G: seq<Frame>,
                                        a: Outs, b: Outs, n: nat)
    requires AllPlain(G)
    requires Yields(m, c, pc, stk, F + G, a, n)
    requires Yields(m, Fail(m, F + G), pc, stk, F, b, n)
    ensures Yields(m, c, pc, stk, F, Append(a, b), n)
    decreases a
  {
    hide Fail;
    hide Steps;
    match a
    case Done =>
      var k :| Reaches(m, c, Fail(m, F + G), k);
      YieldsAfter(m, c, Fail(m, F + G), k, pc, stk, F, b, n);
    case Stuck =>
    case More(x, rest) =>
      var k: nat, H: seq<Frame> :| Offers(m, c, pc, stk, F + G, x, rest, n, k, H);
      var n' := if n > k then n - k else 0;
      YieldsWeaken(m, Fail(m, F + G), pc, stk, F, b, n, n');
      Associate(F, G, H);
      YieldsAppend(m, Fail(m, F + G + H), pc, stk, F, G, rest, b, n');
      assert Offers(m, c, pc, stk, F, x, Append(rest, b), n, k, G + H);
  }
}
