/** unicode_prop_ops: a postfix machine over character ranges with a stack of four. */
module PropOps {
  import opened Limits
  import opened Options
  import opened RangePoints
  import opened CharRangeSets
  import opened CharRangeOps

  const POP_STACK_LEN_MAX := 4

  /** PropOPEnum with the operands that follow an operation. */
  datatype PropOp = Gc(mask: nat) | Prop(index: nat) | Case(mask: nat) | Binary(op: Op) | Invert | End

  /** The ranges that unicode_general_category1, unicode_prop1 and unicode_case1 append. */
  datatype Tables = Tables(gc: nat -> seq<nat>, prop: nat -> seq<nat>, cases: nat -> seq<nat>)

  /** What the set operations need of a boundary array. */
  predicate Good(s: seq<nat>) {
    Sorted(s) && forall i | 0 <= i < |s| :: s[i] <= UINT32_MAX
  }

  ghost predicate GoodTables(tb: Tables) {
    forall a :: Good(tb.gc(a)) && Good(tb.prop(a)) && Good(tb.cases(a))
  }

  predicate IsLeaf(o: PropOp) {
    o.Gc? || o.Prop? || o.Case?
  }

  function Leaf(tb: Tables, o: PropOp): seq<nat>
    requires IsLeaf(o)
  {
    match o
    case Gc(a) => tb.gc(a)
    case Prop(a) => tb.prop(a)
    case Case(a) => tb.cases(a)
  }

  /** The stack length at POP_END from a length of `n`, or None if an assertion fails before. */
  function LengthAtEnd(prog: seq<PropOp>, n: nat): Option<nat> {
    if prog == [] then None
    else
      match prog[0]
      case End => Some(n)
      case Binary(_) => if 2 <= n < POP_STACK_LEN_MAX then LengthAtEnd(prog[1..], n - 1) else None
      case Invert => if n >= 1 then LengthAtEnd(prog[1..], n) else None
      case _ => if n < POP_STACK_LEN_MAX then LengthAtEnd(prog[1..], n + 1) else None
  }

  /** Whether `x` is in the result, from whether it is in each set of the stack. */
  function Selects(tb: Tables, prog: seq<PropOp>, x: nat, stack: seq<bool>): bool
    requires LengthAtEnd(prog, |stack|) == Some(1)
  {
    var n := |stack|;
    match prog[0]
    case End => stack[0]
    case Binary(op) => Selects(tb, prog[1..], x, stack[..n - 2] + [Combine(op, stack[n - 2], stack[n - 1])])
    case Invert => Selects(tb, prog[1..], x, stack[..n - 1] + [x < UINT32_MAX && !stack[n - 1]])
    case o => Selects(tb, prog[1..], x, stack + [Odd(Leaf(tb, o), x)])
  }

  /** The memberships of `x` in the sets of a stack. */
  function Bits(stack: seq<seq<nat>>, x: nat): (b: seq<bool>)
    ensures |b| == |stack|
  {
    seq(|stack|, k requires 0 <= k < |stack| => Odd(stack[k], x))
  }

  ghost predicate AllGood(stack: seq<seq<nat>>) {
    forall k | 0 <= k < |stack| :: Good(stack[k])
  }

  /** Running the rest of the program on `stack` gives the result of the whole. */
  ghost predicate Continues(tb: Tables, prog: seq<PropOp>, rest: seq<PropOp>, stack: seq<seq<nat>>) {
    && LengthAtEnd(prog, 0) == LengthAtEnd(rest, |stack|)
    && (LengthAtEnd(prog, 0) == Some(1) ==>
          forall x: nat :: Selects(tb, prog, x, []) == Selects(tb, rest, x, Bits(stack, x)))
  }

  lemma Pushes(tb: Tables, prog: seq<PropOp>, rest: seq<PropOp>, stack: seq<seq<nat>>)
    requires rest != [] && IsLeaf(rest[0]) && |stack| < POP_STACK_LEN_MAX && Continues(tb, prog, rest, stack)
    ensures Continues(tb, prog, rest[1..], stack + [Leaf(tb, rest[0])])
  {
    forall x: nat
      ensures Bits(stack + [Leaf(tb, rest[0])], x) == Bits(stack, x) + [Odd(Leaf(tb, rest[0]), x)]
    {
    }
  }

  lemma Combines(tb: Tables, prog: seq<PropOp>, rest: seq<PropOp>, stack: seq<seq<nat>>, r: seq<nat>)
    requires rest != [] && rest[0].Binary? && 2 <= |stack| < POP_STACK_LEN_MAX && Continues(tb, prog, rest, stack)
    requires forall x: nat :: Odd(r, x) == Combine(rest[0].op, Odd(stack[|stack| - 2], x), Odd(stack[|stack| - 1], x))
    ensures Continues(tb, prog, rest[1..], stack[..|stack| - 2] + [r])
  {
    var n := |stack|;
    hide Odd, Combine;
    forall x: nat
      ensures Bits(stack[..n - 2] + [r], x) ==
              Bits(stack, x)[..n - 2] + [Combine(rest[0].op, Bits(stack, x)[n - 2], Bits(stack, x)[n - 1])]
    {
    }
  }

  lemma Inverts(tb: Tables, prog: seq<PropOp>, rest: seq<PropOp>, stack: seq<seq<nat>>, r: seq<nat>)
    requires rest != [] && rest[0].Invert? && 1 <= |stack| && Continues(tb, prog, rest, stack)
    requires Complement(r, stack[|stack| - 1])
    ensures Continues(tb, prog, rest[1..], stack[..|stack| - 1] + [r])
  {
    var n := |stack|;
    hide Odd, Canonical;
    forall x: nat
      ensures Bits(stack[..n - 1] + [r], x) == Bits(stack, x)[..n - 1] + [x < UINT32_MAX && !Bits(stack, x)[n - 1]]
    {
    }
  }

  lemma GoodResult(r: seq<nat>, a: seq<nat>, b: seq<nat>)
    requires Good(a) && Good(b) && |r| % 2 == 0 && StrictlyIncreasing(r) && PointsFrom(r, a + b)
    ensures Good(r)
  {
  }

  /** POP_UNION, POP_INTER and POP_XOR: the result is made above its operands and replaces the lower one. */
  method BinaryOp(stack: array<seq<nat>>, n: nat, op: Op) returns (r: seq<nat>)
    requires stack.Length == POP_STACK_LEN_MAX && 2 <= n < POP_STACK_LEN_MAX && AllGood(stack[..n])
    modifies stack
    ensures stack[..n - 1] == old(stack[..n - 2]) + [r] && AllGood(stack[..n - 1])
    ensures forall x: nat :: Odd(r, x) == Combine(op, Odd(old(stack[n - 2]), x), Odd(old(stack[n - 1]), x))
    ensures op == Union ==> forall x: nat :: In(r, x) <==> In(old(stack[n - 2]), x) || In(old(stack[n - 1]), x)
    ensures op == Inter ==> forall x: nat :: In(r, x) <==> In(old(stack[n - 2]), x) && In(old(stack[n - 1]), x)
    ensures op == Xor ==> forall x: nat :: In(r, x) <==> In(old(stack[n - 2]), x) != In(old(stack[n - 1]), x)
  {
    hide Odd, In, Combine;
    var (a, b) := (stack[n - 2], stack[n - 1]);
    assert a == stack[..n][n - 2] && b == stack[..n][n - 1];
    var cr3 := new CharRange();
    cr3.Operate(a, b, op);
    r := cr3.Contents();
    GoodResult(r, a, b);
    hide Good;
    stack[n] := r;
    stack[n - 2] := stack[n];
    assert stack[..n - 1] == old(stack[..n - 2]) + [r];
    ghost var was, after := old(stack[..n]), stack[..n - 1];
    forall k | 0 <= k < n - 1
      ensures Good(after[k])
    {
      assert k < n - 2 ==> after[k] == was[k];
    }
  }

  /** POP_INVERT, on the top of the stack. */
  method InvertOp(stack: array<seq<nat>>, n: nat) returns (r: seq<nat>)
    requires stack.Length == POP_STACK_LEN_MAX && 1 <= n <= POP_STACK_LEN_MAX && AllGood(stack[..n])
    modifies stack
    ensures stack[..n] == old(stack[..n - 1]) + [r] && AllGood(stack[..n]) && Complement(r, old(stack[n - 1]))
  {
    hide Odd;
    assert Good(stack[..n][n - 1]);
    var cr := new CharRange();
    cr.Copy(stack[n - 1]);
    cr.Invert();
    r := cr.Contents();
    assert Good(r);
    hide Good;
    stack[n - 1] := r;
    ghost var was, after := old(stack[..n]), stack[..n];
    forall k | 0 <= k < n
      ensures Good(after[k])
    {
      assert k < n - 1 ==> after[k] == was[k];
    }
  }

  lemma Aborts(tb: Tables, prog: seq<PropOp>, rest: seq<PropOp>, stack: seq<seq<nat>>)
    requires Continues(tb, prog, rest, stack) && rest != [] && rest[0] != End
    requires match rest[0]
             case Binary(_) => !(2 <= |stack| < POP_STACK_LEN_MAX)
             case Invert => |stack| < 1
             case _ => |stack| >= POP_STACK_LEN_MAX
    ensures LengthAtEnd(prog, 0) == None
  {
  }

  lemma Ended(tb: Tables, prog: seq<PropOp>, rest: seq<PropOp>, stack: seq<seq<nat>>)
    requires Continues(tb, prog, rest, stack) && rest != [] && rest[0] == End
    ensures LengthAtEnd(prog, 0) == Some(|stack|)
    ensures |stack| == 1 ==> forall x: nat :: Selects(tb, prog, x, []) == Odd(stack[0], x)
  {
    hide Odd;
  }

  lemma Begins(tb: Tables, prog: seq<PropOp>)
    ensures Continues(tb, prog, prog, [])
  {
    assert forall x: nat :: Bits([], x) == [];
  }

  /** The push of a set of the tables. */
  method PushOp(stack: array<seq<nat>>, n: nat, leaf: seq<nat>)
    requires stack.Length == POP_STACK_LEN_MAX && n < POP_STACK_LEN_MAX && AllGood(stack[..n]) && Good(leaf)
    modifies stack
    ensures stack[..n + 1] == old(stack[..n]) + [leaf] && AllGood(stack[..n + 1])
  {
    hide Good;
    stack[n] := leaf;
    ghost var was, after := old(stack[..n]), stack[..n + 1];
    forall k | 0 <= k < n + 1
      ensures Good(after[k])
    {
      assert k < n ==> after[k] == was[k];
    }
  }

  /** One round of the loop; `ok` is false when an assertion fails. */
  method Round(stack: array<seq<nat>>, n: nat, o: PropOp, tb: Tables, ghost prog: seq<PropOp>, ghost rest: seq<PropOp>)
    returns (ok: bool, len: nat)
    requires stack.Length == POP_STACK_LEN_MAX && n <= POP_STACK_LEN_MAX && AllGood(stack[..n]) && GoodTables(tb)
    requires rest != [] && rest[0] == o != End && Continues(tb, prog, rest, stack[..n])
    modifies stack
    ensures !ok ==> LengthAtEnd(prog, 0) == None
    ensures ok ==> len <= POP_STACK_LEN_MAX && AllGood(stack[..len]) && Continues(tb, prog, rest[1..], stack[..len])
  {
    hide Continues, Good, Odd, Combine, LengthAtEnd, Selects, AllGood;
    ghost var st := stack[..n];
    ok, len := true, n;
    match o {
      case Binary(op) =>
        if 2 <= n < POP_STACK_LEN_MAX {
          var r := BinaryOp(stack, n, op);
          Combines(tb, prog, rest, st, r);
          assert st[..n - 2] == old(stack[..n - 2]);
          len := n - 1;
          return;
        }
      case Invert =>
        if n >= 1 {
          var r := InvertOp(stack, n);
          Inverts(tb, prog, rest, st, r);
          assert st[..n - 1] == old(stack[..n - 1]);
          return;
        }
      case End =>
      case _ =>
        if n < POP_STACK_LEN_MAX {
          Pushes(tb, prog, rest, st);
          PushOp(stack, n, Leaf(tb, o));
          len := n + 1;
          return;
        }
    }
    Aborts(tb, prog, rest, st);
    ok := false;
  }

  /** unicode_prop_ops. `ok` is false when an assertion fails and the program is aborted. */
  method UnicodePropOps(cr: CharRange, tb: Tables, prog: seq<PropOp>) returns (ok: bool)
    requires cr.Valid() && GoodTables(tb) && End in prog
    modifies cr, cr.points
    ensures cr.Valid()
    ensures ok <==> LengthAtEnd(prog, 0) == Some(1)
    ensures ok ==> Good(cr.Contents()) && forall x: nat :: Odd(cr.Contents(), x) == Selects(tb, prog, x, [])
    ensures forall e: Expr | WellFormed(e) && prog == Postfix(e) + [End] ::
              (ok <==> Height(e) <= 4) && (ok ==> forall x: nat :: In(cr.Contents(), x) <==> Denotes(tb, e, x))
  {
    var stack := new seq<nat>[POP_STACK_LEN_MAX](_ => []);
    var stackLen: nat := 0;
    var pc: nat := 0;
    assert prog[0..] == prog && stack[..0] == [];
    Begins(tb, prog);
    hide Continues, Good, Odd, Combine, LengthAtEnd, Selects, GoodTables;
    while prog[pc] != End
      invariant pc < |prog| && stackLen <= POP_STACK_LEN_MAX && fresh(stack) && End in prog[pc..]
      invariant AllGood(stack[..stackLen]) && Continues(tb, prog, prog[pc..], stack[..stackLen])
      invariant cr.Valid() && cr.points == old(cr.points)
      decreases |prog| - pc
    {
      ghost var rest := prog[pc..];
      assert rest[1..] == prog[pc + 1..] && rest[0] == prog[pc];
      ok, stackLen := Round(stack, stackLen, prog[pc], tb, prog, rest);
      if !ok {
        ResultDenotes(tb, prog, ok, []);
        return;
      }
      pc := pc + 1;
    }
    Ended(tb, prog, prog[pc..], stack[..stackLen]);
    ok := stackLen == 1;
    if ok {
      assert stack[..stackLen][0] == stack[0];
      cr.Copy(stack[0]);
    }
    ResultDenotes(tb, prog, ok, cr.Contents());
  }

  /** What the machine leaves of the program of an expression is the denoted set. */
  lemma ResultDenotes(tb: Tables, prog: seq<PropOp>, ok: bool, r: seq<nat>)
    requires GoodTables(tb) && (ok <==> LengthAtEnd(prog, 0) == Some(1))
    requires ok ==> Good(r) && forall x: nat :: Odd(r, x) == Selects(tb, prog, x, [])
    ensures forall e: Expr | WellFormed(e) && prog == Postfix(e) + [End] ::
              (ok <==> Height(e) <= POP_STACK_LEN_MAX) && (ok ==> forall x: nat :: In(r, x) <==> Denotes(tb, e, x))
  {
    hide Odd, In, Selects, LengthAtEnd, Denotes, Height;
    forall e: Expr | WellFormed(e) && prog == Postfix(e) + [End]
      ensures (ok <==> Height(e) <= POP_STACK_LEN_MAX) && (ok ==> forall x: nat :: In(r, x) <==> Denotes(tb, e, x))
    {
      ExpressionsEvaluate(tb, e);
      if ok {
        forall x: nat
          ensures In(r, x) <==> Denotes(tb, e, x)
        {
          InIsOdd(r, x);
        }
      }
    }
  }

  // ----- set expressions -----

  /** A set expression, and its postfix program. */
  datatype Expr = Base(leaf: PropOp) | Bin(op: Op, left: Expr, right: Expr) | Not(inner: Expr)

  predicate WellFormed(e: Expr) {
    match e
    case Base(o) => IsLeaf(o)
    case Bin(_, l, r) => WellFormed(l) && WellFormed(r)
    case Not(i) => WellFormed(i)
  }

  function Postfix(e: Expr): seq<PropOp> {
    match e
    case Base(o) => [o]
    case Bin(op, l, r) => Postfix(l) + Postfix(r) + [Binary(op)]
    case Not(i) => Postfix(i) + [Invert]
  }

  /** The stack entries an expression takes: its result, and one more than both operands of an operation. */
  function Height(e: Expr): nat {
    match e
    case Base(_) => 1
    case Bin(_, l, r) =>
      var both := if Height(l) > 1 + Height(r) then Height(l) else 1 + Height(r);
      if both > 3 then both else 3
    case Not(i) => Height(i)
  }

  /** Membership in the set that the expression denotes. */
  ghost predicate Denotes(tb: Tables, e: Expr, x: nat)
    requires WellFormed(e)
  {
    match e
    case Base(Gc(a)) => In(tb.gc(a), x)
    case Base(Prop(a)) => In(tb.prop(a), x)
    case Base(Case(a)) => In(tb.cases(a), x)
    case Base(_) => false
    case Bin(Union, l, r) => Denotes(tb, l, x) || Denotes(tb, r, x)
    case Bin(Inter, l, r) => Denotes(tb, l, x) && Denotes(tb, r, x)
    case Bin(Xor, l, r) => Denotes(tb, l, x) != Denotes(tb, r, x)
    case Not(i) => x < UINT32_MAX && !Denotes(tb, i, x)
  }

  lemma {:induction false} PostfixLength(e: Expr, rest: seq<PropOp>, n: nat)
    requires WellFormed(e)
    ensures LengthAtEnd(Postfix(e) + rest, n) ==
            if n + Height(e) <= POP_STACK_LEN_MAX then LengthAtEnd(rest, n + 1) else None
  {
    match e
    case Base(o) =>
      assert (Postfix(e) + rest)[1..] == rest;
    case Bin(op, l, r) =>
      var last := [Binary(op)] + rest;
      assert Postfix(e) + rest == Postfix(l) + (Postfix(r) + last);
      PostfixLength(l, Postfix(r) + last, n);
      PostfixLength(r, last, n + 1);
      assert last[1..] == rest;
    case Not(i) =>
      var last := [Invert] + rest;
      assert Postfix(e) + rest == Postfix(i) + last;
      PostfixLength(i, last, n);
      assert last[1..] == rest;
  }

  /** The last step of an expression's program. */
  lemma LastStep(tb: Tables, o: PropOp, rest: seq<PropOp>, x: nat, stack: seq<bool>)
    requires LengthAtEnd([o] + rest, |stack|) == Some(1) && o != End
    ensures var n := |stack|;
            var after := if o.Binary? then stack[..n - 2] + [Combine(o.op, stack[n - 2], stack[n - 1])]
                         else if o.Invert? then stack[..n - 1] + [x < UINT32_MAX && !stack[n - 1]]
                         else if IsLeaf(o) then stack + [Odd(Leaf(tb, o), x)] else stack;
            LengthAtEnd(rest, |after|) == Some(1) && Selects(tb, [o] + rest, x, stack) == Selects(tb, rest, x, after)
  {
    assert ([o] + rest)[1..] == rest;
  }

  lemma LeafDenotes(tb: Tables, o: PropOp, x: nat)
    requires IsLeaf(o) && GoodTables(tb)
    ensures Odd(Leaf(tb, o), x) == Denotes(tb, Base(o), x)
  {
    InIsOdd(Leaf(tb, o), x);
  }

  lemma CombineDenotes(tb: Tables, op: Op, l: Expr, r: Expr, x: nat)
    requires WellFormed(l) && WellFormed(r)
    ensures Combine(op, Denotes(tb, l, x), Denotes(tb, r, x)) == Denotes(tb, Bin(op, l, r), x)
  {
  }

  lemma {:induction false} PostfixSelects(tb: Tables, e: Expr, rest: seq<PropOp>, x: nat, stack: seq<bool>)
    requires WellFormed(e) && GoodTables(tb) && LengthAtEnd(Postfix(e) + rest, |stack|) == Some(1)
    ensures LengthAtEnd(rest, |stack| + 1) == Some(1)
    ensures Selects(tb, Postfix(e) + rest, x, stack) == Selects(tb, rest, x, stack + [Denotes(tb, e, x)])
  {
    hide Odd, Combine, LengthAtEnd, Selects, Height;
    PostfixLength(e, rest, |stack|);
    match e
    case Base(o) =>
      LeafDenotes(tb, o, x);
      LastStep(tb, o, rest, x, stack);
    case Bin(op, l, r) =>
      var last := [Binary(op)] + rest;
      assert Postfix(e) + rest == Postfix(l) + (Postfix(r) + last);
      PostfixSelects(tb, l, Postfix(r) + last, x, stack);
      var one := stack + [Denotes(tb, l, x)];
      PostfixSelects(tb, r, last, x, one);
      var two := one + [Denotes(tb, r, x)];
      LastStep(tb, Binary(op), rest, x, two);
      assert two[..|two| - 2] == stack;
      CombineDenotes(tb, op, l, r, x);
    case Not(i) =>
      var last := [Invert] + rest;
      assert Postfix(e) + rest == Postfix(i) + last;
      PostfixSelects(tb, i, last, x, stack);
      var one := stack + [Denotes(tb, i, x)];
      LastStep(tb, Invert, rest, x, one);
      assert one[..|one| - 1] == stack;
  }

  /** The program of a set expression runs to its end exactly when the expression fits the stack, and what
      is left is then the set that the expression denotes. */
  lemma ExpressionsEvaluate(tb: Tables, e: Expr)
    requires WellFormed(e) && GoodTables(tb)
    ensures LengthAtEnd(Postfix(e) + [End], 0) == Some(1) <==> Height(e) <= POP_STACK_LEN_MAX
    ensures Height(e) <= POP_STACK_LEN_MAX ==>
              forall x: nat :: Selects(tb, Postfix(e) + [End], x, []) == Denotes(tb, e, x)
  {
    PostfixLength(e, [End], 0);
    if Height(e) <= POP_STACK_LEN_MAX {
      forall x: nat
        ensures Selects(tb, Postfix(e) + [End], x, []) == Denotes(tb, e, x)
      {
        PostfixSelects(tb, e, [End], x, []);
      }
    }
  }
}
