/** The compressed property tables of libunicode: linear decoding, and the lookup through a block index. */
module PropTable {
  import opened ByteType
  import opened RangePoints
  import opened CharRangeSets
  import opened CharRangeOps

  const UNICODE_INDEX_BLOCK_LEN := 32

  // ----- the table format -----

  /** How many bytes an entry takes. */
  function EntrySize(b: Byte): nat {
    if b < 64 || b >= 0x80 then 1 else if b < 0x60 then 2 else 3
  }

  /** The length of the run that ends an entry; an entry below 64 has another run before it. */
  function LastRun(table: seq<Byte>, p: nat): nat
    requires p < |table| && p + EntrySize(table[p]) <= |table|
  {
    var b := table[p] as int;
    if b < 64 then b % 8 + 1
    else if b >= 0x80 then b - 0x80 + 1
    else if b < 0x60 then (b - 0x40) * 256 + table[p + 1] as int + 1
    else (b - 0x60) * 0x10000 + table[p + 1] as int * 256 + table[p + 2] as int + 1
  }

  function FirstRun(b: Byte): nat {
    if b < 64 then b / 8 + 1 else 0
  }

  /** From `p` on the table consists of whole entries. */
  predicate Complete(table: seq<Byte>, p: nat)
    decreases |table| - p
  {
    p == |table| || (p < |table| && p + EntrySize(table[p]) <= |table| && Complete(table, p + EntrySize(table[p])))
  }

  /** The code point before which the runs of the entry at `p` end. */
  function NextCode(table: seq<Byte>, p: nat, code: nat): nat
    requires p < |table| && Complete(table, p)
  {
    code + FirstRun(table[p]) + LastRun(table, p)
  }

  function NextPos(table: seq<Byte>, p: nat): nat
    requires p < |table| && Complete(table, p)
  {
    p + EntrySize(table[p])
  }

  /** Runs alternate; an entry below 64 has two, any other entry one. */
  predicate NextBit(table: seq<Byte>, p: nat, bit: bool)
    requires p < |table|
  {
    if table[p] < 64 then bit else !bit
  }

  function Interval(bit: bool, lo: nat, hi: nat): seq<nat> {
    if bit then [lo, hi] else []
  }

  /** The ranges of the runs from `p` on, the first of which begins at `code`. */
  function Ranges(table: seq<Byte>, p: nat, code: nat, bit: bool): seq<nat>
    requires Complete(table, p)
    decreases |table| - p
  {
    if p == |table| then []
    else
      Added(table, p, code, bit) + Ranges(table, NextPos(table, p), NextCode(table, p, code), NextBit(table, p, bit))
  }

  /** Where the last run ends. */
  function EndCode(table: seq<Byte>, p: nat, code: nat): nat
    requires Complete(table, p)
    decreases |table| - p
  {
    if p == |table| then code else EndCode(table, NextPos(table, p), NextCode(table, p, code))
  }

  /** What an entry adds to the range. */
  function Added(table: seq<Byte>, p: nat, code: nat, bit: bool): seq<nat>
    requires p < |table| && Complete(table, p)
  {
    var (first, next) := (code + FirstRun(table[p]), NextCode(table, p, code));
    if table[p] < 64 then Interval(bit, code, first) + Interval(!bit, first, next) else Interval(bit, code, next)
  }

  lemma RangesFrom(table: seq<Byte>, p: nat, code: nat, bit: bool, done: seq<nat>, more: seq<nat>)
    requires p < |table| && Complete(table, p) && more == done + Added(table, p, code, bit)
    ensures more + Ranges(table, NextPos(table, p), NextCode(table, p, code), NextBit(table, p, bit)) ==
            done + Ranges(table, p, code, bit)
  {
    hide Added, LastRun, FirstRun, NextCode, NextBit, Interval;
    var rest := Ranges(table, NextPos(table, p), NextCode(table, p, code), NextBit(table, p, bit));
    assert Ranges(table, p, code, bit) == Added(table, p, code, bit) + rest;
    assert (done + Added(table, p, code, bit)) + rest == done + (Added(table, p, code, bit) + rest);
  }

  /** One round of the loop of unicode_prop1. */
  method AddEntry(cr: CharRange, table: seq<Byte>, p: nat, c: nat, bit: bool) returns (next: nat, end: nat, nextBit: bool)
    requires cr.Valid() && p < |table| && Complete(table, p)
    modifies cr, cr.points
    ensures cr.Valid() && (cr.points == old(cr.points) || fresh(cr.points))
    ensures cr.Contents() == old(cr.Contents()) + Added(table, p, c, bit)
    ensures next == NextPos(table, p) && end == NextCode(table, p, c) && nextBit == NextBit(table, p, bit)
  {
    var c0 := c;
    next, end, nextBit := p + 1, c, bit;
    var b := table[p] as int;
    if b < 64 {
      end := end + b / 8 + 1;
      if nextBit {
        cr.AddInterval(c0, end);
      }
      nextBit := !nextBit;
      c0 := end;
      end := end + b % 8 + 1;
    } else if b >= 0x80 {
      end := end + (b - 0x80 + 1);
    } else if b < 0x60 {
      end := end + ((b - 0x40) * 256 + table[next] as int) + 1;
      next := next + 1;
    } else {
      end := end + ((b - 0x60) * 0x10000 + table[next] as int * 256 + table[next + 1] as int) + 1;
      next := next + 2;
    }
    if nextBit {
      cr.AddInterval(c0, end);
    }
    nextBit := !nextBit;
  }

  /** unicode_prop1 on an empty range. */
  method UnicodeProp1(cr: CharRange, table: seq<Byte>)
    requires cr.Valid() && cr.Contents() == [] && Complete(table, 0)
    modifies cr, cr.points
    ensures cr.Valid() && cr.Contents() == Ranges(table, 0, 0, false)
  {
    var p, c, bit := 0, 0, false;
    while p < |table|
      invariant p <= |table| && Complete(table, p) && cr.Valid()
      invariant cr.points == old(cr.points) || fresh(cr.points)
      invariant cr.Contents() + Ranges(table, p, c, bit) == Ranges(table, 0, 0, false)
      decreases |table| - p
    {
      hide Ranges, Added;
      ghost var done, p0, c0, bit0 := cr.Contents(), p, c, bit;
      p, c, bit := AddEntry(cr, table, p, c, bit);
      RangesFrom(table, p0, c0, bit0, done, cr.Contents());
    }
  }

  // ----- membership -----

  /** The bit of the run that `c` falls into, decoding from `p`; false beyond the last run. */
  predicate Member(table: seq<Byte>, p: nat, code: nat, bit: bool, c: nat)
    requires Complete(table, p)
    decreases |table| - p
  {
    if p == |table| then false
    else if table[p] < 64 && c < code + FirstRun(table[p]) then bit
    else if c < NextCode(table, p, code) then if table[p] < 64 then !bit else bit
    else Member(table, NextPos(table, p), NextCode(table, p, code), NextBit(table, p, bit), c)
  }

  lemma AddedAbove(table: seq<Byte>, p: nat, code: nat, bit: bool)
    requires p < |table| && Complete(table, p)
    ensures var (r, next) := (Added(table, p, code, bit), NextCode(table, p, code));
            code <= next && |r| % 2 == 0 && NonDecreasing(r) && forall i | 0 <= i < |r| :: code <= r[i] <= next
  {
    hide LastRun, Complete;
  }

  lemma {:induction false} RangesAbove(table: seq<Byte>, p: nat, code: nat, bit: bool)
    requires Complete(table, p)
    ensures var r := Ranges(table, p, code, bit);
            |r| % 2 == 0 && NonDecreasing(r) && forall i | 0 <= i < |r| :: code <= r[i] <= EndCode(table, p, code)
    decreases |table| - p
  {
    hide LastRun, FirstRun;
    if p < |table| {
      AddedAbove(table, p, code, bit);
      RangesAbove(table, NextPos(table, p), NextCode(table, p, code), NextBit(table, p, bit));
      EndAbove(table, NextPos(table, p), NextCode(table, p, code));
    }
  }

  lemma {:induction false} EndAbove(table: seq<Byte>, p: nat, code: nat)
    requires Complete(table, p)
    ensures code <= EndCode(table, p, code)
    decreases |table| - p
  {
    if p < |table| {
      EndAbove(table, NextPos(table, p), NextCode(table, p, code));
    }
  }

  lemma OddInterval(bit: bool, lo: nat, hi: nat, x: nat)
    requires lo <= hi
    ensures Odd(Interval(bit, lo, hi), x) <==> bit && lo <= x < hi
  {
    if bit {
      OddFrom([lo, hi], x);
    }
  }

  /** The linear scan and the ranges built from the same bytes agree. */
  lemma {:induction false} MemberIsIn(table: seq<Byte>, p: nat, code: nat, bit: bool, c: nat)
    requires Complete(table, p) && code <= c
    ensures Member(table, p, code, bit, c) == Odd(Ranges(table, p, code, bit), c)
    decreases |table| - p
  {
    if p < |table| {
      var (first, next) := (code + FirstRun(table[p]), NextCode(table, p, code));
      var rest := Ranges(table, NextPos(table, p), next, NextBit(table, p, bit));
      RangesAbove(table, NextPos(table, p), next, NextBit(table, p, bit));
      if c < next {
        OddAbove(rest, c);
      } else {
        MemberIsIn(table, NextPos(table, p), next, NextBit(table, p, bit), c);
      }
      OddInterval(bit, code, first, c);
      OddInterval(!bit, first, next, c);
      OddInterval(bit, code, next, c);
      OddConcat(Interval(bit, code, first), Interval(!bit, first, next), c);
      OddConcat(Interval(bit, code, first) + Interval(!bit, first, next), rest, c);
      OddConcat(Interval(bit, code, next), rest, c);
    }
  }

  lemma {:induction false} MemberBelowEnd(table: seq<Byte>, p: nat, code: nat, bit: bool, c: nat)
    requires Complete(table, p) && code <= c && Member(table, p, code, bit, c)
    ensures c < EndCode(table, p, code)
    decreases |table| - p
  {
    if p < |table| {
      if c >= NextCode(table, p, code) {
        MemberBelowEnd(table, NextPos(table, p), NextCode(table, p, code), NextBit(table, p, bit), c);
      } else {
        EndAbove(table, NextPos(table, p), NextCode(table, p, code));
      }
    }
  }

  // ----- the block index -----

  /** get_le24. */
  function GetLe24(index: seq<Byte>, k: nat): nat
    requires 3 * k + 3 <= |index|
  {
    index[3 * k] as int + index[3 * k + 1] as int * 256 + index[3 * k + 2] as int * 0x10000
  }

  function BlockCode(index: seq<Byte>, k: nat): nat
    requires 3 * k + 3 <= |index|
  {
    GetLe24(index, k) % 0x20_0000
  }

  function BlockPos(index: seq<Byte>, k: nat): nat
    requires 3 * k + 3 <= |index|
  {
    (k + 1) * UNICODE_INDEX_BLOCK_LEN + GetLe24(index, k) / 0x20_0000
  }

  /** Decoding from `p` comes to position `q` with `at` as the code reached, outside the set. */
  predicate Passes(table: seq<Byte>, p: nat, code: nat, bit: bool, q: nat, at: nat)
    requires Complete(table, p)
    decreases |table| - p
  {
    || (p == q && code == at && !bit)
    || (p < |table| && Passes(table, NextPos(table, p), NextCode(table, p, code), NextBit(table, p, bit), q, at))
  }

  /** A well-formed block index: each entry but the last names a place that decoding passes outside the set,
      and the last is the code point at which the table ends. */
  ghost predicate IndexOk(table: seq<Byte>, index: seq<Byte>, n: nat) {
    && 1 <= n && 3 * n <= |index|
    && Complete(table, 0)
    && (forall k | 0 <= k < n - 1 :: Passes(table, 0, 0, false, BlockPos(index, k), BlockCode(index, k)))
    && GetLe24(index, n - 1) < 0x20_0000
    && GetLe24(index, n - 1) == EndCode(table, 0, 0)
  }

  /** The three bytes of an index entry, written out: 21 bits of a code point, and 3 bits to be added to 32 bytes
      for each block so far. */
  lemma IndexEntries(table: seq<Byte>, index: seq<Byte>, n: nat)
    requires 1 <= n && 3 * n <= |index| && Complete(table, 0)
    ensures IndexOk(table, index, n) <==>
            && (forall k {:trigger BlockPos(index, k)} | 0 <= k < n - 1 ::
                  Passes(table, 0, 0, false, 32 * (k + 1) + index[3 * k + 2] as int / 32,
                         index[3 * k] as int + 0x100 * index[3 * k + 1] as int + 0x1_0000 * (index[3 * k + 2] as int % 32)))
            && index[3 * n - 3] as int + 0x100 * index[3 * n - 2] as int + 0x1_0000 * index[3 * n - 1] as int ==
               EndCode(table, 0, 0) < 0x20_0000
  {
    hide Passes, EndCode, Complete;
    forall k | 0 <= k < n - 1
      ensures BlockPos(index, k) == 32 * (k + 1) + index[3 * k + 2] as int / 32
      ensures BlockCode(index, k) ==
              index[3 * k] as int + 0x100 * index[3 * k + 1] as int + 0x1_0000 * (index[3 * k + 2] as int % 32)
    {
      EntryBits(index, k);
    }
  }

  lemma EntryBits(index: seq<Byte>, k: nat)
    requires 3 * k + 3 <= |index|
    ensures BlockPos(index, k) == 32 * (k + 1) + index[3 * k + 2] as int / 32
    ensures BlockCode(index, k) ==
            index[3 * k] as int + 0x100 * index[3 * k + 1] as int + 0x1_0000 * (index[3 * k + 2] as int % 32)
  {
    var (low, high) := (index[3 * k] as int + index[3 * k + 1] as int * 256, index[3 * k + 2] as int);
    assert high == high / 32 * 32 + high % 32;
    assert GetLe24(index, k) == low + high % 32 * 0x1_0000 + high / 32 * 0x20_0000;
  }

  lemma {:induction false} PassedSame(table: seq<Byte>, p: nat, code: nat, bit: bool, q: nat, at: nat, c: nat)
    requires Complete(table, p) && Passes(table, p, code, bit, q, at) && at <= c
    ensures Complete(table, q) && code <= at
    ensures Member(table, q, at, false, c) == Member(table, p, code, bit, c)
    ensures EndCode(table, q, at) == EndCode(table, p, code)
    decreases |table| - p
  {
    if !(p == q && code == at && !bit) {
      PassedSame(table, NextPos(table, p), NextCode(table, p, code), NextBit(table, p, bit), q, at, c);
    }
  }

  /** get_index_pos: -1 beyond the table, otherwise a place from which to decode, at or before `c`. */
  method GetIndexPos(c: nat, ghost table: seq<Byte>, index: seq<Byte>, n: nat) returns (pos: int, code: nat)
    requires IndexOk(table, index, n)
    ensures pos < 0 <==> c >= EndCode(table, 0, 0)
    ensures pos >= 0 ==> Passes(table, 0, 0, false, pos, code) && code <= c
  {
    var idxMin: nat := 0;
    var v := GetLe24(index, 0);
    code := v % 0x20_0000;
    if c < code {
      if n > 1 {
        BlockBeforeEnd(table, index, n, 0);
      }
      return 0, 0;
    }
    var idxMax: nat := n - 1;
    code := GetLe24(index, idxMax);
    if c >= code {
      return -1, code;
    }
    while idxMax - idxMin > 1
      invariant 0 <= idxMin < idxMax < n
      invariant BlockCode(index, idxMin) <= c
    {
      var idx: nat := (idxMax + idxMin) / 2;
      v := GetLe24(index, idx);
      code := v % 0x20_0000;
      if c < code {
        idxMax := idx;
      } else {
        idxMin := idx;
      }
    }
    v := GetLe24(index, idxMin);
    code := v % 0x20_0000;
    pos := (idxMin + 1) * UNICODE_INDEX_BLOCK_LEN + v / 0x20_0000;
    assert pos == BlockPos(index, idxMin) && code == BlockCode(index, idxMin);
  }

  lemma BlockBeforeEnd(table: seq<Byte>, index: seq<Byte>, n: nat, k: nat)
    requires IndexOk(table, index, n) && k < n - 1
    ensures BlockCode(index, k) <= EndCode(table, 0, 0)
  {
    var (q, at) := (BlockPos(index, k), BlockCode(index, k));
    PassedSame(table, 0, 0, false, q, at, at);
    EndAbove(table, q, at);
  }

  /** One entry of the scan. */
  lemma MemberStep(table: seq<Byte>, p: nat, code: nat, bit: bool, c: nat)
    requires Complete(table, p) && code <= c < EndCode(table, p, code)
    ensures p < |table| && p + EntrySize(table[p]) <= |table| && Complete(table, NextPos(table, p))
    ensures Member(table, p, code, bit, c) ==
            if table[p] < 64 && c < code + FirstRun(table[p]) then bit
            else if c < NextCode(table, p, code) then if table[p] < 64 then !bit else bit
            else Member(table, NextPos(table, p), NextCode(table, p, code), NextBit(table, p, bit), c)
    ensures EndCode(table, NextPos(table, p), NextCode(table, p, code)) == EndCode(table, p, code)
  {
  }

  /** An entry, by its first byte. */
  lemma EntryIs(table: seq<Byte>, p: nat, code: nat, bit: bool)
    requires p < |table| && Complete(table, p)
    ensures var b := table[p] as int;
            && (b < 64 ==> NextPos(table, p) == p + 1 && NextBit(table, p, bit) == bit
                           && FirstRun(table[p]) == b / 8 + 1
                           && NextCode(table, p, code) == code + (b / 8 + 1) + (b % 8 + 1))
            && (b >= 0x80 ==> NextPos(table, p) == p + 1 && NextBit(table, p, bit) == !bit
                              && NextCode(table, p, code) == code + (b - 0x80 + 1))
            && (64 <= b < 0x60 ==> NextPos(table, p) == p + 2 <= |table| && NextBit(table, p, bit) == !bit
                                   && NextCode(table, p, code) == code + ((b - 0x40) * 256 + table[p + 1] as int) + 1)
            && (0x60 <= b < 0x80 ==> NextPos(table, p) == p + 3 <= |table| && NextBit(table, p, bit) == !bit
                                     && NextCode(table, p, code) ==
                                        code + ((b - 0x60) * 0x10000 + table[p + 1] as int * 256 + table[p + 2] as int) + 1)
  {
  }

  /** One entry of lre_is_in_table: `c` falls into its first run, or the next entry begins at `next` and its last
      run has the bit `last` and ends before `end`. */
  method ScanEntry(c: nat, table: seq<Byte>, p: nat, code: nat, bit: bool)
    returns (first: bool, next: nat, end: nat, last: bool)
    requires p < |table| && Complete(table, p)
    ensures first <==> table[p] < 64 && c < code + FirstRun(table[p])
    ensures !first ==> next == NextPos(table, p) && end == NextCode(table, p, code)
    ensures !first ==> last == if table[p] < 64 then !bit else bit
  {
    EntryIs(table, p, code, bit);
    hide *;
    var b := table[p] as int;
    first, next, end, last := false, p + 1, code, bit;
    if b < 64 {
      end := end + b / 8 + 1;
      if c < end {
        first := true;
        return;
      }
      last := !last;
      end := end + b % 8 + 1;
    } else if b >= 0x80 {
      end := end + (b - 0x80 + 1);
    } else if b < 0x60 {
      end := end + ((b - 0x40) * 256 + table[next] as int) + 1;
      next := next + 1;
    } else {
      end := end + ((b - 0x60) * 0x10000 + table[next] as int * 256 + table[next + 1] as int) + 1;
      next := next + 2;
    }
  }

  /** The scan of lre_is_in_table, from a place outside the set. */
  method Scan(c: nat, table: seq<Byte>, pos: nat, start: nat) returns (r: bool)
    requires Complete(table, pos) && start <= c < EndCode(table, pos, start)
    ensures r == Member(table, pos, start, false, c)
  {
    var p: nat, code: nat, bit := pos, start, false;
    while true
      invariant Complete(table, p) && code <= c
      invariant Member(table, p, code, bit, c) == Member(table, pos, start, false, c)
      invariant c < EndCode(table, p, code)
      decreases |table| - p
    {
      MemberStep(table, p, code, bit, c);
      EntryIs(table, p, code, bit);
      hide *;
      var first, next, end, last := ScanEntry(c, table, p, code, bit);
      if first || c < end {
        return if first then bit else last;
      }
      p, code, bit := next, end, !last;
    }
  }

  /** lre_is_in_table: the lookup agrees with the ranges built by decoding the whole table. */
  method LreIsInTable(c: nat, table: seq<Byte>, index: seq<Byte>, n: nat) returns (r: bool)
    requires IndexOk(table, index, n)
    ensures r <==> In(Ranges(table, 0, 0, false), c)
  {
    RangesAbove(table, 0, 0, false);
    InIsOdd(Ranges(table, 0, 0, false), c);
    MemberIsIn(table, 0, 0, false, c);
    hide Ranges, Passes, Member, EndCode, Odd, In;
    var pos: int, code: nat := GetIndexPos(c, table, index, n);
    if pos < 0 {
      if Member(table, 0, 0, false, c) {
        MemberBelowEnd(table, 0, 0, false, c);
      }
      return false;
    }
    PassedSame(table, 0, 0, false, pos, code, c);
    r := Scan(c, table, pos, code);
  }
}
