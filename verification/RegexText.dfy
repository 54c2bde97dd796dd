/** The subject string of a regular expression: the three buffer kinds of the
    matcher and the character access macros of libregexp.c.
    Positions count code units, so a 16-bit buffer advances by one where the C pointer advances by two. */
module RegexText {
  import opened Options

  /** `cbuf_type` 0, 1 and 2. */
  datatype BufKind = Bytes | Ucs2 | Utf16

  datatype Text = Text(kind: BufKind, units: seq<nat>) {
    predicate PairAt(i: int) {
      && kind == Utf16
      && 0 <= i < |units| - 1
      && IsHigh(units[i])
      && IsLow(units[i + 1])
    }

    /** `i` does not split a surrogate pair. */
    predicate Boundary(i: int) {
      && 0 <= i <= |units|
      && !PairAt(i - 1)
    }

    /** GET_CHAR: the character at `i` and the position after it. */
    function Get(i: nat): (r: (nat, nat))
      requires i < |units|
      ensures i < r.1 <= |units|
    {
      if PairAt(i) then (Combine(units[i], units[i + 1]), i + 2) else (units[i], i + 1)
    }

    /** PREV_CHAR: the position before `i`. */
    function Back(i: nat): (r: nat)
      requires 0 < i <= |units|
      ensures r < i
    {
      if PairAt(i - 2) then i - 2 else i - 1
    }

    /** PEEK_PREV_CHAR and the character of GET_PREV_CHAR: the character that ends at `i`. */
    function PrevChar(i: nat): nat
      requires 0 < i <= |units|
    {
      if PairAt(i - 2) then Combine(units[i - 2], units[i - 1]) else units[i - 1]
    }

    /** `k` PREV_CHARs in a row, stopping at the start of the buffer. */
    function BackN(i: nat, k: nat): (r: nat)
      requires i <= |units|
      ensures r <= i
      decreases k
    {
      if k == 0 || i == 0 then i else BackN(Back(i), k - 1)
    }
  }

  predicate IsHigh(u: nat) {
    0xd800 <= u < 0xdc00
  }

  predicate IsLow(u: nat) {
    0xdc00 <= u < 0xe000
  }

  /** The code point of a surrogate pair. */
  function Combine(hi: nat, lo: nat): nat {
    (hi % 0x400) * 0x400 + lo % 0x400 + 0x10000
  }

  predicate IsLineTerminator(c: nat) {
    c == 10 || c == 13 || c == 0x2028 || c == 0x2029
  }

  predicate IsWordChar(c: nat) {
    48 <= c <= 57 || 97 <= c <= 122 || 65 <= c <= 90 || c == 95
  }

  /** One PREV_CHAR undoes one GET_CHAR exactly from the code-point boundaries; GET_CHAR always
      lands on a boundary. The second clause is the reason a search must not start inside a pair. */
  lemma BackUndoesGet(t: Text, i: nat)
    requires i < |t.units|
    ensures t.Boundary(t.Get(i).1)
    ensures t.Back(t.Get(i).1) == i <==> t.Boundary(i)
  {
  }

  /** PREV_CHAR always lands on a boundary, and from a boundary GET_CHAR returns to where it was,
      reading the character that PEEK_PREV_CHAR saw. */
  lemma GetUndoesBack(t: Text, i: nat)
    requires 0 < i <= |t.units|
    ensures t.Boundary(t.Back(i))
    ensures t.Boundary(i) ==> t.Get(t.Back(i)) == (t.PrevChar(i), i)
    ensures t.Back(t.Get(t.Back(i)).1) == t.Back(i)
  {
  }

  /** Reading does not pass over a boundary. */
  lemma NextBoundary(t: Text, i: nat, j: nat)
    requires t.Boundary(i) && i < |t.units| && t.Boundary(j) && i < j
    ensures t.Get(i).1 <= j
  {
  }

  /** Nor does stepping back. */
  lemma PrevBoundary(t: Text, i: nat, j: nat)
    requires t.Boundary(i) && t.Boundary(j) && i < j
    ensures i <= t.Back(j)
  {
  }

  /** `k` GET_CHARs in a row; None when the buffer ends first. */
  function GetN(t: Text, i: nat, k: nat): (r: Option<nat>)
    requires i <= |t.units|
    ensures r.Some? ==> i + k <= r.value <= |t.units|
    decreases k
  {
    if k == 0 then Some(i)
    else if i == |t.units| then None
    else GetN(t, t.Get(i).1, k - 1)
  }

  lemma {:induction false} GetNSnoc(t: Text, i: nat, k: nat)
    requires i <= |t.units| && k > 0
    ensures GetN(t, i, k) ==
            (var m := GetN(t, i, k - 1);
             if m.Some? && m.value < |t.units| then Some(t.Get(m.value).1) else None)
    decreases k
  {
    if k > 1 && i < |t.units| {
      GetNSnoc(t, t.Get(i).1, k - 1);
    }
  }

  lemma {:induction false} GetNBoundary(t: Text, i: nat, k: nat)
    requires t.Boundary(i) && GetN(t, i, k).Some?
    ensures t.Boundary(GetN(t, i, k).value)
    decreases k
  {
    if k > 0 {
      BackUndoesGet(t, i);
      GetNBoundary(t, t.Get(i).1, k - 1);
    }
  }

  /** From any code-point boundary, `k` PREV_CHARs undo `k` GET_CHARs, for all three buffer kinds. */
  lemma {:induction false} BackNUndoesGetN(t: Text, i: nat, k: nat)
    requires t.Boundary(i) && GetN(t, i, k).Some?
    ensures t.BackN(GetN(t, i, k).value, k) == i
    decreases k
  {
    if k > 0 {
      GetNSnoc(t, i, k);
      var m := GetN(t, i, k - 1).value;
      GetNBoundary(t, i, k - 1);
      BackUndoesGet(t, m);
      BackNUndoesGetN(t, i, k - 1);
    }
  }
}
