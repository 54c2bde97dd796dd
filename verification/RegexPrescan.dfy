/** The text of a pattern: the prescan that counts its captures, and the recursive parser as far as it
    consumes the text and counts captures itself. On every pattern the parser accepts the two counts agree. */
module RegexPrescan {
  import opened Limits
  import opened ByteType
  import opened Options
  import opened Utf8

  /** The byte at `p`; the terminating NUL stands at the end. */
  function At(text: seq<Byte>, p: nat): (b: int)
    requires p <= |text|
    ensures 0 <= b < 256
  {
    if p < |text| then text[p] as int else 0
  }

  // ----- the prescan -----

  /** Where the class loop of the prescan stops: at the first `]` that no backslash hides, or past the end. */
  function SkipClass(text: seq<Byte>, p: nat): (q: nat)
    ensures p <= q
    decreases |text| - p
  {
    if p >= |text| || text[p] == ']' as int then p
    else if text[p] == '\\' as int then SkipClass(text, p + 2)
    else SkipClass(text, p + 1)
  }

  /** The parenthesis at `p` opens a capture. */
  predicate OpensCapture(text: seq<Byte>, p: nat)
    requires p < |text|
  {
    if At(text, p + 1) != '?' as int then true
    else At(text, p + 2) == '<' as int && At(text, p + 3) != '=' as int && At(text, p + 3) != '!' as int
  }

  /** The parenthesis at `p` opens a named capture. */
  predicate OpensNamed(text: seq<Byte>, p: nat)
    requires p < |text|
  {
    && At(text, p + 1) == '?' as int
    && At(text, p + 2) == '<' as int && At(text, p + 3) != '=' as int && At(text, p + 3) != '!' as int
  }

  /** What the prescan counts from `p` on, having counted `k`. */
  function Scan(text: seq<Byte>, p: nat, k: nat): nat
    decreases |text| - p
  {
    if p >= |text| || k >= CAPTURE_COUNT_MAX then k
    else if text[p] == '(' as int then Scan(text, p + 1, if OpensCapture(text, p) then k + 1 else k)
    else if text[p] == '\\' as int then Scan(text, p + 2, k)
    else if text[p] == '[' as int then Scan(text, SkipClass(text, p + 1) + 1, k)
    else Scan(text, p + 1, k)
  }

  /** The prescan from `p` on, having counted `k`, comes to the named capture that opens at `q`. */
  predicate MeetsNamed(text: seq<Byte>, p: nat, k: nat, q: nat)
    decreases |text| - p
  {
    if p >= |text| || k >= CAPTURE_COUNT_MAX then false
    else if text[p] == '(' as int then
      (p == q && OpensNamed(text, p)) || MeetsNamed(text, p + 1, if OpensCapture(text, p) then k + 1 else k, q)
    else if text[p] == '\\' as int then MeetsNamed(text, p + 2, k, q)
    else if text[p] == '[' as int then MeetsNamed(text, SkipClass(text, p + 1) + 1, k, q)
    else MeetsNamed(text, p + 1, k, q)
  }

  /** The prescan comes to the named capture that opens at `q`. */
  predicate NamedAt(text: seq<Byte>, q: nat) {
    MeetsNamed(text, 0, 1, q)
  }

  /** re_parse_captures without a name: the number of captures + 1, and whether there are named ones. */
  method ReParseCaptures(text: seq<Byte>) returns (captureIndex: nat, hasNamedCaptures: bool)
    ensures captureIndex == Scan(text, 0, 1)
    ensures hasNamedCaptures <==> exists q: nat :: NamedAt(text, q)
  {
    captureIndex := 1;
    hasNamedCaptures := false;
    var p: nat := 0;
    ghost var at: nat := 0;
    while p < |text|
      invariant captureIndex < CAPTURE_COUNT_MAX && Scan(text, p, captureIndex) == Scan(text, 0, 1)
      invariant hasNamedCaptures ==> NamedAt(text, at)
      invariant forall q: nat | MeetsNamed(text, p, captureIndex, q) :: NamedAt(text, q)
      invariant forall q: nat | NamedAt(text, q) :: hasNamedCaptures || MeetsNamed(text, p, captureIndex, q)
      decreases |text| - p
    {
      if text[p] == '(' as int {
        if At(text, p + 1) == '?' as int {
          if At(text, p + 2) == '<' as int && At(text, p + 3) != '=' as int && At(text, p + 3) != '!' as int {
            assert MeetsNamed(text, p, captureIndex, p);
            hasNamedCaptures, at := true, p;
            captureIndex := captureIndex + 1;
            if captureIndex >= CAPTURE_COUNT_MAX {
              return;
            }
          }
        } else {
          captureIndex := captureIndex + 1;
          if captureIndex >= CAPTURE_COUNT_MAX {
            return;
          }
        }
      } else if text[p] == '\\' as int {
        p := p + 1;
      } else if text[p] == '[' as int {
        ghost var p0 := p;
        p := p + 1;
        while p < |text| && text[p] != ']' as int
          invariant p0 < p && SkipClass(text, p) == SkipClass(text, p0 + 1)
          decreases |text| - p
        {
          if text[p] == '\\' as int {
            p := p + 1;
          }
          p := p + 1;
        }
      }
      p := p + 1;
    }
  }

  // ----- stretches of text that count nothing -----

  /** The prescan, outside a class or inside one, is in the same state at `p` and at `q`. */
  ghost predicate Same(text: seq<Byte>, inClass: bool, p: nat, q: nat) {
    && p <= q <= |text|
    && if inClass then SkipClass(text, p) == SkipClass(text, q)
       else forall k :: Scan(text, p, k) == Scan(text, q, k)
                        && forall x: nat :: MeetsNamed(text, p, k, x) == MeetsNamed(text, q, k, x)
  }

  /** The same outside and inside a class. */
  ghost predicate Inert(text: seq<Byte>, p: nat, q: nat) {
    Same(text, false, p, q) && Same(text, true, p, q)
  }

  /** A byte that means nothing to the prescan. */
  predicate Plain(b: int) {
    b != '(' as int && b != '[' as int && b != ']' as int && b != '\\' as int
  }

  lemma {:induction false} PlainRun(text: seq<Byte>, p: nat, q: nat)
    requires p <= q <= |text| && forall h | p <= h < q :: Plain(text[h])
    ensures Inert(text, p, q)
    decreases q - p
  {
    if p < q {
      PlainRun(text, p + 1, q);
    }
  }

  /** Outside a class a closing bracket counts nothing; inside, parentheses and opening brackets do not. */
  lemma OneByte(text: seq<Byte>, inClass: bool, p: nat)
    requires p < |text| && text[p] != '\\' as int
    requires if inClass then text[p] != ']' as int else text[p] != '(' as int && text[p] != '[' as int
    ensures Same(text, inClass, p, p + 1)
  {
  }

  /** A backslash hides the byte that follows. */
  lemma Escaped(text: seq<Byte>, inClass: bool, p: nat)
    requires p + 1 < |text| && text[p] == '\\' as int
    ensures Same(text, inClass, p, p + 2)
  {
  }

  lemma SameTrans(text: seq<Byte>, inClass: bool, p: nat, q: nat, r: nat)
    requires Same(text, inClass, p, q) && Same(text, inClass, q, r)
    ensures Same(text, inClass, p, r)
  {
  }

  lemma SameBack(text: seq<Byte>, inClass: bool, p: nat, q: nat, r: nat)
    requires Same(text, inClass, p, r) && Same(text, inClass, q, r) && p <= q
    ensures Same(text, inClass, p, q)
  {
  }

  // ----- the elements of the text -----

  predicate IsDigit(c: int) {
    '0' as int <= c <= '9' as int
  }

  /** The value of a digit of any base up to sixteen; sixteen for what is no digit. */
  function DigitValue(c: int): nat {
    if 0x30 <= c <= 0x39 then c - 0x30
    else if 0x41 <= c <= 0x46 then 10 + c - 0x41
    else if 0x61 <= c <= 0x66 then 10 + c - 0x61
    else 16
  }

  /** from_hex. */
  function FromHex(c: int): (h: int)
    ensures -1 <= h < 16
    ensures h >= 0 ==> Plain(c) && c != 0 && c < 128
    ensures if h >= 0 then h == DigitValue(c) else DigitValue(c) == 16
  {
    if '0' as int <= c <= '9' as int then c - '0' as int
    else if 'A' as int <= c <= 'F' as int then c - 'A' as int + 10
    else if 'a' as int <= c <= 'f' as int then c - 'a' as int + 10
    else -1
  }

  /** The number that digits denote, the most significant one first. */
  function Number(digits: seq<Byte>, base: nat): nat {
    if digits == [] then 0 else Number(digits[..|digits| - 1], base) * base + DigitValue(digits[|digits| - 1])
  }

  lemma NumberSnoc(text: seq<Byte>, p: nat, q: nat, base: nat)
    requires p <= q < |text|
    ensures Number(text[p..q + 1], base) == Number(text[p..q], base) * base + DigitValue(text[q])
  {
    var digits := text[p..q + 1];
    assert digits[..|digits| - 1] == text[p..q] && digits[|digits| - 1] == text[q];
  }

  lemma NumberNone(text: seq<Byte>, p: nat, base: nat)
    requires p <= |text|
    ensures Number(text[p..p], base) == 0
  {
  }

  /** Where the digits from `p` on end. */
  function DigitRun(text: seq<Byte>, p: nat): (q: nat)
    requires p <= |text|
    ensures p <= q <= |text| && forall h | p <= h < q :: IsDigit(text[h])
    decreases |text| - p
  {
    if p < |text| && 0x30 <= text[p] <= 0x39 then DigitRun(text, p + 1) else p
  }

  /** The number that they denote. */
  function DigitNumber(text: seq<Byte>, p: nat): nat
    requires p <= |text|
  {
    Number(text[p..DigitRun(text, p)], 10)
  }

  function Capped(n: nat): nat {
    if n < 0x7fff_ffff then n else 0x7fff_ffff
  }

  lemma {:induction false} DigitRunEnds(text: seq<Byte>, p: nat, q: nat)
    requires p <= q <= |text| && forall h | p <= h < q :: IsDigit(text[h])
    ensures DigitRun(text, p) == DigitRun(text, q)
    decreases q - p
  {
    if p < q {
      DigitRunEnds(text, p + 1, q);
    }
  }

  /** More digits do not make the number smaller. */
  lemma {:induction false} NumberGrows(text: seq<Byte>, p: nat, q: nat, r: nat)
    requires p <= q <= r <= |text|
    ensures Number(text[p..q], 10) <= Number(text[p..r], 10)
    decreases r - q
  {
    if q < r {
      NumberGrows(text, p, q, r - 1);
      NumberSnoc(text, p, r - 1, 10);
      hide Number;
    }
  }

  /** parse_digits: the number that the digits from `p` on denote; INT32_MAX for a larger one if that is allowed,
      else -1. */
  method ParseDigits(text: seq<Byte>, p: nat, allowOverflow: bool) returns (v: int, q: nat)
    requires p <= |text|
    ensures var n := DigitNumber(text, p);
            v == if n < 0x7fff_ffff then n else if allowOverflow then 0x7fff_ffff else -1
    ensures q == if v < 0 then p else DigitRun(text, p)
  {
    hide Number;
    q, v := p, 0;
    NumberNone(text, p, 10);
    while IsDigit(At(text, q))
      invariant p <= q <= |text| && v >= 0 && forall h | p <= h < q :: IsDigit(text[h])
      invariant var n := Number(text[p..q], 10); v == if n < INT32_MAX then n else INT32_MAX
      invariant !allowOverflow ==> v < INT32_MAX
      decreases |text| - q
    {
      NumberSnoc(text, p, q, 10);
      v := v * 10 + At(text, q) - '0' as int;
      if v >= INT32_MAX {
        if allowOverflow {
          v := INT32_MAX;
        } else {
          DigitRunEnds(text, p, q + 1);
          NumberGrows(text, p, q + 1, DigitRun(text, p));
          return -1, p;
        }
      }
      q := q + 1;
    }
    DigitRunEnds(text, p, q);
  }

  /** `n` hexadecimal digits, or -1. */
  method HexDigits(text: seq<Byte>, p: nat, n: nat) returns (c: int)
    requires p <= |text|
    ensures c >= -1
    ensures c >= 0 <==> p + n <= |text| && forall h | p <= h < p + n :: DigitValue(text[h]) < 16
    ensures c >= 0 ==> c == Number(text[p..p + n], 16)
  {
    hide Number, DigitValue, FromHex, Plain;
    c := 0;
    NumberNone(text, p, 16);
    for i := 0 to n
      invariant c >= 0 && p + i <= |text| && forall h | p <= h < p + i :: DigitValue(text[h]) < 16
      invariant c == Number(text[p..p + i], 16)
    {
      var h := FromHex(At(text, p + i));
      if h < 0 {
        return -1;
      }
      NumberSnoc(text, p, p + i, 16);
      c := c * 16 + h;
    }
  }

  /** A run of hexadecimal digits means nothing to the prescan. */
  lemma HexRun(text: seq<Byte>, p: nat, q: nat)
    requires p <= q <= |text| && forall h | p <= h < q :: DigitValue(text[h]) < 16
    ensures forall h | p <= h < q :: Plain(text[h])
    ensures Inert(text, p, q)
  {
    PlainRun(text, p, q);
  }

  lemma {:induction false} TailHigh(c: nat, l: nat)
    ensures forall i | 0 <= i < l :: Tail(c, l)[i] >= 0x80
    decreases l
  {
    if l > 0 {
      TailHigh(c / 64, l - 1);
    }
  }

  lemma EncodedHigh(c: nat)
    requires c < 0x8000_0000
    ensures c < 0x80 ==> Encoded(c)[0] == c
    ensures c >= 0x80 ==> forall i | 0 <= i < |Encoded(c)| :: Encoded(c)[i] >= 0x80
  {
    if c >= 0x80 {
      TagFits(c);
      TailHigh(c, Continuations(c));
    }
  }

  /** unicode_from_utf8 at a byte from 0x80 on; the NUL ends every sequence that is cut off. The result is the
      value whose encoding stands there, or -1 where none does. */
  method DecodeChar(text: seq<Byte>, p: nat) returns (c: int, q: nat)
    requires p < |text| && text[p] >= 0x80
    ensures c >= -1 && (c < 0 ==> q == p)
    ensures c >= 0 ==> p < q <= |text| && Inert(text, p, q)
    ensures c >= 0 ==> 0x80 <= c < 0x8000_0000 && Encoded(c) == text[p..q]
    ensures c < 0 ==> forall x: nat :: !Begins(x, text[p..])
  {
    hide Encoded, Begins, Plain, Inert;
    var rest := text[p..];
    var r := UnicodeFromUtf8(rest, if |rest| < UTF8_CHAR_LEN_MAX then |rest| else UTF8_CHAR_LEN_MAX);
    ShortEnough(rest);
    if r.None? {
      return -1, p;
    }
    var (v, n) := r.value;
    c, q := v, p + n;
    assert rest[..n] == text[p..q];
    EncodedPlain(text, p, q, v);
  }

  lemma EncodedPlain(text: seq<Byte>, p: nat, q: nat, c: nat)
    requires p <= q <= |text| && c < 0x8000_0000 && Encoded(c) == text[p..q]
    ensures p < q && (text[p] >= 0x80 ==> c >= 0x80 && Inert(text, p, q))
  {
    EncodedHigh(c);
    hide Encoded;
    assert text[p..q][0] == text[p];
    if text[p] >= 0x80 {
      forall h | p <= h < q
        ensures Plain(text[h])
      {
        assert text[h] == text[p..q][h - p];
      }
      PlainRun(text, p, q);
    }
  }

  /** No encoding is longer than six bytes. */
  lemma ShortEnough(s: seq<Byte>)
    ensures |s| > UTF8_CHAR_LEN_MAX ==> forall x: nat :: Begins(x, s) <==> Begins(x, s[..UTF8_CHAR_LEN_MAX])
    ensures s[..|s|] == s
  {
    hide Encoded;
  }

  /** `{` hexadecimal digits `}` after `\\u` or `\\x`; `p` is behind the brace. */
  method BraceEscape(text: seq<Byte>, p: nat) returns (c: int, q: nat)
    requires p <= |text|
    ensures -1 <= c <= 0x10ffff
    ensures c >= 0 ==> p + 1 < q <= |text| && Inert(text, p, q)
    ensures c >= 0 ==> text[q - 1] == '}' as int && forall h | p <= h < q - 1 :: DigitValue(text[h]) < 16
    ensures c >= 0 ==> c == Number(text[p..q - 1], 16)
  {
    hide Number, DigitValue, FromHex, Plain, Inert;
    c, q := 0, p;
    NumberNone(text, p, 16);
    while true
      invariant p <= q <= |text| && 0 <= c <= 0x10ffff
      invariant c == Number(text[p..q], 16) && forall h | p <= h < q :: DigitValue(text[h]) < 16
      decreases |text| - q
    {
      var h := FromHex(At(text, q));
      if h < 0 {
        return -1, p;
      }
      NumberSnoc(text, p, q, 16);
      q := q + 1;
      c := c * 16 + h;
      if c > 0x10ffff {
        return -1, p;
      }
      if At(text, q) == '}' as int {
        break;
      }
    }
    HexRun(text, p, q);
    BraceEnds(text, p, q);
    q := q + 1;
  }

  lemma BraceEnds(text: seq<Byte>, p: nat, q: nat)
    requires Inert(text, p, q) && q < |text| && text[q] == '}' as int
    ensures Inert(text, p, q + 1)
  {
    PlainRun(text, q, q + 1);
  }

  /** A `\\u` escape of a low surrogate stands at `p`. */
  predicate IsLowEscape(text: seq<Byte>, p: nat) {
    && p + 6 <= |text| && text[p] == '\\' as int && text[p + 1] == 'u' as int
    && (forall h | p + 2 <= h < p + 6 :: DigitValue(text[h]) < 16)
    && 0xdc00 <= Number(text[p + 2..p + 6], 16) <= 0xdfff
  }

  /** The second half of an escaped surrogate pair at `p`, or -1. */
  method LowSurrogate(text: seq<Byte>, p: nat) returns (c1: int)
    requires p <= |text|
    ensures c1 >= 0 ==> p + 6 <= |text| && Inert(text, p, p + 6)
    ensures c1 >= 0 ==> IsLowEscape(text, p) && c1 == Number(text[p + 2..p + 6], 16)
    ensures c1 < 0 ==> !IsLowEscape(text, p)
  {
    hide Number, DigitValue, FromHex, Plain, Inert;
    if At(text, p) != '\\' as int || At(text, p + 1) != 'u' as int {
      return -1;
    }
    c1 := HexDigits(text, p + 2, 4);
    if !(0xdc00 <= c1 < 0xe000) {
      return -1;
    }
    HexRun(text, p + 2, p + 6);
    EscapedRun(text, p, p + 6);
  }

  /** A backslash, the byte that it hides and a stretch that counts nothing. */
  lemma EscapedRun(text: seq<Byte>, p: nat, q: nat)
    requires p + 2 <= q <= |text| && text[p] == '\\' as int && Inert(text, p + 2, q)
    ensures Inert(text, p, q)
  {
    Escaped(text, false, p);
    Escaped(text, true, p);
  }

  /** What \\x and \\u with digits stand for: two or four hexadecimal digits give their number, and under the u
      flag two escapes of a surrogate pair the code point of the pair. */
  ghost predicate FixedEscape(text: seq<Byte>, p: nat, allowUtf16: nat, c: int, q: nat) {
    && p < |text|
    && var r := p + 1 + if text[p] == 'x' as int then 2 else 4;
    && r <= |text| && (forall h | p + 1 <= h < r :: DigitValue(text[h]) < 16)
    && var n := Number(text[p + 1..r], 16);
       if allowUtf16 == 2 && 0xd800 <= n <= 0xdbff && IsLowEscape(text, r)
       then q == r + 6 && c == 0x10000 + 0x400 * (n - 0xd800) + (Number(text[r + 2..r + 6], 16) - 0xdc00)
       else q == r && c == n
  }

  /** lre_parse_escape: `p` is behind the backslash. -1 for a malformed escape, -2 for none. */
  method LreParseEscape(text: seq<Byte>, p: nat, allowUtf16: nat) returns (c: int, q: nat)
    requires p <= |text|
    ensures c >= -2 && (c < 0 ==> q == p)
    ensures c >= 0 ==> p < q <= |text| && Inert(text, p + 1, q)
    ensures At(text, p) == 'b' as int ==> c == 8 && q == p + 1
    ensures At(text, p) == 't' as int ==> c == 9 && q == p + 1
    ensures At(text, p) == 'n' as int ==> c == 10 && q == p + 1
    ensures At(text, p) == 'v' as int ==> c == 11 && q == p + 1
    ensures At(text, p) == 'f' as int ==> c == 12 && q == p + 1
    ensures At(text, p) == 'r' as int ==> c == 13 && q == p + 1
    ensures c == -2 <==> At(text, p) !in {'b' as int, 't' as int, 'n' as int, 'v' as int, 'f' as int, 'r' as int,
                                          'x' as int, 'u' as int} && !('0' as int <= At(text, p) <= '7' as int)
    ensures c >= 0 && (At(text, p) == 'x' as int || At(text, p) == 'u' as int) ==>
              if At(text, p + 1) == '{' as int && allowUtf16 != 0
              then p + 3 < q && text[q - 1] == '}' as int && c == Number(text[p + 2..q - 1], 16) <= 0x10ffff
              else FixedEscape(text, p, allowUtf16, c, q)
    ensures c == -1 && (At(text, p) == 'x' as int || At(text, p) == 'u' as int) ==>
              (At(text, p + 1) == '{' as int && allowUtf16 != 0) || forall d, e :: !FixedEscape(text, p, allowUtf16, d, e)
    ensures '0' as int <= At(text, p) <= '7' as int ==> OctalAt(text, p, allowUtf16 == 2, c, q)
  {
    c := At(text, p);
    q := p;
    if c == 'x' as int || c == 'u' as int {
      c, q := NumericEscape(text, p, allowUtf16);
    } else if '0' as int <= c <= '7' as int {
      c, q := OctalEscape(text, p, allowUtf16);
    } else {
      PlainRun(text, p, p);
      var values := map['b' as int := 8, 'f' as int := 12, 'n' as int := 10, 'r' as int := 13, 't' as int := 9, 'v' as int := 11];
      if c in values {
        PlainRun(text, p + 1, p + 1);
        return values[c], p + 1;
      }
      return -2, p;
    }
  }

  method NumericEscape(text: seq<Byte>, p: nat, allowUtf16: nat) returns (c: int, q: nat)
    requires p < |text| && (text[p] == 'x' as int || text[p] == 'u' as int)
    ensures c >= -1 && (c < 0 ==> q == p)
    ensures c >= 0 ==> p < q <= |text| && Inert(text, p + 1, q)
    ensures c >= 0 ==>
              if At(text, p + 1) == '{' as int && allowUtf16 != 0
              then p + 3 < q && text[q - 1] == '}' as int && c == Number(text[p + 2..q - 1], 16) <= 0x10ffff
              else FixedEscape(text, p, allowUtf16, c, q)
    ensures c < 0 ==>
              (At(text, p + 1) == '{' as int && allowUtf16 != 0) || forall d, e :: !FixedEscape(text, p, allowUtf16, d, e)
  {
    hide Number, DigitValue, Plain, Inert, FixedEscape;
    if At(text, p + 1) == '{' as int && allowUtf16 != 0 {
      c, q := BraceEscape(text, p + 2);
      if c < 0 {
        return -1, p;
      }
      BraceBegins(text, p + 1, q);
      return;
    }
    c, q := FixedDigits(text, p, allowUtf16);
  }

  lemma BraceBegins(text: seq<Byte>, p: nat, q: nat)
    requires p < |text| && text[p] == '{' as int && Inert(text, p + 1, q)
    ensures Inert(text, p, q)
  {
    PlainRun(text, p, p + 1);
  }

  /** The digits behind \\x or \\u, and a second escape that makes a pair. */
  method FixedDigits(text: seq<Byte>, p: nat, allowUtf16: nat) returns (c: int, q: nat)
    requires p < |text| && (text[p] == 'x' as int || text[p] == 'u' as int)
    ensures c >= -1 && (c < 0 ==> q == p)
    ensures c >= 0 ==> p < q <= |text| && Inert(text, p + 1, q) && FixedEscape(text, p, allowUtf16, c, q)
    ensures c < 0 ==> forall d, e :: !FixedEscape(text, p, allowUtf16, d, e)
  {
    hide Number, DigitValue, Plain, Inert, IsLowEscape;
    var n := if At(text, p) == 'x' as int then 2 else 4;
    c := HexDigits(text, p + 1, n);
    if c < 0 {
      return -1, p;
    }
    q := p + 1 + n;
    HexRun(text, p + 1, q);
    if 0xd800 <= c < 0xdc00 && allowUtf16 == 2 {
      var c1 := LowSurrogate(text, q);
      if c1 >= 0 {
        LowIs(text, q);
        InertTrans(text, p + 1, q, q + 6);
        q := q + 6;
        c := c % 0x400 * 0x400 + c1 % 0x400 + 0x1_0000;
      }
    }
  }

  lemma LowIs(text: seq<Byte>, p: nat)
    requires IsLowEscape(text, p)
    ensures p + 6 <= |text| && 0xdc00 <= Number(text[p + 2..p + 6], 16) <= 0xdfff
  {
  }

  lemma InertTrans(text: seq<Byte>, p: nat, q: nat, r: nat)
    requires Inert(text, p, q) && Inert(text, q, r)
    ensures Inert(text, p, r)
  {
  }

  /** What a backslash and an octal digit stand for: under the u flag only \\0 without a digit behind it is
      allowed; otherwise as many octal digits as give a value below 256. */
  predicate OctalAt(text: seq<Byte>, p: nat, unicode: bool, c: int, q: nat) {
    if unicode then
      if p < |text| && text[p] == 0x30 && !(0x30 <= At(text, p + 1) <= 0x39) then c == 0 && q == p + 1 else c == -1 && q == p
    else
      && p < q <= |text| && q <= p + 3 && (forall h | p <= h < q :: 0x30 <= text[h] <= 0x37)
      && c == Number(text[p..q], 8) < 256
      && (q == p + 3 || q == |text| || !(0x30 <= text[q] <= 0x37) || c >= 32)
  }

  method OctalEscape(text: seq<Byte>, p: nat, allowUtf16: nat) returns (c: int, q: nat)
    requires p < |text| && '0' as int <= text[p] <= '7' as int
    ensures c >= -1 && (c < 0 ==> q == p)
    ensures c >= 0 ==> p < q <= |text| && Inert(text, p + 1, q)
    ensures OctalAt(text, p, allowUtf16 == 2, c, q)
  {
    hide Inert, Number, DigitValue;
    c := text[p] - '0' as int;
    q := p + 1;
    if allowUtf16 == 2 {
      if c != 0 || IsDigit(At(text, q)) {
        return -1, p;
      }
    } else {
      OctalDigit(text, p, p);
      NumberNone(text, p, 8);
      for i := 0 to 2
        invariant p + 1 <= q <= |text| && q == p + 1 + i && c >= 0
        invariant forall h | p <= h < q :: 0x30 <= text[h] <= 0x37
        invariant c == Number(text[p..q], 8) && (i == 0 ==> c < 8) && (i == 1 ==> c < 64) && c < 256
      {
        if !('0' as int <= At(text, q) <= '7' as int) || (i == 1 && c >= 32) {
          break;
        }
        OctalDigit(text, p, q);
        c := c * 8 + At(text, q) - '0' as int;
        q := q + 1;
      }
    }
    PlainRun(text, p + 1, q);
  }

  lemma OctalDigit(text: seq<Byte>, p: nat, q: nat)
    requires p <= q < |text| && 0x30 <= text[q] <= 0x37
    ensures Number(text[p..q + 1], 8) == Number(text[p..q], 8) * 8 + (text[q] as int - 0x30)
  {
    NumberSnoc(text, p, q, 8);
    hide Number;
  }

  /** One more octal digit, if there is one. */
  method MoreOctal(text: seq<Byte>, p: nat, c: int, q: nat) returns (c': int, q': nat)
    requires p <= q <= |text| && c == Number(text[p..q], 8)
    ensures q' == (if q < |text| && 0x30 <= text[q] <= 0x37 then q + 1 else q) && c' == Number(text[p..q'], 8)
    ensures q' > q ==> c' == 8 * c + (text[q] as int - 0x30)
  {
    c', q' := c, q;
    if '0' as int <= At(text, q) <= '7' as int {
      OctalDigit(text, p, q);
      c', q' := c * 8 + At(text, q) - '0' as int, q + 1;
    }
    hide Number;
  }

  lemma OctalEnds(text: seq<Byte>, p: nat, c: int, q: nat)
    requires p < q <= |text| && q <= p + 3 && (forall h | p <= h < q :: 0x30 <= text[h] <= 0x37)
    requires c == Number(text[p..q], 8) < 256
    requires q == p + 3 || q == |text| || !(0x30 <= text[q] <= 0x37) || c >= 32
    ensures LegacyAt(text, p, c, q)
  {
    hide Number;
  }

  /** An octal escape where 8 and 9 are tolerated, which stand for themselves. */
  predicate LegacyAt(text: seq<Byte>, p: nat, c: int, q: nat) {
    if p < |text| && text[p] >= 0x38 then c == text[p] as int && q == p + 1 else OctalAt(text, p, false, c, q)
  }

  lemma OctalDigits(text: seq<Byte>, p: nat, c: int, q: nat)
    requires p < |text| && IsDigit(text[p]) && LegacyAt(text, p, c, q)
    ensures p < q <= |text| && forall h | p <= h < q :: IsDigit(text[h])
  {
    hide Number;
  }

  /** The prescan never counts down, and stops at 255. */
  lemma {:induction false} CountGrows(text: seq<Byte>, p: nat, k: nat)
    ensures Scan(text, p, k) >= k
    decreases |text| - p
  {
    if p < |text| && k < CAPTURE_COUNT_MAX {
      if text[p] == '(' as int {
        CountGrows(text, p + 1, if OpensCapture(text, p) then k + 1 else k);
      } else if text[p] == '\\' as int {
        CountGrows(text, p + 2, k);
      } else if text[p] == '[' as int {
        CountGrows(text, SkipClass(text, p + 1) + 1, k);
      } else {
        CountGrows(text, p + 1, k);
      }
    }
  }

  lemma {:induction false} CountBound(text: seq<Byte>, p: nat, k: nat)
    requires k <= CAPTURE_COUNT_MAX
    ensures Scan(text, p, k) <= CAPTURE_COUNT_MAX
    decreases |text| - p
  {
    if p < |text| && k < CAPTURE_COUNT_MAX {
      if text[p] == '(' as int {
        CountBound(text, p + 1, if OpensCapture(text, p) then k + 1 else k);
      } else if text[p] == '\\' as int {
        CountBound(text, p + 2, k);
      } else if text[p] == '[' as int {
        CountBound(text, SkipClass(text, p + 1) + 1, k);
      } else {
        CountBound(text, p + 1, k);
      }
    }
  }

  const CLASS_RANGE_BASE := 0x4000_0000
  const TMP_BUF_SIZE := 128

  /** What the parser asks about names: the Unicode tables, and the group names met so far or, for a back
      reference, anywhere in the pattern. Names are given by the place where they begin. */
  datatype Names = Names(isIdStart: int -> bool, isIdContinue: int -> bool,
                         knownProperty: (seq<Byte>, seq<Byte>) -> bool,
                         duplicate: nat -> bool, defined: nat -> bool)

  predicate IsLetter(c: int) {
    'A' as int <= c <= 'Z' as int || 'a' as int <= c <= 'z' as int
  }

  /** lre_js_is_ident_first. */
  predicate IsIdentFirst(names: Names, c: int) {
    if c < 128 then c == '$' as int || c == '_' as int || IsLetter(c) else names.isIdStart(c)
  }

  /** lre_js_is_ident_next. */
  predicate IsIdentNext(names: Names, c: int) {
    if c < 128 then c == '$' as int || c == '_' as int || IsLetter(c) || IsDigit(c)
    else names.isIdContinue(c) || c == 0x200c || c == 0x200d
  }

  /** is_unicode_char. */
  predicate IsPropertyChar(c: int) {
    0x30 <= c <= 0x39 || 0x41 <= c <= 0x5a || c == 0x5f || 0x61 <= c <= 0x7a
  }

  /** The name or the value of a property, all of it, at most 63 bytes. */
  method PropertyWord(text: seq<Byte>, p: nat) returns (ok: bool, q: nat)
    requires p <= |text|
    ensures p <= q <= |text| && forall h | p <= h < q :: Plain(text[h]) && IsPropertyChar(text[h])
    ensures q - p <= 63 && (ok <==> q == |text| || !IsPropertyChar(text[q])) && (!ok ==> q - p == 63)
  {
    q := p;
    while IsLetter(At(text, q)) || IsDigit(At(text, q)) || At(text, q) == '_' as int
      invariant p <= q <= |text| && q - p <= 63 && forall h | p <= h < q :: Plain(text[h]) && IsPropertyChar(text[h])
      decreases |text| - q
    {
      if q - p >= 63 {
        return false, q;
      }
      q := q + 1;
    }
    ok := true;
  }

  /** parse_unicode_property, behind `\\p` or `\\P`. */
  method ParseUnicodeProperty(text: seq<Byte>, p: nat, names: Names) returns (ok: bool, q: nat)
    requires p <= |text|
    ensures ok ==> p < q <= |text| && Inert(text, p, q)
  {
    q := p;
    if At(text, p) != '{' as int {
      return false, p;
    }
    var okName, endName := PropertyWord(text, p + 1);
    if !okName {
      return false, p;
    }
    var okValue, endValue := true, endName;
    var value: seq<Byte> := [];
    if At(text, endName) == '=' as int {
      okValue, endValue := PropertyWord(text, endName + 1);
      value := text[endName + 1..endValue];
    }
    if !okValue || At(text, endValue) != '}' as int || !names.knownProperty(text[p + 1..endName], value) {
      return false, p;
    }
    ok, q := true, endValue + 1;
    PlainRun(text, p, q);
  }

  /** A character taken as itself, at `p`: a byte below 0x80, or the value whose encoding stands there, if it fits
      the mode. */
  method NormalChar(text: seq<Byte>, p: nat, isUtf16: bool) returns (c: int, q: nat)
    requires p < |text|
    ensures c >= -1
    ensures c >= 0 ==> p < q <= |text| && (text[p] >= 0x80 ==> Inert(text, p, q)) && (text[p] < 0x80 ==> q == p + 1)
    ensures text[p] < 0x80 ==> c == text[p] as int
    ensures c >= 0 && text[p] >= 0x80 ==>
              c < 0x8000_0000 && Encoded(c) == text[p..q] && (isUtf16 || c <= 0xffff)
    ensures c < 0 ==> forall x: nat | isUtf16 || x <= 0xffff :: !Begins(x, text[p..])
  {
    hide Encoded, Inert;
    c, q := text[p] as int, p + 1;
    if c >= 128 {
      c, q := DecodeChar(text, p);
      if (c < 0 || c > 0xffff) && !isUtf16 {
        OneEncoding(text, p, q, c);
        return -1, p;
      }
    }
  }

  lemma OneEncoding(text: seq<Byte>, p: nat, q: nat, c: int)
    requires p <= q <= |text| && (0 <= c < 0x8000_0000 ==> Encoded(c) == text[p..q])
    ensures 0 <= c < 0x8000_0000 ==> forall x: nat | x != c :: !Begins(x, text[p..])
  {
    if 0 <= c < 0x8000_0000 {
      assert text[p..q] == text[p..][..q - p];
      BeginsOnly(c, text[p..], q - p);
    }
  }

  /** A character taken as itself behind a backslash. */
  method IgnoredBackslash(text: seq<Byte>, p: nat, isUtf16: bool, inClass: bool) returns (c: int, q: nat)
    requires p + 1 < |text| && text[p] == '\\' as int
    ensures c >= -1
    ensures c >= 0 ==> p < q <= |text| && Same(text, inClass, p, q)
  {
    c, q := NormalChar(text, p + 1, isUtf16);
    Escaped(text, inClass, p);
    if c >= 0 && text[p + 1] >= 0x80 {
      PlainRun(text, p + 1, p + 2);
      SameTail(text, inClass, p, q);
    }
  }

  lemma SameTail(text: seq<Byte>, inClass: bool, p: nat, q: nat)
    requires Same(text, inClass, p, p + 2) && Inert(text, p + 1, p + 2) && Inert(text, p + 1, q) && p < q
    ensures Same(text, inClass, p, q)
  {
  }

  /** `\\c` and a letter is a control character; without one the backslash stands for itself. */
  method ControlAtom(text: seq<Byte>, p: nat, isUtf16: bool, inClass: bool) returns (c: int, q: nat)
    requires p + 1 < |text| && text[p] == '\\' as int && text[p + 1] == 'c' as int
    ensures c >= -1
    ensures c >= 0 ==> p < q <= |text| && Same(text, inClass, p, q)
    ensures var l := At(text, p + 2);
            if 0x41 <= l <= 0x5a || 0x61 <= l <= 0x7a then c == l % 32 && q == p + 3
            else if inClass && !isUtf16 && (0x30 <= l <= 0x39 || l == 0x5f) then c == l % 32 && q == p + 3
            else if isUtf16 then c == -1
            else c == 0x5c && q == p + 1
  {
    hide Same;
    Escaped(text, inClass, p);
    c := At(text, p + 2);
    if IsLetter(c) || ((IsDigit(c) || c == '_' as int) && inClass && !isUtf16) {
      PlainRun(text, p + 2, p + 3);
      InertSame(text, inClass, p + 2, p + 3);
      SameTrans(text, inClass, p, p + 2, p + 3);
      return c % 0x20, p + 3;
    }
    if isUtf16 {
      return -1, p;
    }
    PlainRun(text, p + 1, p + 2);
    InertSame(text, inClass, p + 1, p + 2);
    SameBack(text, inClass, p, p + 1, p + 2);
    return '\\' as int, p + 1;
  }

  lemma InertSame(text: seq<Byte>, inClass: bool, p: nat, q: nat)
    requires Inert(text, p, q)
    ensures Same(text, inClass, p, q)
  {
  }

  /** \\d, \\D, \\s, \\S, \\w or \\W stands at `p`. */
  predicate IsClassEscape(text: seq<Byte>, p: nat) {
    && p + 1 < |text| && text[p] == '\\' as int
    && text[p + 1] as int in {'d' as int, 'D' as int, 's' as int, 'S' as int, 'w' as int, 'W' as int}
  }

  /** The escapes of get_class_atom: a character, a range (CLASS_RANGE_BASE) or -1. */
  method EscapeAtom(text: seq<Byte>, p: nat, isUtf16: bool, inClass: bool, names: Names) returns (c: int, q: nat)
    requires p < |text| && text[p] == '\\' as int
    ensures c >= -1
    ensures c >= 0 ==> p < q <= |text| && Same(text, inClass, p, q)
    ensures IsClassEscape(text, p) ==> c == CLASS_RANGE_BASE && q == p + 2
  {
    hide Same;
    if p + 1 >= |text| {
      return -1, p;
    }
    Escaped(text, inClass, p);
    var e := At(text, p + 1);
    var letters := ['d' as int, 'D' as int, 's' as int, 'S' as int, 'w' as int, 'W' as int];
    if e in letters {
      return CLASS_RANGE_BASE, p + 2;
    }
    if e == 'c' as int {
      c, q := ControlAtom(text, p, isUtf16, inClass);
      return;
    }
    if (e == 'p' as int || e == 'P' as int) && isUtf16 {
      var ok, end := ParseUnicodeProperty(text, p + 2, names);
      if !ok {
        return -1, p;
      }
      InertSame(text, inClass, p + 2, end);
      SameTrans(text, inClass, p, p + 2, end);
      return CLASS_RANGE_BASE, end;
    }
    c, q := LreParseEscape(text, p + 1, if isUtf16 then 2 else 0);
    if c >= 0 {
      InertSame(text, inClass, p + 2, q);
      SameTrans(text, inClass, p, p + 2, q);
      return;
    }
    var syntax := "^$\\.*+?()[]{}|/";
    if (c == -2 && e != 0 && e as char in syntax) || !isUtf16 {
      c, q := IgnoredBackslash(text, p, isUtf16, inClass);
      return;
    }
    return -1, p;
  }

  /** get_class_atom. */
  method GetClassAtom(text: seq<Byte>, p: nat, isUtf16: bool, inClass: bool, names: Names) returns (c: int, q: nat)
    requires p <= |text|
    requires if inClass then At(text, p) != ']' as int else At(text, p) != '(' as int && At(text, p) != '[' as int
    ensures c >= -1
    ensures c >= 0 ==> p < q <= |text| && Same(text, inClass, p, q)
    ensures p < |text| && text[p] < 0x80 && text[p] != '\\' as int ==> c == text[p] as int && q == p + 1
    ensures IsClassEscape(text, p) ==> c == CLASS_RANGE_BASE && q == p + 2
  {
    if p >= |text| {
      return -1, p;
    }
    if text[p] == '\\' as int {
      c, q := EscapeAtom(text, p, isUtf16, inClass, names);
    } else {
      c, q := NormalChar(text, p, isUtf16);
      OneByte(text, inClass, p);
    }
  }

  /** re_parse_char_class at a `[`: the prescan skips the same text. */
  method ReParseCharClass(text: seq<Byte>, p: nat, isUtf16: bool, names: Names) returns (ok: bool, q: nat)
    requires p < |text| && text[p] == '[' as int
    ensures ok ==> p < q <= |text| && Same(text, false, p, q)
  {
    q := p + 1;
    if At(text, q) == '^' as int {
      PlainRun(text, q, q + 1);
      q := q + 1;
    }
    while At(text, q) != ']' as int
      invariant p < q <= |text| && SkipClass(text, p + 1) == SkipClass(text, q)
      decreases |text| - q
    {
      hide *;
      var more, next := ClassItem(text, q, isUtf16, names);
      if !more {
        return false, p;
      }
      ClassSkips(text, q, next);
      q := next;
    }
    q := q + 1;
    ok := true;
  }

  lemma ClassSkips(text: seq<Byte>, p: nat, q: nat)
    requires Same(text, true, p, q)
    ensures SkipClass(text, p) == SkipClass(text, q)
  {
  }

  /** One round of the class loop: a character, a class escape or an interval, which may not be reversed. */
  method ClassItem(text: seq<Byte>, p: nat, isUtf16: bool, names: Names) returns (ok: bool, q: nat)
    requires p <= |text| && At(text, p) != ']' as int
    ensures ok ==> p < q <= |text| && Same(text, true, p, q)
    ensures p + 2 < |text| && text[p + 1] == '-' as int && text[p + 2] != ']' as int
            && text[p] < 0x80 && text[p] != '\\' as int && text[p + 2] < 0x80 && text[p + 2] != '\\' as int ==>
              (ok <==> text[p] <= text[p + 2]) && (ok ==> q == p + 3)
    ensures IsClassEscape(text, p) && At(text, p + 2) == '-' as int && (p + 3 >= |text| || text[p + 3] != ']' as int) ==>
              (ok <==> !isUtf16) && (ok ==> q == p + 2)
  {
    hide Same, SkipClass, Scan;
    var c1, p1 := GetClassAtom(text, p, isUtf16, true, names);
    if c1 < 0 {
      return false, p;
    }
    ok, q := true, p1;
    if At(text, p1) == '-' as int && At(text, p1 + 1) != ']' as int {
      if c1 >= CLASS_RANGE_BASE {
        return !isUtf16, p1;
      }
      var c2, p2 := GetClassAtom(text, p1 + 1, isUtf16, true, names);
      if c2 < 0 {
        return false, p;
      }
      if c2 >= CLASS_RANGE_BASE {
        return !isUtf16, p1;
      }
      if c2 < c1 {
        return false, p;
      }
      OneByte(text, true, p1);
      SameTrans(text, true, p, p1, p1 + 1);
      SameTrans(text, true, p, p1 + 1, p2);
      q := p2;
    }
  }

  /** re_parse_group_name: `p` is behind the `<`, `q` will be behind the `>`. */
  method ReParseGroupName(text: seq<Byte>, p: nat, isUtf16: bool, names: Names) returns (ok: bool, q: nat)
    requires p <= |text|
    ensures ok ==> p + 1 < q <= |text| && text[q - 1] == '>' as int && Same(text, false, p, q)
  {
    hide Same, SkipClass, Scan;
    q := p;
    var len := 0;
    PlainRun(text, p, p);
    Outside(text, p, p);
    while At(text, q) != '>' as int
      invariant p <= q <= |text| && Same(text, false, p, q) && (q == p <==> len == 0) && len >= 0
      decreases |text| - q
    {
      var c, next := NameChar(text, q, isUtf16, names, len == 0);
      if c < 0 || len + UTF8_CHAR_LEN_MAX + 1 > TMP_BUF_SIZE {
        return false, p;
      }
      len := len + |Encoded(c)|;
      SameTrans(text, false, p, q, next);
      q := next;
    }
    if len == 0 {
      return false, p;
    }
    PlainRun(text, q, q + 1);
    Outside(text, q, q + 1);
    SameTrans(text, false, p, q, q + 1);
    ok, q := true, q + 1;
  }

  lemma Outside(text: seq<Byte>, p: nat, q: nat)
    requires Inert(text, p, q)
    ensures Same(text, false, p, q)
  {
  }

  /** One character of a group name, or -1. */
  method NameChar(text: seq<Byte>, p: nat, isUtf16: bool, names: Names, first: bool) returns (c: int, q: nat)
    requires p <= |text| && At(text, p) != '>' as int
    ensures -1 <= c <= 0x10ffff
    ensures c >= 0 ==> p < q <= |text| && Same(text, false, p, q)
  {
    c, q := At(text, p), p + 1;
    if c == '\\' as int {
      if At(text, p + 1) != 'u' as int {
        return -1, p;
      }
      c, q := LreParseEscape(text, p + 1, if isUtf16 then 2 else 0);
      if c >= 0 {
        Escaped(text, false, p);
        SameTrans(text, false, p, p + 2, q);
      }
    } else if c >= 128 {
      c, q := DecodeChar(text, p);
    }
    if c < 0 || c > 0x10ffff {
      return -1, p;
    }
    if !(if first then IsIdentFirst(names, c) else IsIdentNext(names, c)) {
      return -1, p;
    }
    if At(text, p) != '\\' as int && At(text, p) < 128 {
      PlainRun(text, p, p + 1);
    }
  }

  /** The prescan comes from `p`, having counted `k`, to `q`, having counted `j`. */
  ghost predicate Follows(text: seq<Byte>, p: nat, k: nat, q: nat, j: nat) {
    && p <= q <= |text| && Scan(text, p, k) == Scan(text, q, j)
    && forall x: nat | MeetsNamed(text, q, j, x) :: MeetsNamed(text, p, k, x)
  }

  lemma SameFollows(text: seq<Byte>, p: nat, q: nat, k: nat)
    requires Same(text, false, p, q)
    ensures Follows(text, p, k, q, k)
  {
    assert Scan(text, p, k) == Scan(text, q, k);
    hide Scan, MeetsNamed;
  }

  lemma FollowsTrans(text: seq<Byte>, p: nat, k: nat, q: nat, j: nat, r: nat, i: nat)
    requires Follows(text, p, k, q, j) && Follows(text, q, j, r, i)
    ensures Follows(text, p, k, r, i)
  {
  }

  lemma Here(text: seq<Byte>, p: nat, k: nat)
    requires p <= |text|
    ensures Follows(text, p, k, p, k)
  {
  }

  /** The parser is never ahead of the prescan. */
  lemma CountedSoFar(text: seq<Byte>, p: nat, k: nat)
    requires Follows(text, 0, 1, p, k)
    ensures k <= Scan(text, 0, 1) <= CAPTURE_COUNT_MAX
  {
    CountGrows(text, p, k);
    CountBound(text, 0, 1);
  }

  lemma PlainFollows(text: seq<Byte>, p: nat, q: nat, k: nat)
    requires p <= q <= |text| && forall h | p <= h < q :: Plain(text[h])
    ensures Follows(text, p, k, q, k)
  {
    PlainRun(text, p, q);
    SameFollows(text, p, q, k);
  }

  /** A backslash and a digit, and more digits. */
  lemma EscapedFollows(text: seq<Byte>, p: nat, q: nat, k: nat)
    requires p + 2 <= q <= |text| && text[p] == '\\' as int && forall h | p < h < q :: IsDigit(text[h])
    ensures Follows(text, p, k, q, k)
  {
    Escaped(text, false, p);
    PlainRun(text, p + 2, q);
    SameTrans(text, false, p, p + 2, q);
    SameFollows(text, p, q, k);
  }

  lemma OnePlain(text: seq<Byte>, p: nat, k: nat)
    requires p < |text| && Plain(text[p])
    ensures Follows(text, p, k, p + 1, k)
  {
    PlainRun(text, p, p + 1);
  }

  /** What opens a group, `n` bytes of it, counts one capture or none. */
  lemma GroupOpens(text: seq<Byte>, p: nat, n: nat, k: nat)
    requires p < |text| && text[p] == '(' as int && 1 <= n && p + n <= |text|
    requires forall h | p < h < p + n :: Plain(text[h])
    ensures var capture := OpensCapture(text, p);
            !capture || k < CAPTURE_COUNT_MAX ==> Follows(text, p, k, p + n, if capture then k + 1 else k)
    ensures k < CAPTURE_COUNT_MAX && OpensNamed(text, p) ==> MeetsNamed(text, p, k, p)
    ensures At(text, p + 1) != '?' as int ==> OpensCapture(text, p)
    ensures At(text, p + 1) == '?' as int ==>
              (OpensCapture(text, p) <==> At(text, p + 2) == '<' as int && At(text, p + 3) != '=' as int
                                          && At(text, p + 3) != '!' as int)
              && (OpensNamed(text, p) <==> OpensCapture(text, p))
  {
    var j := if OpensCapture(text, p) then k + 1 else k;
    PlainRun(text, p + 1, p + n);
    SameFollows(text, p + 1, p + n, j);
    if !OpensCapture(text, p) || k < CAPTURE_COUNT_MAX {
      OneParenthesis(text, p, k);
      FollowsTrans(text, p, k, p + 1, j, p + n, j);
    }
  }

  lemma OneParenthesis(text: seq<Byte>, p: nat, k: nat)
    requires p < |text| && text[p] == '(' as int && (!OpensCapture(text, p) || k < CAPTURE_COUNT_MAX)
    ensures Follows(text, p, k, p + 1, if OpensCapture(text, p) then k + 1 else k)
  {
  }

  // ----- the parser -----

  /** REParseState, as far as it concerns the text and the count of captures. */
  class ReParser {
    const text: seq<Byte>
    const isUtf16: bool
    const names: Names
    var bufPtr: nat
    var captureCount: nat
    var totalCaptureCount: Option<nat>
    var hasNamedCaptures: Option<bool>

    ghost predicate Valid()
      reads this
    {
      && bufPtr <= |text|
      && captureCount <= CAPTURE_COUNT_MAX
      && (totalCaptureCount.Some? ==> totalCaptureCount.value == Scan(text, 0, 1) && hasNamedCaptures.Some?)
      && (hasNamedCaptures.Some? ==> (hasNamedCaptures.value <==> exists q: nat :: NamedAt(text, q)))
    }

    /** What the parser has consumed since `p`, where it had counted `k`, the prescan would count the same. */
    ghost predicate Agrees(p: nat, k: nat)
      reads this
    {
      Follows(text, p, k, bufPtr, captureCount)
    }

    constructor (text: seq<Byte>, isUtf16: bool, names: Names)
      ensures this.text == text && this.isUtf16 == isUtf16 && this.names == names
      ensures Valid() && bufPtr == 0 && captureCount == 1
    {
      this.text, this.isUtf16, this.names := text, isUtf16, names;
      bufPtr, captureCount := 0, 1;
      totalCaptureCount, hasNamedCaptures := None, None;
    }

    /** re_count_captures. */
    method ReCountCaptures() returns (n: nat)
      requires Valid()
      modifies this`totalCaptureCount, this`hasNamedCaptures
      ensures Valid() && n == Scan(text, 0, 1) && totalCaptureCount.Some?
    {
      if totalCaptureCount.None? {
        var count, named := ReParseCaptures(text);
        totalCaptureCount, hasNamedCaptures := Some(count), Some(named);
      }
      n := totalCaptureCount.value;
    }

    /** re_has_named_captures. */
    method ReHasNamedCaptures() returns (b: bool)
      requires Valid()
      modifies this`totalCaptureCount, this`hasNamedCaptures
      ensures Valid() && (b <==> exists q: nat :: NamedAt(text, q))
    {
      if hasNamedCaptures.None? {
        var n := ReCountCaptures();
      }
      b := hasNamedCaptures.value;
    }

    /** re_parse_expect. */
    method Expect(c: int) returns (ok: bool)
      requires Valid() && Plain(c) && c != 0
      modifies this`bufPtr
      ensures ok <==> At(text, old(bufPtr)) == c
      ensures Valid() && (ok ==> old(bufPtr) < bufPtr && Agrees(old(bufPtr), captureCount))
    {
      if At(text, bufPtr) != c {
        return false;
      }
      PlainRun(text, bufPtr, bufPtr + 1);
      bufPtr := bufPtr + 1;
      ok := true;
    }

    /** The text of a group behind what opens it, and the closing parenthesis. */
    method GroupBody() returns (ok: bool)
      requires Valid() && Agrees(0, 1)
      modifies this
      ensures ok ==> Valid() && old(bufPtr) < bufPtr && Agrees(old(bufPtr), old(captureCount))
      decreases |text| - bufPtr, 5
    {
      hide Scan, MeetsNamed;
      ok := ReParseDisjunction();
      if ok {
        ghost var (q, j) := (bufPtr, captureCount);
        ok := Expect(')' as int);
        if ok {
          FollowsTrans(text, old(bufPtr), old(captureCount), q, j, bufPtr, captureCount);
        }
      }
    }

    /** parse_capture: one more capture, then the group. */
    method ParseCapture() returns (ok: bool)
      requires bufPtr <= |text|
      requires captureCount < CAPTURE_COUNT_MAX ==> Valid() && Follows(text, 0, 1, bufPtr, captureCount + 1)
      modifies this
      ensures ok ==> old(captureCount) < CAPTURE_COUNT_MAX && old(bufPtr) < bufPtr
                     && Valid() && Agrees(old(bufPtr), old(captureCount) + 1)
      decreases |text| - bufPtr, 6
    {
      if captureCount >= CAPTURE_COUNT_MAX {
        return false;
      }
      captureCount := captureCount + 1;
      ok := GroupBody();
    }

    /** The groups, at a `(`. `atom` tells whether a quantifier may follow. */
    method ParseGroup() returns (ok: bool, atom: bool)
      requires Valid() && At(text, bufPtr) == '(' as int && Agrees(0, 1)
      modifies this
      ensures ok ==> Valid() && old(bufPtr) < bufPtr && Agrees(old(bufPtr), old(captureCount))
      decreases |text| - bufPtr, 0
    {
      hide Same, Inert, SkipClass, Scan, MeetsNamed, Follows;
      var p := bufPtr;
      var c := At(text, p + 1);
      if c != '?' as int {
        atom := true;
        ok := Opened(p + 1, true);
        return;
      }
      c := At(text, p + 2);
      if c == ':' as int || c == '=' as int || c == '!' as int {
        ok := Opened(p + 3, false);
        atom := c == ':' as int || !isUtf16;
      } else if c == '<' as int && (At(text, p + 3) == '=' as int || At(text, p + 3) == '!' as int) {
        ok := Opened(p + 4, false);
        atom := false;
      } else if c == '<' as int {
        atom := true;
        ok := ParseNamedGroup();
      } else {
        ok, atom := false, false;
      }
    }

    /** A group whose opening ends at `q`. */
    method Opened(q: nat, capture: bool) returns (ok: bool)
      requires Valid() && At(text, bufPtr) == '(' as int && Agrees(0, 1)
      requires bufPtr < q <= |text| && (forall h | bufPtr < h < q :: Plain(text[h])) && capture == OpensCapture(text, bufPtr)
      modifies this
      ensures ok ==> Valid() && old(bufPtr) < bufPtr && Agrees(old(bufPtr), old(captureCount))
      decreases |text| - bufPtr, -1
    {
      ghost var (p, k) := (bufPtr, captureCount);
      GroupOpens(text, p, q - p, k);
      hide Same, Inert, SkipClass, Scan, OpensCapture, OpensNamed, MeetsNamed, Follows, Plain;
      ghost var j := if capture then k + 1 else k;
      if j <= CAPTURE_COUNT_MAX {
        FollowsTrans(text, 0, 1, p, k, q, j);
      }
      bufPtr := q;
      if capture {
        ok := ParseCapture();
      } else {
        ok := GroupBody();
      }
      if ok {
        FollowsTrans(text, p, k, q, j, bufPtr, captureCount);
      }
    }

    /** `(?<` with a name. */
    method ParseNamedGroup() returns (ok: bool)
      requires Valid() && bufPtr + 3 <= |text| && text[bufPtr] == '(' as int && Agrees(0, 1)
      requires text[bufPtr + 1] == '?' as int && text[bufPtr + 2] == '<' as int && OpensNamed(text, bufPtr)
      modifies this
      ensures ok ==> Valid() && old(bufPtr) < bufPtr && Agrees(old(bufPtr), old(captureCount))
      decreases |text| - bufPtr, -1
    {
      ghost var (p, k) := (bufPtr, captureCount);
      GroupOpens(text, p, 3, k);
      hide Same, Inert, SkipClass, Scan, OpensCapture, OpensNamed, MeetsNamed, Follows, Plain;
      var okName, q := ReParseGroupName(text, bufPtr + 3, isUtf16, names);
      if !okName || names.duplicate(bufPtr + 3) {
        return false;
      }
      if k < CAPTURE_COUNT_MAX {
        SameFollows(text, p + 3, q, k + 1);
        FollowsTrans(text, p, k, p + 3, k + 1, q, k + 1);
        FollowsTrans(text, 0, 1, p, k, q, k + 1);
        Named(p);
      }
      hasNamedCaptures := Some(true);
      bufPtr := q;
      ok := ParseCapture();
      if ok {
        FollowsTrans(text, p, k, q, k + 1, bufPtr, captureCount);
      }
    }

    lemma Named(p: nat)
      requires Agrees(0, 1) && MeetsNamed(text, bufPtr, captureCount, p)
      ensures NamedAt(text, p)
    {
    }

    /** A term that is one class atom. */
    method ParseClassAtom() returns (ok: bool)
      requires Valid() && At(text, bufPtr) != '(' as int && At(text, bufPtr) != '[' as int
      modifies this`bufPtr
      ensures Valid() && (ok ==> old(bufPtr) < bufPtr && Agrees(old(bufPtr), captureCount))
      ensures var p := old(bufPtr);
              p < |text| && text[p] < 0x80 && text[p] != '\\' as int ==> ok && bufPtr == p + 1
    {
      var c, q := GetClassAtom(text, bufPtr, isUtf16, false, names);
      ok := c >= 0;
      if ok {
        bufPtr := q;
      }
    }

    /** `\\k`: a named back reference, or, where that is tolerated, a plain `k`. */
    method ParseNamedReference() returns (ok: bool)
      requires Valid() && bufPtr + 1 < |text| && text[bufPtr] == '\\' as int
      modifies this`bufPtr, this`totalCaptureCount, this`hasNamedCaptures
      ensures Valid() && (ok ==> old(bufPtr) < bufPtr && Agrees(old(bufPtr), captureCount))
    {
      var p := bufPtr;
      var found, q := false, p;
      if At(text, p + 2) == '<' as int {
        found, q := ReParseGroupName(text, p + 3, isUtf16, names);
        found := found && names.defined(p + 3);
      }
      if found {
        Escaped(text, false, p);
        PlainRun(text, p + 2, p + 3);
        SameTrans(text, false, p, p + 2, p + 3);
        SameTrans(text, false, p, p + 3, q);
        bufPtr := q;
        return true;
      }
      var named := ReHasNamedCaptures();
      if isUtf16 || named {
        return false;
      }
      ok := ParseClassAtom();
    }

    /** The octal digits at `p`, at most three below a 4 and at most two from a 4 on; an 8 or a 9 stands for itself. */
    method LegacyOctal(p: nat) returns (c: int, q: nat)
      requires p < |text| && IsDigit(text[p] as int)
      ensures LegacyAt(text, p, c, q)
    {
      if text[p] > '7' as int {
        return text[p] as int, p + 1;
      }
      hide Number, LegacyAt, OctalAt;
      NumberNone(text, p, 8);
      c, q := 0, p;
      if text[q] <= '3' as int {
        c, q := MoreOctal(text, p, c, q);
      }
      var q1 := q;
      c, q := MoreOctal(text, p, c, q);
      if q > q1 {
        c, q := MoreOctal(text, p, c, q);
      }
      OctalEnds(text, p, c, q);
    }

    /** The number at `p`, behind a backslash: a back reference if the whole pattern has that many captures, and
        otherwise, under the u flag an error unless it is \\0, else an octal escape. */
    ghost predicate NumberAt(p: nat, ok: bool, isRef: bool, c: int, q: nat)
      requires p < |text|
    {
      if text[p] != 0x30 && DigitNumber(text, p) < Scan(text, 0, 1) then
        ok && isRef && c == DigitNumber(text, p) && q == DigitRun(text, p)
      else if isUtf16 && (text[p] != 0x30 || 0x30 <= At(text, p + 1) <= 0x39) then !ok
      else if isUtf16 then ok && !isRef && c == 0 && q == p + 1
      else ok && !isRef && LegacyAt(text, p, c, q)
    }

    /** A backslash and a digit: a back reference, or an octal escape. */
    method ParseNumber() returns (ok: bool, isRef: bool, c: int)
      requires Valid() && Agrees(0, 1)
      requires bufPtr + 1 < |text| && text[bufPtr] == '\\' as int && IsDigit(text[bufPtr + 1] as int)
      modifies this`bufPtr, this`totalCaptureCount, this`hasNamedCaptures
      ensures Valid() && (ok ==> old(bufPtr) < bufPtr && Agrees(old(bufPtr), captureCount))
      ensures NumberAt(old(bufPtr) + 1, ok, isRef, c, bufPtr)
    {
      hide Number, DigitRun, Scan, MeetsNamed, SkipClass, Inert, Same, NamedAt, Follows, OctalAt;
      var p := bufPtr + 1;
      CountedSoFar(text, bufPtr, captureCount);
      DigitRunEnds(text, p, p + 1);
      var q: nat;
      isRef := false;
      if text[p] == '0' as int {
        c, q := 0, p + 1;
        if isUtf16 {
          if IsDigit(At(text, q)) {
            return false, false, c;
          }
        } else {
          c, q := ZeroEscape(p);
          OctalDigits(text, p, c, q);
        }
      } else {
        c, q := ParseDigits(text, p, false);
        isRef := 0 <= c < captureCount;
        if c >= captureCount {
          var n := ReCountCaptures();
          isRef := c < n;
        }
        if !isRef {
          if isUtf16 {
            return false, false, c;
          }
          c, q := LegacyOctal(p);
          OctalDigits(text, p, c, q);
        }
      }
      EscapedFollows(text, bufPtr, q, captureCount);
      bufPtr := q;
      ok := true;
    }

    /** \\0 and up to two more octal digits. */
    method ZeroEscape(p: nat) returns (c: int, q: nat)
      requires p < |text| && text[p] == '0' as int
      ensures LegacyAt(text, p, c, q)
    {
      hide Number;
      NumberNone(text, p, 8);
      OctalDigit(text, p, p);
      c, q := MoreOctal(text, p, 0, p + 1);
      if q > p + 1 {
        c, q := MoreOctal(text, p, c, q);
      }
    }

    /** The terms that begin with a backslash. */
    method ParseEscapeTerm() returns (ok: bool, atom: bool)
      requires Valid() && At(text, bufPtr) == '\\' as int && Agrees(0, 1)
      modifies this`bufPtr, this`totalCaptureCount, this`hasNamedCaptures
      ensures Valid() && (ok ==> old(bufPtr) < bufPtr && Agrees(old(bufPtr), captureCount))
    {
      atom := true;
      var c := At(text, bufPtr + 1);
      if c == 'b' as int || c == 'B' as int {
        Escaped(text, false, bufPtr);
        bufPtr := bufPtr + 2;
        return true, false;
      }
      if c == 'k' as int {
        ok := ParseNamedReference();
      } else if IsDigit(c) {
        var isRef, n;
        ok, isRef, n := ParseNumber();
      } else {
        ok := ParseClassAtom();
      }
    }

    /** The bounds of a counted quantifier at a `{`, and the place where its closing brace should be. Without
        digits behind the comma there is no upper limit. */
    ghost function CountAt(p: nat): (int, int, nat)
      requires p < |text|
    {
      var d := DigitRun(text, p + 1);
      var min := Capped(DigitNumber(text, p + 1));
      if At(text, d) != ',' as int then (min, min, d)
      else if IsDigit(At(text, d + 1)) then (min, Capped(DigitNumber(text, d + 1)), DigitRun(text, d + 1))
      else (min, 0x7fff_ffff, d + 1)
    }

    /** A `{` where a term should be: an error if it reads like a repetition count, else a character. */
    method ParseBrace() returns (ok: bool)
      requires Valid() && At(text, bufPtr) == '{' as int
      modifies this`bufPtr
      ensures Valid() && (ok ==> bufPtr == old(bufPtr) + 1 && Agrees(old(bufPtr), captureCount))
      ensures ok <==> !isUtf16 && !(IsDigit(At(text, old(bufPtr) + 1)) && At(text, CountAt(old(bufPtr)).2) == '}' as int)
    {
      hide Number;
      if isUtf16 {
        return false;
      }
      if IsDigit(At(text, bufPtr + 1)) {
        var v, p1 := ParseDigits(text, bufPtr + 1, true);
        if At(text, p1) == ',' as int {
          p1 := p1 + 1;
          if IsDigit(At(text, p1)) {
            v, p1 := ParseDigits(text, p1, true);
          }
        }
        if At(text, p1) == '}' as int {
          return false;
        }
      }
      ok := ParseClassAtom();
    }

    /** A counted quantifier at a `{`: `taken` tells whether it is one. It fails on bounds in the wrong order, and
        under the u flag on everything that is none. */
    method ParseCount() returns (ok: bool, taken: bool, quantMin: int, quantMax: int)
      requires Valid() && At(text, bufPtr) == '{' as int
      modifies this`bufPtr
      ensures Valid() && (ok ==> old(bufPtr) <= bufPtr && Agrees(old(bufPtr), captureCount))
      ensures var (min, max, close) := CountAt(old(bufPtr));
              var isCount := IsDigit(At(text, old(bufPtr) + 1)) && At(text, close) == '}' as int;
              && (ok <==> !(IsDigit(At(text, old(bufPtr) + 1)) && max < min) && (isUtf16 ==> isCount))
              && (taken <==> ok && isCount)
              && bufPtr == (if taken then close + 1 else old(bufPtr))
              && (taken ==> quantMin == min && quantMax == max)
    {
      hide Number, DigitRun, DigitNumber, Scan, MeetsNamed, SkipClass, Same, Inert, NamedAt, Follows;
      var p := bufPtr;
      Here(text, p, captureCount);
      quantMin, quantMax := 0, 0;
      if !IsDigit(At(text, p + 1)) {
        return !isUtf16, false, 0, 0;
      }
      var q: nat;
      quantMin, q := ParseDigits(text, p + 1, true);
      quantMax := quantMin;
      if At(text, q) == ',' as int {
        q := q + 1;
        if IsDigit(At(text, q)) {
          quantMax, q := ParseDigits(text, q, true);
          if quantMax < quantMin {
            return false, false, 0, 0;
          }
        } else {
          quantMax := INT32_MAX;
        }
      }
      if At(text, q) != '}' as int {
        return !isUtf16, false, 0, 0;
      }
      PlainFollows(text, p, q + 1, captureCount);
      bufPtr := q + 1;
      return true, true, quantMin, quantMax;
    }

    /** The quantifier behind an atom, if there is one: its bounds, and greedy unless a question mark follows. */
    method ParseQuantifier() returns (ok: bool, taken: bool, quantMin: int, quantMax: int, greedy: bool)
      requires Valid()
      modifies this`bufPtr
      ensures Valid() && (ok ==> old(bufPtr) <= bufPtr && Agrees(old(bufPtr), captureCount))
      ensures match At(text, old(bufPtr)) as char
              case '*' => ok && taken && quantMin == 0 && quantMax == 0x7fff_ffff
              case '+' => ok && taken && quantMin == 1 && quantMax == 0x7fff_ffff
              case '?' => ok && taken && quantMin == 0 && quantMax == 1
              case '{' =>
                var (min, max, close) := CountAt(old(bufPtr));
                var isCount := IsDigit(At(text, old(bufPtr) + 1)) && At(text, close) == '}' as int;
                && (ok <==> !(IsDigit(At(text, old(bufPtr) + 1)) && max < min) && (isUtf16 ==> isCount))
                && (taken <==> ok && isCount) && (taken ==> quantMin == min && quantMax == max)
              case _ => ok && !taken
      ensures ok && taken ==>
                var end := if At(text, old(bufPtr)) == '{' as int then CountAt(old(bufPtr)).2 + 1 else old(bufPtr) + 1;
                && end <= |text| && (greedy <==> At(text, end) != '?' as int)
                && bufPtr == if greedy then end else end + 1
      ensures ok && !taken ==> bufPtr == old(bufPtr)
    {
      hide Number, Scan, MeetsNamed;
      Here(text, bufPtr, captureCount);
      ok, taken, greedy := true, false, true;
      quantMin, quantMax := 0, 0;
      ghost var (p, k) := (bufPtr, captureCount);
      var c := At(text, bufPtr);
      if c == '*' as int || c == '+' as int || c == '?' as int {
        taken := true;
        quantMin := if c == '+' as int then 1 else 0;
        quantMax := if c == '?' as int then 1 else INT32_MAX;
        OnePlain(text, bufPtr, captureCount);
        bufPtr := bufPtr + 1;
      } else if c == '{' as int {
        ok, taken, quantMin, quantMax := ParseCount();
      }
      if ok && taken && At(text, bufPtr) == '?' as int {
        greedy := false;
        ghost var q := bufPtr;
        OnePlain(text, q, k);
        FollowsTrans(text, p, k, q, k, q + 1, k);
        bufPtr := bufPtr + 1;
      }
    }

    /** The atom or assertion of a term. `atom` tells whether a quantifier may follow. */
    method ParseAtom() returns (ok: bool, atom: bool)
      requires Valid() && bufPtr < |text| && At(text, bufPtr) != '|' as int && At(text, bufPtr) != ')' as int
      requires Agrees(0, 1)
      modifies this
      ensures ok ==> Valid() && old(bufPtr) < bufPtr && Agrees(old(bufPtr), old(captureCount))
      decreases |text| - bufPtr, 1
    {
      var c := At(text, bufPtr);
      ok, atom := true, true;
      if c == '^' as int || c == '$' as int || c == '.' as int {
        PlainRun(text, bufPtr, bufPtr + 1);
        bufPtr := bufPtr + 1;
        atom := c == '.' as int;
      } else if c == '{' as int {
        ok := ParseBrace();
      } else if c == '*' as int || c == '+' as int || c == '?' as int {
        ok := false;
      } else if c == '(' as int {
        ok, atom := ParseGroup();
      } else if c == '\\' as int {
        ok, atom := ParseEscapeTerm();
      } else if c == '[' as int {
        var q;
        ok, q := ReParseCharClass(text, bufPtr, isUtf16, names);
        if ok {
          bufPtr := q;
        }
      } else if (c == ']' as int || c == '}' as int) && isUtf16 {
        ok := false;
      } else {
        ok := ParseClassAtom();
      }
    }

    /** re_parse_term. */
    method ReParseTerm() returns (ok: bool)
      requires Valid() && bufPtr < |text| && At(text, bufPtr) != '|' as int && At(text, bufPtr) != ')' as int
      requires Agrees(0, 1)
      modifies this
      ensures ok ==> Valid() && old(bufPtr) < bufPtr && Agrees(old(bufPtr), old(captureCount))
      decreases |text| - bufPtr, 2
    {
      var atom;
      ok, atom := ParseAtom();
      if ok && atom {
        var taken, quantMin, quantMax, greedy;
        ok, taken, quantMin, quantMax, greedy := ParseQuantifier();
      }
    }

    /** re_parse_alternative. */
    method ReParseAlternative() returns (ok: bool)
      requires Valid() && Agrees(0, 1)
      modifies this
      ensures ok ==> Valid() && Agrees(old(bufPtr), old(captureCount))
                     && (bufPtr == |text| || At(text, bufPtr) == '|' as int || At(text, bufPtr) == ')' as int)
      decreases |text| - bufPtr, 3
    {
      hide Scan, MeetsNamed;
      Here(text, bufPtr, captureCount);
      while bufPtr < |text| && At(text, bufPtr) != '|' as int && At(text, bufPtr) != ')' as int
        invariant Valid() && Agrees(old(bufPtr), old(captureCount)) && Agrees(0, 1)
        decreases |text| - bufPtr
      {
        ghost var (p, k) := (bufPtr, captureCount);
        ok := ReParseTerm();
        if !ok {
          return;
        }
        Onward(old(bufPtr), old(captureCount), p, k);
      }
      ok := true;
    }

    /** What has been consumed since `p` extends what has been consumed before. */
    lemma Onward(p0: nat, k0: nat, p: nat, k: nat)
      requires Follows(text, p0, k0, p, k) && Follows(text, 0, 1, p, k) && Agrees(p, k)
      ensures Agrees(p0, k0) && Agrees(0, 1)
    {
      FollowsTrans(text, p0, k0, p, k, bufPtr, captureCount);
      FollowsTrans(text, 0, 1, p, k, bufPtr, captureCount);
    }

    /** re_parse_disjunction. */
    method ReParseDisjunction() returns (ok: bool)
      requires Valid() && Agrees(0, 1)
      modifies this
      ensures ok ==> Valid() && Agrees(old(bufPtr), old(captureCount)) && (bufPtr == |text| || At(text, bufPtr) == ')' as int)
      decreases |text| - bufPtr, 4
    {
      hide Scan, MeetsNamed;
      ok := ReParseAlternative();
      if ok {
        FollowsTrans(text, 0, 1, old(bufPtr), old(captureCount), bufPtr, captureCount);
      }
      while ok && At(text, bufPtr) == '|' as int
        invariant ok ==> Valid() && Agrees(old(bufPtr), old(captureCount)) && Agrees(0, 1)
                         && (bufPtr == |text| || At(text, bufPtr) == '|' as int || At(text, bufPtr) == ')' as int)
        decreases ok, |text| - bufPtr
      {
        ghost var (p, k) := (bufPtr, captureCount);
        OnePlain(text, p, k);
        bufPtr := bufPtr + 1;
        Onward(old(bufPtr), old(captureCount), p, k);
        ghost var q := bufPtr;
        ok := ReParseAlternative();
        if ok {
          Onward(old(bufPtr), old(captureCount), q, k);
        }
      }
    }

    /** The parse of lre_compile: if it succeeds, the parser has counted what the prescan counts. */
    method ParsePattern() returns (ok: bool)
      requires Valid() && bufPtr == 0 && captureCount == 1
      modifies this
      ensures ok ==> Valid() && bufPtr == |text| && captureCount == Scan(text, 0, 1)
    {
      Here(text, 0, 1);
      ok := ReParseDisjunction();
      if ok && At(text, bufPtr) != 0 {
        ok := false;
      }
    }
  }
}
