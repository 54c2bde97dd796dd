/** unicode_to_utf8 and unicode_from_utf8: UTF-8 with up to six bytes (section 2 of RFC 2279). */
module Utf8 {
  import opened ByteType
  import opened Options

  const UTF8_CHAR_LEN_MAX := 6

  /** How many continuation bytes a value from 0x80 on takes. */
  function Continuations(c: nat): (l: nat)
    requires 0x80 <= c < 0x8000_0000
    ensures 1 <= l <= 5
  {
    if c < 0x800 then 1 else if c < 0x1_0000 then 2 else if c < 0x20_0000 then 3 else if c < 0x400_0000 then 4 else 5
  }

  /** The tag bits of a first byte: 110, 1110, 11110, 111110 and 1111110. */
  function Tag(l: nat): nat
    requires 1 <= l <= 5
  {
    match l
    case 1 => 0xc0
    case 2 => 0xe0
    case 3 => 0xf0
    case 4 => 0xf8
    case _ => 0xfc
  }

  /** `c` shifted right by `l` groups of six bits. */
  function Shifted(c: nat, l: nat): nat
    decreases l
  {
    if l == 0 then c else Shifted(c / 64, l - 1)
  }

  /** The `l` low groups of six bits as continuation bytes. */
  function Tail(c: nat, l: nat): (s: seq<Byte>)
    ensures |s| == l
    decreases l
  {
    if l == 0 then [] else Tail(c / 64, l - 1) + [0x80 + c % 64]
  }

  lemma ShiftedValue(c: nat)
    ensures Shifted(c, 1) == c / 64 && Shifted(c, 2) == c / 0x1000 && Shifted(c, 3) == c / 0x4_0000
    ensures Shifted(c, 4) == c / 0x100_0000 && Shifted(c, 5) == c / 0x4000_0000
  {
  }

  lemma TagFits(c: nat)
    requires 0x80 <= c < 0x8000_0000
    ensures var l := Continuations(c);
            Tag(l) + Shifted(c, l) < (if l == 5 then 0xfe else Tag(l + 1)) && Tag(l) + Shifted(c, l) < 0x100
  {
    ShiftedValue(c);
  }

  /** The encoding of a value of at most 31 bits. */
  function Encoded(c: nat): (s: seq<Byte>)
    requires c < 0x8000_0000
    ensures 1 <= |s| <= UTF8_CHAR_LEN_MAX == 6
  {
    if c < 0x80 then [c]
    else
      TagFits(c);
      var l := Continuations(c);
      [Tag(l) + Shifted(c, l)] + Tail(c, l)
  }

  /** The six forms, written out. */
  lemma EncodedForms(c: nat)
    requires c < 0x8000_0000
    ensures Encoded(c) ==
            if c < 0x80 then [c]
            else if c < 0x800 then [0xc0 + c / 64, 0x80 + c % 64]
            else if c < 0x1_0000 then [0xe0 + c / 0x1000, 0x80 + c / 64 % 64, 0x80 + c % 64]
            else if c < 0x20_0000 then
              [0xf0 + c / 0x4_0000, 0x80 + c / 0x1000 % 64, 0x80 + c / 64 % 64, 0x80 + c % 64]
            else if c < 0x400_0000 then
              [0xf8 + c / 0x100_0000, 0x80 + c / 0x4_0000 % 64, 0x80 + c / 0x1000 % 64, 0x80 + c / 64 % 64, 0x80 + c % 64]
            else
              [0xfc + c / 0x4000_0000, 0x80 + c / 0x100_0000 % 64, 0x80 + c / 0x4_0000 % 64, 0x80 + c / 0x1000 % 64,
               0x80 + c / 64 % 64, 0x80 + c % 64]
  {
    if c >= 0x80 {
      FirstOf(c);
      GroupsOf(c);
      hide Tail, Shifted, Encoded;
      ShiftedValue(c);
    }
  }

  /** The continuation bytes, from the top. */
  lemma GroupsOf(c: nat)
    ensures Tail(c, 1) == [0x80 + c % 64]
    ensures Tail(c, 2) == [0x80 + c / 64 % 64, 0x80 + c % 64]
    ensures Tail(c, 3) == [0x80 + c / 0x1000 % 64, 0x80 + c / 64 % 64, 0x80 + c % 64]
    ensures Tail(c, 4) == [0x80 + c / 0x4_0000 % 64, 0x80 + c / 0x1000 % 64, 0x80 + c / 64 % 64, 0x80 + c % 64]
    ensures Tail(c, 5) ==
            [0x80 + c / 0x100_0000 % 64, 0x80 + c / 0x4_0000 % 64, 0x80 + c / 0x1000 % 64, 0x80 + c / 64 % 64, 0x80 + c % 64]
  {
    hide *;
    NoGroups(c);
    ShiftedValue(c);
    TailStep(c, 0);
    TailStep(c, 1);
    TailStep(c, 2);
    TailStep(c, 3);
    TailStep(c, 4);
  }

  lemma NoGroups(c: nat)
    ensures Tail(c, 0) == [] && Shifted(c, 0) == c
  {
  }

  /** One more byte in front. */
  lemma {:induction false} TailStep(c: nat, l: nat)
    ensures Tail(c, l + 1) == [0x80 + Shifted(c, l) % 64] + Tail(c, l)
    decreases l
  {
    if l == 0 {
      assert Tail(c, 1) == Tail(c / 64, 0) + [0x80 + c % 64];
    } else {
      TailStep(c / 64, l - 1);
    }
  }

  /** `*q++ = ...` for the continuation byte with the group of bits `k`. */
  method PutGroup(buf: array<Byte>, q: nat, ghost c: nat, ghost k: nat, bits: nat)
    requires c < 0x8000_0000 && q < buf.Length && bits == Shifted(c, k)
    requires Encoded(c) == buf[..q] + Tail(c, k + 1)
    modifies buf
    ensures Encoded(c) == buf[..q + 1] + Tail(c, k)
    ensures forall i | q < i < buf.Length :: buf[i] == old(buf[i])
  {
    hide *;
    TailStep(c, k);
    ghost var done := buf[..q];
    buf[q] := 0x80 + bits % 64;
    assert buf[..q + 1] == done + [0x80 + bits % 64];
    assert done + ([0x80 + bits % 64] + Tail(c, k)) == (done + [0x80 + bits % 64]) + Tail(c, k);
  }

  /** The first of several bytes. */
  method PutFirst(buf: array<Byte>, c: nat, ghost l: nat, tag: nat, bits: nat)
    requires 0x80 <= c < 0x8000_0000 && buf.Length >= 1
    requires l == Continuations(c) && tag == Tag(l) && bits == Shifted(c, l)
    modifies buf
    ensures Encoded(c) == buf[..1] + Tail(c, l)
    ensures forall i | 1 <= i < buf.Length :: buf[i] == old(buf[i])
  {
    TagFits(c);
    hide *;
    FirstOf(c);
    buf[0] := bits + tag;
  }

  lemma FirstOf(c: nat)
    requires 0x80 <= c < 0x8000_0000
    ensures var l := Continuations(c);
            Tag(l) + Shifted(c, l) < 0x100 && Encoded(c) == [Tag(l) + Shifted(c, l)] + Tail(c, l)
  {
    TagFits(c);
  }

  /** unicode_to_utf8: the bytes are written to `buf`, none for a value of 32 bits. */
  method UnicodeToUtf8(buf: array<Byte>, c: nat) returns (len: nat)
    requires buf.Length >= 6
    modifies buf
    ensures len <= 6
    ensures if c < 0x8000_0000 then buf[..len] == Encoded(c) else len == 0
    ensures forall i | len <= i < buf.Length :: buf[i] == old(buf[i])
  {
    if c < 0x80 {
      buf[0] := c;
      return 1;
    }
    if c >= 0x8000_0000 {
      return 0;
    }
    ShiftedValue(c);
    hide Encoded, Tail, Shifted;
    var q: nat := 1;
    if c < 0x800 {
      PutFirst(buf, c, 1, 0xc0, c / 64);
    } else {
      if c < 0x1_0000 {
        PutFirst(buf, c, 2, 0xe0, c / 0x1000);
      } else {
        if c < 0x20_0000 {
          PutFirst(buf, c, 3, 0xf0, c / 0x4_0000);
        } else {
          if c < 0x400_0000 {
            PutFirst(buf, c, 4, 0xf8, c / 0x100_0000);
          } else {
            PutFirst(buf, c, 5, 0xfc, c / 0x4000_0000);
            PutGroup(buf, q, c, 4, c / 0x100_0000);
            q := q + 1;
          }
          PutGroup(buf, q, c, 3, c / 0x4_0000);
          q := q + 1;
        }
        PutGroup(buf, q, c, 2, c / 0x1000);
        q := q + 1;
      }
      PutGroup(buf, q, c, 1, c / 64);
      q := q + 1;
    }
    PutGroup(buf, q, c, 0, c);
    len := q + 1;
    NoTail(c, buf[..len]);
  }

  lemma NoTail(c: nat, s: seq<Byte>)
    ensures Shifted(c, 0) == c && s + Tail(c, 0) == s
  {
  }

  // ----- decoding -----

  /** How many continuation bytes a first byte announces; 0 for a byte that begins nothing. */
  function Announced(b: Byte): (l: nat)
    ensures l <= 5
  {
    if b < 0xc0 then 0 else if b < 0xe0 then 1 else if b < 0xf0 then 2 else if b < 0xf8 then 3
    else if b < 0xfc then 4 else if b < 0xfe then 5 else 0
  }

  /** utf8_min_code. */
  function MinCode(l: nat): nat
    requires 1 <= l <= 5
  {
    match l
    case 1 => 0x80
    case 2 => 0x800
    case 3 => 0x1_0000
    case 4 => 0x20_0000
    case _ => 0x400_0000
  }

  /** The value bits of a first byte (utf8_first_code_mask). */
  function FirstBits(b: Byte): nat
    requires Announced(b) > 0
  {
    b - Tag(Announced(b))
  }

  /** The bytes of the encoding of `x` are the first ones of `p`. */
  predicate Begins(x: nat, p: seq<Byte>) {
    x < 0x8000_0000 && Encoded(x) <= p
  }

  /** What the first byte tells about a value whose encoding begins `p`. */
  lemma FirstByte(x: nat, p: seq<Byte>)
    requires Begins(x, p)
    ensures p != []
    ensures x < 0x80 <==> p[0] < 0x80
    ensures x < 0x80 ==> x == p[0]
    ensures x >= 0x80 ==>
              var l := Continuations(x);
              && Announced(p[0]) == l && |p| >= 1 + l && FirstBits(p[0]) == Shifted(x, l)
              && p[1..1 + l] == Tail(x, l) && x >= MinCode(l)
  {
    assert p[0] == Encoded(x)[0];
    if x >= 0x80 {
      TagFits(x);
      FirstOf(x);
      var l := Continuations(x);
      assert p[1..1 + l] == Encoded(x)[1..];
    }
  }

  /** A first byte and as many continuation bytes as it announces are the encoding of their value, if the
      value needs that many. */
  lemma Accepted(p: seq<Byte>, l: nat, c: nat)
    requires p != [] && p[0] >= 0x80 && l == Announced(p[0]) > 0 && |p| >= 1 + l
    requires Shifted(c, l) == FirstBits(p[0]) && Tail(c, l) == p[1..1 + l] && c >= MinCode(l)
    ensures c < 0x8000_0000 && Encoded(c) == p[..1 + l]
  {
    ShiftedValue(c);
    assert c < 0x8000_0000 && l == Continuations(c);
    FirstOf(c);
    assert p[..1 + l] == [p[0]] + p[1..1 + l];
  }

  /** One more group of bits at the low end. */
  lemma {:induction false} ShiftIn(c: nat, b: nat, l: nat)
    requires b < 64
    ensures Shifted(c * 64 + b, l + 1) == Shifted(c, l)
    ensures Tail(c * 64 + b, l + 1) == Tail(c, l) + [0x80 + b]
  {
  }

  /** Whatever value is encoded at the start of `s` has `v` as its bits above the low `k` groups. */
  ghost predicate HighBits(s: seq<Byte>, k: nat, v: nat) {
    forall x: nat | Begins(x, s) :: Shifted(x, k) == v
  }

  /** What the branches of the switch and the mask compute. */
  lemma AnnouncedBy(b: Byte)
    ensures 0xc0 <= b < 0xe0 ==> Announced(b) == 1 && FirstBits(b) == b % 0x20
    ensures 0xe0 <= b < 0xf0 ==> Announced(b) == 2 && FirstBits(b) == b % 0x10
    ensures 0xf0 <= b < 0xf8 ==> Announced(b) == 3 && FirstBits(b) == b % 8
    ensures 0xf8 <= b < 0xfc ==> Announced(b) == 4 && FirstBits(b) == b % 4
    ensures 0xfc <= b < 0xfe ==> Announced(b) == 5 && FirstBits(b) == b % 2
    ensures b < 0xc0 || b >= 0xfe ==> Announced(b) == 0
  {
  }

  /** Without a proper first byte, or with too few bytes after it, nothing is encoded at the start of `s`. */
  lemma FirstBytes(s: seq<Byte>)
    requires s != [] && s[0] >= 0x80
    ensures Announced(s[0]) == 0 || |s| < 1 + Announced(s[0]) ==> forall x: nat :: !Begins(x, s)
    ensures Announced(s[0]) > 0 ==> HighBits(s, Announced(s[0]), FirstBits(s[0]))
  {
    forall x: nat | Begins(x, s)
      ensures Announced(s[0]) > 0 && |s| >= 1 + Announced(s[0]) && Shifted(x, Announced(s[0])) == FirstBits(s[0])
    {
      FirstByte(x, s);
    }
  }

  lemma {:induction false} TailAt(x: nat, l: nat, i: nat)
    requires i < l
    ensures Tail(x, l)[i] == 0x80 + Shifted(x, l - 1 - i) % 64
    decreases l
  {
    TailStep(x, l - 1);
    if i > 0 {
      TailAt(x, l - 1, i - 1);
    }
  }

  lemma {:induction false} ShiftedMore(x: nat, k: nat)
    ensures Shifted(x, k + 1) == Shifted(x, k) / 64
    decreases k
  {
    if k > 0 {
      ShiftedMore(x / 64, k - 1);
    }
  }

  /** The next byte of an encoding is a continuation byte with the next group of bits. */
  lemma NextGroup(s: seq<Byte>, l: nat, i: nat, v: nat)
    requires s != [] && s[0] >= 0x80 && l == Announced(s[0]) && i < l && |s| >= 1 + l && HighBits(s, l - i, v)
    ensures s[1 + i] < 0x80 || s[1 + i] >= 0xc0 ==> forall x: nat :: !Begins(x, s)
    ensures HighBits(s, l - i - 1, v * 64 + s[1 + i] % 64)
  {
    forall x: nat | Begins(x, s)
      ensures 0x80 <= s[1 + i] < 0xc0 && Shifted(x, l - i - 1) == v * 64 + s[1 + i] % 64
    {
      FirstByte(x, s);
      assert s[1 + i] == s[1..1 + l][i];
      TailAt(x, l, i);
      ShiftedMore(x, l - i - 1);
      Joined(Shifted(x, l - i - 1), s[1 + i]);
    }
  }

  lemma Joined(y: nat, b: Byte)
    requires b == 0x80 + y % 64
    ensures y == y / 64 * 64 + b % 64
  {
  }

  /** With all groups read, the value is known, and it needs all its bytes. */
  lemma AllGroups(s: seq<Byte>, v: nat)
    requires s != [] && s[0] >= 0x80 && Announced(s[0]) > 0 && HighBits(s, 0, v)
    ensures forall x: nat | Begins(x, s) :: x >= MinCode(Announced(s[0])) && x == v
  {
    forall x: nat | Begins(x, s)
      ensures x >= MinCode(Announced(s[0])) && x == v
    {
      FirstByte(x, s);
      assert Shifted(x, 0) == x;
    }
  }

  lemma ZeroGroups(v: nat, s: seq<Byte>)
    requires s != []
    ensures Shifted(v, 0) == v && Tail(v, 0) == s[1..1]
  {
  }

  lemma MinCodes()
    ensures MinCode(1) == 0x80 && MinCode(2) == 0x800 && MinCode(3) == 0x1_0000
    ensures MinCode(4) == 0x20_0000 && MinCode(5) == 0x400_0000
  {
  }

  lemma OneByte(c: nat, p: seq<Byte>)
    requires p != [] && p[0] == c < 0x80
    ensures Encoded(c) == p[..1]
  {
  }

  lemma OneByteOnly(c: nat, p: seq<Byte>)
    requires p != [] && p[0] == c < 0x80
    ensures forall x: nat | Begins(x, p) :: x == c && |Encoded(x)| == 1
  {
    forall x: nat | Begins(x, p)
      ensures x == c && |Encoded(x)| == 1
    {
      FirstByte(x, p);
    }
  }

  lemma BeginsOnly(c: nat, s: seq<Byte>, n: nat)
    requires c < 0x8000_0000 && n <= |s| && Encoded(c) == s[..n]
    ensures forall x: nat | Begins(x, s) :: x == c && |Encoded(x)| == n
  {
    forall x: nat | Begins(x, s)
      ensures x == c && |Encoded(x)| == n
    {
      PrefixFree(x, c, s);
    }
  }

  /** The switch on the first byte: how many bytes follow, or 0. */
  method Following(b: Byte) returns (l: nat, bits: nat)
    ensures l == Announced(b)
    ensures l > 0 ==> bits == FirstBits(b)
  {
    AnnouncedBy(b);
    hide *;
    var c := b as int;
    if 0xc0 <= c < 0xe0 {
      return 1, c % 0x20;
    } else if 0xe0 <= c < 0xf0 {
      return 2, c % 0x10;
    } else if 0xf0 <= c < 0xf8 {
      return 3, c % 8;
    } else if 0xf8 <= c < 0xfc {
      return 4, c % 4;
    } else if c == 0xfc || c == 0xfd {
      return 5, c % 2;
    } else {
      return 0, 0;
    }
  }

  /** No encoding is the beginning of another. */
  lemma PrefixFree(x: nat, y: nat, p: seq<Byte>)
    requires Begins(x, p) && Begins(y, p)
    ensures x == y
  {
    FirstByte(x, p);
    FirstByte(y, p);
    if x >= 0x80 {
      var l := Continuations(x);
      SameTail(x, y, l);
    }
  }

  lemma {:induction false} SameTail(x: nat, y: nat, l: nat)
    requires Shifted(x, l) == Shifted(y, l) && Tail(x, l) == Tail(y, l)
    ensures x == y
    decreases l
  {
    if l > 0 {
      var (s, t) := (Tail(x, l), Tail(y, l));
      assert s[l - 1] == 0x80 + x % 64 && t[l - 1] == 0x80 + y % 64;
      assert s[..l - 1] == Tail(x / 64, l - 1) && t[..l - 1] == Tail(y / 64, l - 1);
      SameTail(x / 64, y / 64, l - 1);
    }
  }

  /** unicode_from_utf8: a value and the number of bytes it takes, or None. It accepts exactly the encodings:
      what it returns is encoded by the bytes it consumes, and if an encoding begins there, whatever follows,
      it returns the encoded value. */
  method UnicodeFromUtf8(p: seq<Byte>, maxLen: nat) returns (r: Option<(nat, nat)>)
    requires 1 <= maxLen <= |p|
    ensures r.Some? ==> r.value.1 <= maxLen && r.value.0 < 0x8000_0000 && Encoded(r.value.0) == p[..r.value.1]
    ensures forall x: nat | Begins(x, p[..maxLen]) :: r == Some((x, |Encoded(x)|))
  {
    hide *;
    ghost var s := p[..maxLen];
    if p[0] < 0x80 {
      assert s[0] == p[0];
      OneByte(p[0], p);
      OneByteOnly(p[0], s);
      return Some((p[0] as int, 1));
    }
    FirstBytes(s);
    var l: nat, c: nat := Following(p[0]);
    if l == 0 || l > maxLen - 1 {
      return None;
    }
    ghost var first := c;
    ZeroGroups(c, s);
    for i := 0 to l
      invariant Shifted(c, i) == first && Tail(c, i) == s[1..1 + i] && HighBits(s, l - i, c)
    {
      var b := p[1 + i] as int;
      NextGroup(s, l, i, c);
      if b < 0x80 || b >= 0xc0 {
        return None;
      }
      ShiftIn(c, b % 64, i);
      assert s[1..2 + i] == s[1..1 + i] + [0x80 + b % 64];
      c := c * 64 + b % 64;
    }
    MinCodes();
    if c < [0x80, 0x800, 0x1_0000, 0x20_0000, 0x400_0000][l - 1] {
      AllGroups(s, c);
      return None;
    }
    Accepted(s, l, c);
    assert p[..1 + l] == s[..1 + l];
    BeginsOnly(c, s, 1 + l);
    return Some((c, 1 + l));
  }
}
