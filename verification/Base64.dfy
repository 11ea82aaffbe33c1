/** The canvas's Base64 decoder, at the level of bits, against the encoding of section 4 of RFC 4648. */
module Base64 {

  import opened Options

  newtype byte = x: int | 0 <= x < 256

  // ---------------------------------------------------------------- the alphabet

  /** Table 1 of RFC 4648: A to Z, a to z, 0 to 9, plus, slash. */
  function Letter(n: nat): (c: byte)
    requires n < 64
    ensures c != 61
  {
    if n < 26 then 65 + n as byte else if n < 52 then 71 + n as byte else if n < 62 then n as byte - 4
    else if n == 62 then 43 else 47
  }

  /** The alphabet by its landmarks: three runs of consecutive characters, then two single ones. */
  lemma {:induction false} AlphabetRuns(n: nat)
    requires n < 63
    ensures Letter(0) == 'A' as int as byte && Letter(26) == 'a' as int as byte && Letter(52) == '0' as int as byte
    ensures Letter(25) == 'Z' as int as byte && Letter(51) == 'z' as int as byte && Letter(61) == '9' as int as byte
    ensures Letter(62) == '+' as int as byte && Letter(63) == '/' as int as byte
    ensures n !in {25, 51, 61, 62} ==> Letter(n + 1) == Letter(n) + 1
  {
  }

  /** Where `c` stands in the alphabet. */
  function Index(c: byte): (n: Option<nat>)
    ensures n.Some? ==> n.value < 64 && Letter(n.value) == c
    ensures n.None? ==> forall k: nat :: k < 64 ==> Letter(k) != c
  {
    if 65 <= c <= 90 then Some((c - 65) as nat)
    else if 97 <= c <= 122 then Some((c - 71) as nat)
    else if 48 <= c <= 57 then Some((c + 4) as nat)
    else if c == 43 then Some(62)
    else if c == 47 then Some(63)
    else None
  }

  lemma {:induction false} IndexOfLetter(n: nat)
    requires n < 64
    ensures Index(Letter(n)) == Some(n)
  {
  }

  const NO_VALUE: bv8 := 255

  /** What the decoding table holds for `c`. */
  function Value(c: byte): bv8 {
    match Index(c) case Some(n) => n as bv8 case None => NO_VALUE
  }

  lemma {:induction false} SmallToBits(n: nat)
    requires n < 64
    ensures n as bv8 < 64 && (n as bv8) as nat == n
  {
  }

  /** A table of all 256 entries, filled as the decoder fills it. */
  method DecodingTable() returns (table: array<bv8>)
    ensures fresh(table) && table.Length == 256
    ensures forall c: byte :: table[c] == Value(c)
  {
    table := new bv8[256](_ => NO_VALUE);
    var i := 0;
    while i < 64
      invariant 0 <= i <= 64 && table.Length == 256
      invariant forall c: byte :: table[c] == if Index(c).Some? && Index(c).value < i then Value(c) else NO_VALUE
    {
      IndexOfLetter(i);
      table[Letter(i)] := i as bv8;
      i := i + 1;
    }
  }

  // ---------------------------------------------------------------- decoding

  /** The values of the alphabet characters of `s`, in order. */
  function Sextets(s: seq<byte>): seq<bv8> {
    if s == [] then [] else (if Value(s[0]) == NO_VALUE then [] else [Value(s[0])]) + Sextets(s[1..])
  }

  function First(a: bv8, b: bv8): bv8 { (a << 2) | (b >> 4) }

  function Second(b: bv8, c: bv8): bv8 { (b << 4) | (c >> 2) }

  function Third(c: bv8, d: bv8): bv8 { (c << 6) | d }

  /** The whole bytes in up to four values. */
  function Group(v: seq<bv8>): seq<bv8>
    requires |v| <= 4
  {
    if |v| == 4 then [First(v[0], v[1]), Second(v[1], v[2]), Third(v[2], v[3])]
    else if |v| == 3 then [First(v[0], v[1]), Second(v[1], v[2])]
    else if |v| == 2 then [First(v[0], v[1])]
    else []
  }

  function Decoded(v: seq<bv8>): seq<bv8> {
    if |v| >= 4 then Group(v[..4]) + Decoded(v[4..]) else Group(v)
  }

  lemma {:induction false} SextetsFront(s: seq<byte>, i: nat, held: seq<bv8>)
    requires i < |s|
    ensures Value(s[i]) == NO_VALUE ==> Sextets(s[i..]) == Sextets(s[i + 1..])
    ensures Value(s[i]) != NO_VALUE ==> held + Sextets(s[i..]) == held + [Value(s[i])] + Sextets(s[i + 1..])
  {
    assert s[i..][1..] == s[i + 1..];
  }

  lemma {:induction false} DecodedFlush(out: seq<bv8>, held: seq<bv8>, later: seq<bv8>)
    requires |held| == 4
    ensures out + Group(held) + Decoded([] + later) == out + Decoded(held + later)
  {
    assert (held + later)[4..] == later == [] + later && (held + later)[..4] == held;
  }

  method Base64Decode(s: seq<byte>) returns (out: seq<bv8>)
    ensures out == Decoded(Sextets(s))
  {
    var table := DecodingTable();
    out := [];
    var buf, n, i := new bv8[4](_ => 0), 0, 0;
    assert buf[..0] + Sextets(s[0..]) == Sextets(s);
    while i < |s|
      invariant 0 <= i <= |s| && 0 <= n < 4
      invariant forall c: byte :: table[c] == Value(c)
      invariant out + Decoded(buf[..n] + Sextets(s[i..])) == Decoded(Sextets(s))
    {
      var b := s[i];
      SextetsFront(s, i, buf[..n]);
      i := i + 1;
      if b == 61 {
        continue;
      }
      var v := table[b];
      if v == NO_VALUE {
        continue;
      }
      ghost var held := buf[..n] + [v];
      buf[n] := v;
      n := n + 1;
      assert buf[..n] == held;
      if n == 4 {
        DecodedFlush(out, held, Sextets(s[i..]));
        out := out + Group(buf[..4]);
        n := 0;
        assert buf[..n] == [];
      }
    }
    assert buf[..n] + Sextets(s[i..]) == buf[..n];
    out := out + Group(buf[..n]);
  }

  // ---------------------------------------------------------------- bits

  /** Bit `k` of `v`, the lowest being bit 0. */
  predicate Bit(v: bv8, k: nat)
    requires k < 8
  {
    v & (if k == 0 then 1 else if k == 1 then 2 else if k == 2 then 4 else if k == 3 then 8
         else if k == 4 then 16 else if k == 5 then 32 else if k == 6 then 64 else 128) != 0
  }

  /** Bit `p` of a byte string, counted from its first byte's highest. */
  predicate ByteBit(bytes: seq<bv8>, p: nat)
    requires p / 8 < |bytes|
  {
    Bit(bytes[p / 8], 7 - p % 8)
  }

  /** Bit `p` of a string of six-bit values, counted likewise. */
  predicate SextetBit(v: seq<bv8>, p: nat)
    requires p / 6 < |v|
  {
    Bit(v[p / 6], 5 - p % 6)
  }

  predicate AreSextets(v: seq<bv8>) {
    forall i :: 0 <= i < |v| ==> v[i] < 64
  }

  lemma {:induction false} FirstBits(a: bv8, b: bv8, k: nat)
    requires a < 64 && b < 64 && k < 8
    ensures Bit(First(a, b), k) == if k < 2 then Bit(b, k + 4) else Bit(a, k - 2)
  {
  }

  lemma {:induction false} SecondBits(b: bv8, c: bv8, k: nat)
    requires b < 64 && c < 64 && k < 8
    ensures Bit(Second(b, c), k) == if k < 4 then Bit(c, k + 2) else Bit(b, k - 4)
  {
  }

  lemma {:induction false} ThirdBits(c: bv8, d: bv8, k: nat)
    requires c < 64 && d < 64 && k < 8
    ensures Bit(Third(c, d), k) == if k < 6 then Bit(d, k) else Bit(c, k - 6)
  {
  }

  lemma {:induction false} FirstByte(v: seq<bv8>, p: nat)
    requires |v| >= 2 && AreSextets(v) && p < 8
    ensures Bit(First(v[0], v[1]), 7 - p) == SextetBit(v, p)
  {
    FirstBits(v[0], v[1], 7 - p);
    if p < 6 {
      assert p / 6 == 0 && p % 6 == p;
    } else {
      assert p / 6 == 1 && p % 6 == p - 6;
    }
  }

  lemma {:induction false} SecondByte(v: seq<bv8>, p: nat)
    requires |v| >= 3 && AreSextets(v) && 8 <= p < 16
    ensures Bit(Second(v[1], v[2]), 15 - p) == SextetBit(v, p)
  {
    SecondBits(v[1], v[2], 15 - p);
    if p < 12 {
      assert p / 6 == 1 && p % 6 == p - 6;
    } else {
      assert p / 6 == 2 && p % 6 == p - 12;
    }
  }

  lemma {:induction false} ThirdByte(v: seq<bv8>, p: nat)
    requires |v| >= 4 && AreSextets(v) && 16 <= p < 24
    ensures Bit(Third(v[2], v[3]), 23 - p) == SextetBit(v, p)
  {
    ThirdBits(v[2], v[3], 23 - p);
    if p < 18 {
      assert p / 6 == 2 && p % 6 == p - 12;
    } else {
      assert p / 6 == 3 && p % 6 == p - 18;
    }
  }

  lemma {:induction false} GroupBits(v: seq<bv8>, p: nat)
    requires |v| <= 4 && AreSextets(v) && p / 8 < |Group(v)|
    ensures p / 6 < |v| && ByteBit(Group(v), p) == SextetBit(v, p)
  {
    if p < 8 {
      assert p / 8 == 0 && p % 8 == p;
      FirstByte(v, p);
    } else if p < 16 {
      assert p / 8 == 1 && p % 8 == p - 8;
      SecondByte(v, p);
    } else {
      assert p / 8 == 2 && p % 8 == p - 16;
      ThirdByte(v, p);
    }
  }

  /** Bit `p` of what `v` decodes to is bit `p` of the six-bit values laid end to end. */
  predicate SameBit(v: seq<bv8>, p: nat)
    requires p / 8 < |Decoded(v)|
  {
    p / 6 < |v| && ByteBit(Decoded(v), p) == SextetBit(v, p)
  }

  lemma {:induction false} PositionLater(q: nat)
    ensures (q + 24) / 8 == q / 8 + 3 && (q + 24) % 8 == q % 8
    ensures (q + 24) / 6 == q / 6 + 4 && (q + 24) % 6 == q % 6
  {
  }

  /** Dropping four values and three bytes moves every later bit by 24. */
  lemma {:induction false} BitsLater(bytes: seq<bv8>, v: seq<bv8>, q: nat)
    requires |bytes| >= 3 && |v| >= 4 && q / 8 < |bytes| - 3 && q / 6 < |v| - 4
    ensures ByteBit(bytes, q + 24) == ByteBit(bytes[3..], q) && SextetBit(v, q + 24) == SextetBit(v[4..], q)
  {
    PositionLater(q);
    assert bytes[q / 8 + 3] == bytes[3..][q / 8];
    assert v[q / 6 + 4] == v[4..][q / 6];
  }

  lemma {:induction false} SameBitLater(v: seq<bv8>, q: nat)
    requires |v| >= 4 && (q + 24) / 8 < |Decoded(v)|
    requires q / 8 < |Decoded(v[4..])| ==> SameBit(v[4..], q)
    ensures SameBit(v, q + 24)
  {
    PositionLater(q);
    assert Decoded(v)[3..] == Decoded(v[4..]);
    BitsLater(Decoded(v), v, q);
  }

  lemma {:induction false} SameBitInGroup(v: seq<bv8>, p: nat)
    requires AreSextets(v) && p / 8 < |Decoded(v)| && (|v| >= 4 ==> p < 24)
    ensures SameBit(v, p)
  {
    if |v| < 4 {
      GroupBits(v, p);
    } else {
      GroupBits(v[..4], p);
      assert Decoded(v)[p / 8] == Group(v[..4])[p / 8];
    }
  }

  /** The decoded bytes are the first `floor(3k/4)` whole bytes of the `k` values' six-bit strings laid
      end to end. */
  lemma {:induction false} DecodedBits(v: seq<bv8>)
    requires AreSextets(v)
    ensures |Decoded(v)| == 3 * |v| / 4
    ensures forall p: nat :: p / 8 < |Decoded(v)| ==> SameBit(v, p)
  {
    if |v| >= 4 {
      DecodedBits(v[4..]);
    }
    forall p: nat | p / 8 < |Decoded(v)| ensures SameBit(v, p) {
      if |v| >= 4 && p >= 24 {
        SameBitLater(v, p - 24);
      } else {
        SameBitInGroup(v, p);
      }
    }
  }

  lemma {:induction false} SextetsAreSextets(s: seq<byte>)
    ensures AreSextets(Sextets(s))
  {
    if s != [] {
      SextetsAreSextets(s[1..]);
      var n := Index(s[0]);
      if n.Some? {
        SmallToBits(n.value);
      }
    }
  }

  // ---------------------------------------------------------------- encoding

  /** The six-bit groups of section 4 of RFC 4648: 24 bits at a time, a last group of 8 or 16 bits
      filled up with zero bits on the right. */
  function Grouped(b: seq<bv8>): seq<bv8> {
    if b == [] then []
    else if |b| == 1 then [b[0] >> 2, (b[0] << 4) & 63]
    else if |b| == 2 then [b[0] >> 2, ((b[0] << 4) | (b[1] >> 4)) & 63, (b[1] << 2) & 63]
    else [b[0] >> 2, ((b[0] << 4) | (b[1] >> 4)) & 63, ((b[1] << 2) | (b[2] >> 6)) & 63, b[2] & 63] + Grouped(b[3..])
  }

  function Letters(v: seq<bv8>): seq<byte>
    requires AreSextets(v)
  {
    seq(|v|, i requires 0 <= i < |v| => Letter(v[i] as nat))
  }

  lemma {:induction false} GroupedAreSextets(b: seq<bv8>)
    ensures AreSextets(Grouped(b))
  {
    if |b| > 2 {
      GroupedAreSextets(b[3..]);
    }
  }

  /** Section 4 of RFC 4648, with its padding to a multiple of four characters. */
  function Encoded(b: seq<bv8>): seq<byte> {
    GroupedAreSextets(b);
    Letters(Grouped(b)) + if |b| % 3 == 0 then [] else if |b| % 3 == 1 then [61, 61] else [61]
  }

  /** The alphabet characters of a text. */
  function Significant(t: seq<byte>): seq<byte> {
    if t == [] then [] else (if Index(t[0]).Some? then [t[0]] else []) + Significant(t[1..])
  }

  lemma {:induction false} GroupsInvert(a: bv8, b: bv8, c: bv8)
    ensures First(a >> 2, ((a << 4) | (b >> 4)) & 63) == a
    ensures First(a >> 2, (a << 4) & 63) == a
    ensures Second(((a << 4) | (b >> 4)) & 63, ((b << 2) | (c >> 6)) & 63) == b
    ensures Second(((a << 4) | (b >> 4)) & 63, (b << 2) & 63) == b
    ensures Third(((b << 2) | (c >> 6)) & 63, c & 63) == c
  {
  }

  lemma {:induction false} DecodedGrouped(b: seq<bv8>)
    ensures Decoded(Grouped(b)) == b
  {
    if |b| > 2 {
      var v := Grouped(b);
      DecodedGrouped(b[3..]);
      GroupsInvert(b[0], b[1], b[2]);
      assert v[4..] == Grouped(b[3..]);
      assert Group(v[..4]) == b[..3];
    } else if |b| == 2 {
      GroupsInvert(b[0], b[1], 0);
    } else if |b| == 1 {
      GroupsInvert(b[0], 0, 0);
    }
  }

  lemma {:induction false} SextetsOfSignificant(t: seq<byte>)
    ensures Sextets(Significant(t)) == Sextets(t)
  {
    if t != [] {
      SextetsOfSignificant(t[1..]);
      var n := Index(t[0]);
      if n.Some? {
        SmallToBits(n.value);
        assert Significant(t)[0] == t[0] && Significant(t)[1..] == Significant(t[1..]);
      } else {
        assert Significant(t) == Significant(t[1..]);
      }
    }
  }

  lemma {:induction false} ValueOfLetter(v: bv8)
    requires v < 64
    ensures Value(Letter(v as nat)) == v
  {
    IndexOfLetter(v as nat);
  }

  lemma {:induction false} SextetsOfLetters(v: seq<bv8>, padding: seq<byte>)
    requires AreSextets(v) && forall i :: 0 <= i < |padding| ==> padding[i] == 61
    ensures Sextets(Letters(v) + padding) == v
    decreases |v| + |padding|
  {
    var t := Letters(v) + padding;
    if v != [] {
      SextetsOfLetters(v[1..], padding);
      assert t[1..] == Letters(v[1..]) + padding;
      ValueOfLetter(v[0]);
    } else if padding != [] {
      SextetsOfLetters(v, padding[1..]);
      assert t[1..] == Letters(v) + padding[1..];
    }
  }

  /** Decoding inverts the encoding of every byte string, whatever padding and characters outside the
      alphabet were put in or left out. */
  lemma {:induction false} DecodeInvertsEncode(b: seq<bv8>, t: seq<byte>)
    requires Significant(t) == Significant(Encoded(b))
    ensures Decoded(Sextets(t)) == b
  {
    GroupedAreSextets(b);
    SextetsOfSignificant(t);
    SextetsOfSignificant(Encoded(b));
    SextetsOfLetters(Grouped(b), Encoded(b)[|Grouped(b)|..]);
    DecodedGrouped(b);
  }

  lemma {:induction false} SextetsCount(s: seq<byte>)
    ensures |Sextets(s)| == |Significant(s)|
  {
    if s != [] {
      SextetsCount(s[1..]);
      var n := Index(s[0]);
      if n.Some? {
        SmallToBits(n.value);
      }
    }
  }

  /** For `k` alphabet characters the decoder gives `floor(3k/4)` bytes. */
  lemma {:induction false} DecodedLength(s: seq<byte>)
    ensures |Decoded(Sextets(s))| == 3 * |Significant(s)| / 4
  {
    SextetsAreSextets(s);
    DecodedBits(Sextets(s));
    SextetsCount(s);
  }
}
