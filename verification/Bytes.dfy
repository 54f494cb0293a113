/** Bytes, 16-byte blocks, and their bits in the order NIST SP 800-38D numbers
    them: bit 0 is the leftmost bit of byte 0. */
module Bytes {

  type byte = bv8

  /** 2^32 and 2^64 */
  const W32: nat := 0x1_0000_0000
  const W64: nat := W32 * W32

  type Block = s: seq<byte> | |s| == 16 witness seq(16, _ => 0)

  function ZeroBlock(): Block { seq(16, _ => 0) }

  function XorByte(a: byte, b: byte): byte { a ^ b }

  /** Byte-wise exclusive or of the first |a| bytes */
  function XorSeq(a: seq<byte>, b: seq<byte>): (r: seq<byte>)
    requires |a| <= |b|
    ensures |r| == |a|
    ensures forall i :: 0 <= i < |a| ==> r[i] == XorByte(a[i], b[i])
  {
    seq(|a|, i requires 0 <= i < |a| => XorByte(a[i], b[i]))
  }

  function XorBlock(a: Block, b: Block): Block { XorSeq(a, b) }

  lemma XorByteCancel(a: byte, k: byte)
    ensures XorByte(XorByte(a, k), k) == a
  {}

  /** Exclusive or with the same key stream undoes itself. */
  lemma XorSeqCancel(a: seq<byte>, k: seq<byte>)
    requires |a| <= |k|
    ensures XorSeq(XorSeq(a, k), k) == a
  {
    var r := XorSeq(XorSeq(a, k), k);
    forall i | 0 <= i < |a| ensures r[i] == a[i] { XorByteCancel(a[i], k[i]); }
  }

  /** The first min(16, |d|) bytes of d, zero-padded to a block */
  function Pad(d: seq<byte>): (r: Block)
    requires |d| <= 16
    ensures r[..|d|] == d && forall i :: |d| <= i < 16 ==> r[i] == 0
  {
    d + seq(16 - |d|, _ => 0)
  }

  /** Length of the next 16-byte block of d, the last one possibly short */
  function Take(d: seq<byte>): (n: nat)
    ensures n <= |d| && n <= 16 && (d != [] ==> n > 0)
  {
    if |d| < 16 then |d| else 16
  }

  // ---- bits ---------------------------------------------------------------

  predicate Has(b: byte, m: byte) { b & m != 0 }

  function ByteBits(b: byte): (r: seq<bool>)
    ensures |r| == 8
  {
    [Has(b, 0x80), Has(b, 0x40), Has(b, 0x20), Has(b, 0x10),
     Has(b, 0x08), Has(b, 0x04), Has(b, 0x02), Has(b, 0x01)]
  }

  function BitsByte(s: seq<bool>): byte
    requires |s| == 8
  {
    (if s[0] then 0x80 else 0) | (if s[1] then 0x40 else 0) | (if s[2] then 0x20 else 0) | (if s[3] then 0x10 else 0)
    | (if s[4] then 0x08 else 0) | (if s[5] then 0x04 else 0) | (if s[6] then 0x02 else 0) | (if s[7] then 0x01 else 0)
  }

  lemma ByteBitsInverse(b: byte)
    ensures BitsByte(ByteBits(b)) == b
  {}

  lemma BitsByteInverse(s: seq<bool>)
    requires |s| == 8
    ensures ByteBits(BitsByte(s)) == s
  {}

  /** m has at most one bit set */
  lemma HasXor(a: byte, b: byte, m: byte)
    requires m & (m - 1) == 0
    ensures Has(XorByte(a, b), m) == (Has(a, m) != Has(b, m))
  {}

  lemma ByteBitsXor(a: byte, b: byte, j: nat)
    requires j < 8
    ensures ByteBits(XorByte(a, b))[j] == (ByteBits(a)[j] != ByteBits(b)[j])
  {
    hide Has, XorByte;
    match j
    case 0 => HasXor(a, b, 0x80);
    case 1 => HasXor(a, b, 0x40);
    case 2 => HasXor(a, b, 0x20);
    case 3 => HasXor(a, b, 0x10);
    case 4 => HasXor(a, b, 0x08);
    case 5 => HasXor(a, b, 0x04);
    case 6 => HasXor(a, b, 0x02);
    case 7 => HasXor(a, b, 0x01);
  }

  /** The 128 bits of a block */
  function Bits(b: Block): (r: seq<bool>)
    ensures |r| == 128
    ensures forall i, j :: 0 <= i < 16 && 0 <= j < 8 ==> r[8 * i + j] == ByteBits(b[i])[j]
  {
    seq(128, k requires 0 <= k < 128 => ByteBits(b[k / 8])[k % 8])
  }

  /** The block holding 128 bits */
  function FromBits(e: seq<bool>): (r: Block)
    requires |e| == 128
    ensures forall i :: 0 <= i < 16 ==> r[i] == BitsByte(e[8 * i..8 * i + 8])
  {
    seq(16, i requires 0 <= i < 16 => BitsByte(e[8 * i..8 * i + 8]))
  }

  lemma FromBitsInverse(b: Block)
    ensures FromBits(Bits(b)) == b
  {
    hide ByteBits, BitsByte;
    forall i | 0 <= i < 16 ensures FromBits(Bits(b))[i] == b[i] {
      assert Bits(b)[8 * i..8 * i + 8] == ByteBits(b[i]);
      ByteBitsInverse(b[i]);
    }
  }

  lemma BitsInverse(e: seq<bool>)
    requires |e| == 128
    ensures Bits(FromBits(e)) == e
  {
    hide ByteBits, BitsByte;
    var b := FromBits(e);
    forall k | 0 <= k < 128 ensures Bits(b)[k] == e[k] {
      BitOfByte(e, b, k / 8, k % 8);
      assert k == 8 * (k / 8) + k % 8;
    }
  }

  lemma BitOfByte(e: seq<bool>, b: Block, i: nat, j: nat)
    requires |e| == 128 && i < 16 && j < 8 && b[i] == BitsByte(e[8 * i..8 * i + 8])
    ensures Bits(b)[8 * i + j] == e[8 * i + j]
  {
    hide ByteBits, BitsByte, Bits;
    var s := e[8 * i..8 * i + 8];
    BitsByteInverse(s);
    assert Bits(b)[8 * i + j] == ByteBits(b[i])[j] == s[j];
  }

  lemma BitsXor(a: Block, b: Block, k: nat)
    requires k < 128
    ensures Bits(XorBlock(a, b))[k] == (Bits(a)[k] != Bits(b)[k])
  {
    hide ByteBits, XorByte;
    var i, j := k / 8, k % 8;
    ByteBitsXor(a[i], b[i], j);
    assert k == 8 * i + j;
    assert Bits(a)[8 * i + j] == ByteBits(a[i])[j];
    assert Bits(b)[8 * i + j] == ByteBits(b[i])[j];
    assert Bits(XorBlock(a, b))[8 * i + j] == ByteBits(XorByte(a[i], b[i]))[j];
  }

  /** A 4-bit index as the number the code indexes its tables with */
  function Nibble(b3: bool, b2: bool, b1: bool, b0: bool): (n: nat)
    ensures n < 16
  {
    (if b3 then 8 else 0) + (if b2 then 4 else 0) + (if b1 then 2 else 0) + (if b0 then 1 else 0)
  }

  function HighNibble(b: byte): (n: nat) ensures n < 16 { (b >> 4) as nat }

  function LowNibble(b: byte): (n: nat) ensures n < 16 { (b & 0x0f) as nat }

  lemma ByteNibbles(b: byte)
    ensures HighNibble(b) == var s := ByteBits(b); Nibble(s[0], s[1], s[2], s[3])
    ensures LowNibble(b) == var s := ByteBits(b); Nibble(s[4], s[5], s[6], s[7])
  {}

  // ---- bytes as numbers -----------------------------------------------------

  function Pow2(k: nat): (r: nat)
    ensures r > 0
  {
    if k == 0 then 1 else 2 * Pow2(k - 1)
  }

  function Pow256(n: nat): (r: nat)
    ensures r > 0
  {
    if n == 0 then 1 else 256 * Pow256(n - 1)
  }

  /** The number a bit string spells, most significant bit first */
  function Value(s: seq<bool>): nat
  {
    if s == [] then 0 else 2 * Value(s[..|s| - 1]) + (if s[|s| - 1] then 1 else 0)
  }

  /** The low w bits of a number */
  function LowBits(n: nat, w: nat): (s: seq<bool>)
    ensures |s| == w
  {
    if w == 0 then [] else LowBits(n / 2, w - 1) + [n % 2 == 1]
  }

  /** The truncating cast of an unsigned integer to a byte */
  function ByteOf(n: nat): byte { BitsByte(LowBits(n, 8)) }

  /** A byte as an unsigned integer */
  function ValueOf(b: byte): (n: nat)
    ensures n < 256
  {
    ValueBound(ByteBits(b));
    Pow2Eight();
    Value(ByteBits(b))
  }

  lemma {:induction false} ValueBound(s: seq<bool>)
    ensures Value(s) < Pow2(|s|)
  {
    if s != [] { ValueBound(s[..|s| - 1]); }
  }

  lemma ValueNext(s: seq<bool>, b: bool)
    ensures Value(s + [b]) == 2 * Value(s) + if b then 1 else 0
  {
    assert (s + [b])[..|s|] == s;
  }

  lemma {:induction false} ValueLowBits(n: nat, w: nat)
    ensures Value(LowBits(n, w)) == n % Pow2(w)
  {
    hide Value;
    if w == 0 {
      ValueNone(n);
    } else {
      ValueNext(LowBits(n / 2, w - 1), n % 2 == 1);
      ValueLowBits(n / 2, w - 1);
      HalfMod(n, Pow2(w - 1));
    }
  }

  lemma ValueNone(n: nat)
    ensures Value([]) == 0 == n % 1
  {}

  lemma HalfMod(n: nat, p: nat)
    requires p > 0
    ensures 2 * (n / 2 % p) + n % 2 == n % (2 * p)
  {
    var q, r := n / 2 / p, n / 2 % p;
    assert n / 2 == q * p + r;
    assert n == q * (2 * p) + (2 * r + n % 2);
    RemainderIs(n, 2 * p, q, 2 * r + n % 2);
  }

  lemma RemainderIs(n: nat, d: nat, q: nat, r: nat)
    requires d > 0 && n == q * d + r && r < d
    ensures n % d == r && n / d == q
  {
    var q', r' := n / d, n % d;
    assert q' * d + r' == q * d + r by { assert n == q' * d + r'; }
    SameQuotient(d, q, r, q', r');
  }

  /** Division with remainder is unique. */
  lemma SameQuotient(d: nat, q: int, r: nat, q': int, r': nat)
    requires r < d && r' < d && q * d + r == q' * d + r'
    ensures q == q' && r == r'
  {
    if q < q' {
      MulAtLeast(q' - q, d);
    } else if q > q' {
      MulAtLeast(q - q', d);
    }
  }

  lemma MulAtLeast(k: int, d: nat)
    requires k >= 1
    ensures k * d >= d
  {}

  lemma {:induction false} LowBitsValue(s: seq<bool>)
    ensures LowBits(Value(s), |s|) == s
  {
    if s != [] {
      var t := s[..|s| - 1];
      LowBitsValue(t);
      assert Value(s) / 2 == Value(t);
      assert s == t + [s[|s| - 1]];
    }
  }

  lemma ByteOfValue(n: nat)
    ensures ValueOf(ByteOf(n)) == n % 256
  {
    hide ByteBits, BitsByte, Value, LowBits;
    BitsByteInverse(LowBits(n, 8));
    ValueLowBits(n, 8);
    Pow2Eight();
  }

  lemma Pow2Eight()
    ensures Pow2(8) == 256
  {}

  lemma ValueRoundTrip(x: byte)
    ensures ByteOf(ValueOf(x)) == x
  {
    hide ByteBits, BitsByte, Value, LowBits;
    LowBitsValue(ByteBits(x));
    ByteBitsInverse(x);
  }

  lemma ByteOfDigit(n: nat)
    ensures ByteOf(n) == ByteOf(n % 256)
  {
    hide BitsByte, LowBits, Value;
    ValueLowBits(n, 8);
    Pow2Eight();
    LowBitsValue(LowBits(n, 8));
  }

  // ---- little-endian strings -----------------------------------------------

  /** The number a little-endian byte string spells */
  function Le(b: seq<byte>): nat
  {
    if b == [] then 0 else ValueOf(b[0]) + 256 * Le(b[1..])
  }

  /** The n low bytes of a number, lowest first */
  function LeBytes(v: int, n: nat): (r: seq<byte>)
    requires v >= 0
    ensures |r| == n
    decreases n
  {
    if n == 0 then [] else [ByteOf(v)] + LeBytes(v / 256, n - 1)
  }

  lemma {:induction false} LeOfBytes(v: nat, n: nat)
    requires v < Pow256(n)
    ensures Le(LeBytes(v, n)) == v
    decreases n
  {
    hide ByteOf, ValueOf;
    if n > 0 {
      LeOfBytes(v / 256, n - 1);
      ByteOfValue(v);
      assert LeBytes(v, n)[1..] == LeBytes(v / 256, n - 1);
    }
  }

  lemma {:induction false} BytesOfLe(b: seq<byte>)
    ensures Le(b) < Pow256(|b|) && LeBytes(Le(b), |b|) == b
  {
    hide ByteOf, ValueOf;
    if b != [] {
      BytesOfLe(b[1..]);
      var v := Le(b);
      assert v / 256 == Le(b[1..]) && v % 256 == ValueOf(b[0]);
      ByteOfDigit(v);
      ValueRoundTrip(b[0]);
      assert b == [b[0]] + b[1..];
    }
  }

  lemma {:induction false} LeConcat(d: seq<byte>, e: seq<byte>)
    ensures Le(d + e) == Le(d) + Pow256(|d|) * Le(e)
  {
    hide ValueOf;
    if d == [] {
      assert d + e == e;
    } else {
      assert (d + e)[1..] == d[1..] + e;
      LeConcat(d[1..], e);
      Times256(Pow256(|d| - 1), Le(e));
    }
  }

  lemma Times256(p: int, e: int)
    ensures (256 * p) * e == 256 * (p * e)
  {}
}
