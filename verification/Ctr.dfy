/** AES counter mode over the GCM counter: twelve nonce bytes and a 32-bit
    big-endian counter that wraps. The block cipher is a parameter. */
module Ctr {
  import opened Bytes

  type Cipher = Block -> Block

  /** Four big-endian bytes of a 32-bit value */
  function Be32(v: nat): (r: seq<byte>)
    ensures |r| == 4
  {
    [ByteOf(v / 0x100_0000), ByteOf(v / 0x1_0000), ByteOf(v / 0x100), ByteOf(v)]
  }

  function Load32(b: seq<byte>): (v: nat)
    requires |b| == 4
    ensures v < W32
  {
    ValueOf(b[0]) * 0x100_0000 + ValueOf(b[1]) * 0x1_0000 + ValueOf(b[2]) * 0x100 + ValueOf(b[3])
  }

  /** A 32-bit value is its four base-256 digits. */
  lemma Digits(v: nat)
    requires v < W32
    ensures v / 0x100_0000 % 256 * 0x100_0000 + v / 0x1_0000 % 256 * 0x1_0000 + v / 0x100 % 256 * 0x100 + v % 256 == v
  {
    var a := v / 0x100;
    var b := a / 0x100;
    var c := b / 0x100;
    assert v / 0x1_0000 == b && v / 0x100_0000 == c;
    assert c < 256;
  }

  lemma DigitsOf(a: nat, b: nat, c: nat, d: nat)
    requires a < 256 && b < 256 && c < 256 && d < 256
    ensures var v := a * 0x100_0000 + b * 0x1_0000 + c * 0x100 + d;
      v / 0x100_0000 % 256 == a && v / 0x1_0000 % 256 == b && v / 0x100 % 256 == c && v % 256 == d
  {
    var v := a * 0x100_0000 + b * 0x1_0000 + c * 0x100 + d;
    assert v / 0x100 == a * 0x1_0000 + b * 0x100 + c;
    assert v / 0x1_0000 == a * 0x100 + b;
    assert v / 0x100_0000 == a;
  }

  lemma Load32Be32(v: nat)
    requires v < W32
    ensures Load32(Be32(v)) == v
  {
    hide ByteOf, ValueOf;
    ByteOfValue(v / 0x100_0000); ByteOfValue(v / 0x1_0000); ByteOfValue(v / 0x100); ByteOfValue(v);
    Digits(v);
  }

  lemma Be32Load32(b: seq<byte>)
    requires |b| == 4
    ensures Be32(Load32(b)) == b
  {
    hide ByteOf, ValueOf;
    var v := Load32(b);
    DigitsOf(ValueOf(b[0]), ValueOf(b[1]), ValueOf(b[2]), ValueOf(b[3]));
    ByteOfDigit(v / 0x100_0000); ByteOfDigit(v / 0x1_0000); ByteOfDigit(v / 0x100); ByteOfDigit(v);
    ValueRoundTrip(b[0]); ValueRoundTrip(b[1]); ValueRoundTrip(b[2]); ValueRoundTrip(b[3]);
  }

  /** Eight big-endian bytes of a 64-bit value */
  function Be64(v: nat): (r: seq<byte>)
    ensures |r| == 8
  {
    Be32(v / W32 % W32) + Be32(v % W32)
  }

  lemma Be64Injective(u: nat, v: nat)
    requires u < W32 * W32 && v < W32 * W32 && Be64(u) == Be64(v)
    ensures u == v
  {
    hide Be32;
    assert Be64(u)[..4] == Be32(u / W32 % W32) && Be64(u)[4..] == Be32(u % W32);
    assert Be64(v)[..4] == Be32(v / W32 % W32) && Be64(v)[4..] == Be32(v % W32);
    Load32Be32(u / W32 % W32); Load32Be32(v / W32 % W32);
    Load32Be32(u % W32); Load32Be32(v % W32);
    HighHalf(u); HighHalf(v);
  }

  /** The number eight bytes spell, most significant first */
  function Big64(b: seq<byte>): nat
    requires |b| == 8
  {
    ValueOf(b[0]) * 0x100_0000_0000_0000 + ValueOf(b[1]) * 0x1_0000_0000_0000 + ValueOf(b[2]) * 0x100_0000_0000
    + ValueOf(b[3]) * 0x1_0000_0000 + ValueOf(b[4]) * 0x100_0000 + ValueOf(b[5]) * 0x1_0000 + ValueOf(b[6]) * 0x100
    + ValueOf(b[7])
  }

  /** The eight bytes of a number spell it. */
  lemma Be64Value(v: nat)
    requires v < W64
    ensures Big64(Be64(v)) == v
  {
    hide Be32, ValueOf;
    var b := Be64(v);
    Load32Be32(v / W32 % W32);
    Load32Be32(v % W32);
    assert b[..4] == Be32(v / W32 % W32) && b[4..] == Be32(v % W32);
    HighHalf(v);
    Halves64(b);
  }

  lemma Halves64(b: seq<byte>)
    requires |b| == 8
    ensures Big64(b) == Load32(b[..4]) * W32 + Load32(b[4..])
  {
    hide ValueOf;
  }

  lemma HighHalf(u: nat)
    requires u < W32 * W32
    ensures u / W32 % W32 == u / W32 && u == u / W32 * W32 + u % W32
  {}

  /** The counter block for a 12-byte prefix */
  function CtrBlock(p: seq<byte>, c: nat): Block
    requires |p| == 12
  {
    p + Be32(c)
  }

  function Next(c: nat): (r: nat) ensures r < W32 { (c + 1) % W32 }

  /** GCTR of section 6.5 of NIST SP 800-38D */
  function Xcrypt(enc: Cipher, p: seq<byte>, c: nat, d: seq<byte>): (r: seq<byte>)
    requires |p| == 12
    ensures |r| == |d|
    decreases |d|
  {
    if d == [] then []
    else XorSeq(d[..Take(d)], enc(CtrBlock(p, c))) + Xcrypt(enc, p, Next(c), d[Take(d)..])
  }

  /** The counter after n bytes */
  function After(c: nat, n: nat): nat { (c + (n + 15) / 16) % W32 }

  /** Counter mode undoes itself. */
  lemma {:induction false} XcryptInverse(enc: Cipher, p: seq<byte>, c: nat, d: seq<byte>)
    requires |p| == 12
    ensures Xcrypt(enc, p, c, Xcrypt(enc, p, c, d)) == d
    decreases |d|
  {
    if d != [] {
      hide CtrBlock, Next, Xcrypt, XorSeq;
      var n, k := Take(d), enc(CtrBlock(p, c));
      var x, y := XorSeq(d[..n], k), Xcrypt(enc, p, Next(c), d[n..]);
      assert d == d[..n] + d[n..];
      XcryptStep(enc, p, c, d[..n], d[n..]);
      XcryptStep(enc, p, c, x, y);
      XorSeqCancel(d[..n], k);
      XcryptInverse(enc, p, Next(c), d[n..]);
    }
  }

  /** The first block, whole or the only one, then the rest */
  lemma XcryptStep(enc: Cipher, p: seq<byte>, c: nat, x: seq<byte>, y: seq<byte>)
    requires |p| == 12 && 0 < |x| <= 16 && (|x| == 16 || y == [])
    ensures Xcrypt(enc, p, c, x + y) == XorSeq(x, enc(CtrBlock(p, c))) + Xcrypt(enc, p, Next(c), y)
  {
    hide CtrBlock, Next, XorSeq;
    assert (x + y)[..|x|] == x && (x + y)[|x|..] == y;
  }

  /** Whole blocks may be processed first, the counter moving on. */
  lemma {:induction false} XcryptConcat(enc: Cipher, p: seq<byte>, c: nat, d: seq<byte>, e: seq<byte>)
    requires |p| == 12 && |d| % 16 == 0 && c < W32
    ensures Xcrypt(enc, p, c, d + e) == Xcrypt(enc, p, c, d) + Xcrypt(enc, p, After(c, |d|), e)
    decreases |d|
  {
    hide XorSeq, CtrBlock, Next, After;
    if d == [] {
      assert d + e == e;
      AfterNone(c);
    } else {
      assert (d + e)[..16] == d[..16] && (d + e)[16..] == d[16..] + e;
      XcryptConcat(enc, p, Next(c), d[16..], e);
      AfterStep(c, |d|);
      var k := XorSeq(d[..16], enc(CtrBlock(p, c)));
      assert k + (Xcrypt(enc, p, Next(c), d[16..]) + Xcrypt(enc, p, After(c, |d|), e)) ==
             (k + Xcrypt(enc, p, Next(c), d[16..])) + Xcrypt(enc, p, After(c, |d|), e);
    }
  }

  lemma AfterNone(c: nat)
    requires c < W32
    ensures After(c, 0) == c
  {}

  lemma AfterStep(c: nat, n: nat)
    requires n >= 16
    ensures After(Next(c), n - 16) == After(c, n)
  {
    assert (n - 16 + 15) / 16 + 1 == (n + 15) / 16;
    var k := (n - 1) / 16;
    ModSum(c + 1, k);
  }

  lemma ModSum(a: nat, k: nat)
    ensures (a % W32 + k) % W32 == (a + k) % W32
  {
    var q := a / W32;
    assert a == q * W32 + a % W32;
    assert a + k == q * W32 + (a % W32 + k);
  }

  /** Byte k is under byte k mod 16 of block c + k / 16 of the key stream. */
  lemma {:induction false} XcryptAt(enc: Cipher, p: seq<byte>, c: nat, d: seq<byte>, k: nat)
    requires |p| == 12 && k < |d| && c < W32
    ensures Xcrypt(enc, p, c, d)[k] == XorByte(d[k], enc(CtrBlock(p, (c + k / 16) % W32))[k % 16])
    decreases |d|
  {
    hide CtrBlock, XorByte, Xcrypt, Next;
    var n, key := Take(d), enc(CtrBlock(p, c));
    var head, tail := XorSeq(d[..n], key), Xcrypt(enc, p, Next(c), d[n..]);
    assert d == d[..n] + d[n..];
    XcryptStep(enc, p, c, d[..n], d[n..]);
    if k < 16 {
      assert (head + tail)[k] == head[k] && (c + k / 16) % W32 == c;
    } else {
      hide XorSeq;
      XcryptAt(enc, p, Next(c), d[16..], k - 16);
      assert (head + tail)[k] == tail[k - 16] && d[16..][k - 16] == d[k];
      NextCounter(c, k);
    }
  }

  lemma NextCounter(c: nat, k: nat)
    requires k >= 16
    ensures (Next(c) + (k - 16) / 16) % W32 == (c + k / 16) % W32 && (k - 16) % 16 == k % 16
  {
    assert k / 16 == (k - 16) / 16 + 1;
    ModSum(c + 1, (k - 16) / 16);
  }

  // ---- buffers ----------------------------------------------------------------

  /** out[pos..pos+n] := inp[pos..pos+n] ^ ks, byte by byte; inp may be out. */
  method XorAt(inp: array<byte>, out: array<byte>, pos: nat, n: nat, ks: seq<byte>)
    requires pos + n <= inp.Length && pos + n <= out.Length && n <= |ks|
    modifies out
    ensures out[pos..pos + n] == XorSeq(old(inp[pos..pos + n]), ks)
    ensures forall k :: 0 <= k < out.Length && !(pos <= k < pos + n) ==> out[k] == old(out[k])
  {
    hide XorByte;
    for i := 0 to n
      invariant forall k :: 0 <= k < i ==> out[pos + k] == XorByte(old(inp[pos + k]), ks[k])
      invariant forall k :: 0 <= k < out.Length && !(pos <= k < pos + i) ==> out[k] == old(out[k])
      invariant forall k :: pos + i <= k < pos + n ==> inp[k] == old(inp[k])
    {
      out[pos + i] := XorByte(inp[pos + i], ks[i]);
    }
  }

  /** The counter bytes 12..15 read, incremented and written back */
  method Increment(ctr: array<byte>)
    requires ctr.Length == 16
    modifies ctr
    ensures ctr[..12] == old(ctr[..12])
    ensures ctr[12..] == Be32(Next(Load32(old(ctr[12..]))))
    ensures Load32(ctr[12..]) == Next(Load32(old(ctr[12..])))
  {
    hide ByteOf, ValueOf;
    var v := Next(Load32(ctr[12..]));
    Load32Be32(v);
    ctr[12], ctr[13], ctr[14], ctr[15] := ByteOf(v / 0x100_0000), ByteOf(v / 0x1_0000), ByteOf(v / 0x100), ByteOf(v);
    assert ctr[12..] == Be32(v);
  }
}
