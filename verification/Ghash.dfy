/** GHASH of section 6.4 of NIST SP 800-38D: the reference every fast form is
    compared with. */
module Ghash {
  import opened Bytes
  import Gf128

  /** One block: Y := (Y ^ X) . H, a short last block being zero-padded */
  function Step(h: Gf128.Elem, y: Block, d: seq<byte>): Block
    requires |d| <= 16
  {
    FromBits(Gf128.Mul(Bits(XorBlock(y, Pad(d))), h))
  }

  function Hash(h: Gf128.Elem, y: Block, d: seq<byte>): Block
    decreases |d|
  {
    if d == [] then y
    else Hash(h, Step(h, y, d[..Take(d)]), d[Take(d)..])
  }

  /** Whole blocks may be hashed first and the rest afterwards. */
  lemma {:induction false} HashConcat(h: Gf128.Elem, y: Block, d: seq<byte>, e: seq<byte>)
    requires |d| % 16 == 0
    ensures Hash(h, y, d + e) == Hash(h, Hash(h, y, d), e)
    decreases |d|
  {
    hide Step;
    if d == [] {
      assert d + e == e;
    } else {
      assert (d + e)[..16] == d[..16] && (d + e)[16..] == d[16..] + e;
      HashConcat(h, Step(h, y, d[..16]), d[16..], e);
    }
  }

  lemma HashOne(h: Gf128.Elem, y: Block, d: seq<byte>)
    requires 0 < |d| <= 16
    ensures Hash(h, y, d) == Step(h, y, d)
  {
    hide Step;
    assert d[..|d|] == d && d[|d|..] == [];
  }

  /** One step seen on field elements */
  lemma StepBits(h: Gf128.Elem, x: Gf128.Elem, d: seq<byte>)
    requires |d| <= 16
    ensures Step(h, FromBits(x), d) == FromBits(Gf128.Mul(Gf128.Xor(x, Bits(Pad(d))), h))
  {
    hide Bits, FromBits, XorBlock, Gf128.Mul, Gf128.Xor;
    BitsOfXor(FromBits(x), Pad(d));
    BitsInverse(x);
  }

  lemma BitsOfXor(a: Block, b: Block)
    ensures Bits(XorBlock(a, b)) == Gf128.Xor(Bits(a), Bits(b))
  {
    hide Bits, XorBlock;
    forall k | 0 <= k < 128 ensures Bits(XorBlock(a, b))[k] == Gf128.Xor(Bits(a), Bits(b))[k] {
      BitsXor(a, b, k);
    }
  }
}

/** The portable GHASH: 16-entry tables of nibble multiples of H, and a
    four-bit reduction table. A uint64_t is its 64 bits, most significant
    first; an element is a pair of them, high word first. */
module GhashTable {
  import opened Bytes
  import opened Gf128
  import Ghash

  function Pair(hi: Word, lo: Word): Elem { hi + lo }

  function ZeroWord(): Word { seq(64, _ => false) }

  function Zeros(n: nat): (r: seq<bool>) ensures |r| == n && forall i :: 0 <= i < n ==> !r[i] { seq(n, _ => false) }

  function Shr(w: Word, n: nat): Word requires n <= 64 { Zeros(n) + w[..64 - n] }

  function Shl(w: Word, n: nat): Word requires n <= 64 { w[n..] + Zeros(n) }

  function WXor(a: Word, b: Word): Word { seq(64, i requires 0 <= i < 64 => a[i] != b[i]) }

  function WOr(a: Word, b: Word): Word { seq(64, i requires 0 <= i < 64 => a[i] || b[i]) }

  function Bits16(v: bv16): (r: seq<bool>) ensures |r| == 16
  {
    [v & 0x8000 != 0, v & 0x4000 != 0, v & 0x2000 != 0, v & 0x1000 != 0,
     v & 0x0800 != 0, v & 0x0400 != 0, v & 0x0200 != 0, v & 0x0100 != 0,
     v & 0x0080 != 0, v & 0x0040 != 0, v & 0x0020 != 0, v & 0x0010 != 0,
     v & 0x0008 != 0, v & 0x0004 != 0, v & 0x0002 != 0, v & 0x0001 != 0]
  }

  /** A 16-bit constant moved to the top of a word: v << 48 */
  function Top16(v: bv16): Word { Bits16(v) + Zeros(48) }

  const LAST4: seq<bv16> :=
    [0x0000, 0x1c20, 0x3840, 0x2460, 0x7080, 0x6ca0, 0x48c0, 0x54e0,
     0xe100, 0xfd20, 0xd940, 0xc560, 0x9180, 0x8da0, 0xa9c0, 0xb5e0]

  /** The low nibble of a word as a table index */
  function Low4(w: Word): nat { Nibble(w[60], w[61], w[62], w[63]) }

  // ---- what a table entry is ------------------------------------------------

  /** The nibble n, its most significant bit being the lowest power, times y */
  function NibMul(n: nat, y: Elem): Elem
    requires n < 16
  {
    Xor(Xor(Sel(n / 8 % 2 == 1, y), Sel(n / 4 % 2 == 1, XtN(y, 1))),
        Xor(Sel(n / 2 % 2 == 1, XtN(y, 2)), Sel(n % 2 == 1, XtN(y, 3))))
  }

  lemma NibMulSum(i: nat, j: nat, y: Elem)
    requires i == 2 || i == 4 || i == 8
    requires j < i
    ensures NibMul(i + j, y) == Xor(NibMul(i, y), NibMul(j, y))
  {
    hide XtN, Xor, Sel;
    var a, b := (n: nat) => n / 8 % 2 == 1, (n: nat) => n / 4 % 2 == 1;
    var c, d := (n: nat) => n / 2 % 2 == 1, (n: nat) => n % 2 == 1;
    NibbleSum(i, j);
    var y1, y2, y3 := XtN(y, 1), XtN(y, 2), XtN(y, 3);
    SelXor(a(i), a(j), y); SelXor(b(i), b(j), y1); SelXor(c(i), c(j), y2); SelXor(d(i), d(j), y3);
    XorSwap(Sel(a(i), y), Sel(a(j), y), Sel(b(i), y1), Sel(b(j), y1));
    XorSwap(Sel(c(i), y2), Sel(c(j), y2), Sel(d(i), y3), Sel(d(j), y3));
    XorSwap(Xor(Sel(a(i), y), Sel(b(i), y1)), Xor(Sel(a(j), y), Sel(b(j), y1)),
            Xor(Sel(c(i), y2), Sel(d(i), y3)), Xor(Sel(c(j), y2), Sel(d(j), y3)));
  }

  lemma NibbleSum(i: nat, j: nat)
    requires i == 2 || i == 4 || i == 8
    requires j < i
    ensures (i + j) / 8 % 2 == 1 <==> ((i / 8 % 2 == 1) != (j / 8 % 2 == 1))
    ensures (i + j) / 4 % 2 == 1 <==> ((i / 4 % 2 == 1) != (j / 4 % 2 == 1))
    ensures (i + j) / 2 % 2 == 1 <==> ((i / 2 % 2 == 1) != (j / 2 % 2 == 1))
    ensures (i + j) % 2 == 1 <==> ((i % 2 == 1) != (j % 2 == 1))
  {}

  lemma NibMulPowers(y: Elem)
    ensures NibMul(0, y) == Zero() && NibMul(8, y) == y
    ensures NibMul(4, y) == XtN(y, 1) && NibMul(2, y) == XtN(y, 2) && NibMul(1, y) == XtN(y, 3)
  {
    hide XtN;
  }

  /** The shift of the table construction is one multiplication by x. */
  lemma WordXt(hi: Word, lo: Word)
    ensures Pair(WXor(Shr(hi, 1), if lo[63] then Top16(0xe100) else ZeroWord()), WOr(Shr(lo, 1), Shl(hi, 63))) ==
      Xt(Pair(hi, lo))
  {
    var e := Top16(0xe100);
    assert e[0] && e[1] && e[2] && !e[3] && !e[4] && !e[5] && !e[6] && e[7];
    forall i | 8 <= i < 64 ensures !e[i] {}
    var l, r := WXor(Shr(hi, 1), if lo[63] then e else ZeroWord()) + WOr(Shr(lo, 1), Shl(hi, 63)), Xt(hi + lo);
    forall i | 0 <= i < 128 ensures l[i] == r[i] {}
  }

  // ---- the four-bit reduction table ----------------------------------------

  /** Whether x^i occurs in x^m . R, for m < 4 */
  predicate InR(i: nat, m: nat) { i == m || i == m + 1 || i == m + 2 || i == m + 7 }

  /** Four multiplications by x: a shift, plus the reduction of the four
      coefficients that leave the element */
  lemma XtFour(v: Elem, i: nat)
    requires i < 128
    ensures XtN(v, 4)[i] == ((i >= 4 && v[i - 4]) !=
      (((v[124] && InR(i, 0)) != (v[125] && InR(i, 1))) != ((v[126] && InR(i, 2)) != (v[127] && InR(i, 3)))))
  {
    hide Xt, XtN;
    XtPow(v);
    var v1 := Xt(v);
    var v2 := Xt(v1);
    var v3 := Xt(v2);
    assert XtN(v, 4) == Xt(v3);
    XtBit(v3, i);
    XtBit(v2, 127); XtBit(v1, 126); XtBit(v, 125);
    XtBit(v1, 127); XtBit(v, 126);
    XtBit(v, 127);
    if i > 0 {
      XtBit(v2, i - 1);
      if i > 1 {
        XtBit(v1, i - 2);
        if i > 2 { XtBit(v, i - 3); }
      }
    }
  }

  lemma XtBit(v: Elem, i: nat)
    requires i < 128
    ensures Xt(v)[i] == ((i > 0 && v[i - 1]) != (v[127] && InR(i, 0)))
  {}

  /** Every entry of the reduction table is the combination of x^m . R its
      index selects: the table is derived, not assumed. */
  lemma Last4Derived(b3: bool, b2: bool, b1: bool, b0: bool, i: nat)
    requires i < 16
    ensures Bits16(LAST4[Nibble(b3, b2, b1, b0)])[i] ==
      (((b3 && InR(i, 0)) != (b2 && InR(i, 1))) != ((b1 && InR(i, 2)) != (b0 && InR(i, 3))))
  {}

  /** The shift-and-lookup of the block loop is four multiplications by x. */
  lemma WordXt4(hi: Word, lo: Word)
    ensures Pair(WXor(Shr(hi, 4), Top16(LAST4[Low4(lo)])), WOr(Shr(lo, 4), Shl(hi, 60))) == XtN(Pair(hi, lo), 4)
  {
    hide XtN, Bits16;
    var l, r := WXor(Shr(hi, 4), Top16(LAST4[Low4(lo)])) + WOr(Shr(lo, 4), Shl(hi, 60)), XtN(hi + lo, 4);
    forall i | 0 <= i < 128 ensures l[i] == r[i] {
      XtFour(hi + lo, i);
      if i < 16 {
        Last4Derived(lo[60], lo[61], lo[62], lo[63], i);
      }
    }
  }

  // ---- Horner evaluation by nibbles ----------------------------------------

  /** The part of x . y that the coefficients from k upwards contribute,
      divided by x^k */
  function Horner(x: Elem, y: Elem, k: nat): Elem
    requires k <= 128
    decreases 128 - k
  {
    if k == 128 then Zero() else Xor(Sel(x[k], y), Xt(Horner(x, y, k + 1)))
  }

  /** Prefix of the product plus the suffix scaled back is the product. */
  lemma {:induction false} HornerSplits(x: Elem, y: Elem, k: nat)
    requires k <= 128
    ensures Xor(Acc(x, y, k), XtN(Horner(x, y, k), k)) == Mul(x, y)
    decreases 128 - k
  {
    hide Xor, Xt, Sel;
    if k == 128 {
      XtNSel(false, Zero(), 128);
      SelFalse(XtN(Zero(), 128)); SelFalse(Zero());
      XorZero(Mul(x, y));
    } else {
      HornerSplits(x, y, k + 1);
      var rest := Horner(x, y, k + 1);
      XtNXor(Sel(x[k], y), Xt(rest), k);
      XtNSel(x[k], y, k);
      XtNOne(rest);
      XtNSum(rest, 1, k);
      XorAssoc(Acc(x, y, k), Sel(x[k], XtN(y, k)), XtN(rest, k + 1));
    }
  }

  lemma SelFalse(a: Elem)
    ensures Sel(false, a) == Zero()
  {}

  lemma HornerIsProduct(x: Elem, y: Elem)
    ensures Horner(x, y, 0) == Mul(x, y)
  {
    hide Xor, Horner;
    HornerSplits(x, y, 0);
    XorZero(Horner(x, y, 0));
  }

  /** One nibble of Horner: multiply by x^4 and add the table entry. */
  lemma HornerNibble(x: Elem, y: Elem, k: nat)
    requires k <= 124
    ensures Horner(x, y, k) ==
      Xor(XtN(Horner(x, y, k + 4), 4), NibMul(Nibble(x[k], x[k + 1], x[k + 2], x[k + 3]), y))
  {
    hide Xt, Sel, Xor, NibMul, Nibble;
    NibMulBits(x[k], x[k + 1], x[k + 2], x[k + 3], y);
    var h4 := Horner(x, y, k + 4);
    var s0, s1, s2, s3 := Sel(x[k], y), Sel(x[k + 1], y), Sel(x[k + 2], y), Sel(x[k + 3], y);
    assert Horner(x, y, k + 3) == Xor(s3, Xt(h4));
    assert Horner(x, y, k + 2) == Xor(s2, Xt(Xor(s3, Xt(h4))));
    assert Horner(x, y, k + 1) == Xor(s1, Xt(Xor(s2, Xt(Xor(s3, Xt(h4))))));
    assert Horner(x, y, k) == Xor(s0, Xt(Xor(s1, Xt(Xor(s2, Xt(Xor(s3, Xt(h4))))))));
    NestedXt(s0, s1, s2, s3, h4);
    XtNSel(x[k + 1], y, 1); XtNSel(x[k + 2], y, 2); XtNSel(x[k + 3], y, 3);
  }

  lemma NibMulBits(b3: bool, b2: bool, b1: bool, b0: bool, y: Elem)
    ensures NibMul(Nibble(b3, b2, b1, b0), y) ==
      Xor(Xor(Sel(b3, y), Sel(b2, XtN(y, 1))), Xor(Sel(b1, XtN(y, 2)), Sel(b0, XtN(y, 3))))
  {
    hide Xor, Sel, XtN, Nibble;
    NibbleBits(b3, b2, b1, b0);
  }

  lemma NibbleBits(b3: bool, b2: bool, b1: bool, b0: bool)
    ensures var n := Nibble(b3, b2, b1, b0);
      (n / 8 % 2 == 1) == b3 && (n / 4 % 2 == 1) == b2 && (n / 2 % 2 == 1) == b1 && (n % 2 == 1) == b0
  {}

  lemma NestedXt(s0: Elem, s1: Elem, s2: Elem, s3: Elem, h: Elem)
    ensures Xor(s0, Xt(Xor(s1, Xt(Xor(s2, Xt(Xor(s3, Xt(h)))))))) ==
      Xor(XtN(h, 4), Xor(Xor(s0, XtN(s1, 1)), Xor(XtN(s2, 2), XtN(s3, 3))))
  {
    hide Xt, XtN;
    assert Xt(Xor(s3, Xt(h))) == Xor(XtN(s3, 1), XtN(h, 2)) by { XtXor(s3, Xt(h)); XtPow(s3); XtPow(h); }
    assert Xt(Xor(s2, Xor(XtN(s3, 1), XtN(h, 2)))) == Xor(XtN(s2, 1), Xor(XtN(s3, 2), XtN(h, 3))) by {
      XtXor(s2, Xor(XtN(s3, 1), XtN(h, 2))); XtXor(XtN(s3, 1), XtN(h, 2));
      XtPow(s2); XtPow(s3); XtPow(h);
    }
    var t := Xor(XtN(s2, 1), Xor(XtN(s3, 2), XtN(h, 3)));
    assert Xt(Xor(s1, t)) == Xor(XtN(s1, 1), Xor(XtN(s2, 2), Xor(XtN(s3, 3), XtN(h, 4)))) by {
      XtXor(s1, t); XtXor(XtN(s2, 1), Xor(XtN(s3, 2), XtN(h, 3))); XtXor(XtN(s3, 2), XtN(h, 3));
      XtPow(s1); XtPow(s2); XtPow(s3); XtPow(h);
    }
    Shuffle(s0, XtN(s1, 1), XtN(s2, 2), XtN(s3, 3), XtN(h, 4));
  }

  lemma XtPow(a: Elem)
    ensures XtN(a, 1) == Xt(a) && XtN(a, 2) == Xt(XtN(a, 1)) && XtN(a, 3) == Xt(XtN(a, 2)) && XtN(a, 4) == Xt(XtN(a, 3))
    ensures Xt(Xt(a)) == XtN(a, 2)
  {
    hide Xt;
    assert XtN(a, 0) == a;
  }

  lemma Shuffle(a: Elem, b: Elem, c: Elem, d: Elem, e: Elem)
    ensures Xor(a, Xor(b, Xor(c, Xor(d, e)))) == Xor(e, Xor(Xor(a, b), Xor(c, d)))
  {}

  // ---- the context: table construction and block step -----------------------

  function LoadWord(b: seq<byte>): Word
    requires |b| == 8
  {
    seq(64, k requires 0 <= k < 64 => ByteBits(b[k / 8])[k % 8])
  }

  lemma LoadedBit(b: Block, i: nat, j: nat)
    requires i < 16 && j < 8
    ensures Pair(LoadWord(b[..8]), LoadWord(b[8..]))[8 * i + j] == ByteBits(b[i])[j]
  {
    hide ByteBits;
    var k := if i < 8 then i else i - 8;
    assert (8 * k + j) / 8 == k && (8 * k + j) % 8 == j;
    assert i >= 8 ==> b[8..][k] == b[i];
  }

  lemma LoadWords(b: Block)
    ensures Pair(LoadWord(b[..8]), LoadWord(b[8..])) == Bits(b)
  {
    hide ByteBits, Bits, LoadWord, Pair;
    var w, v := Pair(LoadWord(b[..8]), LoadWord(b[8..])), Bits(b);
    forall k | 0 <= k < 128 ensures w[k] == v[k] {
      LoadedBit(b, k / 8, k % 8);
      assert k == 8 * (k / 8) + k % 8;
    }
  }

  /** Big-endian load of eight bytes, shifting in one at a time */
  method LoadBe(b: seq<byte>) returns (w: Word)
    requires |b| == 8
    ensures w == LoadWord(b)
  {
    hide ByteBits;
    w := ZeroWord();
    for i := 0 to 8
      invariant forall k :: 64 - 8 * i <= k < 64 ==> w[k] == LoadWord(b)[k - (64 - 8 * i)]
      invariant forall k :: 0 <= k < 64 - 8 * i ==> !w[k]
    {
      w := WOr(Shl(w, 8), Zeros(56) + ByteBits(b[i]));
    }
  }

  lemma WordsXor(a: Word, b: Word, c: Word, d: Word)
    ensures Pair(WXor(a, c), WXor(b, d)) == Xor(Pair(a, b), Pair(c, d))
  {}

  lemma ZeroPair()
    ensures Pair(ZeroWord(), ZeroWord()) == Zero()
  {}

  /** Hl and Hh of struct lr_gcm_ctx */
  class Tables {
    const hh: array<Word>
    const hl: array<Word>

    ghost predicate Shape()
    {
      hh.Length == 16 && hl.Length == 16 && hh != hl
    }

    /** The hash state is not stored in the tables. */
    ghost predicate Apart(y: array<byte>) { hh as object != y && hl as object != y }

    /** Entry n is nibble n times h. */
    ghost predicate Entry(n: nat, h: Elem)
      requires Shape() && n < 16
      reads hh, hl
    {
      Pair(hh[n], hl[n]) == NibMul(n, h)
    }

    ghost predicate Valid(h: Elem)
      reads hh, hl
    {
      Shape() && forall n :: 0 <= n < 16 ==> Pair(hh[n], hl[n]) == NibMul(n, h)
    }

    /** ghash_tables_init */
    constructor (key: Block)
      ensures Valid(Bits(key)) && fresh(hh) && fresh(hl)
    {
      hh := new Word[16];
      hl := new Word[16];
      new;
      Powers(key);
      Sums(Bits(key));
    }

    /** The entries 0, 8, 4, 2 and 1 */
    method Powers(key: Block)
      requires Shape()
      modifies hh, hl
      ensures var h := Bits(key); Entry(0, h) && Entry(8, h) && Entry(4, h) && Entry(2, h) && Entry(1, h)
    {
      hide XtN, Xt, NibMul, Pair, WXor, WOr, Shr, Shl, Top16, LoadWord;
      ghost var h := Bits(key);
      var hi := LoadBe(key[..8]);
      var lo := LoadBe(key[8..]);
      LoadWords(key);
      NibMulPowers(h);
      ZeroPair();
      hl[0], hh[0] := ZeroWord(), ZeroWord();
      hl[8], hh[8] := lo, hi;
      var i := 4;
      while i > 0
        invariant i in {4, 2, 1, 0}
        invariant Pair(hi, lo) ==
          if i == 4 then h else if i == 2 then XtN(h, 1) else if i == 1 then XtN(h, 2) else XtN(h, 3)
        invariant Entry(0, h) && Entry(8, h)
        invariant i < 4 ==> Entry(4, h)
        invariant i < 2 ==> Entry(2, h)
        invariant i < 1 ==> Entry(1, h)
        decreases i
      {
        WordXt(hi, lo);
        XtPow(h);
        var t: Word := if lo[63] then Top16(0xe100) else ZeroWord();
        lo, hi := WOr(Shr(lo, 1), Shl(hi, 63)), WXor(Shr(hi, 1), t);
        hl[i], hh[i] := lo, hi;
        i := i / 2;
      }
    }

    /** The remaining entries, as sums of those below */
    method Sums(ghost h: Elem)
      requires Shape()
      requires Entry(0, h) && Entry(8, h) && Entry(4, h) && Entry(2, h) && Entry(1, h)
      modifies hh, hl
      ensures Valid(h)
    {
      hide NibMul, Pair;
      var i := 2;
      while i <= 8
        invariant i in {2, 4, 8, 16}
        invariant forall n :: 0 <= n < i && n < 16 ==> Pair(hh[n], hl[n]) == NibMul(n, h)
        invariant Entry(4, h) && Entry(8, h)
        invariant i == 2 ==> Entry(2, h)
        decreases 16 - i
      {
        SumRow(i, h);
        i := i * 2;
      }
    }

    method SumRow(i: nat, ghost h: Elem)
      requires Shape() && i in {2, 4, 8}
      requires forall n :: 0 <= n <= i ==> Pair(hh[n], hl[n]) == NibMul(n, h)
      modifies hh, hl
      ensures forall n :: 0 <= n < 2 * i ==> Pair(hh[n], hl[n]) == NibMul(n, h)
      ensures forall n :: 2 * i <= n < 16 ==> hh[n] == old(hh[n]) && hl[n] == old(hl[n])
    {
      hide NibMul, Pair, WXor, Xor;
      var vh, vl := hh[i], hl[i];
      for j := 1 to i
        invariant forall n :: 0 <= n < i + j ==> Pair(hh[n], hl[n]) == NibMul(n, h)
        invariant forall n :: 2 * i <= n < 16 ==> hh[n] == old(hh[n]) && hl[n] == old(hl[n])
        invariant vh == hh[i] && vl == hl[i]
      {
        WordsXor(vh, vl, hh[j], hl[j]);
        NibMulSum(i, j, h);
        hh[i + j], hl[i + j] := WXor(vh, hh[j]), WXor(vl, hl[j]);
      }
    }

    /** One shift-reduce-and-add of the block loop */
    method ShiftAdd(zh: Word, zl: Word, n: nat, ghost h: Elem) returns (yh: Word, yl: Word)
      requires Valid(h) && n < 16
      ensures Pair(yh, yl) == Xor(XtN(Pair(zh, zl), 4), NibMul(n, h))
    {
      hide NibMul, Pair, Xor, XtN, WOr, WXor, Shr, Shl, Top16;
      var rem := Low4(zl);
      WordXt4(zh, zl);
      yl := WOr(Shr(zl, 4), Shl(zh, 60));
      yh := WXor(Shr(zh, 4), Top16(LAST4[rem]));
      assert Entry(n, h);
      WordsXor(yh, yl, hh[n], hl[n]);
      yh, yl := WXor(yh, hh[n]), WXor(yl, hl[n]);
    }

    /** ghash_block_portable: x := x . H in place */
    method BlockStep(x: array<byte>, ghost h: Elem)
      requires Valid(h) && x.Length == 16
      modifies x
      ensures x[..] == FromBits(Mul(Bits(old(x[..])), h))
    {
      hide NibMul, Pair, Xor, XtN, Mul, Bits, Horner, FromBits, Nibble, LowNibble, HighNibble;
      ghost var b: Block := x[..];
      ghost var e := Bits(b);
      var lo := LowNibble(x[15]);
      ByteNibblesAt(b, 15);
      assert Entry(lo, h);
      HornerLast(e, h);
      var zh, zl := hh[lo], hl[lo];
      var i := 15;
      while i >= 0
        modifies {}
        invariant -1 <= i <= 15
        invariant Pair(zh, zl) == if i == 15 then Horner(e, h, 124) else Horner(e, h, 8 * (i + 1))
      {
        ByteNibblesAt(b, i);
        if i != 15 {
          HornerNibble(e, h, 8 * i + 4);
          zh, zl := ShiftAdd(zh, zl, LowNibble(x[i]), h);
        }
        HornerNibble(e, h, 8 * i);
        zh, zl := ShiftAdd(zh, zl, HighNibble(x[i]), h);
        i := i - 1;
      }
      HornerIsProduct(e, h);
      StoreBlock(x, zh, zl);
    }
  }

  lemma ByteNibblesAt(b: Block, i: nat)
    requires i < 16
    ensures var e := Bits(b);
      HighNibble(b[i]) == Nibble(e[8 * i], e[8 * i + 1], e[8 * i + 2], e[8 * i + 3]) &&
      LowNibble(b[i]) == Nibble(e[8 * i + 4], e[8 * i + 5], e[8 * i + 6], e[8 * i + 7])
  {
    hide ByteBits, HighNibble, LowNibble, Nibble;
    ByteNibbles(b[i]);
    var e := Bits(b);
    assert e[8 * i + 0] == ByteBits(b[i])[0] && e[8 * i + 1] == ByteBits(b[i])[1] && e[8 * i + 2] == ByteBits(b[i])[2]
        && e[8 * i + 3] == ByteBits(b[i])[3] && e[8 * i + 4] == ByteBits(b[i])[4] && e[8 * i + 5] == ByteBits(b[i])[5]
        && e[8 * i + 6] == ByteBits(b[i])[6] && e[8 * i + 7] == ByteBits(b[i])[7];
  }

  /** The first lookup is the Horner value of the last nibble alone. */
  lemma HornerLast(x: Elem, y: Elem)
    ensures Horner(x, y, 124) == NibMul(Nibble(x[124], x[125], x[126], x[127]), y)
  {
    hide Xor, XtN, NibMul;
    HornerNibble(x, y, 124);
    XtNSel(false, Zero(), 4);
    XorZero(NibMul(Nibble(x[124], x[125], x[126], x[127]), y));
  }

  /** Big-endian stores of the two words */
  method StoreBlock(x: array<byte>, zh: Word, zl: Word)
    requires x.Length == 16
    modifies x
    ensures x[..] == FromBits(Pair(zh, zl))
  {
    hide BitsByte;
    for i := 0 to 8
      invariant forall k :: 0 <= k < i ==> x[k] == BitsByte(Pair(zh, zl)[8 * k..8 * k + 8])
    {
      assert Pair(zh, zl)[8 * i..8 * i + 8] == zh[8 * i..8 * i + 8];
      x[i] := BitsByte(zh[8 * i..8 * i + 8]);
    }
    for i := 0 to 8
      invariant forall k :: 0 <= k < 8 + i ==> x[k] == BitsByte(Pair(zh, zl)[8 * k..8 * k + 8])
    {
      assert Pair(zh, zl)[8 * (8 + i)..8 * (8 + i) + 8] == zl[8 * i..8 * i + 8];
      x[8 + i] := BitsByte(zl[8 * i..8 * i + 8]);
    }
  }

  /** y ^= d over the first |d| bytes */
  method XorInto(y: array<byte>, d: seq<byte>)
    requires y.Length == 16 && |d| <= 16
    modifies y
    ensures y[..] == XorBlock(old(y[..]), Pad(d))
  {
    for i := 0 to |d|
      invariant forall k :: 0 <= k < i ==> y[k] == XorByte(old(y[k]), d[k])
      invariant forall k :: i <= k < 16 ==> y[k] == old(y[k])
    {
      y[i] := XorByte(y[i], d[i]);
    }
    forall k | |d| <= k < 16 ensures y[k] == XorByte(old(y[k]), 0) { XorByteZero(y[k]); }
  }

  lemma XorByteZero(a: byte)
    ensures XorByte(a, 0) == a
  {}

  /** One block of ghash_update_portable: y := (y ^ d) . H */
  method AddBlock(t: Tables, y: array<byte>, d: seq<byte>, ghost h: Elem)
    requires t.Valid(h) && t.Apart(y) && y.Length == 16 && |d| <= 16
    modifies y
    ensures t.Valid(h)
    ensures y[..] == Ghash.Step(h, old(y[..]), d)
  {
    hide XorBlock, Mul, NibMul, Pair, Bits, FromBits;
    XorInto(y, d);
    t.BlockStep(y, h);
  }

  /** ghash_update_portable */
  method Update(t: Tables, y: array<byte>, data: seq<byte>, ghost h: Elem)
    requires t.Valid(h) && t.Apart(y) && y.Length == 16
    modifies y
    ensures t.Valid(h)
    ensures y[..] == Ghash.Hash(h, old(y[..]), data)
  {
    hide Ghash.Step, NibMul, Pair;
    var d := data;
    while |d| >= 16
      invariant t.Valid(h)
      invariant Ghash.Hash(h, y[..], d) == Ghash.Hash(h, old(y[..]), data)
      decreases |d|
    {
      AddBlock(t, y, d[..16], h);
      d := d[16..];
    }
    if d != [] {
      Ghash.HashOne(h, y[..], d);
      AddBlock(t, y, d, h);
    }
  }
}
