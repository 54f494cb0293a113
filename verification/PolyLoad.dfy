/** Splitting sixteen little-endian bytes into limbs, and clamping. */
module PolyLoad {
  import opened Bytes
  import opened NatBits
  import opened PolyLimbs

  function Four(a: int, b: int, c: int, d: int): int { a + 0x100 * b + 0x1_0000 * c + 0x100_0000 * d }

  /** The bytes of b from k on, as four numbers below 256 */
  function Load32(b: seq<byte>, k: nat): (r: u32)
    requires k + 4 <= |b|
    ensures r as int == Four(ValueOf(b[k]), ValueOf(b[k + 1]), ValueOf(b[k + 2]), ValueOf(b[k + 3]))
  {
    Four(ValueOf(b[k]), ValueOf(b[k + 1]), ValueOf(b[k + 2]), ValueOf(b[k + 3])) as u32
  }

  lemma LeFour(b: seq<byte>)
    requires |b| >= 4
    ensures Le(b) == Load32(b, 0) as int + Le(b[4..]) * W32
  {
    hide ValueOf;
    var b1 := b[1..];
    var b2 := b1[1..];
    var b3 := b2[1..];
    assert b3[1..] == b[4..];
    assert Le(b3) == ValueOf(b[3]) + 256 * Le(b[4..]);
    assert Le(b2) == ValueOf(b[2]) + 256 * Le(b3);
    assert Le(b1) == ValueOf(b[1]) + 256 * Le(b2);
  }

  function Loads(b: seq<byte>): int
    requires |b| == 16
  {
    Load32(b, 0) as int + Load32(b, 4) as int * W32 + Load32(b, 8) as int * W64 + Load32(b, 12) as int * W96
  }

  lemma LeSixteen(b: seq<byte>)
    requires |b| == 16
    ensures Le(b) == Loads(b)
  {
    hide ValueOf, Load32;
    LeFour(b); LeFour(b[4..]); LeFour(b[8..]); LeFour(b[12..]);
    assert b[4..][4..] == b[8..] && b[8..][4..] == b[12..] && b[12..][4..] == [];
    LoadSlice(b, 4); LoadSlice(b, 8); LoadSlice(b, 12);
    Nested(Load32(b, 0) as int, Load32(b, 4) as int, Load32(b, 8) as int, Load32(b, 12) as int);
  }

  lemma Nested(a: int, b: int, c: int, d: int)
    ensures a + (b + (c + d * W32) * W32) * W32 == a + b * W32 + c * W64 + d * W96
  {}

  lemma LoadSlice(b: seq<byte>, k: nat)
    requires k + 4 <= |b|
    ensures Load32(b[k..], 0) == Load32(b, k)
  {
    hide ValueOf;
  }

  // ---- limbs of four overlapping loads ------------------------------------------------

  /** The low limb: a whole load, its top six bits left to the next limb */
  lemma Limb0(v0: nat, v1: nat, v2: nat, v3: nat)
    requires v0 < 256 && v1 < 256 && v2 < 256 && v3 < 256
    ensures (v0 + 0x100 * v1 + 0x1_0000 * v2 + 0x100_0000 * v3) % 0x400_0000
      == v0 + 0x100 * v1 + 0x1_0000 * v2 + 0x100_0000 * (v3 % 4)
  {}

  /** The limbs that start 2, 4 and 6 bits into their first byte */
  lemma Limb1(v0: nat, v1: nat, v2: nat, v3: nat)
    requires v0 < 256 && v1 < 256 && v2 < 256 && v3 < 256
    ensures (v0 + 0x100 * v1 + 0x1_0000 * v2 + 0x100_0000 * v3) / 4 == v0 / 4 + 0x40 * v1 + 0x4000 * v2 + 0x400000 * v3
    ensures (v0 / 4 + 0x40 * v1 + 0x4000 * v2 + 0x400000 * v3) % 0x400_0000
      == v0 / 4 + 0x40 * v1 + 0x4000 * v2 + 0x400000 * (v3 % 16)
  {
    var q := v0 / 4 + 0x40 * v1 + 0x4000 * v2 + 0x400000 * v3;
    RemainderIs(v0 + 0x100 * v1 + 0x1_0000 * v2 + 0x100_0000 * v3, 4, q, v0 % 4);
    RemainderIs(q, 0x400_0000, v3 / 16, v0 / 4 + 0x40 * v1 + 0x4000 * v2 + 0x400000 * (v3 % 16));
  }

  lemma Limb2(v0: nat, v1: nat, v2: nat, v3: nat)
    requires v0 < 256 && v1 < 256 && v2 < 256 && v3 < 256
    ensures (v0 + 0x100 * v1 + 0x1_0000 * v2 + 0x100_0000 * v3) / 16 ==
      v0 / 16 + 0x10 * v1 + 0x1000 * v2 + 0x100000 * v3
    ensures (v0 / 16 + 0x10 * v1 + 0x1000 * v2 + 0x100000 * v3) % 0x400_0000
      == v0 / 16 + 0x10 * v1 + 0x1000 * v2 + 0x100000 * (v3 % 64)
  {
    var q := v0 / 16 + 0x10 * v1 + 0x1000 * v2 + 0x100000 * v3;
    RemainderIs(v0 + 0x100 * v1 + 0x1_0000 * v2 + 0x100_0000 * v3, 16, q, v0 % 16);
    RemainderIs(q, 0x400_0000, v3 / 64, v0 / 16 + 0x10 * v1 + 0x1000 * v2 + 0x100000 * (v3 % 64));
  }

  lemma Limb3(v0: nat, v1: nat, v2: nat, v3: nat)
    requires v0 < 256 && v1 < 256 && v2 < 256 && v3 < 256
    ensures (v0 + 0x100 * v1 + 0x1_0000 * v2 + 0x100_0000 * v3) / 64 == v0 / 64 + 0x4 * v1 + 0x400 * v2 + 0x40000 * v3
    ensures (v0 / 64 + 0x4 * v1 + 0x400 * v2 + 0x40000 * v3) % 0x400_0000
      == v0 / 64 + 0x4 * v1 + 0x400 * v2 + 0x40000 * v3
  {
    var q := v0 / 64 + 0x4 * v1 + 0x400 * v2 + 0x40000 * v3;
    RemainderIs(v0 + 0x100 * v1 + 0x1_0000 * v2 + 0x100_0000 * v3, 64, q, v0 % 64);
    RemainderIs(q, 0x400_0000, v3 / 256, v0 / 64 + 0x4 * v1 + 0x400 * v2 + 0x40000 * (v3 % 256));
    assert v3 % 256 == v3;
  }

  lemma Limb4(v0: nat, v1: nat, v2: nat, v3: nat)
    requires v0 < 256
    ensures (v0 + 0x100 * v1 + 0x1_0000 * v2 + 0x100_0000 * v3) / 256 == v1 + 0x100 * v2 + 0x1_0000 * v3
  {
    RemainderIs(v0 + 0x100 * v1 + 0x1_0000 * v2 + 0x100_0000 * v3, 256, v1 + 0x100 * v2 + 0x1_0000 * v3, v0);
  }

  function Quo(v: nat, p: nat): nat requires p > 0 { v / p }

  function Rem(v: nat, p: nat): nat requires p > 0 { v % p }

  lemma QuoRem(v: nat, p: nat)
    requires p == 4 || p == 16 || p == 64
    ensures v == p * Quo(v, p) + Rem(v, p)
  {}

  function Form0(a: int, b: int, c: int, d: int): int { a + 0x100 * b + 0x10000 * c + 0x1000000 * d }

  function Form1(a: int, b: int, c: int, d: int): int { a + 0x40 * b + 0x4000 * c + 0x400000 * d }

  function Form2(a: int, b: int, c: int, d: int): int { a + 0x10 * b + 0x1000 * c + 0x100000 * d }

  function Form3(a: int, b: int, c: int, d: int): int { a + 0x4 * b + 0x400 * c + 0x40000 * d }

  function Form4(a: int, b: int, c: int): int { a + 0x100 * b + 0x1_0000 * c }

  function Piece0(x: u32): u32 { x % 0x400_0000 }

  lemma Piece0Bytes(b: seq<byte>, k: nat)
    requires k + 4 <= |b|
    ensures Piece0(Load32(b, k)) as int ==
      Form0(ValueOf(b[k]), ValueOf(b[k + 1]), ValueOf(b[k + 2]), Rem(ValueOf(b[k + 3]), 4))
  {
    hide ValueOf;
    Limb0(ValueOf(b[k]), ValueOf(b[k + 1]), ValueOf(b[k + 2]), ValueOf(b[k + 3]));
  }

  function Piece1(x: u32): u32 { (x / 4) % 0x400_0000 }

  lemma Piece1Bytes(b: seq<byte>, k: nat)
    requires k + 4 <= |b|
    ensures Piece1(Load32(b, k)) as int ==
      Form1(Quo(ValueOf(b[k]), 4), ValueOf(b[k + 1]), ValueOf(b[k + 2]), Rem(ValueOf(b[k + 3]), 16))
  {
    hide ValueOf;
    Limb1(ValueOf(b[k]), ValueOf(b[k + 1]), ValueOf(b[k + 2]), ValueOf(b[k + 3]));
  }

  function Piece2(x: u32): u32 { (x / 16) % 0x400_0000 }

  lemma Piece2Bytes(b: seq<byte>, k: nat)
    requires k + 4 <= |b|
    ensures Piece2(Load32(b, k)) as int ==
      Form2(Quo(ValueOf(b[k]), 16), ValueOf(b[k + 1]), ValueOf(b[k + 2]), Rem(ValueOf(b[k + 3]), 64))
  {
    hide ValueOf;
    Limb2(ValueOf(b[k]), ValueOf(b[k + 1]), ValueOf(b[k + 2]), ValueOf(b[k + 3]));
  }

  function Piece3(x: u32): u32 { (x / 64) % 0x400_0000 }

  lemma Piece3Bytes(b: seq<byte>, k: nat)
    requires k + 4 <= |b|
    ensures Piece3(Load32(b, k)) as int ==
      Form3(Quo(ValueOf(b[k]), 64), ValueOf(b[k + 1]), ValueOf(b[k + 2]), ValueOf(b[k + 3]))
  {
    hide ValueOf;
    Limb3(ValueOf(b[k]), ValueOf(b[k + 1]), ValueOf(b[k + 2]), ValueOf(b[k + 3]));
  }

  function Piece4(x: u32): u32 { x / 256 }

  lemma Piece4Bytes(b: seq<byte>, k: nat)
    requires k + 4 <= |b|
    ensures Piece4(Load32(b, k)) as int == Form4(ValueOf(b[k + 1]), ValueOf(b[k + 2]), ValueOf(b[k + 3]))
  {
    hide ValueOf;
    Limb4(ValueOf(b[k]), ValueOf(b[k + 1]), ValueOf(b[k + 2]), ValueOf(b[k + 3]));
  }

  /** The five limbs of sixteen bytes, as the code cuts them out */
  function Cut(b: seq<byte>): (r: Limbs)
    requires |b| == 16
    ensures r.l0 < 0x400_0000 && r.l1 < 0x400_0000 && r.l2 < 0x400_0000 && r.l3 < 0x400_0000 && r.l4 < 0x100_0000
  {
    Limbs(Piece0(Load32(b, 0)), Piece1(Load32(b, 3)), Piece2(Load32(b, 6)), Piece3(Load32(b, 9)), Piece4(Load32(b, 12)))
  }

  /** The limbs are the number, byte by byte. */
  lemma Assemble(v0: int, v1: int, v2: int, v3: int, v4: int, v5: int, v6: int, v7: int,
                 v8: int, v9: int, v10: int, v11: int, v12: int, v13: int, v14: int, v15: int,
                 q3: int, r3: int, q6: int, r6: int, q9: int, r9: int)
    requires v3 == 4 * q3 + r3 && v6 == 16 * q6 + r6 && v9 == 64 * q9 + r9
    ensures Sum(Form0(v0, v1, v2, r3), Form1(q3, v4, v5, r6), Form2(q6, v7, v8, r9), Form3(q9, v10, v11, v12),
      Form4(v13, v14, v15)) ==
      Four(v0, v1, v2, v3) + Four(v4, v5, v6, v7) * W32 + Four(v8, v9, v10, v11) * W64 + Four(v12, v13, v14, v15) * W96
  {}

  lemma CutLoads(b: seq<byte>)
    requires |b| == 16
    ensures Val(Cut(b)) == Loads(b)
  {
    hide ValueOf, Piece0, Piece1, Piece2, Piece3, Piece4, Sum, Quo, Rem, Load32, Four, Form0, Form1, Form2, Form3,
      Form4;
    Piece0Bytes(b, 0); Piece1Bytes(b, 3); Piece2Bytes(b, 6); Piece3Bytes(b, 9); Piece4Bytes(b, 12);
    var v3, v6, v9 := ValueOf(b[3]), ValueOf(b[6]), ValueOf(b[9]);
    QuoRem(v3, 4); QuoRem(v6, 16); QuoRem(v9, 64);
    Assemble(ValueOf(b[0]), ValueOf(b[1]), ValueOf(b[2]), ValueOf(b[3]), ValueOf(b[4]), ValueOf(b[5]), ValueOf(b[6]),
        ValueOf(b[7]), ValueOf(b[8]), ValueOf(b[9]), ValueOf(b[10]), ValueOf(b[11]), ValueOf(b[12]), ValueOf(b[13]),
        ValueOf(b[14]), ValueOf(b[15]),
             Quo(v3, 4), Rem(v3, 4), Quo(v6, 16), Rem(v6, 16), Quo(v9, 64), Rem(v9, 64));
  }

  lemma CutValue(b: seq<byte>)
    requires |b| == 16
    ensures Val(Cut(b)) == Le(b)
  {
    hide Cut, Le, Val, Loads;
    CutLoads(b);
    LeSixteen(b);
  }

  // ---- clamping --------------------------------------------------------------------------

  /** Section 2.5 of RFC 8439: bytes 3, 7, 11 and 15 lose their top four bits,
      bytes 4, 8 and 12 their bottom two */
  function ClampAt(i: nat, v: nat): (r: nat)
    ensures r <= v
  {
    if i == 3 || i == 7 || i == 11 || i == 15 then v % 16
    else if i == 4 || i == 8 || i == 12 then v - v % 4
    else v
  }

  function Clamp(b: seq<byte>): (r: seq<byte>)
    requires |b| == 16
    ensures |r| == 16
    ensures forall i :: 0 <= i < 16 ==> r[i] == ByteOf(ClampAt(i, ValueOf(b[i])))
  {
    seq(16, i requires 0 <= i < 16 => ByteOf(ClampAt(i, ValueOf(b[i]))))
  }

  lemma ClampValue(b: seq<byte>, i: nat)
    requires |b| == 16 && i < 16
    ensures ValueOf(Clamp(b)[i]) == ClampAt(i, ValueOf(b[i]))
  {
    hide ValueOf, ByteOf;
    ByteOfValue(ClampAt(i, ValueOf(b[i])));
  }

  lemma Pow2Values()
    ensures Pow2(2) == 4 && Pow2(8) == 256 && Pow2(14) == 0x4000 && Pow2(18) == 0x4_0000 && Pow2(20) == 0x10_0000
    ensures Pow2(6) == 0x40 && Pow2(12) == 0x1000 && Pow2(26) == 0x400_0000
  {}

  lemma MaskOnes(x: nat)
    ensures And(x, 3) == x % 4 && And(x, 0xff) == x % 256 && And(x, 0x3fff) == x % 0x4000
    ensures And(x, 0x3f) == x % 0x40 && And(x, 0xfff) == x % 0x1000
    ensures And(x, 0x3ffff) == x % 0x4_0000 && And(x, 0xfffff) == x % 0x10_0000 && And(x, 0x3ffffff) == x % 0x400_0000
  {
    hide And, Pow2;
    Pow2Values();
    AndOnes(x, 2); AndOnes(x, 8); AndOnes(x, 14); AndOnes(x, 6);
    AndOnes(x, 12); AndOnes(x, 18); AndOnes(x, 20); AndOnes(x, 26);
  }

  lemma MaskHoles(x: nat)
    ensures And(x, 0x3ffff03) == x / 256 % 0x4_0000 * 256 + x % 256 % 4
    ensures And(x, 0x3ffc0ff) == x / 0x4000 % 0x1000 * 0x4000 + x % 0x4000 % 256
    ensures And(x, 0x3f03fff) == x / 0x10_0000 % 0x40 * 0x10_0000 + x % 0x10_0000 % 0x4000
  {
    hide And, Join, Pow2;
    Pow2Values();
    AndSplit(x / 256, x % 256, 0x3ffff, 3, 8);
    JoinAt8(x / 256, x % 256); JoinAt8(0x3ffff, 3); JoinAt8(And(x / 256, 0x3ffff), And(x % 256, 3));
    MaskOnes(x / 256); MaskOnes(x % 256);
    AndSplit(x / 0x4000, x % 0x4000, 0xfff, 0xff, 14);
    JoinAt14(x / 0x4000, x % 0x4000); JoinAt14(0xfff, 0xff); JoinAt14(And(x / 0x4000, 0xfff), And(x % 0x4000, 0xff));
    MaskOnes(x / 0x4000); MaskOnes(x % 0x4000);
    AndSplit(x / 0x10_0000, x % 0x10_0000, 0x3f, 0x3fff, 20);
    JoinAt20(x / 0x10_0000, x % 0x10_0000); JoinAt20(0x3f, 0x3fff);
    JoinAt20(And(x / 0x10_0000, 0x3f), And(x % 0x10_0000, 0x3fff));
    MaskOnes(x / 0x10_0000); MaskOnes(x % 0x10_0000);
  }

  lemma JoinAt8(q: nat, r: nat) ensures Join(q, r, 8) == q * 256 + r { Pow2Values(); }

  lemma JoinAt14(q: nat, r: nat) ensures Join(q, r, 14) == q * 0x4000 + r { Pow2Values(); }

  lemma JoinAt20(q: nat, r: nat) ensures Join(q, r, 20) == q * 0x10_0000 + r { Pow2Values(); }

  lemma NibbleParts(v: nat)
    ensures v % 16 / 4 == v / 4 % 4 && v % 16 % 4 == v % 4
  {}

  // ---- the multiplier limbs are the limbs of the clamped bytes ------------------------------

  function Masked(x: nat, m: u32): (r: u32)
    ensures r as int == And(x, m as nat) && r <= m
  {
    And(x, m as nat) as u32
  }

  /** The masked loads of poly1305_init */
  function MaskedLimbs(b: seq<byte>): (r: Limbs)
    requires |b| == 16
    ensures Clamped(r)
  {
    Limbs(Masked(Load32(b, 0) as nat, 0x3ffffff), Masked(Load32(b, 3) as nat / 4, 0x3ffff03),
          Masked(Load32(b, 6) as nat / 16, 0x3ffc0ff), Masked(Load32(b, 9) as nat / 64, 0x3f03fff),
          Masked(Load32(b, 12) as nat / 256, 0x00fffff))
  }

  lemma Mask0(v0: nat, v1: nat, v2: nat, v3: nat)
    requires v0 < 256 && v1 < 256 && v2 < 256 && v3 < 256
    ensures And(Four(v0, v1, v2, v3), 0x3ffffff) == Form0(v0, v1, v2, Rem(v3 % 16, 4))
  {
    hide And;
    MaskOnes(Four(v0, v1, v2, v3));
    Limb0(v0, v1, v2, v3);
    NibbleParts(v3);
  }

  lemma Mask1(v0: nat, v1: nat, v2: nat, v3: nat)
    requires v0 < 256 && v1 < 256 && v2 < 256 && v3 < 256
    ensures And(Four(v0, v1, v2, v3) / 4, 0x3ffff03) == Form1(Quo(v0 % 16, 4), v1 - v1 % 4, v2, Rem(v3, 16))
  {
    hide And;
    var x := v0 / 4 + 0x40 * v1 + 0x4000 * v2 + 0x40_0000 * v3;
    Limb1(v0, v1, v2, v3);
    MaskHoles(x);
    var hi, lo := v1 / 4 + 0x40 * v2 + 0x4000 * v3, v0 / 4 + 0x40 * (v1 % 4);
    RemainderIs(x, 256, hi, lo);
    RemainderIs(hi, 0x4_0000, v3 / 16, v1 / 4 + 0x40 * v2 + 0x4000 * (v3 % 16));
    RemainderIs(lo, 4, v0 / 4 / 4 + 0x10 * (v1 % 4), v0 / 4 % 4);
    NibbleParts(v0);
  }

  lemma Mask2(v0: nat, v1: nat, v2: nat, v3: nat)
    requires v0 < 256 && v1 < 256 && v2 < 256 && v3 < 256
    ensures And(Four(v0, v1, v2, v3) / 16, 0x3ffc0ff) == Form2(Quo(v0, 16), v1 % 16, v2 - v2 % 4, Rem(v3, 64))
  {
    hide And;
    var x := v0 / 16 + 0x10 * v1 + 0x1000 * v2 + 0x10_0000 * v3;
    Limb2(v0, v1, v2, v3);
    MaskHoles(x);
    var hi, lo := v2 / 4 + 0x40 * v3, v0 / 16 + 0x10 * v1 + 0x1000 * (v2 % 4);
    RemainderIs(x, 0x4000, hi, lo);
    RemainderIs(hi, 0x1000, v3 / 64, v2 / 4 + 0x40 * (v3 % 64));
    RemainderIs(lo, 256, v1 / 16 + 0x10 * (v2 % 4), v0 / 16 + 0x10 * (v1 % 16));
  }

  lemma Mask3(v0: nat, v1: nat, v2: nat, v3: nat)
    requires v0 < 256 && v1 < 256 && v2 < 256 && v3 < 256
    ensures And(Four(v0, v1, v2, v3) / 64, 0x3f03fff) == Form3(Quo(v0, 64), v1, v2 % 16, v3 - v3 % 4)
  {
    hide And;
    var x := v0 / 64 + 4 * v1 + 0x400 * v2 + 0x4_0000 * v3;
    Limb3(v0, v1, v2, v3);
    MaskHoles(x);
    var hi, lo := v3 / 4, v0 / 64 + 4 * v1 + 0x400 * v2 + 0x4_0000 * (v3 % 4);
    RemainderIs(x, 0x10_0000, hi, lo);
    RemainderIs(lo, 0x4000, v2 / 16 + 0x10 * (v3 % 4), v0 / 64 + 4 * v1 + 0x400 * (v2 % 16));
    assert hi % 0x40 == hi;
  }

  lemma Mask4(v0: nat, v1: nat, v2: nat, v3: nat)
    requires v0 < 256 && v1 < 256 && v2 < 256 && v3 < 256
    ensures And(Four(v0, v1, v2, v3) / 256, 0x00fffff) == Form4(v1, v2, v3 % 16)
  {
    hide And;
    Limb4(v0, v1, v2, v3);
    MaskOnes(v1 + 0x100 * v2 + 0x1_0000 * v3);
    RemainderIs(v1 + 0x100 * v2 + 0x1_0000 * v3, 0x10_0000, v3 / 16, v1 + 0x100 * v2 + 0x1_0000 * (v3 % 16));
  }

  lemma MaskedPiece0(b: seq<byte>)
    requires |b| == 16
    ensures MaskedLimbs(b).l0 == Piece0(Load32(Clamp(b), 0))
  {
    hide ValueOf, ByteOf, And, Clamp, Four, Form0, Piece0, Load32, Quo, Rem;
    Mask0(ValueOf(b[0]), ValueOf(b[1]), ValueOf(b[2]), ValueOf(b[3]));
    Piece0Bytes(Clamp(b), 0);
    ClampValue(b, 0); ClampValue(b, 1); ClampValue(b, 2); ClampValue(b, 3);
  }

  lemma MaskedPiece1(b: seq<byte>)
    requires |b| == 16
    ensures MaskedLimbs(b).l1 == Piece1(Load32(Clamp(b), 3))
  {
    hide ValueOf, ByteOf, And, Clamp, Four, Form1, Piece1, Load32, Quo, Rem;
    Mask1(ValueOf(b[3]), ValueOf(b[4]), ValueOf(b[5]), ValueOf(b[6]));
    Piece1Bytes(Clamp(b), 3);
    ClampValue(b, 3); ClampValue(b, 4); ClampValue(b, 5); ClampValue(b, 6);
  }

  lemma MaskedPiece2(b: seq<byte>)
    requires |b| == 16
    ensures MaskedLimbs(b).l2 == Piece2(Load32(Clamp(b), 6))
  {
    hide ValueOf, ByteOf, And, Clamp, Four, Form2, Piece2, Load32, Quo, Rem;
    Mask2(ValueOf(b[6]), ValueOf(b[7]), ValueOf(b[8]), ValueOf(b[9]));
    Piece2Bytes(Clamp(b), 6);
    ClampValue(b, 6); ClampValue(b, 7); ClampValue(b, 8); ClampValue(b, 9);
  }

  lemma MaskedPiece3(b: seq<byte>)
    requires |b| == 16
    ensures MaskedLimbs(b).l3 == Piece3(Load32(Clamp(b), 9))
  {
    hide ValueOf, ByteOf, And, Clamp, Four, Form3, Piece3, Load32, Quo, Rem;
    Mask3(ValueOf(b[9]), ValueOf(b[10]), ValueOf(b[11]), ValueOf(b[12]));
    Piece3Bytes(Clamp(b), 9);
    ClampValue(b, 9); ClampValue(b, 10); ClampValue(b, 11); ClampValue(b, 12);
  }

  lemma MaskedPiece4(b: seq<byte>)
    requires |b| == 16
    ensures MaskedLimbs(b).l4 == Piece4(Load32(Clamp(b), 12))
  {
    hide ValueOf, ByteOf, And, Clamp, Four, Form4, Piece4, Load32, Quo, Rem;
    Mask4(ValueOf(b[12]), ValueOf(b[13]), ValueOf(b[14]), ValueOf(b[15]));
    Piece4Bytes(Clamp(b), 12);
    ClampValue(b, 12); ClampValue(b, 13); ClampValue(b, 14); ClampValue(b, 15);
  }

  /** The masks of poly1305_init cut the limbs of the clamped multiplier. */
  lemma MaskedIsClamped(b: seq<byte>)
    requires |b| == 16
    ensures MaskedLimbs(b) == Cut(Clamp(b))
  {
    hide Clamp, Load32, Piece0, Piece1, Piece2, Piece3, Piece4, MaskedLimbs;
    MaskedPiece0(b); MaskedPiece1(b); MaskedPiece2(b); MaskedPiece3(b); MaskedPiece4(b);
  }
}
