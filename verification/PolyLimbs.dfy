/** Five 26-bit limbs: the arithmetic behind the Poly1305 code. All values are
    machine integers; every sum and product stays inside its type. */
module PolyLimbs {
  import opened Bytes

  newtype u32 = x: int | 0 <= x < 0x1_0000_0000
  newtype u64 = x: int | 0 <= x < 0x1_0000_0000_0000_0000

  const B26: int := 0x400_0000
  const B52: int := B26 * B26
  const B78: int := B52 * B26
  const B104: int := B78 * B26
  const B130: int := B104 * B26

  /** The prime 2^130 - 5 */
  const P: int := B130 - 5

  const W96: int := W64 * W32
  const W128: int := W96 * W32

  datatype Limbs = Limbs(l0: u32, l1: u32, l2: u32, l3: u32, l4: u32)

  datatype Wide = Wide(d0: u64, d1: u64, d2: u64, d3: u64, d4: u64)

  function Sum(a: int, b: int, c: int, d: int, e: int): int { a + b * B26 + c * B52 + d * B78 + e * B104 }

  function Val(h: Limbs): int { Sum(h.l0 as int, h.l1 as int, h.l2 as int, h.l3 as int, h.l4 as int) }

  function WideVal(d: Wide): int { Sum(d.d0 as int, d.d1 as int, d.d2 as int, d.d3 as int, d.d4 as int) }

  /** What the clamping masks leave of the multiplier */
  predicate Clamped(r: Limbs)
  {
    r.l0 <= 0x3ffffff && r.l1 <= 0x3ffff03 && r.l2 <= 0x3ffc0ff && r.l3 <= 0x3f03fff && r.l4 <= 0x00fffff
  }

  /** The accumulator between blocks: one limb may exceed 26 bits, slightly */
  predicate Settled(h: Limbs)
  {
    h.l0 < 0x400_0000 && h.l1 < 0x400_0040 && h.l2 < 0x400_0000 && h.l3 < 0x400_0000 && h.l4 < 0x400_0000
  }

  /** The accumulator after a block has been added */
  predicate Loaded(h: Limbs)
  {
    h.l0 < 0x800_0000 && h.l1 < 0x800_0040 && h.l2 < 0x800_0000 && h.l3 < 0x800_0000 && h.l4 < 0x600_0000
  }

  // ---- products ------------------------------------------------------------------

  lemma MulBound(x: int, y: int, a: int, b: int)
    requires 0 <= x <= a && 0 <= y <= b
    ensures 0 <= x * y <= a * b
  {
    assert x * y <= a * y;
    assert a * y <= a * b;
  }

  /** x * y in 64 bits, with bounds on the factors */
  function Mul(x: u32, y: u32): (z: u64)
    requires x as int <= 0x800_0040 && y as int <= 0x1400_0000
    ensures z as int == x as int * y as int
    ensures z as int <= 0x800_0040 * 0x1400_0000
  {
    MulBound(x as int, y as int, 0x800_0040, 0x1400_0000);
    (x as u64) * (y as u64)
  }

  /** The five column sums d0 .. d4, the high columns folded by 5 */
  function Product(h: Limbs, r: Limbs): (d: Wide)
    requires Loaded(h) && Clamped(r)
    ensures WideVal(d) % P == (Val(h) * Val(r)) % P
    ensures d.d0 as int <= 5 * (0x800_0040 * 0x1400_0000)
    ensures d.d1 as int <= 5 * (0x800_0040 * 0x1400_0000)
    ensures d.d2 as int <= 5 * (0x800_0040 * 0x1400_0000)
    ensures d.d3 as int <= 5 * (0x800_0040 * 0x1400_0000)
    ensures d.d4 as int <= 0x78_0001_0000_0000
  {
    var s1, s2, s3, s4 := r.l1 * 5, r.l2 * 5, r.l3 * 5, r.l4 * 5;
    var d0 := Mul(h.l0, r.l0) + Mul(h.l1, s4) + Mul(h.l2, s3) + Mul(h.l3, s2) + Mul(h.l4, s1);
    var d1 := Mul(h.l0, r.l1) + Mul(h.l1, r.l0) + Mul(h.l2, s4) + Mul(h.l3, s3) + Mul(h.l4, s2);
    var d2 := Mul(h.l0, r.l2) + Mul(h.l1, r.l1) + Mul(h.l2, r.l0) + Mul(h.l3, s4) + Mul(h.l4, s3);
    var d3 := Mul(h.l0, r.l3) + Mul(h.l1, r.l2) + Mul(h.l2, r.l1) + Mul(h.l3, r.l0) + Mul(h.l4, s4);
    var d4 := Mul(h.l0, r.l4) + Mul(h.l1, r.l3) + Mul(h.l2, r.l2) + Mul(h.l3, r.l1) + Mul(h.l4, r.l0);
    var d := Wide(d0, d1, d2, d3, d4);
    TopColumn(h, r, d4 as int);
    ProductValue(h, r, d);
    d
  }

  /** The top column is small enough for five times its carry to fit 32 bits. */
  lemma TopColumn(h: Limbs, r: Limbs, d4: int)
    requires Loaded(h) && Clamped(r)
    requires d4 == h.l0 as int * r.l4 as int + h.l1 as int * r.l3 as int + h.l2 as int * r.l2 as int
                   + h.l3 as int * r.l1 as int + h.l4 as int * r.l0 as int
    ensures d4 <= 0x78_0001_0000_0000
  {
    MulBound(h.l0 as int, r.l4 as int, 0x800_0000, 0x00fffff);
    MulBound(h.l1 as int, r.l3 as int, 0x800_0040, 0x3f03fff);
    MulBound(h.l2 as int, r.l2 as int, 0x800_0000, 0x3ffc0ff);
    MulBound(h.l3 as int, r.l1 as int, 0x800_0000, 0x3ffff03);
    MulBound(h.l4 as int, r.l0 as int, 0x600_0000, 0x3ffffff);
  }

  /** h_i times the whole multiplier */
  lemma RowTimes(x: int, r0: int, r1: int, r2: int, r3: int, r4: int)
    ensures x * Sum(r0, r1, r2, r3, r4) == Sum(x * r0, x * r1, x * r2, x * r3, x * r4)
  {
    Distribute(x, r1, B26); Distribute(x, r2, B52); Distribute(x, r3, B78); Distribute(x, r4, B104);
    assert x * (r0 + r1 * B26 + r2 * B52 + r3 * B78 + r4 * B104)
        == x * r0 + x * (r1 * B26) + x * (r2 * B52) + x * (r3 * B78) + x * (r4 * B104);
  }

  lemma Distribute(x: int, y: int, b: int)
    ensures x * (y * b) == (x * y) * b
  {}

  /** The folding identity, on the 25 partial products: replacing 2^130 by 5
      changes the value by a multiple of the prime. */
  lemma FoldColumns(p00: int, p01: int, p02: int, p03: int, p04: int, p10: int, p11: int, p12: int, p13: int, p14: int,
                    p20: int, p21: int, p22: int, p23: int, p24: int, p30: int, p31: int, p32: int, p33: int, p34: int,
                    p40: int, p41: int, p42: int, p43: int, p44: int)
    ensures Sum(p00, p01, p02, p03, p04) + Sum(p10, p11, p12, p13, p14) * B26 + Sum(p20, p21, p22, p23, p24) * B52
      + Sum(p30, p31, p32, p33, p34) * B78 + Sum(p40, p41, p42, p43, p44) * B104 ==
      Sum(p00 + 5 * (p14 + p23 + p32 + p41),
          p01 + p10 + 5 * (p24 + p33 + p42),
          p02 + p11 + p20 + 5 * (p34 + p43),
          p03 + p12 + p21 + p30 + 5 * (p44),
          p04 + p13 + p22 + p31 + p40)
      + P * ((p14 + p23 + p32 + p41) + (p24 + p33 + p42) * B26 + (p34 + p43) * B52 + (p44) * B78)
  {}

  lemma SchoolBook(h0: int, h1: int, h2: int, h3: int, h4: int, v: int)
    ensures Sum(h0, h1, h2, h3, h4) * v == h0 * v + (h1 * v) * B26 + (h2 * v) * B52 + (h3 * v) * B78 + (h4 * v) * B104
  {
    Distribute(v, h1, B26); Distribute(v, h2, B52); Distribute(v, h3, B78); Distribute(v, h4, B104);
    assert (h0 + h1 * B26 + h2 * B52 + h3 * B78 + h4 * B104) * v
        == v * h0 + v * (h1 * B26) + v * (h2 * B52) + v * (h3 * B78) + v * (h4 * B104);
  }

  lemma ProductValue(h: Limbs, r: Limbs, d: Wide)
    requires
      var h0, h1, h2, h3, h4 := h.l0 as int, h.l1 as int, h.l2 as int, h.l3 as int, h.l4 as int;
      var r0, r1, r2, r3, r4 := r.l0 as int, r.l1 as int, r.l2 as int, r.l3 as int, r.l4 as int;
      && d.d0 as int == h0 * r0 + h1 * (5 * r4) + h2 * (5 * r3) + h3 * (5 * r2) + h4 * (5 * r1)
      && d.d1 as int == h0 * r1 + h1 * r0 + h2 * (5 * r4) + h3 * (5 * r3) + h4 * (5 * r2)
      && d.d2 as int == h0 * r2 + h1 * r1 + h2 * r0 + h3 * (5 * r4) + h4 * (5 * r3)
      && d.d3 as int == h0 * r3 + h1 * r2 + h2 * r1 + h3 * r0 + h4 * (5 * r4)
      && d.d4 as int == h0 * r4 + h1 * r3 + h2 * r2 + h3 * r1 + h4 * r0
    ensures WideVal(d) % P == (Val(h) * Val(r)) % P
  {
    var h0, h1, h2, h3, h4 := h.l0 as int, h.l1 as int, h.l2 as int, h.l3 as int, h.l4 as int;
    var r0, r1, r2, r3, r4 := r.l0 as int, r.l1 as int, r.l2 as int, r.l3 as int, r.l4 as int;
    var v := Val(r);
    SchoolBook(h0, h1, h2, h3, h4, v);
    RowTimes(h0, r0, r1, r2, r3, r4);
    RowTimes(h1, r0, r1, r2, r3, r4);
    RowTimes(h2, r0, r1, r2, r3, r4);
    RowTimes(h3, r0, r1, r2, r3, r4);
    RowTimes(h4, r0, r1, r2, r3, r4);
    FoldColumns(h0 * r0, h0 * r1, h0 * r2, h0 * r3, h0 * r4, h1 * r0, h1 * r1, h1 * r2, h1 * r3, h1 * r4,
                h2 * r0, h2 * r1, h2 * r2, h2 * r3, h2 * r4, h3 * r0, h3 * r1, h3 * r2, h3 * r3, h3 * r4,
                h4 * r0, h4 * r1, h4 * r2, h4 * r3, h4 * r4);
    Fives(h1, r4); Fives(h2, r3); Fives(h3, r2); Fives(h4, r1);
    Fives(h2, r4); Fives(h3, r3); Fives(h4, r2);
    Fives(h3, r4); Fives(h4, r3);
    Fives(h4, r4);
    var k := (h1 * r4 + h2 * r3 + h3 * r2 + h4 * r1) + (h2 * r4 + h3 * r3 + h4 * r2) * B26 + (h3 * r4 + h4 * r3) * B52
        + (h4 * r4) * B78;
    assert Val(h) * v == WideVal(d) + P * k;
    ModDrop(WideVal(d), k);
  }

  lemma Fives(x: int, y: int)
    ensures x * (5 * y) == 5 * (x * y)
  {}

  lemma ModDrop(a: int, k: int)
    ensures (a + P * k) % P == a % P
  {
    var q, m := a / P, a % P;
    assert a + P * k == P * (q + k) + m;
    ModUnique(a + P * k, q + k, m);
  }

  lemma ModUnique(n: int, q: int, m: int)
    requires 0 <= m < P && n == P * q + m
    ensures n % P == m
  {
    assert n == n / P * P + n % P;
    Bytes.SameQuotient(P, n / P, n % P, q, m);
  }

  // ---- carries ---------------------------------------------------------------------

  /** The carry chain of a block. Masking with 0x3ffffff is the remainder by 2^26,
      whether taken of the 64-bit sum or of its low 32 bits. */
  function Carry(d: Wide): (h: Limbs)
    requires d.d0 as int <= 5 * (0x800_0040 * 0x1400_0000)
    requires d.d1 as int <= 5 * (0x800_0040 * 0x1400_0000)
    requires d.d2 as int <= 5 * (0x800_0040 * 0x1400_0000)
    requires d.d3 as int <= 5 * (0x800_0040 * 0x1400_0000)
    requires d.d4 as int <= 0x78_0001_0000_0000
    ensures Settled(h)
    ensures Val(h) % P == WideVal(d) % P
  {
    var c0 := d.d0 / 0x400_0000; var h0 := (d.d0 % 0x400_0000) as u32;
    var d1 := d.d1 + c0; var c1 := d1 / 0x400_0000; var h1 := (d1 % 0x400_0000) as u32;
    var d2 := d.d2 + c1; var c2 := d2 / 0x400_0000; var h2 := (d2 % 0x400_0000) as u32;
    var d3 := d.d3 + c2; var c3 := d3 / 0x400_0000; var h3 := (d3 % 0x400_0000) as u32;
    var d4 := d.d4 + c3; var c4 := d4 / 0x400_0000; var h4 := (d4 % 0x400_0000) as u32;
    var g0 := h0 + (c4 * 5) as u32;
    var c5 := g0 / 0x400_0000;
    var h := Limbs(g0 % 0x400_0000, h1 + c5, h2, h3, h4);
    CarryValue(d.d0 as int, d.d1 as int, d.d2 as int, d.d3 as int, d.d4 as int, c0 as int, h0 as int, c1 as int,
        h1 as int, c2 as int, h2 as int, c3 as int, h3 as int, c4 as int, h4 as int,
        c5 as int, (g0 % 0x400_0000) as int);
    ModDrop(Val(h), c4 as int);
    h
  }

  lemma CarryValue(d0: int, d1: int, d2: int, d3: int, d4: int, c0: int, h0: int, c1: int, h1: int,
                   c2: int, h2: int, c3: int, h3: int, c4: int, h4: int, c5: int, g0: int)
    requires d0 == c0 * B26 + h0 && d1 + c0 == c1 * B26 + h1 && d2 + c1 == c2 * B26 + h2
    requires d3 + c2 == c3 * B26 + h3 && d4 + c3 == c4 * B26 + h4 && h0 + c4 * 5 == c5 * B26 + g0
    ensures Sum(d0, d1, d2, d3, d4) == Sum(g0, h1 + c5, h2, h3, h4) + P * c4
  {}
}
