/** The last steps of Poly1305: full carry, conditional subtraction of the prime,
    packing into 32-bit words, and the addition of the second key half. */
module PolyFinish {
  import opened Bytes
  import opened NatBits
  import opened PolyLimbs
  import opened PolyLoad

  predicate Tight(h: Limbs)
  {
    h.l0 < 0x400_0000 && h.l1 < 0x400_0000 && h.l2 < 0x400_0000 && h.l3 < 0x400_0000 && h.l4 < 0x400_0000
  }

  /** The full carry: every limb ends below 2^26. */
  function FullCarry(h: Limbs): (r: Limbs)
    requires Settled(h)
    ensures Tight(r)
    ensures Val(r) % P == Val(h) % P
  {
    var c1 := h.l1 / 0x400_0000; var h1 := h.l1 % 0x400_0000;
    var x2 := h.l2 + c1; var c2 := x2 / 0x400_0000; var h2 := x2 % 0x400_0000;
    var x3 := h.l3 + c2; var c3 := x3 / 0x400_0000; var h3 := x3 % 0x400_0000;
    var x4 := h.l4 + c3; var c4 := x4 / 0x400_0000; var h4 := x4 % 0x400_0000;
    var x0 := h.l0 + c4 * 5; var c0 := x0 / 0x400_0000; var h0 := x0 % 0x400_0000;
    assert c1 == 0 || (c1 == 1 && h1 < 0x40);
    assert c1 == 0 ==> c2 == 0;
    assert c2 == 0 ==> c3 == 0;
    assert c3 == 0 ==> c4 == 0;
    assert c4 == 0 ==> c0 == 0;
    assert c2 <= 1 && c3 <= 1 && c4 <= 1 && c0 <= 1;
    var r := Limbs(h0, h1 + c0, h2, h3, h4);
    FullCarryValue(h.l0 as int, h.l1 as int, h.l2 as int, h.l3 as int, h.l4 as int, c0 as int, h0 as int, c1 as int,
        h1 as int, c2 as int, h2 as int, c3 as int, h3 as int, c4 as int, h4 as int);
    ModDrop(Val(r), c4 as int);
    r
  }

  /** Carrying moves multiples of 2^26 up one limb, and 2^130 back as 5. */
  lemma FullCarryValue(l0: int, l1: int, l2: int, l3: int, l4: int, c0: int, h0: int, c1: int, h1: int,
                       c2: int, h2: int, c3: int, h3: int, c4: int, h4: int)
    requires l1 == c1 * B26 + h1 && l2 + c1 == c2 * B26 + h2 && l3 + c2 == c3 * B26 + h3
    requires l4 + c3 == c4 * B26 + h4 && l0 + c4 * 5 == c0 * B26 + h0
    ensures Sum(l0, l1, l2, l3, l4) == Sum(h0, h1 + c0, h2, h3, h4) + P * c4
  {}

  function AndMask(x: u32, m: u32): (r: u32)
    ensures r as int == And(x as nat, m as nat)
  {
    And(x as nat, m as nat) as u32
  }

  /** (h & ~mask) | (g & mask) with a mask of all ones or all zeros */
  function Select(h: u32, g: u32, mask: u32): (r: u32)
    requires mask == 0 || mask == 0xffff_ffff
    ensures r == if mask == 0 then h else g
  {
    SelectAll(h, g);
    Or(AndMask(h, 0xffff_ffff - mask) as nat, AndMask(g, mask) as nat) as u32
  }

  lemma SelectAll(h: u32, g: u32)
    ensures And(h as nat, 0xffff_ffff) == h as nat && And(g as nat, 0xffff_ffff) == g as nat
    ensures And(h as nat, 0) == 0 && And(g as nat, 0) == 0
  {
    hide And;
    Pow2At32();
    AndOnes(h as nat, 32); AndOnes(g as nat, 32); AndOnes(h as nat, 0); AndOnes(g as nat, 0);
    Small32(h); Small32(g);
  }

  lemma Small32(h: u32)
    ensures h as nat % 0x1_0000_0000 == h as nat && h as nat % 1 == 0
  {}

  lemma Pow2At32()
    ensures Pow2(32) == 0x1_0000_0000 && Pow2(0) == 1
  {
    Pow2Values();
    assert Pow2(27) == 2 * Pow2(26) && Pow2(28) == 2 * Pow2(27) && Pow2(29) == 2 * Pow2(28);
    assert Pow2(30) == 2 * Pow2(29) && Pow2(31) == 2 * Pow2(30);
  }

  /** h + 5 with carries; its top limb minus 2^26 wraps exactly when h < p. */
  function PlusFive(h: Limbs): (g: Limbs)
    requires Tight(h)
    ensures Val(h) >= P ==> g.l4 < 0x400_0000 && Val(g) == Val(h) - P
    ensures Val(h) < P ==> g.l4 >= 0x8000_0000
    ensures g.l0 < 0x400_0000 && g.l1 < 0x400_0000 && g.l2 < 0x400_0000 && g.l3 < 0x400_0000
  {
    var x0 := h.l0 + 5; var c0 := x0 / 0x400_0000; var g0 := x0 % 0x400_0000;
    var x1 := h.l1 + c0; var c1 := x1 / 0x400_0000; var g1 := x1 % 0x400_0000;
    var x2 := h.l2 + c1; var c2 := x2 / 0x400_0000; var g2 := x2 % 0x400_0000;
    var x3 := h.l3 + c2; var c3 := x3 / 0x400_0000; var g3 := x3 % 0x400_0000;
    var x4 := h.l4 + c3;
    PlusFiveValue(h.l0 as int, h.l1 as int, h.l2 as int, h.l3 as int, h.l4 as int,
                  c0 as int, g0 as int, c1 as int, g1 as int, c2 as int, g2 as int, c3 as int, g3 as int);
    var g4 := ((x4 as int - 0x400_0000) % 0x1_0000_0000) as u32;
    Limbs(g0, g1, g2, g3, g4)
  }

  lemma PlusFiveValue(l0: int, l1: int, l2: int, l3: int, l4: int,
                      c0: int, g0: int, c1: int, g1: int, c2: int, g2: int, c3: int, g3: int)
    requires l0 + 5 == c0 * B26 + g0 && l1 + c0 == c1 * B26 + g1 && l2 + c1 == c2 * B26 + g2 && l3 + c2 == c3 * B26 + g3
    ensures Sum(l0, l1, l2, l3, l4) + 5 == Sum(g0, g1, g2, g3, l4 + c3)
    ensures 0 <= g0 < B26 && 0 <= g1 < B26 && 0 <= g2 < B26 && 0 <= g3 < B26 && l4 + c3 < B26 ==>
      Sum(l0, l1, l2, l3, l4) < P
  {}

  /** The conditional subtraction: the residue itself */
  function Reduce(h: Limbs): (r: Limbs)
    requires Tight(h)
    ensures Tight(r) && Val(r) == Val(h) % P
  {
    var g := PlusFive(h);
    var mask := MaskOf(g.l4);
    TightBound(h);
    ResidueOf(Val(h));
    Chosen(h, g, mask)
  }

  /** (g4 >> 31) - 1 in 32 bits: all ones exactly when g4 has no top bit */
  function MaskOf(g4: u32): (m: u32)
    ensures m == if g4 >= 0x8000_0000 then 0 else 0xffff_ffff
  {
    ((g4 as int / 0x8000_0000 - 1) % 0x1_0000_0000) as u32
  }

  /** The selection, limb by limb */
  function Chosen(h: Limbs, g: Limbs, mask: u32): (r: Limbs)
    requires mask == 0 || mask == 0xffff_ffff
    ensures r == if mask == 0 then h else g
  {
    Limbs(Select(h.l0, g.l0, mask), Select(h.l1, g.l1, mask), Select(h.l2, g.l2, mask),
          Select(h.l3, g.l3, mask), Select(h.l4, g.l4, mask))
  }

  lemma TightBound(h: Limbs)
    requires Tight(h)
    ensures 0 <= Val(h) < B130
  {}

  lemma ResidueOf(v: int)
    requires 0 <= v < B130
    ensures v % P == if v < P then v else v - P
  {
    if v < P { ModUnique(v, 0, v); } else { ModUnique(v, 1, v - P); }
  }

  // ---- packing -------------------------------------------------------------------

  datatype Words = Words(w0: u32, w1: u32, w2: u32, w3: u32)

  function WordsVal(w: Words): int { w.w0 as int + w.w1 as int * W32 + w.w2 as int * W64 + w.w3 as int * W96 }

  /** a | (b << k) in 32 bits, a having at most k bits */
  function Splice(a: u32, b: u32, k: nat, p: u32): (r: u32)
    requires k < 32 && p as int == Pow2(k) && a < p && 0 < p
    requires p == 0x400_0000 || p == 0x10_0000 || p == 0x4000 || p == 0x100
    ensures r as int == a as int + (b as int % (W32 / p as int)) * p as int
  {
    SpliceAdds(a as nat, b as nat, k, p as nat);
    Or(a as nat, (b as nat * p as nat) % W32) as u32
  }

  lemma SpliceAdds(a: nat, b: nat, k: nat, p: nat)
    requires p == Pow2(k) && a < p
    requires p == 0x400_0000 || p == 0x10_0000 || p == 0x4000 || p == 0x100
    ensures Or(a, (b * p) % W32) == a + (b % (W32 / p)) * p < W32
  {
    hide Or, Pow2;
    var q := W32 / p;
    ShiftMod(b, p, q);
    OrDisjoint(a, b % q, k);
  }

  lemma ShiftMod(b: nat, p: nat, q: nat)
    requires (p == 0x400_0000 && q == 0x40) || (p == 0x10_0000 && q == 0x1000) || (p == 0x4000 && q == 0x4_0000) ||
      (p == 0x100 && q == 0x100_0000)
    ensures q > 0 && (b * p) % W32 == b % q * p && b % q * p + p <= W32
  {
    if p == 0x400_0000 {
      RemainderIs(b * 0x400_0000, W32, b / 0x40, b % 0x40 * 0x400_0000);
    } else if p == 0x10_0000 {
      RemainderIs(b * 0x10_0000, W32, b / 0x1000, b % 0x1000 * 0x10_0000);
    } else if p == 0x4000 {
      RemainderIs(b * 0x4000, W32, b / 0x4_0000, b % 0x4_0000 * 0x4000);
    } else {
      RemainderIs(b * 0x100, W32, b / 0x100_0000, b % 0x100_0000 * 0x100);
    }
  }

  /** The limbs repacked: nothing is lost below 2^128. */
  function Pack(h: Limbs): (w: Words)
    requires Tight(h)
    ensures WordsVal(w) == Val(h) % W128
  {
    Pow2Values();
    var w := Words(Splice(h.l0, h.l1, 26, 0x400_0000), Splice(h.l1 / 0x40, h.l2, 20, 0x10_0000),
                   Splice(h.l2 / 0x1000, h.l3, 14, 0x4000), Splice(h.l3 / 0x4_0000, h.l4, 8, 0x100));
    PackValue(h, w);
    w
  }

  lemma PackValue(h: Limbs, w: Words)
    requires Tight(h)
    requires w.w0 as int == h.l0 as int + (h.l1 as int % 0x40) * 0x400_0000
    requires w.w1 as int == h.l1 as int / 0x40 + (h.l2 as int % 0x1000) * 0x10_0000
    requires w.w2 as int == h.l2 as int / 0x1000 + (h.l3 as int % 0x4_0000) * 0x4000
    requires w.w3 as int == h.l3 as int / 0x4_0000 + (h.l4 as int % 0x100_0000) * 0x100
    ensures WordsVal(w) == Val(h) % W128
  {
    var t := h.l4 as int / 0x100_0000;
    PackSum(h, w, h.l1 as int / 0x40, h.l1 as int % 0x40, h.l2 as int / 0x1000, h.l2 as int % 0x1000,
            h.l3 as int / 0x4_0000, h.l3 as int % 0x4_0000, t, h.l4 as int % 0x100_0000);
    WordsBound(w);
    RemainderIs(Val(h), W128, t, WordsVal(w));
  }

  lemma PackSum(h: Limbs, w: Words, a1: int, b1: int, a2: int, b2: int, a3: int, b3: int, a4: int, b4: int)
    requires h.l1 as int == a1 * 0x40 + b1 && h.l2 as int == a2 * 0x1000 + b2
    requires h.l3 as int == a3 * 0x4_0000 + b3 && h.l4 as int == a4 * 0x100_0000 + b4
    requires w.w0 as int == h.l0 as int + b1 * 0x400_0000 && w.w1 as int == a1 + b2 * 0x10_0000
    requires w.w2 as int == a2 + b3 * 0x4000 && w.w3 as int == a3 + b4 * 0x100
    ensures Val(h) == a4 * W128 + WordsVal(w)
  {}

  /** The addition of the second key half, carried through 64-bit sums */
  function AddPad(w: Words, s: Words): (r: Words)
    ensures WordsVal(r) == (WordsVal(w) + WordsVal(s)) % W128
  {
    var f0 := w.w0 as u64 + s.w0 as u64;
    var f1 := w.w1 as u64 + s.w1 as u64 + High32(f0);
    var f2 := w.w2 as u64 + s.w2 as u64 + High32(f1);
    var f3 := w.w3 as u64 + s.w3 as u64 + High32(f2);
    var r := Words(Low32(f0), Low32(f1), Low32(f2), Low32(f3));
    PadAdds(w, s, High32(f0) as int, High32(f1) as int, High32(f2) as int, High32(f3) as int, r);
    r
  }

  /** f >> 32 and (uint32_t)f */
  function High32(f: u64): (h: u64)
    ensures h < 0x1_0000_0000 && f as int == h as int * W32 + Low32(f) as int
  {
    f / 0x1_0000_0000
  }

  function Low32(f: u64): u32 { (f % 0x1_0000_0000) as u32 }

  lemma PadAdds(w: Words, s: Words, q0: int, q1: int, q2: int, q3: int, r: Words)
    requires w.w0 as int + s.w0 as int == q0 * W32 + r.w0 as int
    requires w.w1 as int + s.w1 as int + q0 == q1 * W32 + r.w1 as int
    requires w.w2 as int + s.w2 as int + q1 == q2 * W32 + r.w2 as int
    requires w.w3 as int + s.w3 as int + q2 == q3 * W32 + r.w3 as int && q3 >= 0
    ensures WordsVal(r) == (WordsVal(w) + WordsVal(s)) % W128
  {
    hide WordsVal;
    PadSum(w, s, q0, q1, q2, q3, r);
    WordsBound(r); WordsBound(w); WordsBound(s);
    RemainderIs(WordsVal(w) + WordsVal(s), W128, q3, WordsVal(r));
  }

  lemma WordsBound(r: Words)
    ensures 0 <= WordsVal(r) < W128
  {}

  lemma PadSum(w: Words, s: Words, q0: int, q1: int, q2: int, q3: int, r: Words)
    requires w.w0 as int + s.w0 as int == q0 * W32 + r.w0 as int
    requires w.w1 as int + s.w1 as int + q0 == q1 * W32 + r.w1 as int
    requires w.w2 as int + s.w2 as int + q1 == q2 * W32 + r.w2 as int
    requires w.w3 as int + s.w3 as int + q2 == q3 * W32 + r.w3 as int
    ensures WordsVal(w) + WordsVal(s) == q3 * W128 + WordsVal(r)
  {}
}
