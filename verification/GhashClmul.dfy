/** The x86 GHASH: carry-less products accumulated over four blocks and reduced
    once. A 128-bit register is its bits, most significant first; after the byte
    swap of the load that is the bit order of the block. */
module GhashClmul {
  import opened Bytes
  import opened Gf128
  import Ghash

  function Hi(a: Elem): Word { a[..64] }

  function Lo(a: Elem): Word { a[64..] }

  // ---- the instructions -----------------------------------------------------

  /** _mm_slli_si128: the register shifted left by n bytes */
  function SlliSi(a: Elem, n: nat): (r: Elem)
    requires n <= 16
    ensures forall i :: 0 <= i < 128 ==> r[i] == (i + 8 * n < 128 && a[i + 8 * n])
  {
    seq(128, i requires 0 <= i < 128 => i + 8 * n < 128 && a[i + 8 * n])
  }

  /** _mm_srli_si128 */
  function SrliSi(a: Elem, n: nat): (r: Elem)
    requires n <= 16
    ensures forall i :: 0 <= i < 128 ==> r[i] == (i >= 8 * n && a[i - 8 * n])
  {
    seq(128, i requires 0 <= i < 128 => i >= 8 * n && a[i - 8 * n])
  }

  /** _mm_slli_epi32: each 32-bit lane shifted left by n bits */
  function Slli32(a: Elem, n: nat): (r: Elem)
    ensures forall i :: 0 <= i < 128 ==> r[i] == (i % 32 + n < 32 && a[i + n])
  {
    seq(128, i requires 0 <= i < 128 => i % 32 + n < 32 && a[i + n])
  }

  /** _mm_srli_epi32 */
  function Srli32(a: Elem, n: nat): (r: Elem)
    ensures forall i :: 0 <= i < 128 ==> r[i] == (i % 32 >= n && a[i - n])
  {
    seq(128, i requires 0 <= i < 128 => i % 32 >= n && a[i - n])
  }

  function Or(a: Elem, b: Elem): (r: Elem)
    ensures forall i :: 0 <= i < 128 ==> r[i] == (a[i] || b[i])
  {
    seq(128, i requires 0 <= i < 128 => a[i] || b[i])
  }

  /** b shifted left so that it starts at bit k from the left of a register */
  function Place(b: Word, k: nat): (r: Elem)
    requires k <= 64
    ensures forall i :: 0 <= i < 128 ==> r[i] == (k <= i < k + 64 && b[i - k])
  {
    seq(128, i requires 0 <= i < 128 => k <= i < k + 64 && b[i - k])
  }

  /** The carry-less product of the n most significant bits of a with b: for
      each set bit, b shifted by that bit's weight */
  function ClAcc(a: Word, b: Word, n: nat): Elem
    requires n <= 64
  {
    if n == 0 then Zero() else Xor(ClAcc(a, b, n - 1), Sel(a[n - 1], Place(b, n)))
  }

  /** _mm_clmulepi64_si128 on two chosen 64-bit halves */
  function Clmul(a: Word, b: Word): Elem { ClAcc(a, b, 64) }

  // ---- clmul_acc, gf_finish, gf_mul_x86 -------------------------------------

  datatype Sums = Sums(lo: Elem, mid: Elem, hi: Elem)

  function NoSums(): Sums { Sums(Zero(), Zero(), Zero()) }

  function AddSums(s: Sums, t: Sums): Sums { Sums(Xor(s.lo, t.lo), Xor(s.mid, t.mid), Xor(s.hi, t.hi)) }

  /** The four half products of a and b */
  function Products(a: Elem, b: Elem): Sums
  {
    Sums(Clmul(Lo(a), Lo(b)), Xor(Clmul(Hi(a), Lo(b)), Clmul(Lo(a), Hi(b))), Clmul(Hi(a), Hi(b)))
  }

  function ClmulAcc(a: Elem, b: Elem, s: Sums): Sums { AddSums(s, Products(a, b)) }

  function ShiftedLo(lo: Elem): Elem { Or(Slli32(lo, 1), SlliSi(Srli32(lo, 31), 4)) }

  function ShiftedHi(lo: Elem, hi: Elem): Elem
  {
    Or(Slli32(hi, 1), Or(SlliSi(Srli32(hi, 31), 4), SrliSi(Srli32(lo, 31), 12)))
  }

  function Reduce(lo: Elem, hi: Elem): Elem
  {
    var t := Xor(Slli32(lo, 31), Xor(Slli32(lo, 30), Slli32(lo, 25)));
    var t8 := SrliSi(t, 4);
    var l := Xor(lo, SlliSi(t, 12));
    var u := Xor(Xor(Srli32(l, 1), Xor(Srli32(l, 2), Srli32(l, 7))), t8);
    Xor(hi, Xor(l, u))
  }

  function GfFinish(s: Sums): Elem
  {
    var lo := Xor(s.lo, SlliSi(s.mid, 8));
    var hi := Xor(s.hi, SrliSi(s.mid, 8));
    Reduce(ShiftedLo(lo), ShiftedHi(lo, hi))
  }

  function GfMul(a: Elem, b: Elem): Elem { GfFinish(ClmulAcc(a, b, NoSums())) }

  // ---- the reduction is the fold by x^128 + x^7 + x^2 + x + 1 ----------------

  lemma Shifts(lo: Elem, hi: Elem, i: nat)
    requires i < 128
    ensures ShiftedLo(lo)[i] == (i < 127 && lo[i + 1])
    ensures ShiftedHi(lo, hi)[i] == if i < 127 then hi[i + 1] else lo[0]
  {}

  /** v >> k as a 128-bit shift */
  predicate At(v: Elem, i: int) { 0 <= i < 128 && v[i] }

  /** Coefficient i of v . (1 + x + x^2 + x^7), overflow dropped */
  predicate Spread(v: Elem, i: int) { (At(v, i) != At(v, i - 1)) != (At(v, i - 2) != At(v, i - 7)) }

  /** The coefficients of v that leave on multiplication by x^k */
  function Out(v: Elem, k: nat): (r: Elem)
    requires k <= 128
    ensures forall i :: 0 <= i < 128 ==> r[i] == (i < k && v[128 - k + i])
  {
    seq(128, i requires 0 <= i < 128 => i < k && v[128 - k + i])
  }

  lemma OutStep(v: Elem, k: nat, j: int)
    requires 0 < k <= 128 && j < 128
    ensures At(Out(v, k), j) == if j == 0 then v[128 - k] else At(Out(v, k - 1), j - 1)
  {}

  lemma AtXor(a: Elem, b: Elem, i: int)
    ensures At(Xor(a, b), i) == (At(a, i) != At(b, i))
  {}

  lemma SpreadXor(a: Elem, b: Elem, i: int)
    ensures Spread(Xor(a, b), i) == (Spread(a, i) != Spread(b, i))
  {
    hide At;
    AtXor(a, b, i); AtXor(a, b, i - 1); AtXor(a, b, i - 2); AtXor(a, b, i - 7);
  }

  lemma SpreadOutStep(v: Elem, k: nat, i: nat)
    requires 0 < k <= 128 && i < 128
    ensures Spread(Out(v, k), i) ==
      (Spread(Out(v, k - 1), i - 1) != (v[128 - k] && (i == 0 || i == 1 || i == 2 || i == 7)))
  {
    hide At;
    OutStep(v, k, i); OutStep(v, k, i - 1); OutStep(v, k, i - 2); OutStep(v, k, i - 7);
    AtNegative(Out(v, k - 1));
  }

  lemma AtNegative(v: Elem)
    ensures forall i :: i < 0 ==> !At(v, i)
  {}

  lemma {:induction false} XtNSpread(v: Elem, k: nat, i: nat)
    requires k <= 7 && i < 128
    ensures XtN(v, k)[i] == (At(v, i - k) != Spread(Out(v, k), i))
  {
    hide Xt, Spread;
    if k == 0 {
      NothingOut(v, i);
    } else {
      if i > 0 { XtNSpread(v, k - 1, i - 1); }
      XtNSpread(v, k - 1, 127);
      NoneHigh(v, k - 1);
      SpreadNegative(Out(v, k - 1));
      XtCoefficient(XtN(v, k - 1), i);
      SpreadOutStep(v, k, i);
    }
  }

  lemma NothingOut(v: Elem, i: nat)
    requires i < 128
    ensures !Spread(Out(v, 0), i)
  {}

  lemma NoneHigh(v: Elem, k: nat)
    requires k <= 7
    ensures !Spread(Out(v, k), 127)
  {}

  lemma SpreadNegative(v: Elem)
    ensures !Spread(v, -1)
  {}

  lemma XtCoefficient(v: Elem, i: nat)
    requires i < 128
    ensures Xt(v)[i] == (At(v, i - 1) != (v[127] && (i == 0 || i == 1 || i == 2 || i == 7)))
  {}

  /** lo with everything that leaves it folded back in at the bottom */
  function Folded(lo: Elem): Elem { Xor(lo, Xor(Out(lo, 1), Xor(Out(lo, 2), Out(lo, 7)))) }

  lemma FoldSpread(lo: Elem, i: nat)
    requires i < 128
    ensures Fold(lo)[i] == Spread(Folded(lo), i)
  {
    hide XtN, Out, At, Spread, Fold, Folded;
    XtNSpread(lo, 1, i); XtNSpread(lo, 2, i); XtNSpread(lo, 7, i);
    FoldBits(lo, i);
    FoldedSpread(lo, i);
    SpreadBits(lo, i);
    AtIn(lo, i);
  }

  lemma FoldBits(lo: Elem, i: nat)
    requires i < 128
    ensures Fold(lo)[i] == ((lo[i] != XtN(lo, 1)[i]) != (XtN(lo, 2)[i] != XtN(lo, 7)[i]))
  {
    hide XtN;
  }

  lemma SpreadBits(v: Elem, i: int)
    ensures Spread(v, i) == ((At(v, i) != At(v, i - 1)) != (At(v, i - 2) != At(v, i - 7)))
  {
    hide At;
  }

  lemma FoldedSpread(lo: Elem, i: nat)
    requires i < 128
    ensures Spread(Folded(lo), i) ==
      (Spread(lo, i) != (Spread(Out(lo, 1), i) != (Spread(Out(lo, 2), i) != Spread(Out(lo, 7), i))))
  {
    hide Spread, Out, Xor;
    var a, b, c := Out(lo, 1), Out(lo, 2), Out(lo, 7);
    SpreadXor(lo, Xor(a, Xor(b, c)), i);
    SpreadXor(a, Xor(b, c), i);
    SpreadXor(b, c, i);
  }

  lemma AtIn(v: Elem, i: nat)
    requires i < 128
    ensures At(v, i) == v[i]
  {}

  function Carries(lo: Elem): Elem { Xor(Slli32(lo, 31), Xor(Slli32(lo, 30), Slli32(lo, 25))) }

  /** The last lane of the carries, moved to the front, is what leaves lo. */
  lemma CarriesLeave(lo: Elem)
    ensures Xor(lo, SlliSi(Carries(lo), 12)) == Folded(lo)
  {
    hide Carries, Folded;
    var l, r := Xor(lo, SlliSi(Carries(lo), 12)), Folded(lo);
    forall i | 0 <= i < 128 ensures l[i] == r[i] {
      FoldedBit(lo, i);
      if i < 32 { LastCarries(lo, i); }
    }
  }

  lemma FoldedBit(lo: Elem, i: nat)
    requires i < 128
    ensures Folded(lo)[i] == (lo[i] != ((i < 1 && lo[127 + i]) != ((i < 2 && lo[126 + i]) != (i < 7 && lo[121 + i]))))
  {}

  lemma LastCarries(lo: Elem, i: nat)
    requires i < 32
    ensures Carries(lo)[i + 96] == ((i < 1 && lo[127 + i]) != ((i < 2 && lo[126 + i]) != (i < 7 && lo[121 + i])))
  {}

  /** A lane-wise shift by k misses what crosses from the lane before. */
  lemma LaneShift(lo: Elem, k: nat, i: nat)
    requires k <= 7 && i < 128
    ensures At(Folded(lo), i - k) == (Srli32(Folded(lo), k)[i] != (i >= 32 && Slli32(lo, 32 - k)[i - 32]))
  {
    hide Folded;
    if i >= 32 { FoldedBit(lo, i - k); }
  }

  /** The carries, moved up a lane */
  lemma CarriedBit(lo: Elem, i: nat)
    requires i < 128
    ensures SrliSi(Carries(lo), 4)[i] == ((i >= 32 && Slli32(lo, 31)[i - 32]) !=
                     ((i >= 32 && Slli32(lo, 30)[i - 32]) != (i >= 32 && Slli32(lo, 25)[i - 32])))
  {
    hide Slli32;
  }

  function Shifted(hi: Elem, l: Elem, t: Elem): Elem
  {
    Xor(hi, Xor(l, Xor(Xor(Srli32(l, 1), Xor(Srli32(l, 2), Srli32(l, 7))), t)))
  }

  lemma ReduceForm(lo: Elem, hi: Elem)
    ensures Reduce(lo, hi) == Shifted(hi, Folded(lo), SrliSi(Carries(lo), 4))
  {
    hide Xor, Slli32, Srli32, SrliSi, SlliSi, Folded;
    CarriesLeave(lo);
  }

  lemma XorBit(a: Elem, b: Elem, i: nat)
    requires i < 128
    ensures Xor(a, b)[i] == (a[i] != b[i])
  {}

  lemma ShiftedBit(hi: Elem, l: Elem, t: Elem, i: nat)
    requires i < 128
    ensures Shifted(hi, l, t)[i] ==
      (hi[i] != (l[i] != ((Srli32(l, 1)[i] != (Srli32(l, 2)[i] != Srli32(l, 7)[i])) != t[i])))
  {
    hide Xor, Srli32;
    var a, b, c := Srli32(l, 1), Srli32(l, 2), Srli32(l, 7);
    XorBit(b, c, i);
    XorBit(a, Xor(b, c), i);
    XorBit(Xor(a, Xor(b, c)), t, i);
    XorBit(l, Xor(Xor(a, Xor(b, c)), t), i);
    XorBit(hi, Xor(l, Xor(Xor(a, Xor(b, c)), t)), i);
  }

  lemma ReduceSpread(lo: Elem, hi: Elem, i: nat)
    requires i < 128
    ensures Reduce(lo, hi)[i] == (hi[i] != Spread(Folded(lo), i))
  {
    hide Folded, At, Spread, Reduce, Shifted, Carries, Slli32, Srli32, SrliSi;
    var l := Folded(lo);
    SpreadBits(l, i);
    LaneShift(lo, 1, i); LaneShift(lo, 2, i); LaneShift(lo, 7, i);
    AtIn(l, i);
    CarriedBit(lo, i);
    ReduceForm(lo, hi);
    ShiftedBit(hi, l, SrliSi(Carries(lo), 4), i);
  }

  lemma ReduceIsFold(lo: Elem, hi: Elem)
    ensures Reduce(lo, hi) == Xor(hi, Fold(lo))
  {
    hide Reduce, Fold;
    forall i | 0 <= i < 128 ensures Reduce(lo, hi)[i] == Xor(hi, Fold(lo))[i] {
      ReduceSpread(lo, hi, i);
      FoldSpread(lo, i);
    }
  }

  // ---- the finish is linear, so several products may share it ----------------

  function LoPart(s: Sums): Elem { ShiftedLo(Xor(s.lo, SlliSi(s.mid, 8))) }

  function HiPart(s: Sums): Elem { ShiftedHi(Xor(s.lo, SlliSi(s.mid, 8)), Xor(s.hi, SrliSi(s.mid, 8))) }

  lemma PartBits(s: Sums, i: nat)
    requires i < 128
    ensures LoPart(s)[i] == (i < 127 && (s.lo[i + 1] != (i < 63 && s.mid[i + 65])))
    ensures HiPart(s)[i] == if i < 127 then s.hi[i + 1] != (i >= 63 && s.mid[i - 63]) else s.lo[0] != s.mid[64]
  {
    hide ShiftedLo, ShiftedHi;
    Shifts(Xor(s.lo, SlliSi(s.mid, 8)), Xor(s.hi, SrliSi(s.mid, 8)), i);
  }

  lemma PartsXor(s: Sums, t: Sums)
    ensures LoPart(AddSums(s, t)) == Xor(LoPart(s), LoPart(t))
    ensures HiPart(AddSums(s, t)) == Xor(HiPart(s), HiPart(t))
  {
    hide LoPart, HiPart;
    forall i | 0 <= i < 128
      ensures LoPart(AddSums(s, t))[i] == Xor(LoPart(s), LoPart(t))[i]
      ensures HiPart(AddSums(s, t))[i] == Xor(HiPart(s), HiPart(t))[i]
    {
      PartBits(s, i); PartBits(t, i); PartBits(AddSums(s, t), i);
    }
  }

  lemma FinishIsFold(s: Sums)
    ensures GfFinish(s) == Xor(HiPart(s), Fold(LoPart(s)))
  {
    hide Reduce, Fold, ShiftedLo, ShiftedHi, Xor, SlliSi, SrliSi;
    ReduceIsFold(LoPart(s), HiPart(s));
  }

  lemma FinishXor(s: Sums, t: Sums)
    ensures GfFinish(AddSums(s, t)) == Xor(GfFinish(s), GfFinish(t))
  {
    hide GfFinish, Fold, LoPart, HiPart, Xor, AddSums;
    FinishIsFold(s); FinishIsFold(t); FinishIsFold(AddSums(s, t));
    PartsXor(s, t);
    FoldXor(LoPart(s), LoPart(t));
    XorSwap(HiPart(s), HiPart(t), Fold(LoPart(s)), Fold(LoPart(t)));
  }

  // ---- one shifted copy of b, finished, is b times a power of x --------------

  /** b . x^i cut off at x^127 */
  function Kept(b: Elem, i: nat): (r: Elem)
    requires i <= 128
    ensures forall j :: 0 <= j < 128 ==> r[j] == (j >= i && b[j - i])
  {
    seq(128, j requires 0 <= j < 128 => j >= i && b[j - i])
  }

  lemma KeptStep(b: Elem, i: nat)
    requires i < 128
    ensures Xor(Kept(b, i + 1), Sel(b[127 - i], R())) == Xt(Kept(b, i))
  {
    hide R, Xor, Sel;
    ShiftKept(b, i);
  }

  lemma ShiftKept(b: Elem, i: nat)
    requires i < 128
    ensures ShiftRight(Kept(b, i)) == Kept(b, i + 1) && Kept(b, i)[127] == b[127 - i]
  {
  }

  lemma OutNext(b: Elem, i: nat)
    requires i < 128
    ensures Out(b, i + 1) == Xor(Xt(Out(b, i)), Sel(b[127 - i], Unit(0)))
  {
    hide Xt;
    var l, r := Out(b, i + 1), Xor(Xt(Out(b, i)), Sel(b[127 - i], Unit(0)));
    forall j | 0 <= j < 128 ensures l[j] == r[j] { XtCoefficient(Out(b, i), j); }
  }

  lemma {:induction false} KeptAndFolded(b: Elem, i: nat)
    requires i <= 128
    ensures Xor(Kept(b, i), Fold(Out(b, i))) == XtN(b, i)
  {
    hide Fold, Xor, Xt, Kept, Out, Sel;
    if i == 0 {
      KeptAll(b);
      FoldZero();
      XorZero(b);
    } else {
      KeptAndFolded(b, i - 1);
      var p, k, o := b[128 - i], Kept(b, i - 1), Out(b, i - 1);
      KeptStep(b, i - 1);
      OutNext(b, i - 1);
      FoldXor(Xt(o), Sel(p, Unit(0)));
      assert Fold(Sel(p, Unit(0))) == Sel(p, R()) by { FoldSelUnit(p); }
      assert Fold(Xt(o)) == Xt(Fold(o)) by { XtNOne(o); FoldXtN(o, 1); XtNOne(Fold(o)); }
      XtXor(k, Fold(o));
      assert XtN(b, i) == Xt(XtN(b, i - 1)) by { XtNSum(b, i - 1, 1); XtNOne(XtN(b, i - 1)); }
      RegroupKept(Kept(b, i), Sel(p, R()), Xt(Fold(o)));
    }
  }

  lemma KeptAll(b: Elem)
    ensures Kept(b, 0) == b && Out(b, 0) == Zero()
  {}

  lemma FoldSelUnit(p: bool)
    ensures Fold(Sel(p, Unit(0))) == Sel(p, R())
  {
    hide Fold;
    FoldUnit();
    FoldZero();
  }

  lemma RegroupKept(k: Elem, r: Elem, f: Elem)
    ensures Xor(Xor(k, r), f) == Xor(k, Xor(f, r))
  {}

  /** The contribution of bit i of the first operand to the sums */
  function BitSums(p: bool, b: Elem, i: nat): Sums
    requires i < 128
  {
    if i < 64 then Sums(Zero(), Sel(p, Place(Lo(b), i + 1)), Sel(p, Place(Hi(b), i + 1)))
    else Sums(Sel(p, Place(Lo(b), i - 63)), Sel(p, Place(Hi(b), i - 63)), Zero())
  }

  lemma BitParts(b: Elem, i: nat)
    requires i < 128
    ensures HiPart(BitSums(true, b, i)) == Kept(b, i) && LoPart(BitSums(true, b, i)) == Out(b, i)
  {
    hide HiPart, LoPart;
    var s := BitSums(true, b, i);
    forall j | 0 <= j < 128 ensures HiPart(s)[j] == Kept(b, i)[j] && LoPart(s)[j] == Out(b, i)[j] {
      PartBits(s, j);
    }
  }

  lemma FinishNothing()
    ensures GfFinish(NoSums()) == Zero()
  {
    hide Fold, LoPart, HiPart;
    FinishIsFold(NoSums());
    forall j | 0 <= j < 128 ensures !HiPart(NoSums())[j] && !LoPart(NoSums())[j] { PartBits(NoSums(), j); }
    assert LoPart(NoSums()) == Zero() && HiPart(NoSums()) == Zero();
    FoldZero();
  }

  lemma FinishBit(p: bool, b: Elem, i: nat)
    requires i < 128
    ensures GfFinish(BitSums(p, b, i)) == Sel(p, XtN(b, i))
  {
    hide GfFinish, Fold, LoPart, HiPart, XtN, Place, Xor;
    if p {
      FinishIsFold(BitSums(p, b, i));
      BitParts(b, i);
      KeptAndFolded(b, i);
    } else {
      assert BitSums(p, b, i) == NoSums();
      FinishNothing();
    }
  }

  // ---- the product ------------------------------------------------------------

  /** The sums of the n most significant bits of a */
  function Prefix(a: Elem, b: Elem, n: nat): Sums
    requires n <= 128
  {
    var m, k := if n < 64 then n else 64, if n < 64 then 0 else n - 64;
    Sums(ClAcc(Lo(a), Lo(b), k), Xor(ClAcc(Hi(a), Lo(b), m), ClAcc(Lo(a), Hi(b), k)), ClAcc(Hi(a), Hi(b), m))
  }

  lemma PrefixStep(a: Elem, b: Elem, n: nat)
    requires n < 128
    ensures Prefix(a, b, n + 1) == AddSums(Prefix(a, b, n), BitSums(a[n], b, n))
  {
    hide Xor, Place, Sel, Zero;
    var z := Zero();
    if n < 64 {
      assert Hi(a)[n] == a[n];
      var x, y, c := ClAcc(Hi(a), Lo(b), n), ClAcc(Lo(a), Hi(b), 0), Sel(a[n], Place(Lo(b), n + 1));
      XorExchange(x, c, y);
      XorZero(ClAcc(Lo(a), Lo(b), 0));
    } else {
      assert Lo(a)[n - 64] == a[n];
      var x, y, c := ClAcc(Hi(a), Lo(b), 64), ClAcc(Lo(a), Hi(b), n - 64), Sel(a[n], Place(Hi(b), n - 63));
      XorAssoc(x, y, c);
      XorZero(ClAcc(Hi(a), Hi(b), 64));
    }
  }

  lemma XorExchange(x: Elem, c: Elem, y: Elem)
    ensures Xor(Xor(x, c), y) == Xor(Xor(x, y), c)
  {}

  lemma {:induction false} FinishPrefix(a: Elem, b: Elem, n: nat)
    requires n <= 128
    ensures GfFinish(Prefix(a, b, n)) == Acc(a, b, n)
  {
    hide GfFinish, Xor, BitSums, AddSums, XtN, Sel;
    if n == 0 {
      PrefixNothing(a, b);
      FinishNothing();
    } else {
      hide Prefix;
      FinishPrefix(a, b, n - 1);
      PrefixStep(a, b, n - 1);
      FinishXor(Prefix(a, b, n - 1), BitSums(a[n - 1], b, n - 1));
      FinishBit(a[n - 1], b, n - 1);
    }
  }

  lemma PrefixNothing(a: Elem, b: Elem)
    ensures Prefix(a, b, 0) == NoSums()
  {
    XorZero(Zero());
  }

  /** The carry-less products of two registers, finished, are the field product. */
  lemma ProductsFinish(a: Elem, b: Elem)
    ensures GfFinish(Products(a, b)) == Mul(a, b)
  {
    hide GfFinish, Xor, ClAcc, Acc;
    FinishPrefix(a, b, 128);
  }

  lemma GfMulIsProduct(a: Elem, b: Elem)
    ensures GfMul(a, b) == Mul(a, b)
  {
    hide GfFinish, Products, AddSums, Mul, Xor;
    FinishXor(NoSums(), Products(a, b));
    FinishNothing();
    ProductsFinish(a, b);
    XorZero(Mul(a, b));
  }

  // ---- four blocks per reduction ----------------------------------------------

  /** H^n as gcm_init_x86 builds it */
  function Power(h: Elem, n: nat): Elem
    requires n > 0
  {
    if n == 1 then h else Mul(Power(h, n - 1), h)
  }

  /** a . H^(n+1) is n + 1 Horner steps. */
  lemma PowerStep(a: Elem, h: Elem, n: nat)
    requires n > 0
    ensures Mul(a, Power(h, n + 1)) == Mul(Mul(a, Power(h, n)), h)
  {
    hide Mul;
    MulAssoc(a, Power(h, n), h);
  }

  /** The sums the four-block loop accumulates */
  function FourSums(b0: Elem, b1: Elem, b2: Elem, b3: Elem, h1: Elem, h2: Elem, h3: Elem, h4: Elem): Sums
  {
    ClmulAcc(b3, h1, ClmulAcc(b2, h2, ClmulAcc(b1, h3, ClmulAcc(b0, h4, NoSums()))))
  }

  lemma AccFinish(a: Elem, b: Elem, s: Sums)
    ensures GfFinish(ClmulAcc(a, b, s)) == Xor(GfFinish(s), Mul(a, b))
  {
    hide GfFinish, Products, AddSums, Mul, Xor;
    FinishXor(s, Products(a, b));
    ProductsFinish(a, b);
  }

  /** Four products under one reduction are four Horner steps. */
  lemma FourBlocks(b0: Elem, b1: Elem, b2: Elem, b3: Elem, h: Elem)
    ensures GfFinish(FourSums(b0, b1, b2, b3, Power(h, 1), Power(h, 2), Power(h, 3), Power(h, 4))) ==
      Mul(Xor(Mul(Xor(Mul(Xor(Mul(b0, h), b1), h), b2), h), b3), h)
  {
    hide GfFinish, ClmulAcc, Mul, Xor;
    var h1, h2, h3, h4 := Power(h, 1), Power(h, 2), Power(h, 3), Power(h, 4);
    var s1 := ClmulAcc(b0, h4, NoSums());
    var s2 := ClmulAcc(b1, h3, s1);
    var s3 := ClmulAcc(b2, h2, s2);
    AccFinish(b0, h4, NoSums());
    AccFinish(b1, h3, s1);
    AccFinish(b2, h2, s2);
    AccFinish(b3, h1, s3);
    FinishNothing();
    XorZero(Mul(b0, h4));
    var c1 := Mul(b0, h);
    var c2 := Mul(c1, h);
    var c3 := Mul(c2, h);
    var c4 := Mul(c3, h);
    assert Mul(b0, h4) == c4 by { PowerStep(b0, h, 3); PowerStep(b0, h, 2); PowerStep(b0, h, 1); }
    assert Mul(b1, h3) == Mul(Mul(Mul(b1, h), h), h) by { PowerStep(b1, h, 2); PowerStep(b1, h, 1); }
    assert Mul(b2, h2) == Mul(Mul(b2, h), h) by { PowerStep(b2, h, 1); }
    MulXorLeft(c1, b1, h);
    MulXorLeft(c2, Mul(b1, h), h);
    MulXorLeft(c3, Mul(Mul(b1, h), h), h);
    MulXorLeft(Xor(c2, Mul(b1, h)), b2, h);
    MulXorLeft(Xor(c3, Mul(Mul(b1, h), h)), Mul(b2, h), h);
    MulXorLeft(Xor(Xor(c3, Mul(Mul(b1, h), h)), Mul(b2, h)), b3, h);
  }

  /** 64 bytes hashed one block at a time */
  lemma HashFour(h: Elem, x: Elem, d: seq<byte>, b0: Elem, b1: Elem, b2: Elem, b3: Elem)
    requires |d| == 64
    requires b0 == BlockBits(d, 0) && b1 == BlockBits(d, 16) && b2 == BlockBits(d, 32) && b3 == BlockBits(d, 48)
    ensures Ghash.Hash(h, FromBits(x), d) ==
      FromBits(Mul(Xor(Mul(Xor(Mul(Xor(Mul(Xor(b0, x), h), b1), h), b2), h), b3), h))
  {
    hide Ghash.Hash, FromBits, Bits, Mul, Xor;
    var x1 := HashFirst(h, x, d);
    var x2 := HashFirst(h, x1, d[16..]);
    var x3 := HashFirst(h, x2, d[32..]);
    var x4 := HashFirst(h, x3, d[48..]);
    assert d[16..][..16] == d[16..32] && d[16..][16..] == d[32..] && d[32..][..16] == d[32..48] &&
      d[32..][16..] == d[48..];
    assert d[48..][..16] == d[48..64] && d[48..][16..] == [];
    XorComm(x, b0);
    HashNothing(h, FromBits(x4));
  }

  /** The 16 bytes of d at k, loaded and byte-swapped */
  function BlockBits(d: seq<byte>, k: nat): Elem
    requires k + 16 <= |d|
  {
    Bits(d[k..k + 16])
  }

  lemma HashNothing(h: Elem, y: Block)
    ensures Ghash.Hash(h, y, []) == y
  {
    hide Ghash.Step;
  }

  lemma HashFirst(h: Elem, x: Elem, d: seq<byte>) returns (x': Elem)
    requires |d| >= 16
    ensures x' == Mul(Xor(x, Bits(d[..16])), h)
    ensures Ghash.Hash(h, FromBits(x), d) == Ghash.Hash(h, FromBits(x'), d[16..])
  {
    hide Ghash.Step, FromBits, Bits, Mul, Xor;
    x' := Mul(Xor(x, Bits(d[..16])), h);
    Ghash.StepBits(h, x, d[..16]);
    assert Pad(d[..16]) == d[..16];
  }

  // ---- the methods ------------------------------------------------------------

  /** gcm_init_x86: the powers H^1 .. H^4 */
  method InitPowers(key: Block) returns (hp: seq<Elem>)
    ensures |hp| == 4 && forall i :: 0 <= i < 4 ==> hp[i] == Power(Bits(key), i + 1)
  {
    hide GfMul, Mul, Bits;
    var h: Elem := Bits(key);
    var p := h;
    hp := [p];
    for i := 1 to 4
      invariant |hp| == i && p == Power(h, i)
      invariant forall k :: 0 <= k < i ==> hp[k] == Power(h, k + 1)
    {
      GfMulIsProduct(p, h);
      p := GfMul(p, h);
      hp := hp + [p];
    }
  }

  /** The four-block body shared by ghash_x86 and gcm_stitch_x86 */
  method HashFourBlocks(hp: seq<Elem>, x: Elem, d: seq<byte>, ghost h: Elem) returns (r: Elem)
    requires |hp| == 4 && forall i :: 0 <= i < 4 ==> hp[i] == Power(h, i + 1)
    requires |d| == 64
    ensures FromBits(r) == Ghash.Hash(h, FromBits(x), d)
  {
    hide GfFinish, ClmulAcc, Mul, Xor, BlockBits, FromBits, Power;
    var b0, b1, b2, b3 := BlockBits(d, 0), BlockBits(d, 16), BlockBits(d, 32), BlockBits(d, 48);
    HashFour(h, x, d, b0, b1, b2, b3);
    b0 := Xor(b0, x);
    var s := ClmulAcc(b0, hp[3], NoSums());
    s := ClmulAcc(b1, hp[2], s);
    s := ClmulAcc(b2, hp[1], s);
    s := ClmulAcc(b3, hp[0], s);
    r := GfFinish(s);
    FourBlocks(b0, b1, b2, b3, h);
  }

  /** The single-block body, the block zero-padded */
  method HashOneBlock(h1: Elem, x: Elem, d: seq<byte>) returns (r: Elem)
    requires 0 < |d| <= 16
    ensures FromBits(r) == Ghash.Hash(h1, FromBits(x), d)
  {
    hide GfMul, Mul, Xor, Bits, FromBits, Ghash.Step;
    var b: Elem := Bits(Pad(d));
    GfMulIsProduct(Xor(x, b), h1);
    r := GfMul(Xor(x, b), h1);
    Ghash.HashOne(h1, FromBits(x), d);
    Ghash.StepBits(h1, x, d);
  }

  /** ghash_x86 */
  method Update(hp: seq<Elem>, y: array<byte>, data: seq<byte>, ghost h: Elem)
    requires |hp| == 4 && forall i :: 0 <= i < 4 ==> hp[i] == Power(h, i + 1)
    requires y.Length == 16
    modifies y
    ensures y[..] == Ghash.Hash(h, old(y[..]), data)
  {
    hide Bits, FromBits, Mul, Ghash.Step;
    var x: Elem := Bits(y[..]);
    FromBitsInverse(y[..]);
    var d := data;
    ghost var want := Ghash.Hash(h, y[..], data);
    while |d| >= 64
      invariant Ghash.Hash(h, FromBits(x), d) == want
      decreases |d|
    {
      assert d == d[..64] + d[64..];
      Ghash.HashConcat(h, FromBits(x), d[..64], d[64..]);
      x := HashFourBlocks(hp, x, d[..64], h);
      d := d[64..];
    }
    while |d| >= 16
      invariant Ghash.Hash(h, FromBits(x), d) == want
      decreases |d|
    {
      assert d == d[..16] + d[16..];
      Ghash.HashConcat(h, FromBits(x), d[..16], d[16..]);
      x := HashOneBlock(hp[0], x, d[..16]);
      d := d[16..];
    }
    if d != [] {
      x := HashOneBlock(hp[0], x, d);
    }
    Store(y, FromBits(x));
  }

  method Store(y: array<byte>, b: Block)
    requires y.Length == 16
    modifies y
    ensures y[..] == b
  {
    for i := 0 to 16
      invariant forall k :: 0 <= k < i ==> y[k] == b[k]
    {
      y[i] := b[i];
    }
  }

  // ---- the closed form -----------------------------------------------------------

  lemma {:induction false} PowerFront(h: Elem, n: nat)
    requires n > 0
    ensures Mul(h, Power(h, n)) == Power(h, n + 1)
  {
    hide Mul;
    if n > 1 {
      PowerFront(h, n - 1);
      MulAssoc(h, Power(h, n - 1), h);
    }
  }

  /** X_1 H^n + X_2 H^(n-1) + ... + X_n H */
  function Terms(h: Elem, d: seq<byte>): Elem
    requires |d| % 16 == 0
  {
    if d == [] then Zero()
    else
      WholeBlocks(|d|);
      Xor(Mul(Bits(d[..16]), Power(h, |d| / 16)), Terms(h, d[16..]))
  }

  lemma WholeBlocks(n: nat)
    requires n % 16 == 0 && n > 0
    ensures n >= 16 && (n - 16) % 16 == 0 && n / 16 > 0 && (n - 16) / 16 == n / 16 - 1
  {}

  /** GHASH of whole blocks from a starting block is that polynomial at H, the start
      taking part in the first term: section 6.4 of NIST SP 800-38D in closed form. */
  lemma {:induction false} HashIsPolynomial(h: Elem, y: Block, d: seq<byte>)
    requires |d| % 16 == 0 && d != []
    ensures Bits(Ghash.Hash(h, y, d)) == Xor(Mul(Bits(y), Power(h, |d| / 16)), Terms(h, d))
    decreases |d|
  {
    hide Mul, Xor, Bits, FromBits, XorBlock, Power;
    WholeBlocks(|d|);
    var n, x, e := |d| / 16, d[..16], d[16..];
    var z := Xor(Bits(y), Bits(x));
    FirstStep(h, y, d);
    MulXorLeft(Bits(y), Bits(x), Power(h, n));
    var a, b := Mul(Bits(y), Power(h, n)), Mul(Bits(x), Power(h, n));
    if e == [] {
      OnePower(h);
      HashNothing(h, Ghash.Step(h, y, x));
      XorZero(b);
    } else {
      HashIsPolynomial(h, Ghash.Step(h, y, x), e);
      MulAssoc(z, h, Power(h, n - 1));
      PowerFront(h, n - 1);
      XorAssoc(a, b, Terms(h, e));
    }
  }

  lemma OnePower(h: Elem)
    ensures Power(h, 1) == h
  {}

  lemma FirstStep(h: Elem, y: Block, d: seq<byte>)
    requires |d| % 16 == 0 && d != []
    ensures Ghash.Hash(h, y, d) == Ghash.Hash(h, Ghash.Step(h, y, d[..16]), d[16..])
    ensures Bits(Ghash.Step(h, y, d[..16])) == Mul(Xor(Bits(y), Bits(d[..16])), h)
  {
    hide Mul, Xor, Bits, FromBits;
    assert Pad(d[..16]) == d[..16];
    Ghash.BitsOfXor(y, d[..16]);
    BitsInverse(Mul(Xor(Bits(y), Bits(d[..16])), h));
  }
}
