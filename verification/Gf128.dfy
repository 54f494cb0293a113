/** The field GF(2^128) of section 6.3 of NIST SP 800-38D, on bit strings.
    Index i of an element is the coefficient of x^i, which is the i-th bit from
    the left of the 16-byte block. */
module Gf128 {

  type Elem = b: seq<bool> | |b| == 128 witness seq(128, _ => false)

  /** Half an element: the 64 bits of a uint64_t, most significant first */
  type Word = w: seq<bool> | |w| == 64 witness seq(64, _ => false)

  function Zero(): Elem { seq(128, _ => false) }

  /** x^j */
  function Unit(j: nat): Elem { seq(128, i => i == j) }

  function Xor(a: Elem, b: Elem): (r: Elem)
    ensures forall i :: 0 <= i < 128 ==> r[i] == (a[i] != b[i])
  {
    seq(128, i requires 0 <= i < 128 => a[i] != b[i])
  }

  /** b . a for a single coefficient b */
  function Sel(b: bool, a: Elem): Elem { if b then a else Zero() }

  /** The string R: x^128 reduced by x^128 + x^7 + x^2 + x + 1. */
  function R(): Elem { seq(128, i => i == 0 || i == 1 || i == 2 || i == 7) }

  /** v >> 1, with zero shifted in at the left */
  function ShiftRight(v: Elem): (r: Elem)
    ensures !r[0] && forall i :: 0 < i < 128 ==> r[i] == v[i - 1]
  {
    seq(128, i requires 0 <= i < 128 => i > 0 && v[i - 1])
  }

  /** The step V := (V >> 1) or (V >> 1) ^ R of the product algorithm */
  function Xt(v: Elem): Elem
  {
    Xor(ShiftRight(v), Sel(v[127], R()))
  }

  function XtN(v: Elem, n: nat): Elem
  {
    if n == 0 then v else Xt(XtN(v, n - 1))
  }

  /** Z after n steps of the product algorithm; V is then XtN(y, n). */
  function Acc(x: Elem, y: Elem, n: nat): Elem
    requires n <= 128
  {
    if n == 0 then Zero() else Xor(Acc(x, y, n - 1), Sel(x[n - 1], XtN(y, n - 1)))
  }

  /** The block product x . y */
  function Mul(x: Elem, y: Elem): Elem { Acc(x, y, 128) }

  // ---- exclusive or -------------------------------------------------------

  lemma XorZero(a: Elem)
    ensures Xor(a, Zero()) == a && Xor(Zero(), a) == a && Xor(a, a) == Zero()
  {}

  lemma XorComm(a: Elem, b: Elem) ensures Xor(a, b) == Xor(b, a) {}

  lemma XorAssoc(a: Elem, b: Elem, c: Elem) ensures Xor(Xor(a, b), c) == Xor(a, Xor(b, c)) {}

  lemma XorSwap(a: Elem, b: Elem, c: Elem, d: Elem)
    ensures Xor(Xor(a, b), Xor(c, d)) == Xor(Xor(a, c), Xor(b, d))
  {}

  lemma SelXor(p: bool, q: bool, a: Elem)
    ensures Sel(p != q, a) == Xor(Sel(p, a), Sel(q, a))
  {}

  lemma SelOverXor(p: bool, a: Elem, b: Elem)
    ensures Sel(p, Xor(a, b)) == Xor(Sel(p, a), Sel(p, b))
  {}

  // ---- multiplication by x ------------------------------------------------

  lemma XtXor(a: Elem, b: Elem)
    ensures Xt(Xor(a, b)) == Xor(Xt(a), Xt(b))
  {}

  lemma XtSel(p: bool, a: Elem)
    ensures Xt(Sel(p, a)) == Sel(p, Xt(a))
  {}

  lemma {:induction false} XtNXor(a: Elem, b: Elem, n: nat)
    ensures XtN(Xor(a, b), n) == Xor(XtN(a, n), XtN(b, n))
  {
    hide Xt, Xor;
    if n > 0 {
      XtNXor(a, b, n - 1);
      XtXor(XtN(a, n - 1), XtN(b, n - 1));
    }
  }

  lemma {:induction false} XtNSel(p: bool, a: Elem, n: nat)
    ensures XtN(Sel(p, a), n) == Sel(p, XtN(a, n))
  {
    hide Xt, Xor;
    if n > 0 {
      XtNSel(p, a, n - 1);
      XtSel(p, XtN(a, n - 1));
    }
  }

  lemma {:induction false} XtNSum(a: Elem, m: nat, n: nat)
    ensures XtN(XtN(a, m), n) == XtN(a, m + n)
  {
    hide Xt;
    if n > 0 { XtNSum(a, m, n - 1); }
  }

  lemma {:induction false} XtNUnit(j: nat)
    requires j < 128
    ensures XtN(Unit(0), j) == Unit(j)
  {
    hide Xt;
    if j > 0 {
      XtNUnit(j - 1);
      XtUnit(j - 1);
    }
  }

  lemma XtUnit(j: nat)
    requires j < 127
    ensures Xt(Unit(j)) == Unit(j + 1)
  {}

  // ---- the product is bilinear --------------------------------------------

  lemma {:induction false} AccXorLeft(x: Elem, x': Elem, y: Elem, n: nat)
    requires n <= 128
    ensures Acc(Xor(x, x'), y, n) == Xor(Acc(x, y, n), Acc(x', y, n))
  {
    hide Xor, Xt, Sel;
    if n == 0 {
      XorZero(Zero());
    } else {
      AccXorLeft(x, x', y, n - 1);
      var v := XtN(y, n - 1);
      SelXor(x[n - 1], x'[n - 1], v);
      XorSwap(Acc(x, y, n - 1), Acc(x', y, n - 1), Sel(x[n - 1], v), Sel(x'[n - 1], v));
    }
  }

  lemma {:induction false} AccXorRight(x: Elem, y: Elem, y': Elem, n: nat)
    requires n <= 128
    ensures Acc(x, Xor(y, y'), n) == Xor(Acc(x, y, n), Acc(x, y', n))
  {
    hide Xor, Xt, Sel;
    if n == 0 {
      XorZero(Zero());
    } else {
      AccXorRight(x, y, y', n - 1);
      XtNXor(y, y', n - 1);
      SelOverXor(x[n - 1], XtN(y, n - 1), XtN(y', n - 1));
      XorSwap(Acc(x, y, n - 1), Acc(x, y', n - 1), Sel(x[n - 1], XtN(y, n - 1)), Sel(x[n - 1], XtN(y', n - 1)));
    }
  }

  lemma MulXorLeft(x: Elem, x': Elem, y: Elem)
    ensures Mul(Xor(x, x'), y) == Xor(Mul(x, y), Mul(x', y))
  {
    AccXorLeft(x, x', y, 128);
  }

  lemma MulXorRight(x: Elem, y: Elem, y': Elem)
    ensures Mul(x, Xor(y, y')) == Xor(Mul(x, y), Mul(x, y'))
  {
    AccXorRight(x, y, y', 128);
  }

  lemma {:induction false} AccZeroLeft(y: Elem, n: nat)
    requires n <= 128
    ensures Acc(Zero(), y, n) == Zero()
  {
    if n > 0 { AccZeroLeft(y, n - 1); XorZero(Zero()); }
  }

  lemma MulSelLeft(p: bool, x: Elem, y: Elem)
    ensures Mul(Sel(p, x), y) == Sel(p, Mul(x, y))
  {
    AccZeroLeft(y, 128);
  }

  // ---- x^128 = 1 + x + x^2 + x^7 ------------------------------------------

  /** 1 is a left unit on the right-hand operand: every element is the sum of
      the powers of x it contains. */
  lemma {:induction false} AccOne(x: Elem, n: nat)
    requires n <= 128
    ensures Acc(x, Unit(0), n) == Truncated(x, n)
  {
    hide XtN, Xor, Sel, Unit;
    if n == 0 {
      assert Truncated(x, n) == Zero();
    } else {
      AccOne(x, n - 1);
      XtNUnit(n - 1);
      TruncatedNext(x, n);
    }
  }

  /** The terms of x below x^n */
  function Truncated(x: Elem, n: nat): Elem
  {
    seq(128, i requires 0 <= i < 128 => i < n && x[i])
  }

  lemma TruncatedNext(x: Elem, n: nat)
    requires 0 < n <= 128
    ensures Xor(Truncated(x, n - 1), Sel(x[n - 1], Unit(n - 1))) == Truncated(x, n)
  {}

  lemma MulOne(x: Elem)
    ensures Mul(x, Unit(0)) == x
  {
    hide Acc;
    AccOne(x, 128);
    assert Truncated(x, 128) == x;
  }

  /** What the reduction polynomial says x^128 . y is */
  function Fold(y: Elem): Elem
  {
    Xor(Xor(y, XtN(y, 1)), Xor(XtN(y, 2), XtN(y, 7)))
  }

  lemma FoldXor(a: Elem, b: Elem)
    ensures Fold(Xor(a, b)) == Xor(Fold(a), Fold(b))
  {
    hide Xor, Xt, XtN;
    XtNXor(a, b, 1); XtNXor(a, b, 2); XtNXor(a, b, 7);
    XorSwap(a, b, XtN(a, 1), XtN(b, 1));
    XorSwap(XtN(a, 2), XtN(b, 2), XtN(a, 7), XtN(b, 7));
    XorSwap(Xor(a, XtN(a, 1)), Xor(b, XtN(b, 1)), Xor(XtN(a, 2), XtN(a, 7)), Xor(XtN(b, 2), XtN(b, 7)));
  }

  lemma FoldXtN(a: Elem, n: nat)
    ensures Fold(XtN(a, n)) == XtN(Fold(a), n)
  {
    hide Xor, XtN, Xt;
    XtNXor(Xor(a, XtN(a, 1)), Xor(XtN(a, 2), XtN(a, 7)), n);
    XtNXor(a, XtN(a, 1), n);
    XtNXor(XtN(a, 2), XtN(a, 7), n);
    XtNSum(a, 1, n); XtNSum(a, 2, n); XtNSum(a, 7, n);
    XtNSum(a, n, 1); XtNSum(a, n, 2); XtNSum(a, n, 7);
  }

  lemma FoldUnit()
    ensures XtN(Unit(0), 128) == R() && Fold(Unit(0)) == R()
  {
    hide XtN;
    XtNUnit(127); XtNUnit(1); XtNUnit(2); XtNUnit(7);
    XtNSum(Unit(0), 127, 1);
    XtNOne(Unit(127));
    assert Xt(Unit(127)) == R();
    assert Fold(Unit(0)) == R();
  }

  lemma XtNOne(v: Elem)
    ensures XtN(v, 0) == v && XtN(v, 1) == Xt(v)
  {
    hide Xt;
  }

  lemma FoldZero()
    ensures Fold(Zero()) == Zero() && XtN(Zero(), 128) == Zero()
  {
    hide Xt, XtN, Xor;
    XtNSel(false, Zero(), 128);
    XtNSel(false, Zero(), 1); XtNSel(false, Zero(), 2); XtNSel(false, Zero(), 7);
    XorZero(Zero());
  }

  /** Both sides are linear and agree on every power of x. */
  lemma {:induction false} FoldAcc(y: Elem, n: nat)
    requires n <= 128
    ensures XtN(Acc(y, Unit(0), n), 128) == Fold(Acc(y, Unit(0), n))
  {
    hide Xor, Xt, XtN, Fold;
    if n == 0 {
      FoldZero();
    } else {
      FoldAcc(y, n - 1);
      var a, e, p := Acc(y, Unit(0), n - 1), XtN(Unit(0), n - 1), y[n - 1];
      XtNXor(a, Sel(p, e), 128);
      FoldXor(a, Sel(p, e));
      if p {
        FoldUnit();
        FoldXtN(Unit(0), n - 1);
        XtNSum(Unit(0), n - 1, 128);
        XtNSum(Unit(0), 128, n - 1);
      } else {
        FoldZero();
      }
    }
  }

  /** The reduction law: 128 multiplications by x are one fold. */
  lemma ReductionLaw(y: Elem)
    ensures XtN(y, 128) == Fold(y)
  {
    hide Xor, Xt, Fold, XtN;
    MulOne(y);
    FoldAcc(y, 128);
  }

  // ---- associativity ------------------------------------------------------

  lemma {:induction false} AccTail(x: Elem, y: Elem, m: nat, n: nat)
    requires m <= n <= 128
    requires forall i :: m <= i < n ==> !x[i]
    ensures Acc(x, y, n) == Acc(x, y, m)
  {
    hide Xor, Xt;
    if m < n {
      AccTail(x, y, m, n - 1);
      XorZero(Acc(x, y, n - 1));
    }
  }

  lemma MulR(y: Elem)
    ensures Mul(R(), y) == XtN(y, 128)
  {
    hide Xor, Xt;
    ReductionLaw(y);
    AccTail(R(), y, 8, 128);
    AccTail(R(), y, 3, 7);
    AccTail(R(), y, 0, 0);
    XorZero(y);
    assert Acc(R(), y, 1) == y;
    assert Acc(R(), y, 2) == Xor(y, XtN(y, 1));
    assert Acc(R(), y, 3) == Xor(Xor(y, XtN(y, 1)), XtN(y, 2));
    assert Acc(R(), y, 8) == Xor(Acc(R(), y, 7), XtN(y, 7));
    XorAssoc(Xor(y, XtN(y, 1)), XtN(y, 2), XtN(y, 7));
  }

  lemma {:induction false} AccShift(x: Elem, y: Elem, n: nat)
    requires n <= 127
    ensures Acc(ShiftRight(x), y, n + 1) == Xt(Acc(x, y, n))
  {
    hide Xor, Xt;
    if n == 0 {
      XorZero(Zero());
      XtSel(false, Zero());
    } else {
      AccShift(x, y, n - 1);
      XtXor(Acc(x, y, n - 1), Sel(x[n - 1], XtN(y, n - 1)));
      XtSel(x[n - 1], XtN(y, n - 1));
    }
  }

  lemma MulXt(x: Elem, y: Elem)
    ensures Mul(Xt(x), y) == Xt(Mul(x, y))
  {
    hide Xor;
    MulXorLeft(ShiftRight(x), Sel(x[127], R()), y);
    MulSelLeft(x[127], R(), y);
    MulR(y);
    AccShift(x, y, 127);
    XtXor(Acc(x, y, 127), Sel(x[127], XtN(y, 127)));
    XtSel(x[127], XtN(y, 127));
  }

  lemma {:induction false} MulXtN(x: Elem, y: Elem, n: nat)
    ensures Mul(XtN(x, n), y) == XtN(Mul(x, y), n)
  {
    hide Xor, Xt, Mul;
    if n > 0 {
      MulXtN(x, y, n - 1);
      MulXt(XtN(x, n - 1), y);
    }
  }

  lemma {:induction false} AccAssoc(a: Elem, b: Elem, c: Elem, n: nat)
    requires n <= 128
    ensures Mul(Acc(a, b, n), c) == Acc(a, Mul(b, c), n)
  {
    hide Xor, Xt, XtN;
    if n == 0 {
      AccZeroLeft(c, 128);
    } else {
      AccAssoc(a, b, c, n - 1);
      MulXorLeft(Acc(a, b, n - 1), Sel(a[n - 1], XtN(b, n - 1)), c);
      MulSelLeft(a[n - 1], XtN(b, n - 1), c);
      MulXtN(b, c, n - 1);
    }
  }

  lemma MulAssoc(a: Elem, b: Elem, c: Elem)
    ensures Mul(Mul(a, b), c) == Mul(a, Mul(b, c))
  {
    hide Xor, Xt;
    AccAssoc(a, b, c, 128);
  }

  // ---- the product is the one of the field ------------------------------------

  lemma OneMul(y: Elem)
    ensures Mul(Unit(0), y) == y
  {
    hide Xor, XtN;
    AccTail(Unit(0), y, 1, 128);
    XorZero(y);
    assert XtN(y, 0) == y by { XtNNone(y); }
    assert Acc(Unit(0), y, 0) == Zero();
    assert Acc(Unit(0), y, 1) == Xor(Zero(), y);
  }

  lemma XtNNone(y: Elem)
    ensures XtN(y, 0) == y
  {}

  /** Powers of x multiply by adding exponents, and x^128 is 1 + x + x^2 + x^7. With
      linearity in both factors that fixes the product of any two elements. */
  lemma UnitProducts(i: nat, j: nat)
    requires i < 128 && j < 128 && i + j <= 128
    ensures i + j < 128 ==> Mul(Unit(i), Unit(j)) == Unit(i + j)
    ensures i + j == 128 ==> forall k :: 0 <= k < 128 ==> Mul(Unit(i), Unit(j))[k] == (k in {0, 1, 2, 7})
  {
    hide Xor, Mul, XtN;
    XtNUnit(i);
    XtNUnit(j);
    MulXtN(Unit(0), Unit(j), i);
    OneMul(Unit(j));
    XtNSum(Unit(0), j, i);
    if i + j < 128 {
      XtNUnit(i + j);
    } else {
      XtNUnit(127);
      XtNSum(Unit(0), 127, 1);
      LastTurns();
    }
  }

  lemma LastTurns()
    ensures XtN(Unit(127), 1) == R()
  {
    assert XtN(Unit(127), 0) == Unit(127);
  }
}
