/** The cost model C(s) = a + b s fitted by weighted least squares, over the
    reals. */
module CostFit {

  datatype Point = Point(x: real, y: real, w: real)

  /** The sums the closed form is made of */
  datatype Sums = Sums(w: real, x: real, y: real, xx: real, xy: real, yy: real)

  function Add(s: Sums, p: Point): Sums
  {
    Sums(s.w + p.w, s.x + p.w * p.x, s.y + p.w * p.y,
         s.xx + p.w * p.x * p.x, s.xy + p.w * p.x * p.y, s.yy + p.w * p.y * p.y)
  }

  function Sum(ps: seq<Point>): Sums
  {
    if ps == [] then Sums(0.0, 0.0, 0.0, 0.0, 0.0, 0.0) else Add(Sum(ps[..|ps| - 1]), ps[|ps| - 1])
  }

  function Sq(r: real): real { r * r }

  lemma SqNonneg(r: real)
    ensures Sq(r) >= 0.0 && (Sq(r) == 0.0 <==> r == 0.0)
  {
    hide Sq;
    SqNeg(r);
    SqZero();
    if r > 0.0 { SqPos(r); }
    if r < 0.0 { SqPos(-r); }
  }

  lemma SqNeg(r: real)
    ensures Sq(r) == Sq(-r)
  {}

  lemma SqZero()
    ensures Sq(0.0) == 0.0
  {}

  lemma SqPos(r: real)
    requires r > 0.0
    ensures Sq(r) > 0.0
  {
    PosProduct(r, r);
    assert Mul(r, r) == Sq(r);
  }

  function Mul(p: real, q: real): real { p * q }

  lemma PosProduct(p: real, q: real)
    requires p > 0.0 && q > 0.0
    ensures Mul(p, q) > 0.0 && p * q > 0.0
  {}

  function Det(s: Sums): real { s.w * s.xx - s.x * s.x }

  /** The value of a line at a point's size */
  function At(p: Point, u: real, v: real): real { u + v * p.x }

  function Resid(p: Point, a: real, b: real): real { p.y - At(p, a, b) }

  /** The weighted sum of squared residuals of a line */
  function Loss(ps: seq<Point>, a: real, b: real): real
  {
    if ps == [] then 0.0
    else
      var p := ps[|ps| - 1];
      Loss(ps[..|ps| - 1], a, b) + p.w * Sq(Resid(p, a, b))
  }

  /** The weighted sum of squared values of a line */
  function Power(ps: seq<Point>, u: real, v: real): real
  {
    if ps == [] then 0.0
    else
      var p := ps[|ps| - 1];
      Power(ps[..|ps| - 1], u, v) + p.w * Sq(At(p, u, v))
  }

  predicate Weighted(ps: seq<Point>) { forall i :: 0 <= i < |ps| ==> ps[i].w >= 0.0 }

  // ---- both sums as quadratic forms of the five sums ---------------------------------

  function LossOf(s: Sums, a: real, b: real): real
  {
    s.yy - 2.0 * (a * s.y) - 2.0 * (b * s.xy) + a * a * s.w + 2.0 * (a * b * s.x) + b * b * s.xx
  }

  function PowerOf(s: Sums, u: real, v: real): real { u * u * s.w + 2.0 * (u * v * s.x) + v * v * s.xx }

  lemma LossAdd(s: Sums, p: Point, a: real, b: real)
    ensures LossOf(Add(s, p), a, b) == LossOf(s, a, b) + p.w * Sq(Resid(p, a, b))
  {
    hide LossOf, Sq, Resid;
    var d := Sums(p.w, p.w * p.x, p.w * p.y, p.w * p.x * p.x, p.w * p.x * p.y, p.w * p.y * p.y);
    assert Add(s, p) == Sums(s.w + d.w, s.x + d.x, s.y + d.y, s.xx + d.xx, s.xy + d.xy, s.yy + d.yy);
    LossSum(s, d, a, b);
    LossOne(p, a, b);
  }

  lemma LossOne(p: Point, a: real, b: real)
    ensures LossOf(Sums(p.w, p.w * p.x, p.w * p.y, p.w * p.x * p.x, p.w * p.x * p.y, p.w * p.y * p.y), a, b)
      == p.w * Sq(Resid(p, a, b))
  {
    Expanded(p.w, p.x, p.y, a, b);
  }

  lemma LossSum(s: Sums, d: Sums, a: real, b: real)
    ensures LossOf(Sums(s.w + d.w, s.x + d.x, s.y + d.y, s.xx + d.xx, s.xy + d.xy, s.yy + d.yy), a, b)
      == LossOf(s, a, b) + LossOf(d, a, b)
  {}

  lemma Expanded(w: real, x: real, y: real, a: real, b: real)
    ensures w * Sq(y - (a + b * x)) ==
      w * y * y - 2.0 * (a * (w * y)) - 2.0 * (b * (w * x * y)) + a * a * w + 2.0 * (a * b * (w * x))
          + b * b * (w * x * x)
  {
    assert Sq(y - (a + b * x)) == y * y - 2.0 * (a * y) - 2.0 * (b * x * y) + a * a + 2.0 * (a * b * x)
      + b * b * (x * x);
  }

  lemma PowerAdd(s: Sums, p: Point, u: real, v: real)
    ensures PowerOf(Add(s, p), u, v) == PowerOf(s, u, v) + p.w * Sq(At(p, u, v))
  {}

  lemma LossNone(a: real, b: real)
    ensures LossOf(Sums(0.0, 0.0, 0.0, 0.0, 0.0, 0.0), a, b) == 0.0
  {
    assert a * 0.0 == 0.0 && b * 0.0 == 0.0;
    assert (a * a) * 0.0 == 0.0 && (a * b) * 0.0 == 0.0 && (b * b) * 0.0 == 0.0;
  }

  lemma PowerNone(u: real, v: real)
    ensures PowerOf(Sums(0.0, 0.0, 0.0, 0.0, 0.0, 0.0), u, v) == 0.0
  {
    assert (u * u) * 0.0 == 0.0 && (u * v) * 0.0 == 0.0 && (v * v) * 0.0 == 0.0;
  }

  lemma {:induction false} LossIs(ps: seq<Point>, a: real, b: real)
    ensures Loss(ps, a, b) == LossOf(Sum(ps), a, b)
  {
    hide LossOf, Sq, Add, Resid;
    if ps == [] {
      LossNone(a, b);
    } else {
      LossIs(ps[..|ps| - 1], a, b);
      LossAdd(Sum(ps[..|ps| - 1]), ps[|ps| - 1], a, b);
    }
  }

  lemma {:induction false} PowerIs(ps: seq<Point>, u: real, v: real)
    ensures Power(ps, u, v) == PowerOf(Sum(ps), u, v)
  {
    hide PowerOf, Sq, Add, At;
    if ps == [] {
      PowerNone(u, v);
    } else {
      PowerIs(ps[..|ps| - 1], u, v);
      PowerAdd(Sum(ps[..|ps| - 1]), ps[|ps| - 1], u, v);
    }
  }

  lemma {:induction false} PowerNonneg(ps: seq<Point>, u: real, v: real)
    requires Weighted(ps)
    ensures Power(ps, u, v) >= 0.0
  {
    hide Sq, At, Resid;
    if ps != [] {
      PowerNonneg(ps[..|ps| - 1], u, v);
      var p := ps[|ps| - 1];
      SqNonneg(At(p, u, v));
      ProductNonneg(p.w, Sq(At(p, u, v)));
    }
  }

  lemma {:induction false} LossNonneg(ps: seq<Point>, a: real, b: real)
    requires Weighted(ps)
    ensures Loss(ps, a, b) >= 0.0
  {
    hide Sq, At, Resid;
    if ps != [] {
      LossNonneg(ps[..|ps| - 1], a, b);
      var p := ps[|ps| - 1];
      SqNonneg(Resid(p, a, b));
      ProductNonneg(p.w, Sq(Resid(p, a, b)));
    }
  }

  lemma ProductNonneg(p: real, q: real)
    requires p >= 0.0 && q >= 0.0
    ensures p * q >= 0.0 && (p * q == 0.0 <==> p == 0.0 || q == 0.0)
  {}

  // ---- the determinant -------------------------------------------------------------------

  /** All points that carry weight have size c. */
  predicate AllAt(ps: seq<Point>, c: real) { forall i :: 0 <= i < |ps| && ps[i].w > 0.0 ==> ps[i].x == c }

  /** All points that carry weight share a size. */
  ghost predicate OneSize(ps: seq<Point>)
  {
    forall i, j :: 0 <= i < j < |ps| && ps[i].w > 0.0 && ps[j].w > 0.0 ==> ps[i].x == ps[j].x
  }

  lemma DetAdd(s: Sums, p: Point)
    ensures Det(Add(s, p)) == Det(s) + p.w * PowerOf(s, -p.x, 1.0)
  {}

  lemma {:induction false} PowerZero(ps: seq<Point>, c: real)
    requires Weighted(ps)
    ensures Power(ps, -c, 1.0) == 0.0 <==> AllAt(ps, c)
  {
    if ps != [] {
      hide Sq;
      var t, p := ps[..|ps| - 1], ps[|ps| - 1];
      PowerZero(t, c);
      PowerNonneg(t, -c, 1.0);
      SqNonneg(At(p, -c, 1.0));
      ProductNonneg(p.w, Sq(At(p, -c, 1.0)));
      assert AllAt(ps, c) <==> AllAt(t, c) && (p.w > 0.0 ==> p.x == c);
    }
  }

  /** The determinant is never negative, and vanishes exactly when every point
      that carries weight has the same size. */
  lemma {:induction false} DetZero(ps: seq<Point>)
    requires Weighted(ps)
    ensures Det(Sum(ps)) >= 0.0 && (Det(Sum(ps)) == 0.0 <==> OneSize(ps))
  {
    if ps != [] {
      hide Det, PowerOf, Add, Power;
      var t, p := ps[..|ps| - 1], ps[|ps| - 1];
      DetZero(t);
      DetAdd(Sum(t), p);
      PowerIs(t, -p.x, 1.0);
      PowerNonneg(t, -p.x, 1.0);
      PowerZero(t, p.x);
      ProductNonneg(p.w, Power(t, -p.x, 1.0));
      assert OneSize(ps) <==> OneSize(t) && (p.w == 0.0 || AllAt(t, p.x)) by { OneSizeNext(ps); }
    }
  }

  lemma OneSizeNext(ps: seq<Point>)
    requires Weighted(ps) && ps != []
    ensures OneSize(ps) <==>
      OneSize(ps[..|ps| - 1]) && (ps[|ps| - 1].w == 0.0 || AllAt(ps[..|ps| - 1], ps[|ps| - 1].x))
  {
    var t, p, n := ps[..|ps| - 1], ps[|ps| - 1], |ps| - 1;
    assert forall i :: 0 <= i < n ==> ps[i] == t[i];
  }

  /** No weight at all: every sum is zero. */
  lemma {:induction false} NoWeight(ps: seq<Point>)
    requires Weighted(ps)
    ensures Sum(ps).w >= 0.0 && (Sum(ps).w == 0.0 ==> Sum(ps).x == 0.0)
  {
    if ps != [] { NoWeight(ps[..|ps| - 1]); }
  }

  // ---- the closed form ---------------------------------------------------------------------

  function Slope(s: Sums): real
    requires Det(s) != 0.0
  {
    (s.w * s.xy - s.x * s.y) / Det(s)
  }

  function Intercept(s: Sums): real
    requires Det(s) != 0.0 && s.w != 0.0
  {
    (s.y - Slope(s) * s.x) / s.w
  }

  lemma Divides(p: real, q: real)
    requires q != 0.0
    ensures p / q * q == p
  {}

  lemma Cancel(p: real, q: real, r: real)
    requires r != 0.0 && p * r == q * r
    ensures p == q
  {}

  /** The closed form solves the normal equations. */
  lemma NormalEquations(s: Sums)
    requires Det(s) != 0.0 && s.w != 0.0
    ensures var a, b := Intercept(s), Slope(s);
      a * s.w + b * s.x == s.y && a * s.x + b * s.xx == s.xy
  {
    var a, b := Intercept(s), Slope(s);
    Divides(s.w * s.xy - s.x * s.y, Det(s));
    Divides(s.y - b * s.x, s.w);
    assert a * s.w == s.y - b * s.x;
    assert b * Det(s) == s.w * s.xy - s.x * s.y;
    Eliminated(a, b, s);
    Cancel(a * s.x + b * s.xx, s.xy, s.w);
  }

  lemma Eliminated(a: real, b: real, s: Sums)
    requires a * s.w == s.y - b * s.x && b * Det(s) == s.w * s.xy - s.x * s.y
    ensures (a * s.x + b * s.xx) * s.w == s.xy * s.w
  {
    assert (a * s.x + b * s.xx) * s.w == (a * s.w) * s.x + b * (s.w * s.xx);
    assert (s.y - b * s.x) * s.x == s.y * s.x - b * (s.x * s.x);
    assert b * (s.w * s.xx) - b * (s.x * s.x) == b * Det(s);
  }

  /** Any line's loss is the fitted line's plus the power of the difference. */
  lemma LossSplits(s: Sums, a: real, b: real, a0: real, b0: real)
    requires a0 * s.w + b0 * s.x == s.y && a0 * s.x + b0 * s.xx == s.xy
    ensures LossOf(s, a, b) == LossOf(s, a0, b0) + PowerOf(s, a - a0, b - b0)
  {
    SplitIdentity(s, a0, b0, a - a0, b - b0);
    var u, v := a - a0, b - b0;
    assert a0 * s.w + b0 * s.x - s.y == 0.0 && a0 * s.x + b0 * s.xx - s.xy == 0.0;
    assert a0 + u == a && b0 + v == b;
  }

  lemma SplitIdentity(s: Sums, a0: real, b0: real, u: real, v: real)
    ensures LossOf(s, a0 + u, b0 + v) == LossOf(s, a0, b0) + PowerOf(s, u, v)
      + 2.0 * (u * (a0 * s.w + b0 * s.x - s.y)) + 2.0 * (v * (a0 * s.x + b0 * s.xx - s.xy))
  {}

  lemma PowerDefinite(s: Sums, u: real, v: real)
    requires s.w > 0.0 && Det(s) > 0.0 && PowerOf(s, u, v) <= 0.0
    ensures u == 0.0 && v == 0.0
  {
    PowerIdentity(s, u, v);
    SqNonneg(u * s.w + v * s.x);
    SqNonneg(v);
    ProductNonneg(Sq(v), Det(s));
    var f := PowerOf(s, u, v);
    assert s.w * f <= 0.0 by { ProductNonneg(s.w, -f); assert s.w * (-f) == -(s.w * f); }
    assert Sq(v) == 0.0 && Sq(u * s.w + v * s.x) == 0.0;
    assert u * s.w == 0.0;
  }

  lemma PowerIdentity(s: Sums, u: real, v: real)
    ensures s.w * PowerOf(s, u, v) == Sq(u * s.w + v * s.x) + Sq(v) * Det(s)
  {}

  /** The closed form is the one minimiser of the weighted squared residuals. */
  lemma Minimises(ps: seq<Point>, a: real, b: real)
    requires Weighted(ps) && Det(Sum(ps)) != 0.0
    ensures var s := Sum(ps);
      && s.w > 0.0
      && Loss(ps, Intercept(s), Slope(s)) <= Loss(ps, a, b)
      && (Loss(ps, a, b) <= Loss(ps, Intercept(s), Slope(s)) ==> a == Intercept(s) && b == Slope(s))
  {
    hide Loss, LossOf, PowerOf, Power, Sum, Intercept, Slope;
    var s := Sum(ps);
    NoWeight(ps);
    DetZero(ps);
    assert s.w != 0.0;
    var a0, b0 := Intercept(s), Slope(s);
    NormalEquations(s);
    LossSplits(s, a, b, a0, b0);
    LossIs(ps, a, b);
    LossIs(ps, a0, b0);
    PowerIs(ps, a - a0, b - b0);
    PowerNonneg(ps, a - a0, b - b0);
    if Loss(ps, a, b) <= Loss(ps, a0, b0) { PowerDefinite(s, a - a0, b - b0); }
  }

  // ---- what follows from it ------------------------------------------------------------------

  ghost predicate OnLine(ps: seq<Point>, a: real, b: real) { forall i :: 0 <= i < |ps| ==> ps[i].y == a + b * ps[i].x }

  lemma {:induction false} OnLineLoss(ps: seq<Point>, a: real, b: real)
    requires OnLine(ps, a, b)
    ensures Loss(ps, a, b) == 0.0
  {
    if ps != [] {
      var p := ps[|ps| - 1];
      OnLineLoss(ps[..|ps| - 1], a, b);
      assert Resid(p, a, b) == 0.0;
      SqNonneg(Resid(p, a, b));
      assert p.w * 0.0 == 0.0;
    }
  }

  /** Points on a line give back that line. */
  lemma Recovers(ps: seq<Point>, a: real, b: real)
    requires Weighted(ps) && OnLine(ps, a, b) && Det(Sum(ps)) != 0.0
    ensures var s := Sum(ps); s.w != 0.0 && Intercept(s) == a && Slope(s) == b
  {
    hide Loss, Sum, Intercept, Slope;
    OnLineLoss(ps, a, b);
    Minimises(ps, a, b);
    LossNonneg(ps, Intercept(Sum(ps)), Slope(Sum(ps)));
  }

  /** The weighted mean: weighted deviations from it cancel. */
  function Mean(s: Sums): (m: real)
    requires s.w != 0.0
    ensures s.y - m * s.w == 0.0
  {
    Divides(s.y, s.w);
    s.y / s.w
  }

  /** The residual sum never exceeds the total sum about the mean, so r squared
      lies between 0 and 1. */
  lemma RSquared(ps: seq<Point>)
    requires Weighted(ps) && Det(Sum(ps)) != 0.0
    ensures Sum(ps).w != 0.0
    ensures var s := Sum(ps); var res, tot := Loss(ps, Intercept(s), Slope(s)), Loss(ps, Mean(s), 0.0);
      0.0 <= res <= tot && (tot > 0.0 ==> 0.0 <= 1.0 - res / tot <= 1.0)
  {
    hide Loss, Sum, Intercept, Slope, Mean;
    var s := Sum(ps);
    Minimises(ps, 0.0, 0.0);
    Minimises(ps, Mean(s), 0.0);
    var res, tot := Loss(ps, Intercept(s), Slope(s)), Loss(ps, Mean(s), 0.0);
    LossNonneg(ps, Intercept(s), Slope(s));
    if tot > 0.0 { Fraction(res, tot); }
  }

  lemma Fraction(p: real, q: real)
    requires 0.0 <= p <= q && q > 0.0
    ensures 0.0 <= p / q <= 1.0
  {}

  function ScaleOne(p: Point, k: real): Point { p.(y := k * p.y) }

  function Scaled(ps: seq<Point>, k: real): (r: seq<Point>)
    ensures |r| == |ps| && forall i :: 0 <= i < |ps| ==> r[i] == ScaleOne(ps[i], k)
  {
    seq(|ps|, i requires 0 <= i < |ps| => ScaleOne(ps[i], k))
  }

  function ScaledSums(s: Sums, k: real): Sums { s.(y := k * s.y, xy := k * s.xy, yy := k * k * s.yy) }

  function Mul3(p: real, q: real, r: real): real { p * q * r }

  lemma AddFields(s: Sums, p: Point)
    ensures Add(s, p) == Sums(s.w + p.w, s.x + Mul(p.w, p.x), s.y + Mul(p.w, p.y),
                              s.xx + Mul3(p.w, p.x, p.x), s.xy + Mul3(p.w, p.x, p.y), s.yy + Mul3(p.w, p.y, p.y))
  {}

  lemma ScaledFields(s: Sums, k: real)
    ensures ScaledSums(s, k) == s.(y := Mul(k, s.y), xy := Mul(k, s.xy), yy := Mul3(k, k, s.yy))
  {}

  lemma ScaledPoint(p: Point, k: real)
    ensures ScaleOne(p, k) == p.(y := Mul(k, p.y))
  {}

  lemma MulSpreads(k: real, a: real, b: real)
    ensures Mul(k, a + b) == Mul(k, a) + Mul(k, b)
  {}

  lemma Mul3Spreads(k: real, a: real, b: real)
    ensures Mul3(k, k, a + b) == Mul3(k, k, a) + Mul3(k, k, b)
  {}

  lemma MulMoves(w: real, k: real, y: real)
    ensures Mul(w, Mul(k, y)) == Mul(k, Mul(w, y))
  {}

  lemma Mul3Moves(w: real, x: real, k: real, y: real)
    ensures Mul3(w, x, Mul(k, y)) == Mul(k, Mul3(w, x, y))
  {
    MulMoves(w * x, k, y);
  }

  lemma Mul3Squares(w: real, k: real, y: real)
    ensures Mul3(w, Mul(k, y), Mul(k, y)) == Mul3(k, k, Mul3(w, y, y))
  {
    assert (w * (k * y)) * (k * y) == (k * k) * (w * y * y);
  }

  lemma ScaledAdd(s: Sums, p: Point, k: real)
    ensures Add(ScaledSums(s, k), ScaleOne(p, k)) == ScaledSums(Add(s, p), k)
  {
    hide *;
    AddFields(s, p);
    ScaledFields(s, k);
    ScaledPoint(p, k);
    AddFields(ScaledSums(s, k), ScaleOne(p, k));
    ScaledFields(Add(s, p), k);
    MulSpreads(k, s.y, Mul(p.w, p.y));
    MulMoves(p.w, k, p.y);
    MulSpreads(k, s.xy, Mul3(p.w, p.x, p.y));
    Mul3Moves(p.w, p.x, k, p.y);
    Mul3Spreads(k, s.yy, Mul3(p.w, p.y, p.y));
    Mul3Squares(p.w, k, p.y);
  }

  lemma ScaledNone(k: real)
    ensures ScaledSums(Sum([]), k) == Sum([])
  {
    assert k * 0.0 == 0.0 && (k * k) * 0.0 == 0.0;
  }

  lemma {:induction false} ScaledSum(ps: seq<Point>, k: real)
    ensures Sum(Scaled(ps, k)) == ScaledSums(Sum(ps), k)
  {
    hide ScaledSums, Add, ScaleOne;
    if ps == [] {
      ScaledNone(k);
      assert Scaled(ps, k) == [];
    } else {
      var t, p, q := ps[..|ps| - 1], ps[|ps| - 1], Scaled(ps, k);
      ScaledSum(t, k);
      assert q[..|ps| - 1] == Scaled(t, k);
      assert q[|ps| - 1] == ScaleOne(p, k);
      ScaledAdd(Sum(t), p, k);
    }
  }

  lemma QuotientIs(p: real, q: real, r: real)
    requires q != 0.0 && p == r * q
    ensures p / q == r
  {
    Divides(p, q);
    Cancel(p / q, r, q);
  }

  lemma ScaledSlope(s: Sums, k: real)
    requires Det(s) != 0.0
    ensures Det(ScaledSums(s, k)) == Det(s) && Slope(ScaledSums(s, k)) == k * Slope(s)
  {
    var z, b := ScaledSums(s, k), Slope(s);
    assert Det(z) == Det(s);
    hide Det;
    Divides(s.w * s.xy - s.x * s.y, Det(s));
    ScaledNumerator(s, k, b);
    QuotientIs(s.w * z.xy - s.x * z.y, Det(s), k * b);
  }

  /** Scaling every cycle count scales both coefficients. */
  lemma ScaledFit(s: Sums, k: real)
    requires Det(s) != 0.0 && s.w != 0.0
    ensures Det(ScaledSums(s, k)) == Det(s)
    ensures Slope(ScaledSums(s, k)) == k * Slope(s) && Intercept(ScaledSums(s, k)) == k * Intercept(s)
  {
    hide Det, Slope;
    ScaledSlope(s, k);
    var b := Slope(s);
    ScaledQuotient(s.y, b * s.x, s.w, k);
    assert (k * b) * s.x == k * (b * s.x);
  }

  lemma ScaledQuotient(y: real, t: real, w: real, k: real)
    requires w != 0.0
    ensures (k * y - k * t) / w == k * ((y - t) / w)
  {
    Divides(y - t, w);
    var a := (y - t) / w;
    assert k * y - k * t == k * (a * w);
    assert k * (a * w) == (k * a) * w;
    QuotientIs(k * y - k * t, w, k * a);
  }

  lemma ScaledNumerator(s: Sums, k: real, b: real)
    requires b * Det(s) == s.w * s.xy - s.x * s.y
    ensures s.w * (k * s.xy) - s.x * (k * s.y) == (k * b) * Det(s)
  {
    assert s.w * (k * s.xy) - s.x * (k * s.y) == k * (s.w * s.xy - s.x * s.y);
    assert (k * b) * Det(s) == k * (b * Det(s));
  }

  /** The crossover size does not depend on the unit of time. */
  lemma CrossoverInvariant(ps: seq<Point>, k: real)
    requires Weighted(ps) && Det(Sum(ps)) != 0.0 && k > 0.0
    ensures Sum(ps).w != 0.0 && Det(Sum(Scaled(ps, k))) != 0.0 && Sum(Scaled(ps, k)).w != 0.0
    ensures var s, z := Sum(ps), Sum(Scaled(ps, k));
      && (Slope(z) > 0.0 <==> Slope(s) > 0.0)
      && (Slope(s) != 0.0 ==> Slope(z) != 0.0 && Intercept(z) / Slope(z) == Intercept(s) / Slope(s))
  {
    hide Sum, Intercept, Slope;
    Minimises(ps, 0.0, 0.0);
    ScaledSum(ps, k);
    var s := Sum(ps);
    ScaledFit(s, k);
    var a, b := Intercept(s), Slope(s);
    SameSign(k, b);
    if b != 0.0 { SameRatio(a, b, k); }
  }

  lemma SameSign(k: real, b: real)
    requires k > 0.0
    ensures (k * b > 0.0 <==> b > 0.0) && (k * b == 0.0 <==> b == 0.0)
  {
    if b > 0.0 { PosProduct(k, b); }
    if b < 0.0 {
      PosProduct(k, -b);
      assert k * (-b) == -(k * b);
    }
  }

  lemma SameRatio(a: real, b: real, k: real)
    requires k > 0.0 && b != 0.0
    ensures k * b != 0.0 && (k * a) / (k * b) == a / b
  {
    SameSign(k, b);
    Divides(a, b);
    assert a / b * (k * b) == k * (a / b * b);
    QuotientIs(k * a, k * b, a / b);
  }

  // ---- the interval of the crossover ---------------------------------------------------------

  function VarA(s: Sums, s2: real): real
    requires Det(s) != 0.0
  {
    s2 * s.xx / Det(s)
  }

  function VarB(s: Sums, s2: real): real
    requires Det(s) != 0.0
  {
    s2 * s.w / Det(s)
  }

  function CovAB(s: Sums, s2: real): real
    requires Det(s) != 0.0
  {
    -s2 * s.x / Det(s)
  }

  /** The propagated relative variance of a / b, and the same without covariance */
  function Uncorrelated(s: Sums, s2: real, a: real, b: real): real
    requires Det(s) != 0.0 && a != 0.0 && b != 0.0
  {
    NonzeroSquares(a, b);
    VarA(s, s2) / Sq(a) + VarB(s, s2) / Sq(b)
  }

  function Relative(s: Sums, s2: real, a: real, b: real): real
    requires Det(s) != 0.0 && a != 0.0 && b != 0.0
  {
    NonzeroSquares(a, b);
    Uncorrelated(s, s2, a, b) - 2.0 * CovAB(s, s2) / (a * b)
  }

  lemma NonzeroSquares(a: real, b: real)
    requires a != 0.0 && b != 0.0
    ensures Sq(a) > 0.0 && Sq(b) > 0.0 && a * b != 0.0
  {
    hide Sq;
    SqNonneg(a);
    SqNonneg(b);
  }

  lemma NonzeroProduct(p: real, q: real)
    requires p != 0.0 && q != 0.0
    ensures p * q != 0.0
  {}

  lemma Quotients(p: real, d: real, q: real, m: real)
    requires d != 0.0 && q != 0.0 && m != 0.0
    ensures d * (q * m) != 0.0 && p / d / q == p * m / (d * (q * m))
    ensures d * (m * q) != 0.0 && p / d / q == p * m / (d * (m * q))
  {
    NonzeroProduct(q, m);
    NonzeroProduct(d, q * m);
    var r := p / d / q;
    Divides(p, d);
    Divides(p / d, q);
    assert r * q * d == p;
    assert r * (d * (q * m)) == (r * q * d) * m;
    QuotientIs(p * m, d * (q * m), r);
    assert q * m == m * q;
  }

  /** It is one square sum over positive factors, so it is never negative and the
      clip before its root never changes it. */
  lemma RelativeIs(ps: seq<Point>, s2: real, a: real, b: real)
    requires Weighted(ps) && Det(Sum(ps)) != 0.0 && a != 0.0 && b != 0.0 && s2 >= 0.0
    ensures var s := Sum(ps);
      Base(s, a, b) > 0.0 && Relative(s, s2, a, b) == s2 * Power(ps, a, b) / Base(s, a, b) >= 0.0
  {
    hide Sum, Power, PowerOf, Relative, Base, Det;
    BasePositive(ps, a, b);
    PowerIs(ps, a, b);
    PowerNonneg(ps, a, b);
    RelativeOver(Sum(ps), s2, a, b);
    ProductNonneg(s2, Power(ps, a, b));
    QuotientNonneg(s2 * Power(ps, a, b), Base(Sum(ps), a, b));
  }

  lemma BasePositive(ps: seq<Point>, a: real, b: real)
    requires Weighted(ps) && Det(Sum(ps)) != 0.0 && a != 0.0 && b != 0.0
    ensures Base(Sum(ps), a, b) > 0.0
  {
    hide Sum, Det, Sq;
    DetZero(ps);
    NonzeroSquares(a, b);
    PosProduct(Sq(a), Sq(b));
    PosProduct(Det(Sum(ps)), Sq(a) * Sq(b));
  }

  lemma QuotientNonneg(p: real, q: real)
    requires p >= 0.0 && q > 0.0
    ensures p / q >= 0.0
  {}

  lemma RelativeParts(s: Sums, s2: real, a: real, b: real)
    requires Det(s) != 0.0 && a != 0.0 && b != 0.0
    ensures Sq(a) > 0.0 && Sq(b) > 0.0 && a * b != 0.0
    ensures Uncorrelated(s, s2, a, b) == VarA(s, s2) / Sq(a) + VarB(s, s2) / Sq(b)
    ensures Relative(s, s2, a, b) == Uncorrelated(s, s2, a, b) + -(2.0 * CovAB(s, s2) / (a * b))
  {
    hide VarA, VarB, CovAB, Sq, Det;
    NonzeroSquares(a, b);
  }

  function Base(s: Sums, a: real, b: real): real { Det(s) * (Sq(a) * Sq(b)) }

  lemma TermA(s: Sums, s2: real, a: real, b: real)
    requires Det(s) != 0.0 && a != 0.0 && b != 0.0
    ensures Sq(a) > 0.0 && Base(s, a, b) != 0.0 && VarA(s, s2) / Sq(a) == s2 * s.xx * Sq(b) / Base(s, a, b)
  {
    hide Det, Sq;
    NonzeroSquares(a, b);
    Quotients(s2 * s.xx, Det(s), Sq(a), Sq(b));
  }

  lemma TermB(s: Sums, s2: real, a: real, b: real)
    requires Det(s) != 0.0 && a != 0.0 && b != 0.0
    ensures Sq(b) > 0.0 && Base(s, a, b) != 0.0 && VarB(s, s2) / Sq(b) == s2 * s.w * Sq(a) / Base(s, a, b)
  {
    hide Det, Sq;
    NonzeroSquares(a, b);
    Quotients(s2 * s.w, Det(s), Sq(b), Sq(a));
  }

  lemma TermC(s: Sums, s2: real, a: real, b: real)
    requires Det(s) != 0.0 && a != 0.0 && b != 0.0
    ensures a * b != 0.0 && Base(s, a, b) != 0.0
    ensures -(2.0 * CovAB(s, s2) / (a * b)) == 2.0 * (s2 * s.x) * (a * b) / Base(s, a, b)
  {
    hide Det, Sq;
    CrossTerm(s2, s.x, Det(s), a, b);
  }

  lemma RelativeOver(s: Sums, s2: real, a: real, b: real)
    requires Det(s) != 0.0 && a != 0.0 && b != 0.0
    ensures Base(s, a, b) != 0.0 && Relative(s, s2, a, b) == s2 * PowerOf(s, a, b) / Base(s, a, b)
  {
    hide Det, PowerOf, Sq, Base, VarA, VarB, CovAB, Relative, Uncorrelated;
    RelativeParts(s, s2, a, b);
    TermA(s, s2, a, b);
    TermB(s, s2, a, b);
    TermC(s, s2, a, b);
    AddQuotients(s2 * s.xx * Sq(b), s2 * s.w * Sq(a), 2.0 * (s2 * s.x) * (a * b), Base(s, a, b));
    PowerTerms(s, s2, a, b);
  }

  lemma CrossTerm(s2: real, x: real, d: real, a: real, b: real)
    requires d != 0.0 && a != 0.0 && b != 0.0
    ensures a * b != 0.0 && d * (Sq(a) * Sq(b)) != 0.0
    ensures -(2.0 * (-s2 * x / d) / (a * b)) == 2.0 * (s2 * x) * (a * b) / (d * (Sq(a) * Sq(b)))
  {
    hide Sq;
    NonzeroSquares(a, b);
    NonzeroProduct(Sq(a), Sq(b));
    NonzeroProduct(d, Sq(a) * Sq(b));
    var e, f := -s2 * x / d, a * b;
    Divides(-s2 * x, d);
    var r := -(2.0 * e / f);
    Divides(2.0 * e, f);
    assert r * f == -(2.0 * e);
    assert r * f * d == -(2.0 * (e * d));
    assert -s2 * x == -(s2 * x);
    assert r * f * d == 2.0 * (s2 * x);
    SquareOfProduct(a, b);
    assert r * (d * (f * f)) == (r * f * d) * f;
    QuotientIs(2.0 * (s2 * x) * f, d * (Sq(a) * Sq(b)), r);
  }

  lemma SquareOfProduct(a: real, b: real)
    ensures Sq(a) * Sq(b) == (a * b) * (a * b)
  {}

  lemma AddQuotients(p: real, q: real, r: real, m: real)
    requires m != 0.0
    ensures p / m + q / m + r / m == (p + q + r) / m
  {}

  lemma PowerTerms(s: Sums, s2: real, a: real, b: real)
    ensures s2 * s.xx * Sq(b) + s2 * s.w * Sq(a) + 2.0 * (s2 * s.x) * (a * b) == s2 * PowerOf(s, a, b)
  {}

  /** The covariance term widens the interval exactly when the weighted sizes, a
      and b have a positive product: for positive sizes and coefficients, leaving
      it out would understate the interval. */
  lemma CovarianceWidens(ps: seq<Point>, s2: real, a: real, b: real)
    requires Weighted(ps) && Det(Sum(ps)) != 0.0 && a != 0.0 && b != 0.0 && s2 > 0.0
    ensures var s := Sum(ps); Relative(s, s2, a, b) > Uncorrelated(s, s2, a, b) <==> s.x * (a * b) > 0.0
  {
    hide Sum, Det, Uncorrelated, Relative, CovAB, Base, Sq;
    var s := Sum(ps);
    RelativeParts(s, s2, a, b);
    TermC(s, s2, a, b);
    BasePositive(ps, a, b);
    var t := 2.0 * (s2 * s.x) * (a * b);
    SameSign(2.0 * s2, s.x * (a * b));
    assert t == (2.0 * s2) * (s.x * (a * b));
    SignOfQuotient(t, Base(s, a, b));
  }

  lemma SignOfQuotient(p: real, q: real)
    requires q > 0.0
    ensures p / q > 0.0 <==> p > 0.0
  {
    Divides(p, q);
    SameSign(q, p / q);
  }
}
