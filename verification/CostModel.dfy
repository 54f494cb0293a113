/** Fitting a table of measurements: which points count, when there is a fit, and
    what it is; and the serial fraction of a scaling curve. */
module CostModel {
  import opened CostFit

  // ---- usable points -----------------------------------------------------------------

  datatype Weights = Unweighted | Given(ws: seq<real>)

  predicate Matches(xs: seq<real>, ys: seq<real>, w: Weights) { |xs| == |ys| && (w.Given? ==> |w.ws| == |xs|) }

  /** A weight that is not positive counts for nothing. */
  function Cleaned(r: real): real { if r > 0.0 then r else 0.0 }

  function WeightAt(w: Weights, i: nat): real
    requires w.Given? ==> i < |w.ws|
  {
    if w.Given? then Cleaned(w.ws[i]) else 1.0
  }

  /** The points with positive cycles among the first n */
  function Kept(xs: seq<real>, ys: seq<real>, w: Weights, n: nat): seq<Point>
    requires Matches(xs, ys, w) && n <= |xs|
  {
    if n == 0 then []
    else if ys[n - 1] > 0.0 then Kept(xs, ys, w, n - 1) + [Point(xs[n - 1], ys[n - 1], WeightAt(w, n - 1))]
    else Kept(xs, ys, w, n - 1)
  }

  predicate Heavy(ps: seq<Point>) { exists i :: 0 <= i < |ps| && ps[i].w > 0.0 }

  function Evened(ps: seq<Point>): (r: seq<Point>)
    ensures |r| == |ps| && forall i :: 0 <= i < |ps| ==> r[i] == ps[i].(w := 1.0)
  {
    seq(|ps|, i requires 0 <= i < |ps| => ps[i].(w := 1.0))
  }

  /** If no weight is left, all points weigh the same. */
  function Usable(xs: seq<real>, ys: seq<real>, w: Weights): seq<Point>
    requires Matches(xs, ys, w)
  {
    var ps := Kept(xs, ys, w, |xs|);
    if Heavy(ps) then ps else Evened(ps)
  }

  lemma {:induction false} KeptShape(xs: seq<real>, ys: seq<real>, w: Weights, n: nat)
    requires Matches(xs, ys, w) && n <= |xs|
    ensures Weighted(Kept(xs, ys, w, n))
    ensures forall i :: 0 <= i < |Kept(xs, ys, w, n)| ==> Kept(xs, ys, w, n)[i].y > 0.0
    ensures w.Unweighted? ==> forall i :: 0 <= i < |Kept(xs, ys, w, n)| ==> Kept(xs, ys, w, n)[i].w == 1.0
  {
    if n > 0 { KeptShape(xs, ys, w, n - 1); }
  }

  /** How many of the first n points have positive cycles */
  function Rank(ys: seq<real>, n: nat): nat
    requires n <= |ys|
  {
    if n == 0 then 0 else Rank(ys, n - 1) + if ys[n - 1] > 0.0 then 1 else 0
  }

  /** Every point with positive cycles is kept, in order, with its weight if that is
      positive and zero otherwise, or one if there are no weights; and no other is. */
  lemma {:induction false} KeptAre(xs: seq<real>, ys: seq<real>, w: Weights, n: nat, i: nat)
    requires Matches(xs, ys, w) && n <= |xs|
    ensures |Kept(xs, ys, w, n)| == Rank(ys, n)
    ensures i < n && ys[i] > 0.0 ==> Rank(ys, i) < Rank(ys, n)
    ensures i < n && ys[i] > 0.0 && w.Unweighted? ==> Kept(xs, ys, w, n)[Rank(ys, i)] == Point(xs[i], ys[i], 1.0)
    ensures i < n && ys[i] > 0.0 && w.Given? ==>
      Kept(xs, ys, w, n)[Rank(ys, i)] == Point(xs[i], ys[i], if w.ws[i] > 0.0 then w.ws[i] else 0.0)
  {
    if n > 0 { KeptAre(xs, ys, w, n - 1, i); }
  }

  /** If any weight is left the kept points are used as they are, else all weigh one. */
  lemma UsableAre(xs: seq<real>, ys: seq<real>, w: Weights)
    requires Matches(xs, ys, w)
    ensures var ps, us := Kept(xs, ys, w, |xs|), Usable(xs, ys, w);
      && |us| == |ps|
      && ((exists i :: 0 <= i < |ps| && ps[i].w > 0.0) ==> us == ps)
      && ((forall i :: 0 <= i < |ps| ==> ps[i].w <= 0.0) ==>
          forall i :: 0 <= i < |ps| ==> us[i] == Point(ps[i].x, ps[i].y, 1.0))
  {
    hide Kept;
  }

  lemma UsableShape(xs: seq<real>, ys: seq<real>, w: Weights)
    requires Matches(xs, ys, w)
    ensures var ps := Usable(xs, ys, w);
      && Weighted(ps) && (ps != [] ==> Heavy(ps))
      && (forall i :: 0 <= i < |ps| ==> ps[i].y > 0.0)
      && (w.Unweighted? ==> forall i :: 0 <= i < |ps| ==> ps[i].w > 0.0)
  {
    KeptShape(xs, ys, w, |xs|);
    var ps := Usable(xs, ys, w);
    if ps != [] && !Heavy(Kept(xs, ys, w, |xs|)) { assert ps[0].w > 0.0; }
  }

  // ---- the fit -----------------------------------------------------------------------

  datatype Note = TooFew | SameSize | Singular

  datatype Fit = Unfit(note: Note)
    | Flat(a: real, b: real, s2: real)
    | Crossing(a: real, b: real, s2: real, size: real)

  ghost predicate SharesSize(ps: seq<Point>) { forall i, j :: 0 <= i < j < |ps| ==> ps[i].x == ps[j].x }

  predicate AllSame(ps: seq<Point>)
    ensures AllSame(ps) <==> SharesSize(ps)
  {
    forall i :: 0 <= i < |ps| ==> ps[i].x == ps[0].x
  }

  function FitCost(ps: seq<Point>): Fit
    requires Weighted(ps)
  {
    var s := Sum(ps);
    if |ps| < 3 then Unfit(TooFew)
    else if AllSame(ps) then Unfit(SameSize)
    else if Det(s) == 0.0 then Unfit(Singular)
    else
      Minimises(ps, 0.0, 0.0);
      var a, b := Intercept(s), Slope(s);
      var s2 := Loss(ps, a, b) / (|ps| - 2) as real;
      if b > 0.0 then Crossing(a, b, s2, a / b) else Flat(a, b, s2)
  }

  /** When there is a fit: three points, and two sizes among those with weight. */
  lemma FitVerdict(ps: seq<Point>)
    requires Weighted(ps)
    ensures FitCost(ps).Unfit? <==> |ps| < 3 || OneSize(ps)
    ensures FitCost(ps) == Unfit(TooFew) <==> |ps| < 3
    ensures FitCost(ps) == Unfit(SameSize) <==> |ps| >= 3 && SharesSize(ps)
    ensures FitCost(ps) == Unfit(Singular) <==> |ps| >= 3 && OneSize(ps) && !SharesSize(ps)
  {
    hide Sum, Det, Loss, Intercept, Slope;
    DetZero(ps);
  }

  /** A fit is the one minimiser, with a residual variance that is not negative. */
  lemma FitBest(ps: seq<Point>, a: real, b: real)
    requires Weighted(ps) && !FitCost(ps).Unfit?
    ensures var f := FitCost(ps);
      && Loss(ps, f.a, f.b) <= Loss(ps, a, b)
      && (Loss(ps, a, b) <= Loss(ps, f.a, f.b) ==> a == f.a && b == f.b)
      && f.s2 >= 0.0 && f.s2 * (|ps| - 2) as real == Loss(ps, f.a, f.b)
      && (f.Crossing? <==> f.b > 0.0) && (f.Crossing? ==> f.size * f.b == f.a)
  {
    hide Sum, Det, Loss, Intercept, Slope;
    Minimises(ps, a, b);
    var f := FitCost(ps);
    LossNonneg(ps, f.a, f.b);
    QuotientNonneg(Loss(ps, f.a, f.b), (|ps| - 2) as real);
    Divides(Loss(ps, f.a, f.b), (|ps| - 2) as real);
    if f.Crossing? { Divides(f.a, f.b); }
  }

  /** The interval's relative variance, for a fit with an intercept */
  lemma FitInterval(ps: seq<Point>)
    requires Weighted(ps) && FitCost(ps).Crossing? && FitCost(ps).a != 0.0
    ensures var f, s := FitCost(ps), Sum(ps);
      && Det(s) != 0.0 && Base(s, f.a, f.b) > 0.0
      && Relative(s, f.s2, f.a, f.b) == f.s2 * Power(ps, f.a, f.b) / Base(s, f.a, f.b) >= 0.0
  {
    hide Sum, Det, Loss, Intercept, Slope, Relative, Power, Base;
    FitBest(ps, 0.0, 0.0);
    var f := FitCost(ps);
    RelativeIs(ps, f.s2, f.a, f.b);
  }

  /** The covariance term widens the interval of a reported crossover exactly under a
      condition on the five sums of the data. */
  lemma CovarianceWidensFit(ps: seq<Point>)
    requires Weighted(ps) && FitCost(ps).Crossing? && FitCost(ps).a != 0.0 && FitCost(ps).s2 > 0.0
    ensures var f, s := FitCost(ps), Sum(ps);
      && Det(s) != 0.0 && f.b != 0.0
      && (Relative(s, f.s2, f.a, f.b) > Uncorrelated(s, f.s2, f.a, f.b) <==> s.x * (s.xx * s.y - s.x * s.xy) > 0.0)
  {
    hide Sum, Det, Loss, Relative, Uncorrelated, Intercept, Slope;
    var f, s := FitCost(ps), Sum(ps);
    DetZero(ps);
    Minimises(ps, 0.0, 0.0);
    CovarianceWidens(ps, f.s2, f.a, f.b);
    InterceptTimesDet(s);
    hide FitCost;
    SignOfProducts(s.x, f.a, f.b, Det(s));
  }

  lemma SignOfProducts(x: real, a: real, b: real, d: real)
    requires b > 0.0 && d > 0.0
    ensures x * (a * b) > 0.0 <==> x * (a * d) > 0.0
  {
    var t := x * a;
    SameSign(b, t);
    SameSign(d, t);
    assert x * (a * b) == b * t && x * (a * d) == d * t;
  }

  lemma InterceptTimesDet(s: Sums)
    requires Det(s) != 0.0 && s.w != 0.0
    ensures Intercept(s) * Det(s) == s.xx * s.y - s.x * s.xy
  {
    NormalEquations(s);
    var a, b := Intercept(s), Slope(s);
    hide Intercept, Slope;
    Solved(s, a, b);
  }

  lemma Solved(s: Sums, a: real, b: real)
    requires a * s.w + b * s.x == s.y && a * s.x + b * s.xx == s.xy
    ensures a * Det(s) == s.xx * s.y - s.x * s.xy
  {
    assert s.xx * (a * s.w + b * s.x) == a * (s.w * s.xx) + b * (s.x * s.xx);
    assert s.x * (a * s.x + b * s.xx) == a * (s.x * s.x) + b * (s.x * s.xx);
    assert a * (s.w * s.xx) - a * (s.x * s.x) == a * Det(s);
  }

  /** Three measurements for which leaving the covariance out understates the interval */
  function ThreePoints(): seq<Point> { [Point(1.0, 2.0, 1.0), Point(2.0, 3.0, 1.0), Point(3.0, 5.0, 1.0)] }

  lemma ThreeSums()
    ensures Sum(ThreePoints()) == Sums(3.0, 6.0, 10.0, 14.0, 23.0, 38.0)
  {
    hide Sum, Add;
    var p, q, r := Point(1.0, 2.0, 1.0), Point(2.0, 3.0, 1.0), Point(3.0, 5.0, 1.0);
    SumNext([], p);
    SumNext([p], q);
    SumNext([p, q], r);
    assert [] + [p] == [p] && [p] + [q] == [p, q] && [p, q] + [r] == [p, q, r];
    ThreeAdds();
  }

  lemma SumNext(ps: seq<Point>, p: Point)
    ensures Sum(ps + [p]) == Add(Sum(ps), p) && Sum([]) == Sums(0.0, 0.0, 0.0, 0.0, 0.0, 0.0)
  {
    hide Add;
    assert (ps + [p])[..|ps|] == ps;
  }

  lemma ThreeAdds()
    ensures Add(Sums(0.0, 0.0, 0.0, 0.0, 0.0, 0.0), Point(1.0, 2.0, 1.0)) == Sums(1.0, 1.0, 2.0, 1.0, 2.0, 4.0)
    ensures Add(Sums(1.0, 1.0, 2.0, 1.0, 2.0, 4.0), Point(2.0, 3.0, 1.0)) == Sums(2.0, 3.0, 5.0, 5.0, 8.0, 13.0)
    ensures Add(Sums(2.0, 3.0, 5.0, 5.0, 8.0, 13.0), Point(3.0, 5.0, 1.0)) == Sums(3.0, 6.0, 10.0, 14.0, 23.0, 38.0)
  {}

  lemma CovarianceExample()
    ensures var ps := ThreePoints(); var f, s := FitCost(ps), Sum(ps);
      && f.Crossing? && f.a == 1.0 / 3.0 && f.b == 1.5 && f.s2 == 1.0 / 6.0 && Det(s) == 6.0
      && Relative(s, f.s2, f.a, f.b) > Uncorrelated(s, f.s2, f.a, f.b)
  {
    hide Loss, Relative, Uncorrelated, Sum;
    var ps := ThreePoints();
    ThreeSums();
    assert ps[0].x != ps[1].x;
    LossIs(ps, 1.0 / 3.0, 1.5);
    assert LossOf(Sum(ps), 1.0 / 3.0, 1.5) == 1.0 / 6.0;
    CovarianceWidensFit(ps);
  }

  /** Without weights the determinant never vanishes once the sizes differ. */
  lemma NeverSingular(ps: seq<Point>)
    requires Weighted(ps) && forall i :: 0 <= i < |ps| ==> ps[i].w > 0.0
    ensures FitCost(ps) != Unfit(Singular)
  {
    hide FitCost;
    FitVerdict(ps);
  }

  /** A positive weight on a single size is singular, though the sizes differ. */
  lemma SingularExample()
    ensures var ps := Usable([1.0, 2.0, 3.0], [1.0, 1.0, 1.0], Given([1.0, 0.0, -1.0]));
      Weighted(ps) && FitCost(ps) == Unfit(Singular)
  {
    hide FitCost;
    var xs, ys, w := [1.0, 2.0, 3.0], [1.0, 1.0, 1.0], Given([1.0, 0.0, -1.0]);
    assert Kept(xs, ys, w, 1) == [Point(1.0, 1.0, 1.0)];
    assert Kept(xs, ys, w, 2) == [Point(1.0, 1.0, 1.0), Point(2.0, 1.0, 0.0)];
    var ps := Kept(xs, ys, w, 3);
    assert ps == [Point(1.0, 1.0, 1.0), Point(2.0, 1.0, 0.0), Point(3.0, 1.0, 0.0)];
    assert ps[0].w > 0.0 && ps[0].x != ps[1].x;
    UsableShape(xs, ys, w);
    FitVerdict(ps);
  }

  // ---- one cell of the grid ------------------------------------------------------------

  /** A measured point, absent fields at their defaults */
  datatype Measured = Measured(cipher: string, hardware: bool, n: nat, stable: bool,
                               median: real, lo: real, hi: real, payload: real)

  predicate InCell(p: Measured, cipher: string, hardware: bool)
  {
    p.cipher == cipher && p.hardware == hardware && p.n != 0
  }

  predicate Dropped(p: Measured, cipher: string, hardware: bool, strict: bool)
  {
    InCell(p, cipher, hardware) && strict && !p.stable
  }

  predicate Chosen(p: Measured, cipher: string, hardware: bool, strict: bool)
  {
    InCell(p, cipher, hardware) && (strict ==> p.stable) && p.median > 0.0
  }

  /** Half the interval, but at least 1e-9 */
  function Half(p: Measured): (r: real)
    ensures r >= 0.000000001 && 2.0 * r >= p.hi - p.lo
    ensures r == 0.000000001 || 2.0 * r == p.hi - p.lo
  {
    if (p.hi - p.lo) / 2.0 > 0.000000001 then (p.hi - p.lo) / 2.0 else 0.000000001
  }

  /** Inverse variance: the square of the half width is positive */
  function Weight(p: Measured): (r: real)
    ensures r > 0.0 && r * (Half(p) * Half(p)) == 1.0
  {
    PosProduct(Half(p), Half(p));
    Divides(1.0, Half(p) * Half(p));
    1.0 / (Half(p) * Half(p))
  }

  function PointOf(p: Measured): Point { Point(p.payload, p.median, Weight(p)) }

  function Selection(ms: seq<Measured>, cipher: string, hardware: bool, strict: bool): (r: seq<Point>)
    ensures forall i :: 0 <= i < |r| ==> r[i].w > 0.0 && r[i].y > 0.0
  {
    if ms == [] then []
    else
      var r, p := Selection(ms[..|ms| - 1], cipher, hardware, strict), ms[|ms| - 1];
      if Chosen(p, cipher, hardware, strict) then r + [PointOf(p)] else r
  }

  function DropCount(ms: seq<Measured>, cipher: string, hardware: bool, strict: bool): nat
  {
    if ms == [] then 0
    else
      DropCount(ms[..|ms| - 1], cipher, hardware, strict) +
      if Dropped(ms[|ms| - 1], cipher, hardware, strict) then 1 else 0
  }

  function Sizes(ps: seq<Point>): (r: seq<real>)
    ensures |r| == |ps|
  {
    seq(|ps|, i requires 0 <= i < |ps| => ps[i].x)
  }

  function Cycles(ps: seq<Point>): (r: seq<real>)
    ensures |r| == |ps|
  {
    seq(|ps|, i requires 0 <= i < |ps| => ps[i].y)
  }

  function WeightsOf(ps: seq<Point>): (r: seq<real>)
    ensures |r| == |ps|
  {
    seq(|ps|, i requires 0 <= i < |ps| => ps[i].w)
  }

  /** Points with positive cycles and weights pass the filter as they are. */
  lemma {:induction false} KeptAll(ps: seq<Point>, n: nat)
    requires n <= |ps| && forall i :: 0 <= i < |ps| ==> ps[i].w > 0.0 && ps[i].y > 0.0
    ensures Kept(Sizes(ps), Cycles(ps), Given(WeightsOf(ps)), n) == ps[..n]
  {
    if n > 0 {
      KeptAll(ps, n - 1);
      assert ps[..n] == ps[..n - 1] + [ps[n - 1]];
    }
  }

  /** fit_from_points */
  method FitFromPoints(ms: seq<Measured>, cipher: string, hardware: bool, strict: bool) returns (f: Fit, dropped: nat)
    ensures var ps := Selection(ms, cipher, hardware, strict); Weighted(ps) && f == FitCost(ps)
    ensures dropped == DropCount(ms, cipher, hardware, strict)
    ensures f != Unfit(Singular)
  {
    hide Half, FitCost, Selection, DropCount, Chosen, Dropped, Kept, Heavy, Evened, Usable;
    var sizes: seq<real>, cycles: seq<real>, weights: seq<real> := [], [], [];
    ghost var ps: seq<Point> := [];
    dropped := 0;
    NothingSelected(cipher, hardware, strict);
    for i := 0 to |ms|
      invariant ps == Selection(ms[..i], cipher, hardware, strict)
      invariant sizes == Sizes(ps) && cycles == Cycles(ps) && weights == WeightsOf(ps)
      invariant dropped == DropCount(ms[..i], cipher, hardware, strict)
    {
      var p := ms[i];
      assert ms[..i + 1] == ms[..i] + [p];
      SelectionNext(ms[..i], p, cipher, hardware, strict);
      if p.cipher != cipher || p.hardware != hardware { continue; }
      if p.n == 0 { continue; }
      if strict && !p.stable {
        dropped := dropped + 1;
        continue;
      }
      if p.median <= 0.0 { continue; }
      ColumnsNext(ps, PointOf(p));
      ps := ps + [PointOf(p)];
      sizes := sizes + [p.payload];
      cycles := cycles + [p.median];
      weights := weights + [Weight(p)];
    }
    assert ms[..|ms|] == ms;
    UsableAll(ps);
    NeverSingular(ps);
    f := FitCost(Usable(sizes, cycles, Given(weights)));
  }

  lemma NothingSelected(cipher: string, hardware: bool, strict: bool)
    ensures Selection([], cipher, hardware, strict) == [] && DropCount([], cipher, hardware, strict) == 0
    ensures Sizes([]) == [] && Cycles([]) == [] && WeightsOf([]) == []
  {}

  lemma SelectionNext(ms: seq<Measured>, p: Measured, cipher: string, hardware: bool, strict: bool)
    ensures var r, r' := Selection(ms, cipher, hardware, strict), Selection(ms + [p], cipher, hardware, strict);
      var d, d' := DropCount(ms, cipher, hardware, strict), DropCount(ms + [p], cipher, hardware, strict);
      if p.cipher != cipher || p.hardware != hardware || p.n == 0 then r' == r && d' == d
      else if strict && !p.stable then r' == r && d' == d + 1
      else if p.median <= 0.0 then r' == r && d' == d
      else r' == r + [PointOf(p)] && d' == d
  {
    hide PointOf;
    assert (ms + [p])[..|ms|] == ms;
  }

  lemma ColumnsNext(ps: seq<Point>, p: Point)
    ensures Sizes(ps + [p]) == Sizes(ps) + [p.x]
    ensures Cycles(ps + [p]) == Cycles(ps) + [p.y]
    ensures WeightsOf(ps + [p]) == WeightsOf(ps) + [p.w]
  {}

  /** The selected points pass the filter of the fit as they are. */
  lemma UsableAll(ps: seq<Point>)
    requires forall i :: 0 <= i < |ps| ==> ps[i].w > 0.0 && ps[i].y > 0.0
    ensures Usable(Sizes(ps), Cycles(ps), Given(WeightsOf(ps))) == ps
  {
    hide Kept;
    KeptAll(ps, |ps|);
    assert ps[..|ps|] == ps;
    assert ps != [] ==> ps[0].w > 0.0;
    assert Evened([]) == [];
  }

  // ---- the serial fraction --------------------------------------------------------------

  datatype Scaling = Scaling(shards: real, speedup: real)

  predicate Measurable(c: Scaling) { c.shards > 0.0 && c.speedup > 0.0 }

  /** Amdahl's law, linear in the fraction f: 1/S - 1/n = f (1 - 1/n) */
  function ScalingPoint(c: Scaling): Point
    requires Measurable(c)
  {
    Point(1.0 - 1.0 / c.shards, 1.0 / c.speedup - 1.0 / c.shards, 1.0)
  }

  function ScalingPoints(cs: seq<Scaling>): (r: seq<Point>)
    ensures forall i :: 0 <= i < |r| ==> r[i].w == 1.0
  {
    if cs == [] then []
    else
      var r, c := ScalingPoints(cs[..|cs| - 1]), cs[|cs| - 1];
      if Measurable(c) then r + [ScalingPoint(c)] else r
  }

  /** The squared differences between 1/S and what the law gives for a fraction f */
  function LawError(cs: seq<Scaling>, f: real): real
  {
    if cs == [] then 0.0
    else
      var c := cs[|cs| - 1];
      LawError(cs[..|cs| - 1], f) +
      if Measurable(c) then Sq(1.0 / c.speedup - (f + (1.0 - f) / c.shards)) else 0.0
  }

  /** The loss that is minimised is the squared error of Amdahl's law in 1/S. */
  lemma {:induction false} LossIsLawError(cs: seq<Scaling>, f: real)
    ensures Loss(ScalingPoints(cs), 0.0, f) == LawError(cs, f)
  {
    hide Sq;
    if cs != [] {
      var t, c := cs[..|cs| - 1], cs[|cs| - 1];
      LossIsLawError(t, f);
      if Measurable(c) {
        LawResid(c, f);
        LossNext(ScalingPoints(t), ScalingPoint(c), f);
      }
    }
  }

  lemma LossNext(ps: seq<Point>, p: Point, f: real)
    ensures Loss(ps + [p], 0.0, f) == Loss(ps, 0.0, f) + p.w * Sq(Resid(p, 0.0, f))
  {
    hide Sq, Resid;
    assert (ps + [p])[..|ps|] == ps;
  }

  lemma LawResid(c: Scaling, f: real)
    requires Measurable(c)
    ensures var p := ScalingPoint(c);
      p.w * Sq(Resid(p, 0.0, f)) == Sq(1.0 / c.speedup - (f + (1.0 - f) / c.shards))
  {
    var v := 1.0 / c.shards;
    Divides(1.0, c.shards);
    assert (1.0 - f) * v * c.shards == (1.0 - f) * (v * c.shards);
    QuotientIs(1.0 - f, c.shards, (1.0 - f) * v);
    assert Resid(ScalingPoint(c), 0.0, f) == 1.0 / c.speedup - (f + (1.0 - f) * v);
  }

  function Clip(r: real): real { if r < 0.0 then 0.0 else if r > 1.0 then 1.0 else r }

  /** amdahl_serial_fraction */
  function SerialFraction(cs: seq<Scaling>): real
  {
    var ps := ScalingPoints(cs);
    var s := Sum(ps);
    if |ps| < 2 then 0.0 else if s.xx == 0.0 then 0.0 else Clip(s.xy / s.xx)
  }

  /** There is nothing to fit exactly when every usable point is a single shard. */
  lemma NothingToFit(ps: seq<Point>)
    requires forall i :: 0 <= i < |ps| ==> ps[i].w == 1.0
    ensures Sum(ps).xx >= 0.0 && (Sum(ps).xx == 0.0 <==> forall i :: 0 <= i < |ps| ==> ps[i].x == 0.0)
  {
    hide Sum, Power;
    PowerZero(ps, 0.0);
    PowerNonneg(ps, -0.0, 1.0);
    PowerIs(ps, -0.0, 1.0);
    assert PowerOf(Sum(ps), -0.0, 1.0) == Sum(ps).xx;
  }

  function Excess(f: real, m: real, k: real): real { Sq(f - m) * k }

  /** With fewer than two usable points, or single shards only, the answer is zero. */
  lemma SerialFractionDefault(cs: seq<Scaling>)
    requires var ps := ScalingPoints(cs); |ps| < 2 || forall i :: 0 <= i < |ps| ==> ps[i].x == 0.0
    ensures SerialFraction(cs) == 0.0
  {
    hide ScalingPoints, Sum;
    NothingToFit(ScalingPoints(cs));
  }

  /** A parabola with its lowest point at m, over an interval */
  lemma ClippedBest(m: real, f: real, k: real)
    requires 0.0 <= f <= 1.0 && k > 0.0
    ensures 0.0 <= Clip(m) <= 1.0 && Excess(Clip(m), m, k) <= Excess(f, m, k)
    ensures f != Clip(m) ==> Excess(Clip(m), m, k) < Excess(f, m, k)
  {
    var c := Clip(m);
    var p, q := Sq(c - m), Sq(f - m);
    if f != c {
      assert q > p by { Farther(m, f); }
      PosProduct(q - p, k);
      assert (q - p) * k == q * k - p * k;
    }
  }

  lemma Farther(m: real, f: real)
    requires 0.0 <= f <= 1.0 && f != Clip(m)
    ensures Sq(f - m) > Sq(Clip(m) - m)
  {
    hide Sq;
    SqZero();
    SqNonneg(f - m);
    if m < 0.0 {
      SqGrows(0.0 - m, f - m);
    } else if m > 1.0 {
      SqNeg(f - m);
      SqNeg(1.0 - m);
      SqGrows(m - 1.0, m - f);
    }
  }

  lemma SqGrows(p: real, q: real)
    requires 0.0 <= p < q
    ensures Sq(p) < Sq(q)
  {
    PosProduct(q - p, q + p);
    assert (q - p) * (q + p) == q * q - p * p;
  }

  lemma FractionSplits(s: Sums, f: real)
    requires s.xx != 0.0
    ensures LossOf(s, 0.0, f) == LossOf(s, 0.0, s.xy / s.xx) + Excess(f, s.xy / s.xx, s.xx)
  {
    var m := s.xy / s.xx;
    Divides(s.xy, s.xx);
    ParabolaIdentity(s, f, m);
  }

  lemma ParabolaIdentity(s: Sums, f: real, m: real)
    requires m * s.xx == s.xy
    ensures LossOf(s, 0.0, f) == LossOf(s, 0.0, m) + Sq(f - m) * s.xx
  {
    assert LossOf(s, 0.0, f) == s.yy - 2.0 * (f * s.xy) + f * f * s.xx;
    assert LossOf(s, 0.0, m) == s.yy - 2.0 * (m * s.xy) + m * m * s.xx;
    assert Sq(f - m) * s.xx == f * f * s.xx - 2.0 * (f * (m * s.xx)) + m * (m * s.xx);
    assert m * m * s.xx == m * (m * s.xx);
  }

  /** The clipped fraction is the one in [0, 1] with the least squared error. */
  lemma SerialFractionBest(cs: seq<Scaling>, f: real)
    requires 0.0 <= f <= 1.0
    requires var ps := ScalingPoints(cs); |ps| >= 2 && Sum(ps).xx != 0.0
    ensures var ps, r := ScalingPoints(cs), SerialFraction(cs);
      && 0.0 <= r <= 1.0 && Loss(ps, 0.0, r) <= Loss(ps, 0.0, f)
      && (Loss(ps, 0.0, f) <= Loss(ps, 0.0, r) ==> f == r)
  {
    hide Sum, Loss, LossOf, Excess, Clip, ScalingPoints;
    var ps, r := ScalingPoints(cs), SerialFraction(cs);
    var s := Sum(ps);
    NothingToFit(ps);
    FractionSplits(s, f);
    FractionSplits(s, r);
    LossIs(ps, 0.0, f);
    LossIs(ps, 0.0, r);
    ClippedBest(s.xy / s.xx, f, s.xx);
  }

  /** A curve that obeys the law with fraction f gives back f. */
  lemma SerialFractionRecovers(cs: seq<Scaling>, f: real)
    requires 0.0 <= f <= 1.0
    requires var ps := ScalingPoints(cs); |ps| >= 2 && Sum(ps).xx != 0.0
    requires forall i :: 0 <= i < |cs| && Measurable(cs[i]) ==>
      1.0 / cs[i].speedup == f + (1.0 - f) / cs[i].shards
    ensures SerialFraction(cs) == f
  {
    hide Sum, Loss, SerialFraction;
    var ps := ScalingPoints(cs);
    LawOnLine(cs, f);
    OnLineLoss(ps, 0.0, f);
    SerialFractionBest(cs, f);
    LossNonneg(ps, 0.0, SerialFraction(cs));
  }

  lemma {:induction false} LawOnLine(cs: seq<Scaling>, f: real)
    requires forall i :: 0 <= i < |cs| && Measurable(cs[i]) ==>
      1.0 / cs[i].speedup == f + (1.0 - f) / cs[i].shards
    ensures OnLine(ScalingPoints(cs), 0.0, f)
  {
    if cs != [] {
      LawOnLine(cs[..|cs| - 1], f);
      var c := cs[|cs| - 1];
      if Measurable(c) { LawPoint(c, f); }
    }
  }

  lemma LawPoint(c: Scaling, f: real)
    requires Measurable(c) && 1.0 / c.speedup == f + (1.0 - f) / c.shards
    ensures ScalingPoint(c).y == 0.0 + f * ScalingPoint(c).x
  {
    var v := 1.0 / c.shards;
    Divides(1.0, c.shards);
    assert (1.0 - f) * v * c.shards == (1.0 - f) * (v * c.shards);
    QuotientIs(1.0 - f, c.shards, (1.0 - f) * v);
  }
}
