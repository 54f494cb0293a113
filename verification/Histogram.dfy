/** The latency histogram: which bucket a quantile is read from, and how far the
    value read can be from the sample it stands for. */
module Histogram {

  /** Bucket edges: positive and strictly increasing */
  predicate Edges(e: seq<real>)
  {
    e != [] && e[0] > 0.0 && forall i, j :: 0 <= i < j < |e| ==> e[i] < e[j]
  }

  /** upper_bound: the first edge above x, or the number of edges */
  function Bucket(e: seq<real>, x: real): (i: nat)
    ensures i <= |e|
    ensures (forall k :: 0 <= k < i ==> e[k] <= x) && (i < |e| ==> x < e[i])
  {
    if e == [] || x < e[0] then 0
    else
      var i := 1 + Bucket(e[1..], x);
      assert forall k :: 1 <= k < i ==> e[k] == e[1..][k - 1];
      i
  }

  /** How many samples are in bucket i */
  function InBucket(e: seq<real>, xs: seq<real>, i: nat): nat
  {
    if xs == [] then 0
    else InBucket(e, xs[..|xs| - 1], i) + if Bucket(e, xs[|xs| - 1]) == i then 1 else 0
  }

  /** How many samples are below v */
  function Below(xs: seq<real>, v: real): (n: nat)
    ensures n <= |xs|
  {
    if xs == [] then 0 else Below(xs[..|xs| - 1], v) + if xs[|xs| - 1] < v then 1 else 0
  }

  /** How many samples are in the first i buckets */
  function InFirst(e: seq<real>, xs: seq<real>, i: nat): nat
  {
    if i == 0 then 0 else InFirst(e, xs, i - 1) + InBucket(e, xs, i - 1)
  }

  lemma {:induction false} InFirstNext(e: seq<real>, xs: seq<real>, x: real, i: nat)
    ensures InFirst(e, xs + [x], i) == InFirst(e, xs, i) + if Bucket(e, x) < i then 1 else 0
  {
    if i > 0 {
      InFirstNext(e, xs, x, i - 1);
      assert (xs + [x])[..|xs|] == xs;
    }
  }

  lemma {:induction false} InFirstNone(e: seq<real>, i: nat)
    ensures InFirst(e, [], i) == 0
  {
    if i > 0 { InFirstNone(e, i - 1); }
  }

  /** The buckets up to an edge hold exactly the samples below it. */
  lemma {:induction false} FirstAreBelow(e: seq<real>, xs: seq<real>, i: nat)
    requires Edges(e) && i < |e|
    ensures InFirst(e, xs, i + 1) == Below(xs, e[i])
  {
    hide InFirst;
    if xs == [] {
      InFirstNone(e, i + 1);
    } else {
      var t, x := xs[..|xs| - 1], xs[|xs| - 1];
      FirstAreBelow(e, t, i);
      assert xs == t + [x];
      InFirstNext(e, t, x, i + 1);
      var b := Bucket(e, x);
      assert b <= i <==> x < e[i];
    }
  }

  lemma {:induction false} AllBuckets(e: seq<real>, xs: seq<real>)
    ensures InFirst(e, xs, |e| + 1) == |xs|
  {
    hide InFirst;
    if xs == [] {
      InFirstNone(e, |e| + 1);
    } else {
      var t, x := xs[..|xs| - 1], xs[|xs| - 1];
      AllBuckets(e, t);
      assert xs == t + [x];
      InFirstNext(e, t, x, |e| + 1);
    }
  }

  // ---- order statistics -------------------------------------------------------------------

  predicate Sorted(xs: seq<real>) { forall i, j :: 0 <= i < j < |xs| ==> xs[i] <= xs[j] }

  /** In a sorted list, more than k samples are below v exactly when the k-th is. */
  lemma {:induction false} SortedBelow(xs: seq<real>, v: real, k: nat)
    requires Sorted(xs) && k < |xs|
    ensures Below(xs, v) > k <==> xs[k] < v
  {
    var t := xs[..|xs| - 1];
    if k < |t| {
      SortedBelow(t, v, k);
      if xs[|xs| - 1] < v { assert xs[k] < v; }
    } else if xs[k] < v {
      AllBelow(t, v);
    }
  }

  lemma {:induction false} AllBelow(xs: seq<real>, v: real)
    requires forall i :: 0 <= i < |xs| ==> xs[i] < v
    ensures Below(xs, v) == |xs|
  {
    if xs != [] { AllBelow(xs[..|xs| - 1], v); }
  }

  lemma BelowNext(xs: seq<real>, x: real, v: real)
    ensures Below(xs + [x], v) == Below(xs, v) + if x < v then 1 else 0
  {
    assert (xs + [x])[..|xs|] == xs;
  }

  lemma {:induction false} BelowConcat(xs: seq<real>, ys: seq<real>, v: real)
    ensures Below(xs + ys, v) == Below(xs, v) + Below(ys, v)
    decreases |ys|
  {
    hide Below;
    if ys == [] {
      BelowNone(v);
      assert xs + ys == xs;
    } else {
      var t, y := ys[..|ys| - 1], ys[|ys| - 1];
      BelowConcat(xs, t, v);
      assert ys == t + [y] && xs + ys == xs + t + [y];
      BelowNext(t, y, v);
      BelowNext(xs + t, y, v);
    }
  }

  lemma BelowNone(v: real)
    ensures Below([], v) == 0
  {}

  lemma BelowAt(xs: seq<real>, v: real, i: nat)
    requires i < |xs|
    ensures Below(xs, v) == Below(xs[..i] + xs[i + 1..], v) + if xs[i] < v then 1 else 0
  {
    hide Below;
    var a, b := xs[..i], xs[i + 1..];
    assert xs == a + [xs[i]] + b;
    BelowNext(a, xs[i], v);
    BelowConcat(a + [xs[i]], b, v);
    BelowConcat(a, b, v);
  }

  lemma Removed(ys: seq<real>, i: nat)
    requires i < |ys|
    ensures multiset(ys) == multiset(ys[..i] + ys[i + 1..]) + multiset{ys[i]}
  {
    assert ys == ys[..i] + [ys[i]] + ys[i + 1..];
  }

  lemma CancelOne(a: multiset<real>, b: multiset<real>, x: real)
    requires a + multiset{x} == b + multiset{x}
    ensures a == b
  {
    assert a == (a + multiset{x}) - multiset{x} && b == (b + multiset{x}) - multiset{x};
  }

  /** The order of the samples does not matter. */
  lemma {:induction false} BelowSame(xs: seq<real>, ys: seq<real>, v: real)
    requires multiset(xs) == multiset(ys)
    ensures Below(xs, v) == Below(ys, v) && |xs| == |ys|
    decreases |xs|
  {
    assert |xs| == |multiset(xs)| == |multiset(ys)| == |ys|;
    if xs != [] {
      var t, x := xs[..|xs| - 1], xs[|xs| - 1];
      assert xs == t + [x];
      assert x in multiset(ys);
      var i :| 0 <= i < |ys| && ys[i] == x;
      var u := ys[..i] + ys[i + 1..];
      Removed(ys, i);
      assert multiset(xs) == multiset(t) + multiset{x};
      CancelOne(multiset(t), multiset(u), x);
      BelowSame(t, u, v);
      BelowAt(ys, v, i);
    }
  }

  // ---- reading a quantile ----------------------------------------------------------------------

  /** What is reported: the first edge, the last, or the root of the product of a
      bucket's two edges */
  datatype Reading = Empty | First | Last | Between(i: nat)

  /** ceil(q n), at least 1 */
  function Target(q: real, n: nat): int
  {
    var r := q * n as real;
    var up := if r.Floor as real == r then r.Floor else r.Floor + 1;
    if up == 0 then 1 else up
  }

  /** The target is the least number not below q n, and at least one. */
  lemma TargetIs(q: real, n: nat)
    requires 0.0 <= q <= 1.0 && n > 0
    ensures q > 0.0 ==> (Target(q, n) - 1) as real < q * n as real <= Target(q, n) as real
    ensures q == 0.0 ==> Target(q, n) == 1
  {
    var r := q * n as real;
    if q > 0.0 { LessProduct(n as real, 0.0, q); }
  }

  lemma TargetInRange(q: real, n: nat)
    requires 0.0 <= q <= 1.0 && n > 0
    ensures 1 <= Target(q, n) <= n
  {
    var r := q * n as real;
    assert 0.0 <= r <= n as real;
  }

  /** The reading names the bucket of the t-th smallest sample. */
  predicate Locates(e: seq<real>, xs: seq<real>, t: int, r: Reading)
    requires Edges(e)
  {
    match r
    case Empty => xs == []
    case First => t <= Below(xs, e[0])
    case Last => Below(xs, e[|e| - 1]) < t
    case Between(i) => 0 < i < |e| && Below(xs, e[i - 1]) < t <= Below(xs, e[i])
  }

  /** So in any sorted arrangement that sample is between the bucket's edges. */
  lemma LocatesSample(e: seq<real>, xs: seq<real>, sorted: seq<real>, t: nat, r: Reading)
    requires Edges(e) && Sorted(sorted) && multiset(sorted) == multiset(xs) && 1 <= t <= |sorted| &&
      Locates(e, xs, t, r)
    ensures r != Empty
    ensures r == First ==> sorted[t - 1] < e[0]
    ensures r == Last ==> e[|e| - 1] <= sorted[t - 1]
    ensures r.Between? ==> e[r.i - 1] <= sorted[t - 1] < e[r.i]
  {
    hide Below;
    BelowSame(sorted, xs, 0.0);
    match r
    case Empty =>
    case First => BelowSame(sorted, xs, e[0]); SortedBelow(sorted, e[0], t - 1);
    case Last => BelowSame(sorted, xs, e[|e| - 1]); SortedBelow(sorted, e[|e| - 1], t - 1);
    case Between(i) =>
      BelowSame(sorted, xs, e[i - 1]); SortedBelow(sorted, e[i - 1], t - 1);
      BelowSame(sorted, xs, e[i]); SortedBelow(sorted, e[i], t - 1);
  }

  /** The value m read from a bucket lies in it, and its square is within the
      ratio of the edges of the square of any sample in it. */
  lemma MidpointError(lo: real, hi: real, m: real, x: real)
    requires 0.0 < lo < hi && m > 0.0 && m * m == lo * hi && lo <= x < hi
    ensures lo < m < hi
    ensures m * m * lo <= x * x * hi && x * x * lo < m * m * hi
  {
    if m <= lo { SquareOrder(m, lo); LessProduct(lo, lo, hi); }
    if m >= hi { SquareOrder(hi, m); LessProduct(hi, lo, hi); }
    SquareOrder(lo, x);
    Ordered(lo * lo, x * x, hi);
    assert m * m * lo == lo * lo * hi;
    LessProduct(x, x, hi);
    LessProduct(hi, x, hi);
    assert x * x < hi * hi;
    LessProduct(lo, x * x, hi * hi);
    assert m * m * hi == lo * (hi * hi);
  }

  /** The value reported for a reading */
  function Report(e: seq<real>, r: Reading, sqrt: real -> real): real
    requires Edges(e) && (r.Between? ==> 0 < r.i < |e|)
  {
    match r
    case Empty => 0.0
    case First => e[0]
    case Last => e[|e| - 1]
    case Between(i) => sqrt(EdgeProduct(e, i))
  }

  function EdgeProduct(e: seq<real>, i: nat): real
    requires 0 < i < |e|
  {
    e[i - 1] * e[i]
  }

  ghost predicate IsRoot(sqrt: real -> real) { forall x :: x > 0.0 ==> sqrt(x) > 0.0 && sqrt(x) * sqrt(x) == x }

  lemma SquareOrder(p: real, q: real)
    requires 0.0 < p <= q
    ensures p * p <= q * q
  {
    Ordered(p, q, p);
    Ordered(p, q, q);
  }

  lemma Ordered(p: real, q: real, k: real)
    requires p <= q && k > 0.0
    ensures p * k <= q * k
  {}

  lemma LessProduct(k: real, p: real, q: real)
    requires k > 0.0 && p < q
    ensures k * p < k * q
  {}

  // ---- the edges: 24 to a decade, from 100 ns to 1 s ------------------------------------------

  const PER_DECADE: nat := 24
  const DECADES: nat := 7

  function Power(x: real, n: nat): real { if n == 0 then 1.0 else x * Power(x, n - 1) }

  /** lo 10^(i / 24), said without roots: the 24th power is lo^24 10^i */
  ghost predicate LogEdges(e: seq<real>)
  {
    && |e| == DECADES * PER_DECADE + 1
    && forall i :: 0 <= i < |e| ==> e[i] > 0.0 && Power(e[i], PER_DECADE) == Power(100.0, PER_DECADE) * Power(10.0, i)
  }

  lemma {:induction false} PowerPos(x: real, n: nat)
    requires x > 0.0
    ensures Power(x, n) > 0.0
  {
    if n > 0 {
      PowerPos(x, n - 1);
      LessProduct(x, 0.0, Power(x, n - 1));
    }
  }

  /** Powers keep the order of positive numbers. */
  lemma {:induction false} PowerGrows(x: real, y: real, n: nat)
    requires 0.0 < x <= y
    ensures Power(x, n) <= Power(y, n)
  {
    if n > 0 {
      PowerGrows(x, y, n - 1);
      PowerPos(x, n - 1);
      Ordered(x, y, Power(x, n - 1));
      Ordered(Power(x, n - 1), Power(y, n - 1), y);
    }
  }

  lemma {:induction false} TenGrows(i: nat, j: nat)
    requires i < j
    ensures 0.0 < Power(10.0, i) < Power(10.0, j)
    decreases j
  {
    PowerPos(10.0, j - 1);
    if i < j - 1 { TenGrows(i, j - 1); }
  }

  /** Such edges rise, as the bucket search needs. */
  lemma EdgesRise(e: seq<real>)
    requires LogEdges(e)
    ensures Edges(e)
  {
    hide Power;
    forall i, j | 0 <= i < j < |e| ensures e[i] < e[j] {
      TenGrows(i, j);
      PowerPos(100.0, PER_DECADE);
      LessProduct(Power(100.0, PER_DECADE), Power(10.0, i), Power(10.0, j));
      if e[j] <= e[i] { PowerGrows(e[j], e[i], PER_DECADE); }
    }
  }

  lemma PowerEqual(x: real, y: real, n: nat)
    requires 0.0 < x && 0.0 < y && n > 0 && Power(x, n) == Power(y, n)
    ensures x == y
  {
    if x < y { PowerLess(x, y, n); }
    if y < x { PowerLess(y, x, n); }
  }

  lemma PowerLess(x: real, y: real, n: nat)
    requires 0.0 < x < y && n > 0
    ensures Power(x, n) < Power(y, n)
  {
    PowerGrows(x, y, n - 1);
    PowerPos(y, n - 1);
    Ordered(Power(x, n - 1), Power(y, n - 1), x);
    LessProduct(Power(y, n - 1), x, y);
  }

  /** The outer edges are 100 ns and 1 s. */
  lemma EdgesEnd(e: seq<real>)
    requires LogEdges(e)
    ensures e[0] == 100.0 && e[168] == 1_000_000_000.0
  {
    TenZero();
    TenDecades();
    hide Power;
    PowerEqual(e[0], 100.0, 24);
    PowerProduct(100.0, 10_000_000.0, 24);
    PowerEqual(e[168], 1_000_000_000.0, 24);
  }

  lemma TenZero()
    ensures Power(10.0, 0) == 1.0
  {}

  /** 10^168 is the 24th power of 10^7. */
  lemma TenDecades()
    ensures Power(10.0, 168) == Power(10_000_000.0, 24)
  {
    hide Power;
    TenSeven();
    PowerPower(10.0, 7, 24);
  }

  lemma TenSeven()
    ensures Power(10.0, 7) == 10_000_000.0
  {
    assert Power(10.0, 3) == 1000.0;
    assert Power(10.0, 5) == 100000.0;
  }

  lemma {:induction false} PowerPower(x: real, m: nat, n: nat)
    ensures Power(x, m * n) == Power(Power(x, m), n)
    decreases n
  {
    if n > 0 {
      PowerPower(x, m, n - 1);
      assert m * n == m + m * (n - 1);
      PowerSum(x, m, m * (n - 1));
    }
  }

  /** Outside the edges the nearer one is reported. */
  lemma OuterQuantile(e: seq<real>, xs: seq<real>, sorted: seq<real>, t: nat, r: Reading, sqrt: real -> real)
    requires LogEdges(e) && Edges(e)
    requires Sorted(sorted) && multiset(sorted) == multiset(xs) && 1 <= t <= |sorted| && Locates(e, xs, t, r)
    ensures r == First ==> Report(e, r, sqrt) == 100.0 && sorted[t - 1] < 100.0
    ensures r == Last ==> Report(e, r, sqrt) == 1_000_000_000.0 && sorted[t - 1] >= 1_000_000_000.0
  {
    hide Below, LogEdges;
    EdgesEnd(e);
    assert |e| == 169 by { EdgeCount(e); }
    LocatesSample(e, xs, sorted, t, r);
  }

  lemma EdgeCount(e: seq<real>)
    requires LogEdges(e)
    ensures |e| == 169
  {}

  lemma {:induction false} PowerProduct(x: real, y: real, n: nat)
    ensures Power(x * y, n) == Power(x, n) * Power(y, n)
  {
    if n > 0 {
      PowerProduct(x, y, n - 1);
      Exchange(x, y, Power(x, n - 1), Power(y, n - 1));
    }
  }

  lemma Exchange(a: real, b: real, c: real, d: real)
    ensures (a * b) * (c * d) == (a * c) * (b * d)
  {}

  lemma {:induction false} PowerSum(x: real, m: nat, n: nat)
    ensures Power(x, m + n) == Power(x, m) * Power(x, n)
    decreases m
  {
    if m > 0 {
      PowerSum(x, m - 1, n);
      Associate(x, Power(x, m - 1), Power(x, n));
    }
  }

  lemma Associate(a: real, b: real, c: real)
    ensures a * (b * c) == (a * b) * c
  {}

  /** 1.11^24 > 10 */
  lemma NarrowBucket()
    ensures Power(1.11, 24) > 10.0
  {
    hide Power;
    var p1 := Power(1.11, 1);
    assert p1 == 1.11 by { PowerOne(1.11); }
    PowerSum(1.11, 1, 1); PowerSum(1.11, 2, 1); PowerSum(1.11, 3, 3); PowerSum(1.11, 6, 6); PowerSum(1.11, 12, 12);
    assert Power(1.11, 3) == 1.367631;
    AtLeastSquare(Power(1.11, 3), 1.36);
    AtLeastSquare(Power(1.11, 6), 1.84);
    AtLeastSquare(Power(1.11, 12), 3.38);
  }

  lemma PowerOne(x: real)
    ensures Power(x, 1) == x
  {
    assert Power(x, 0) == 1.0;
  }

  lemma AtLeastSquare(x: real, b: real)
    requires x >= b > 0.0
    ensures x * x >= b * b
  {
    SquareOrder(b, x);
  }

  lemma TenStep(i: nat)
    requires i > 0
    ensures Power(10.0, i) == 10.0 * Power(10.0, i - 1)
  {}

  /** Neighbouring edges differ by less than eleven in a hundred. */
  lemma EdgeRatio(e: seq<real>, i: nat)
    requires LogEdges(e) && 0 < i < |e|
    ensures e[i] < 1.11 * e[i - 1]
  {
    hide Power;
    var lo, hi, c, t := e[i - 1], e[i], Power(100.0, 24), Power(10.0, i - 1);
    TenStep(i);
    assert Power(hi, 24) == 10.0 * Power(lo, 24) by { assert c * (10.0 * t) == 10.0 * (c * t); }
    PowerPos(lo, 24);
    NarrowBucket();
    PowerProduct(1.11, lo, 24);
    LessProduct(Power(lo, 24), 10.0, Power(1.11, 24));
    if hi >= 1.11 * lo { PowerGrows(1.11 * lo, hi, 24); }
  }

  /** A reported quantile between the outer edges is within 5.4 per cent of the sample
      it stands for, in any sorted arrangement of the samples. */
  lemma QuantileError(e: seq<real>, xs: seq<real>, sorted: seq<real>, t: nat, i: nat, sqrt: real -> real)
    requires LogEdges(e) && IsRoot(sqrt) && Edges(e)
    requires Sorted(sorted) && multiset(sorted) == multiset(xs) && 1 <= t <= |sorted| && Locates(e, xs, t, Between(i))
    ensures var v, x := Report(e, Between(i), sqrt), sorted[t - 1];
      e[i - 1] < v < e[i] && v < 1.054 * x && x < 1.054 * v
  {
    hide LogEdges, Below, IsRoot;
    LocatesSample(e, xs, sorted, t, Between(i));
    EdgeRatio(e, i);
    PositiveEdge(e, i - 1);
    var v, x := sqrt(EdgeProduct(e, i)), sorted[t - 1];
    assert Report(e, Between(i), sqrt) == v;
    hide *;
    assert e[i - 1] < e[i];
    RootBetween(e, i, sqrt, x);
    RootOfRatio(v, x);
    RootOfRatio(x, v);
  }

  /** A ratio of squares below 1.11 is a ratio below 1.054. */
  lemma RootOfRatio(p: real, q: real)
    requires p > 0.0 && q > 0.0 && p * p < 1.11 * (q * q)
    ensures p < 1.054 * q
  {
    var r := 1.054 * q;
    assert r * r == (1.054 * 1.054) * (q * q);
    SquarePositive(q);
    if p >= r { SquareOrder(r, p); }
  }

  lemma RootBetween(e: seq<real>, i: nat, sqrt: real -> real, x: real)
    requires IsRoot(sqrt) && 0 < i < |e| && 0.0 < e[i - 1] <= x < e[i] < 1.11 * e[i - 1]
    ensures var v := sqrt(EdgeProduct(e, i));
      e[i - 1] < v < e[i] && v * v < 1.11 * (x * x) && x * x < 1.11 * (v * v)
  {
    var lo, hi, p := e[i - 1], e[i], EdgeProduct(e, i);
    LessProduct(lo, 0.0, hi);
    var v := sqrt(p);
    assert v > 0.0 && v * v == p;
    MidpointError(lo, hi, v, x);
    hide *;
    SquarePositive(x);
    SquarePositive(v);
    Shrink(v * v, x * x, lo, hi);
    Shrink(x * x, v * v, lo, hi);
  }

  lemma SquarePositive(x: real)
    requires x > 0.0
    ensures x * x > 0.0
  {
    LessProduct(x, 0.0, x);
  }

  lemma Shrink(p: real, q: real, lo: real, hi: real)
    requires q > 0.0 && 0.0 < lo < hi < 1.11 * lo && p * lo <= q * hi
    ensures p < 1.11 * q
  {
    LessProduct(q, hi, 1.11 * lo);
    assert q * (1.11 * lo) == (1.11 * q) * lo;
    if p >= 1.11 * q { Ordered(1.11 * q, p, lo); }
  }

  lemma PositiveEdge(e: seq<real>, i: nat)
    requires Edges(e) && i < |e|
    ensures e[i] > 0.0
  {}

  class LatencyHist {
    const edges: seq<real>
    const buckets: array<nat>
    var n: nat
    ghost var samples: seq<real>

    ghost predicate Valid()
      reads this, buckets
    {
      && Edges(edges) && buckets.Length == |edges| + 1 && n == |samples|
      && forall i :: 0 <= i < buckets.Length ==> buckets[i] == InBucket(edges, samples, i)
    }

    constructor (edges: seq<real>)
      requires Edges(edges)
      ensures Valid() && fresh(buckets) && samples == [] && this.edges == edges
    {
      this.edges := edges;
      buckets := new nat[|edges| + 1](_ => 0);
      n, samples := 0, [];
    }

    /** LatencyHist::add. Its clamp to the last bucket never fires: Bucket is at
        most the number of edges. */
    method Add(ns: real)
      requires Valid()
      modifies this, buckets
      ensures Valid() && samples == old(samples) + [ns]
    {
      var i := Bucket(edges, ns);
      buckets[i] := buckets[i] + 1;
      n := n + 1;
      samples := samples + [ns];
      assert samples[..|samples| - 1] == old(samples);
    }

    /** LatencyHist::quantile. The square root is a parameter, and the
        bucket read is returned with the value. */
    method Quantile(q: real, sqrt: real -> real) returns (v: real, r: Reading)
      requires Valid() && 0.0 <= q <= 1.0
      ensures (r == Empty <==> n == 0) && Locates(edges, samples, Target(q, n), r)
      ensures v == Report(edges, r, sqrt)
    {
      hide Bucket, InBucket, Below, Target;
      if n == 0 { return 0.0, Empty; }
      TargetInRange(q, n);
      var target, cum := Target(q, n), 0;
      for i := 0 to buckets.Length
        invariant cum == InFirst(edges, samples, i) && cum < target
      {
        cum := cum + buckets[i];
        if cum >= target {
          if i < |edges| { FirstAreBelow(edges, samples, i); }
          if i > 0 { FirstAreBelow(edges, samples, i - 1); }
          if i == 0 { return edges[0], First; }
          if i >= |edges| { return edges[|edges| - 1], Last; }
          return sqrt(EdgeProduct(edges, i)), Between(i);
        }
      }
      AllBuckets(edges, samples);
      assert false;
    }
  }
}
