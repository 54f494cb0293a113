/** Bitwise operators on unsigned integers, as the sum of their bits. */
module NatBits {
  import opened Bytes

  function And(a: nat, b: nat): (r: nat)
    ensures r <= a && r <= b
  {
    if a == 0 || b == 0 then 0 else 2 * And(a / 2, b / 2) + (if a % 2 == 1 && b % 2 == 1 then 1 else 0)
  }

  function Or(a: nat, b: nat): nat
    decreases a + b
  {
    if a == 0 then b else if b == 0 then a
    else 2 * Or(a / 2, b / 2) + (if a % 2 == 1 || b % 2 == 1 then 1 else 0)
  }

  /** Bits that do not overlap are added. */
  lemma {:induction false} OrDisjoint(a: nat, b: nat, k: nat)
    requires a < Pow2(k)
    ensures Or(a, b * Pow2(k)) == a + b * Pow2(k)
    decreases k
  {
    if k > 0 && a > 0 && b > 0 {
      var p := Pow2(k - 1);
      assert b * Pow2(k) == 2 * (b * p);
      OrDisjoint(a / 2, b, k - 1);
      assert b * p > 0;
    }
  }

  /** A mask of k ones keeps the remainder modulo 2^k. */
  lemma {:induction false} AndOnes(a: nat, k: nat)
    ensures And(a, Pow2(k) - 1) == a % Pow2(k)
    decreases k
  {
    hide And;
    if k == 0 {
      AndNone(a);
    } else {
      var p := Pow2(k - 1);
      AndOnes(a / 2, k - 1);
      HalfMod(a, p);
      OnesHalf(p);
      AndStep(a, 2 * p - 1);
    }
  }

  lemma AndNone(a: nat)
    ensures And(a, 0) == 0 && a % 1 == 0
  {}

  lemma OnesHalf(p: nat)
    requires p > 0
    ensures (2 * p - 1) / 2 == p - 1 && (2 * p - 1) % 2 == 1
  {}

  /** hi above bit k and lo below it */
  function Join(hi: nat, lo: nat, k: nat): nat
  {
    MulNonNegative(hi, Pow2(k));
    hi * Pow2(k) + lo
  }

  lemma MulNonNegative(a: nat, b: nat)
    ensures a * b >= 0
  {}

  lemma JoinHalf(hi: nat, lo: nat, k: nat)
    requires k > 0
    ensures Join(hi, lo, k) / 2 == Join(hi, lo / 2, k - 1) && Join(hi, lo, k) % 2 == lo % 2
  {
    var p := Pow2(k - 1);
    assert hi * Pow2(k) == 2 * (hi * p);
  }

  /** A conjunction splits at bit k. */
  lemma {:induction false} AndSplit(hi: nat, lo: nat, m: nat, l: nat, k: nat)
    requires lo < Pow2(k) && l < Pow2(k)
    ensures And(Join(hi, lo, k), Join(m, l, k)) == Join(And(hi, m), And(lo, l), k)
    decreases k
  {
    hide And, Join;
    if k == 0 {
      JoinNone(hi); JoinNone(m); JoinNone(And(hi, m));
    } else {
      AndSplit(hi, lo / 2, m, l / 2, k - 1);
      AndStep(Join(hi, lo, k), Join(m, l, k));
      AndStep(lo, l);
      JoinHalf(hi, lo, k); JoinHalf(m, l, k); JoinHalf(And(hi, m), And(lo, l), k);
      Halves(Join(And(hi, m), And(lo, l), k));
    }
  }

  lemma JoinNone(hi: nat)
    ensures Join(hi, 0, 0) == hi && And(0, 0) == 0
  {}

  lemma Halves(n: nat)
    ensures n == 2 * (n / 2) + n % 2
  {}

  lemma AndStep(a: nat, b: nat)
    ensures And(a, b) == 2 * And(a / 2, b / 2) + (if a % 2 == 1 && b % 2 == 1 then 1 else 0)
  {
    if a == 0 || b == 0 { assert And(a / 2, b / 2) == 0; }
  }
}
