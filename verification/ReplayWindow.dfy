/** 64-bit words as bitmaps. */
module WordBits {
  import opened Bytes
  import opened NatBits

  type U64 = x: nat | x < W64

  /** Bit k of a number */
  predicate Bit(v: nat, k: nat)
    decreases k
  {
    if k == 0 then v % 2 == 1 else Bit(v / 2, k - 1)
  }

  /** v << s in 64 bits */
  function Shl(v: U64, s: nat): U64
    decreases s
  {
    if s == 0 then v else Shl(2 * v % W64, s - 1)
  }

  /** v >> s */
  function Shr(v: U64, s: nat): U64
    decreases s
  {
    if s == 0 then v else Shr(v / 2, s - 1)
  }

  lemma {:induction false} BitShr(v: U64, s: nat, k: nat)
    ensures Bit(Shr(v, s), k) == Bit(v, k + s)
    decreases s
  {
    if s > 0 { BitShr(v / 2, s - 1, k); }
  }

  lemma {:induction false} BitMod(v: nat, n: nat, k: nat)
    ensures Bit(v % Pow2(n), k) == (k < n && Bit(v, k))
    decreases n
  {
    if n == 0 {
      assert v % 1 == 0;
      BitZero(k);
    } else {
      var p := Pow2(n - 1);
      HalfMod(v, p);
      var m := v % (2 * p);
      assert m / 2 == v / 2 % p && m % 2 == v % 2;
      if k > 0 { BitMod(v / 2, n - 1, k - 1); }
    }
  }

  lemma {:induction false} BitZero(k: nat)
    ensures !Bit(0, k)
    decreases k
  {
    if k > 0 { BitZero(k - 1); }
  }

  lemma Pow2At64()
    ensures Pow2(64) == W64
  {
    hide Pow2;
    Pow2At16();
    Pow2Sum(16, 16);
    Pow2Sum(32, 32);
  }

  lemma Pow2At16()
    ensures Pow2(16) == 0x1_0000
  {
    hide Pow2;
    Pow2Eight();
    Pow2Sum(8, 8);
  }

  lemma {:induction false} Pow2Sum(a: nat, b: nat)
    ensures Pow2(a + b) == Pow2(a) * Pow2(b)
    decreases a
  {
    if a > 0 {
      Pow2Sum(a - 1, b);
      TwiceProduct(Pow2(a - 1), Pow2(b));
    }
  }

  lemma TwiceProduct(p: nat, q: nat)
    ensures 2 * (p * q) == (2 * p) * q
  {}

  lemma BitDouble(v: U64, k: nat)
    requires k < 64
    ensures Bit(2 * v % W64, k) == (k > 0 && Bit(v, k - 1))
  {
    hide Pow2;
    Pow2At64();
    BitMod(2 * v, 64, k);
    assert 2 * v / 2 == v;
  }

  lemma {:induction false} BitShl(v: U64, s: nat, k: nat)
    requires k < 64
    ensures Bit(Shl(v, s), k) == (k >= s && Bit(v, k - s))
    decreases s
  {
    if s > 0 {
      BitShl(2 * v % W64, s - 1, k);
      if k >= s - 1 { BitDouble(v, k - (s - 1)); }
    }
  }

  lemma BitHigh(v: U64, k: nat)
    requires k >= 64
    ensures !Bit(v, k)
  {
    hide Pow2, Bit;
    Pow2At64();
    BitMod(v, 64, k);
    assert v % W64 == v;
  }

  lemma {:induction false} BitOr(a: nat, b: nat, k: nat)
    ensures Bit(Or(a, b), k) == (Bit(a, k) || Bit(b, k))
    decreases k
  {
    if a == 0 || b == 0 {
      BitZero(k);
    } else if k > 0 {
      BitOr(a / 2, b / 2, k - 1);
    }
  }

  lemma {:induction false} OrBound(a: nat, b: nat, n: nat)
    requires a < Pow2(n) && b < Pow2(n)
    ensures Or(a, b) < Pow2(n)
    decreases n
  {
    if n > 0 { OrBound(a / 2, b / 2, n - 1); }
  }

  function WOr(a: U64, b: U64): U64
  {
    Pow2At64();
    OrBound(a, b, 64);
    Or(a, b)
  }

  /** Testing bit k with the mask 1 << k */
  lemma {:induction false} MaskBit(v: nat, k: nat)
    ensures And(v, Pow2(k)) != 0 <==> Bit(v, k)
    decreases k
  {
    AndStep(v, Pow2(k));
    if k > 0 { MaskBit(v / 2, k - 1); }
  }

  lemma {:induction false} ShlOne(k: nat)
    requires k < 64
    ensures Shl(1, k) == Pow2(k)
  {
    ShlPow(0, k);
  }

  lemma {:induction false} ShlPow(j: nat, s: nat)
    requires j + s < 64
    ensures Pow2(j) < W64 && Shl(Pow2(j), s) == Pow2(j + s)
    decreases s
  {
    Pow2Less(j);
    if s > 0 {
      Pow2Less(j + 1);
      assert 2 * Pow2(j) % W64 == Pow2(j + 1);
      ShlPow(j + 1, s - 1);
    }
  }

  lemma Pow2Less(j: nat)
    requires j < 64
    ensures Pow2(j) < W64
  {
    Pow2At64();
    Pow2Grows(j, 64);
  }

  lemma {:induction false} Pow2Grows(i: nat, j: nat)
    requires i < j
    ensures Pow2(i) < Pow2(j)
    decreases j
  {
    if i < j - 1 { Pow2Grows(i, j - 1); }
  }

  lemma BitOfOne(k: nat, j: nat)
    requires k < 64
    ensures Bit(Shl(1, k), j) == (j == k)
  {
    if j < 64 {
      BitShl(1, k, j);
      if j > k { BitZero(j - k - 1); }
    } else {
      BitHigh(Shl(1, k), j);
    }
  }
}

/** The anti-replay window, compared with section 3.4.3 of RFC 4303. */
module ReplayWindow {
  import opened Bytes
  import opened WordBits
  import NatBits

  // ---- the set-based specification -------------------------------------------------

  /** Everything ever accepted, the highest of it, and the counts of refusals */
  datatype View = View(width: nat, accepted: set<nat>, high: nat, dup: nat, stale: nat)

  function Fresh(width: nat): View { View(width, {}, 0, 0, 0) }

  ghost predicate Coherent(v: View)
  {
    && (forall s :: s in v.accepted ==> s <= v.high)
    && (v.accepted != {} ==> v.high in v.accepted)
    && (v.accepted == {} ==> v.high == 0)
  }

  /** Ahead of the window, or inside it and not yet seen */
  predicate Admits(v: View, s: nat)
  {
    s !in v.accepted && (v.accepted == {} || s + v.width > v.high)
  }

  function Step(v: View, s: nat): View
  {
    if Admits(v, s) then v.(accepted := v.accepted + {s}, high := if v.accepted == {} || s > v.high then s else v.high)
    else if s + v.width <= v.high then v.(stale := v.stale + 1)
    else v.(dup := v.dup + 1)
  }

  function Run(v: View, ss: seq<nat>): View
  {
    if ss == [] then v else Step(Run(v, ss[..|ss| - 1]), ss[|ss| - 1])
  }

  /** Whether the i-th number of a run was accepted */
  predicate Verdict(v: View, ss: seq<nat>, i: nat)
    requires i < |ss|
  {
    Admits(Run(v, ss[..i]), ss[i])
  }

  lemma {:induction false} RunCoherent(v: View, ss: seq<nat>)
    requires Coherent(v)
    ensures Coherent(Run(v, ss)) && Run(v, ss).width == v.width
  {
    if ss != [] { RunCoherent(v, ss[..|ss| - 1]); }
  }

  /** What is accepted stays accepted, and the highest never decreases. */
  lemma {:induction false} RunGrows(v: View, ss: seq<nat>, i: nat)
    requires Coherent(v) && i <= |ss|
    ensures Run(v, ss[..i]).accepted <= Run(v, ss).accepted && Run(v, ss[..i]).high <= Run(v, ss).high
  {
    if i == |ss| {
      assert ss[..i] == ss;
    } else {
      var t := ss[..|ss| - 1];
      RunGrows(v, t, i);
      RunCoherent(v, t);
      assert t[..i] == ss[..i];
    }
  }

  lemma VerdictRecorded(v: View, ss: seq<nat>, i: nat)
    requires i < |ss|
    ensures Verdict(v, ss, i) ==> ss[i] in Run(v, ss[..i + 1]).accepted
  {
    assert ss[..i + 1][..i] == ss[..i];
  }

  /** Each number is accepted at most once over a run. */
  lemma AcceptedOnce(v: View, ss: seq<nat>, i: nat, j: nat)
    requires Coherent(v) && i < j < |ss| && Verdict(v, ss, i) && Verdict(v, ss, j)
    ensures ss[i] != ss[j]
  {
    VerdictRecorded(v, ss, i);
    RunGrows(v, ss[..j], i + 1);
    assert ss[..j][..i + 1] == ss[..i + 1];
  }

  /** Every call is an acceptance, a duplicate or too old, and exactly one. */
  lemma {:induction false} CallsBalance(width: nat, ss: seq<nat>)
    ensures var v := Run(Fresh(width), ss); |v.accepted| + v.dup + v.stale == |ss|
  {
    if ss != [] {
      CallsBalance(width, ss[..|ss| - 1]);
    }
  }

  /** Nothing was refused exactly when every verdict is positive. */
  lemma {:induction false} NoRefusals(width: nat, ss: seq<nat>)
    ensures var v := Run(Fresh(width), ss);
      v.dup + v.stale == 0 <==> forall i :: 0 <= i < |ss| ==> Verdict(Fresh(width), ss, i)
  {
    if ss != [] {
      var n := |ss| - 1;
      var t := ss[..n];
      NoRefusals(width, t);
      forall i | 0 <= i < n ensures Verdict(Fresh(width), ss, i) == Verdict(Fresh(width), t, i) {
        assert t[..i] == ss[..i];
      }
      hide Run, Admits;
      assert Verdict(Fresh(width), ss, n) == Admits(Run(Fresh(width), t), ss[n]);
      LastRefusal(Fresh(width), ss);
    }
  }

  lemma LastRefusal(v: View, ss: seq<nat>)
    requires ss != []
    ensures var w, w' := Run(v, ss[..|ss| - 1]), Run(v, ss);
      w'.dup + w'.stale == w.dup + w.stale + if Admits(w, ss[|ss| - 1]) then 0 else 1
  {}

  /** Numbers that only rise are all accepted. */
  lemma {:induction false} RisingAccepted(width: nat, ss: seq<nat>, i: nat)
    requires width > 0 && i < |ss| && forall j, k :: 0 <= j < k < |ss| ==> ss[j] < ss[k]
    ensures Verdict(Fresh(width), ss, i)
  {
    var t := ss[..i];
    RunCoherent(Fresh(width), t);
    if i > 0 {
      if Run(Fresh(width), t).accepted != {} {
        var j := AcceptedWitness(width, t, Run(Fresh(width), t).high);
      }
    }
  }

  lemma {:induction false} AcceptedWitness(width: nat, ss: seq<nat>, x: nat) returns (i: nat)
    requires x in Run(Fresh(width), ss).accepted
    ensures i < |ss| && ss[i] == x && Verdict(Fresh(width), ss, i)
  {
    var n := |ss| - 1;
    var t := ss[..n];
    if x in Run(Fresh(width), t).accepted {
      i := AcceptedWitness(width, t, x);
      assert t[..i] == ss[..i];
    } else {
      i := n;
    }
  }

  /** The accepted set is exactly the numbers with a positive verdict. */
  lemma AcceptedAre(width: nat, ss: seq<nat>, x: nat)
    ensures x in Run(Fresh(width), ss).accepted <==>
      exists i :: 0 <= i < |ss| && ss[i] == x && Verdict(Fresh(width), ss, i)
  {
    hide Run, Verdict;
    if x in Run(Fresh(width), ss).accepted {
      var i := AcceptedWitness(width, ss, x);
    }
    forall i | 0 <= i < |ss| && ss[i] == x && Verdict(Fresh(width), ss, i) ensures x in Run(Fresh(width), ss).accepted {
      VerdictRecorded(Fresh(width), ss, i);
      RunGrows(Fresh(width), ss, i + 1);
    }
  }

  // ---- the counts, from the numbers alone --------------------------------------------

  /** Number i is new: no accepted number before it equals it or is width or more ahead. */
  predicate New(width: nat, ss: seq<nat>, i: nat)
    requires i < |ss|
    decreases i
  {
    forall j :: 0 <= j < i && New(width, ss, j) ==> ss[j] != ss[i] && ss[j] < ss[i] + width
  }

  /** An accepted number before it is width or more ahead. */
  predicate TooOld(width: nat, ss: seq<nat>, i: nat)
    requires i < |ss|
  {
    exists j :: 0 <= j < i && New(width, ss, j) && ss[j] >= ss[i] + width
  }

  /** It was accepted before, and is less than width behind all that were. */
  predicate Duplicate(width: nat, ss: seq<nat>, i: nat)
    requires i < |ss|
  {
    !TooOld(width, ss, i) && exists j :: 0 <= j < i && New(width, ss, j) && ss[j] == ss[i]
  }

  function One(c: bool): nat { if c then 1 else 0 }

  function CountTooOld(width: nat, ss: seq<nat>, n: nat): nat
    requires n <= |ss|
  {
    if n == 0 then 0 else CountTooOld(width, ss, n - 1) + One(TooOld(width, ss, n - 1))
  }

  function CountDuplicates(width: nat, ss: seq<nat>, n: nat): nat
    requires n <= |ss|
  {
    if n == 0 then 0 else CountDuplicates(width, ss, n - 1) + One(Duplicate(width, ss, n - 1))
  }

  /** What is in the window after n numbers: those that were new, and the highest of them. */
  ghost predicate Holds(width: nat, ss: seq<nat>, n: nat)
    requires n <= |ss|
  {
    var v := Run(Fresh(width), ss[..n]);
    && v.width == width && Coherent(v)
    && (forall j :: 0 <= j < n && New(width, ss, j) ==> ss[j] in v.accepted)
    && (forall x :: x in v.accepted ==> exists j :: 0 <= j < n && New(width, ss, j) && ss[j] == x)
  }

  lemma NewIff(width: nat, ss: seq<nat>, n: nat)
    requires n < |ss| && width > 0 && Holds(width, ss, n)
    ensures var v := Run(Fresh(width), ss[..n]);
      && (New(width, ss, n) <==> Admits(v, ss[n]))
      && (TooOld(width, ss, n) <==> v.accepted != {} && ss[n] + width <= v.high)
  {
    hide Run;
    var v := Run(Fresh(width), ss[..n]);
    if v.accepted != {} {
      assert v.high in v.accepted;
      var j :| 0 <= j < n && New(width, ss, j) && ss[j] == v.high;
    }
  }

  lemma {:induction false} CountsAre(width: nat, ss: seq<nat>, n: nat)
    requires n <= |ss| && width > 0
    ensures Holds(width, ss, n)
    ensures var v := Run(Fresh(width), ss[..n]);
      v.stale == CountTooOld(width, ss, n) && v.dup == CountDuplicates(width, ss, n)
  {
    hide Run, New, TooOld, Duplicate, Holds, Admits;
    if n == 0 {
      CountsNone(width, ss);
    } else {
      CountsAre(width, ss, n - 1);
      NewIff(width, ss, n - 1);
      OneMore(width, ss, n);
    }
  }

  lemma CountsNone(width: nat, ss: seq<nat>)
    ensures Holds(width, ss, 0) && Run(Fresh(width), ss[..0]) == Fresh(width)
  {
    hide New;
    assert ss[..0] == [];
  }

  lemma OneMore(width: nat, ss: seq<nat>, n: nat)
    requires 0 < n <= |ss| && width > 0 && Holds(width, ss, n - 1)
    requires var v := Run(Fresh(width), ss[..n - 1]);
      && (New(width, ss, n - 1) <==> Admits(v, ss[n - 1]))
      && (TooOld(width, ss, n - 1) <==> v.accepted != {} && ss[n - 1] + width <= v.high)
    ensures Holds(width, ss, n)
    ensures var v, w := Run(Fresh(width), ss[..n - 1]), Run(Fresh(width), ss[..n]);
      && w.stale == v.stale + One(TooOld(width, ss, n - 1))
      && w.dup == v.dup + One(Duplicate(width, ss, n - 1))
  {
    hide Run, New, TooOld, Duplicate, Coherent, Admits, Step;
    var v, w := Run(Fresh(width), ss[..n - 1]), Run(Fresh(width), ss[..n]);
    LastStep(Fresh(width), ss, n);
    StepHolds(width, ss, n, v, w);
  }

  lemma LastStep(v: View, ss: seq<nat>, n: nat)
    requires 0 < n <= |ss|
    ensures Run(v, ss[..n]) == Step(Run(v, ss[..n - 1]), ss[n - 1])
  {
    hide Step;
    assert ss[..n][..n - 1] == ss[..n - 1];
  }

  lemma StepHolds(width: nat, ss: seq<nat>, n: nat, v: View, w: View)
    requires 0 < n <= |ss| && width > 0 && w == Step(v, ss[n - 1]) && v.width == width && Coherent(v)
    requires forall j :: 0 <= j < n - 1 && New(width, ss, j) ==> ss[j] in v.accepted
    requires forall x :: x in v.accepted ==> exists j :: 0 <= j < n - 1 && New(width, ss, j) && ss[j] == x
    requires New(width, ss, n - 1) <==> Admits(v, ss[n - 1])
    requires TooOld(width, ss, n - 1) <==> v.accepted != {} && ss[n - 1] + width <= v.high
    ensures w.width == width && Coherent(w)
    ensures forall j :: 0 <= j < n && New(width, ss, j) ==> ss[j] in w.accepted
    ensures forall x :: x in w.accepted ==> exists j :: 0 <= j < n && New(width, ss, j) && ss[j] == x
    ensures w.stale == v.stale + One(TooOld(width, ss, n - 1))
    ensures w.dup == v.dup + One(Duplicate(width, ss, n - 1))
  {
    hide New, TooOld;
    forall x | x in w.accepted ensures exists j :: 0 <= j < n && New(width, ss, j) && ss[j] == x {
      if x in v.accepted {
        var j :| 0 <= j < n - 1 && New(width, ss, j) && ss[j] == x;
      } else {
        assert New(width, ss, n - 1) && ss[n - 1] == x;
      }
    }
  }

  /** Over every run: the numbers counted as too old and as duplicates are exactly those
      that are, judged from the numbers before them. */
  lemma RefusalCounts(width: nat, ss: seq<nat>)
    requires width > 0
    ensures var v := Run(Fresh(width), ss);
      v.stale == CountTooOld(width, ss, |ss|) && v.dup == CountDuplicates(width, ss, |ss|)
    ensures forall i :: 0 <= i < |ss| ==> (Verdict(Fresh(width), ss, i) <==> New(width, ss, i))
  {
    hide Run, New, Admits;
    assert ss[..|ss|] == ss;
    CountsAre(width, ss, |ss|);
    forall i | 0 <= i < |ss| ensures Verdict(Fresh(width), ss, i) <==> New(width, ss, i) {
      CountsAre(width, ss, i);
      NewIff(width, ss, i);
    }
  }

  // ---- the bitmap --------------------------------------------------------------------

  /** Bit i of a word vector, counted from bit 0 of word 0 */
  predicate BitAt(bits: seq<U64>, i: nat)
    requires i < 64 * |bits|
  {
    Bit(bits[i / 64], i % 64)
  }

  /** Bit i is set exactly when high - i was accepted. */
  ghost predicate Mirrors(bits: seq<U64>, v: View)
  {
    && v.width == 64 * |bits|
    && forall i :: 0 <= i < v.width ==> BitAt(bits, i) == (i <= v.high && v.high - i in v.accepted)
  }

  /** One word of the shifted map */
  function ShiftedWord(was: seq<U64>, i: nat, ws: nat, bs: nat): U64
    requires i < |was| && bs < 64
  {
    if bs == 0 then (if i >= ws then was[i - ws] else 0)
    else
      var v: U64 := if i >= ws then Shl(was[i - ws], bs) else 0;
      if i >= ws + 1 then WOr(v, Shr(was[i - ws - 1], 64 - bs)) else v
  }

  lemma ShiftedWordBit(was: seq<U64>, i: nat, ws: nat, bs: nat, k: nat)
    requires i < |was| && bs < 64 && k < 64
    ensures Bit(ShiftedWord(was, i, ws, bs), k) ==
      (64 * i + k >= 64 * ws + bs && BitAt(was, 64 * i + k - (64 * ws + bs)))
  {
    hide Bit, Shl, Shr, WOr;
    var g := 64 * i + k - (64 * ws + bs);
    BitZero(k);
    if bs == 0 {
      if i >= ws { assert g / 64 == i - ws && g % 64 == k; }
    } else {
      if i >= ws {
        BitShl(was[i - ws], bs, k);
        if k >= bs { assert g / 64 == i - ws && g % 64 == k - bs; }
      }
      if i >= ws + 1 {
        var lo := was[i - ws - 1];
        BitShr(lo, 64 - bs, k);
        if k >= bs { BitHigh(lo, k + 64 - bs); } else { assert g / 64 == i - ws - 1 && g % 64 == k + 64 - bs; }
        WOrBit(Shl(was[i - ws], bs), Shr(lo, 64 - bs), k);
      }
    }
  }

  lemma WOrBit(a: U64, b: U64, k: nat)
    ensures Bit(WOr(a, b), k) == (Bit(a, k) || Bit(b, k))
  {
    BitOr(a, b, k);
  }

  /** Setting bit k of word w sets that bit of the map and no other. */
  lemma SetBit(was: seq<U64>, w: nat, k: nat, i: nat)
    requires w < |was| && k < 64 && i < 64 * |was|
    ensures BitAt(was[w := WOr(was[w], Shl(1, k))], i) == (BitAt(was, i) || i == 64 * w + k)
  {
    hide Bit, Shl, WOr;
    if i / 64 == w {
      WOrBit(was[w], Shl(1, k), i % 64);
      BitOfOne(k, i % 64);
    }
  }

  /** A window that moves ahead: shift by the distance, then mark the newest. */
  lemma MovedAhead(was: seq<U64>, now: seq<U64>, v: View, s: nat)
    requires Mirrors(was, v) && Coherent(v) && |was| > 0 && |now| == |was| && v.accepted != {} && s > v.high
    requires forall i :: 0 <= i < v.width ==> BitAt(now, i) == (i >= s - v.high && BitAt(was, i - (s - v.high)))
    ensures Mirrors(now[0 := WOr(now[0], 1)], Step(v, s))
  {
    hide Bit, WOr, BitAt;
    var set0 := now[0 := WOr(now[0], 1)];
    var v' := Step(v, s);
    assert Admits(v, s);
    assert Shl(1, 0) == 1 by { ShlZero(); }
    forall i | 0 <= i < v.width ensures BitAt(set0, i) == (i <= v'.high && v'.high - i in v'.accepted) {
      SetBit(now, 0, 0, i);
      var d := s - v.high;
      if i >= d { assert s - i == v.high - (i - d); }
    }
  }

  lemma ShlZero()
    ensures Shl(1, 0) == 1
  {}

  /** A number inside the window: mark its bit. */
  lemma Marked(was: seq<U64>, v: View, s: nat)
    requires Mirrors(was, v) && Coherent(v) && v.accepted != {} && s <= v.high && v.high - s < v.width &&
      s !in v.accepted
    ensures var b := v.high - s; Mirrors(was[b / 64 := WOr(was[b / 64], Shl(1, b % 64))], Step(v, s))
  {
    hide Bit, WOr, BitAt, Shl;
    var b := v.high - s;
    var now := was[b / 64 := WOr(was[b / 64], Shl(1, b % 64))];
    var v' := Step(v, s);
    assert Admits(v, s) && v'.high == v.high;
    forall i | 0 <= i < v.width ensures BitAt(now, i) == (i <= v'.high && v'.high - i in v'.accepted) {
      SetBit(was, b / 64, b % 64, i);
      assert 64 * (b / 64) + b % 64 == b;
    }
  }

  /** The first number of all: only bit 0 is set. */
  lemma FirstBit(was: seq<U64>, v: View, s: nat)
    requires Mirrors(was, v) && Coherent(v) && v.accepted == {} && |was| > 0
    ensures Mirrors(was[0 := 1], Step(v, s))
  {
    hide Bit, Shl;
    var now, v' := was[0 := 1], Step(v, s);
    ShlZero();
    forall i | 0 <= i < v.width ensures BitAt(now, i) == (i <= v'.high && v'.high - i in v'.accepted) {
      if i / 64 == 0 { BitOfOne(0, i % 64); } else { assert BitAt(was, i) == BitAt(now, i); }
    }
  }

  /** The mask test reads the bit of the number. */
  lemma TestBit(bits: seq<U64>, b: nat)
    requires b < 64 * |bits|
    ensures NatBits.And(bits[b / 64], Shl(1, b % 64)) != 0 <==> BitAt(bits, b)
  {
    hide Bit, Shl;
    ShlOne(b % 64);
    MaskBit(bits[b / 64], b % 64);
  }

  lemma Wraps(n: nat)
    ensures (n % W64 + 1) % W64 == (n + 1) % W64
  {}

  lemma AllClear(bits: seq<U64>, i: nat)
    requires i < 64 * |bits| && forall k :: 0 <= k < |bits| ==> bits[k] == 0
    ensures !BitAt(bits, i)
  {
    BitZero(i % 64);
  }

  // ---- the object ------------------------------------------------------------------------

  class Window {
    const width: nat
    const bits: array<U64>
    var high: U64
    var seen: bool
    var dup: U64
    var stale: U64
    ghost var view: View

    ghost predicate Valid()
      reads this, bits
    {
      && bits.Length > 0 && width == 64 * bits.Length && view.width == width
      && Mirrors(bits[..], view) && Coherent(view)
      && (seen <==> view.accepted != {}) && high == view.high
      && dup == view.dup % W64 && stale == view.stale % W64
    }

    /** ReplayWindow::ReplayWindow: at least 64 bits, rounded up to whole words */
    constructor (widthBits: nat)
      ensures Valid() && fresh(bits)
      ensures width % 64 == 0 && width >= 64 && width >= widthBits && (widthBits >= 64 ==> width < widthBits + 64)
      ensures view == Fresh(width)
    {
      hide BitAt;
      var w := if widthBits < 64 then 64 else widthBits;
      width := (w + 63) / 64 * 64;
      bits := new U64[(w + 63) / 64 * 64 / 64](_ => 0);
      high, seen, dup, stale := 0, false, 0, 0;
      view := Fresh((w + 63) / 64 * 64);
      new;
      forall i | 0 <= i < width ensures !BitAt(bits[..], i) { AllClear(bits[..], i); }
    }

    /** ReplayWindow::reset */
    method Reset()
      requires Valid()
      modifies this, bits
      ensures Valid() && view == Fresh(width)
    {
      hide BitAt;
      Clear();
      high, seen, dup, stale := 0, false, 0, 0;
      view := Fresh(width);
    }

    /** std::fill with zeros */
    method Clear()
      modifies bits
      ensures forall i :: 0 <= i < 64 * bits.Length ==> !BitAt(bits[..], i)
    {
      hide BitAt;
      for i := 0 to bits.Length
        invariant forall k :: 0 <= k < i ==> bits[k] == 0
      {
        bits[i] := 0;
      }
      forall i | 0 <= i < 64 * bits.Length ensures !BitAt(bits[..], i) { AllClear(bits[..], i); }
    }

    /** The in-place shift, from the last word down, in its two forms */
    method Shift(shift: nat)
      modifies bits
      ensures forall i :: 0 <= i < 64 * bits.Length ==>
        BitAt(bits[..], i) == (i >= shift && BitAt(old(bits[..]), i - shift))
    {
      hide Shl, Shr, WOr, BitAt;
      ghost var was := bits[..];
      var ws, bs := shift / 64, shift % 64;
      var i := bits.Length;
      if bs == 0 {
        while i > 0
          invariant 0 <= i <= bits.Length
          invariant forall k :: 0 <= k < i ==> bits[k] == was[k]
          invariant forall k :: i <= k < bits.Length ==> bits[k] == ShiftedWord(was, k, ws, bs)
        {
          i := i - 1;
          bits[i] := if i >= ws then bits[i - ws] else 0;
        }
      } else {
        while i > 0
          invariant 0 <= i <= bits.Length
          invariant forall k :: 0 <= k < i ==> bits[k] == was[k]
          invariant forall k :: i <= k < bits.Length ==> bits[k] == ShiftedWord(was, k, ws, bs)
        {
          i := i - 1;
          var v: U64 := if i >= ws then Shl(bits[i - ws], bs) else 0;
          if i >= ws + 1 { v := WOr(v, Shr(bits[i - ws - 1], 64 - bs)); }
          bits[i] := v;
        }
      }
      forall i | 0 <= i < 64 * bits.Length
        ensures BitAt(bits[..], i) == (i >= shift && BitAt(was, i - shift))
      {
        ShiftedAt(was, bits[..], ws, bs, i);
      }
    }

    /** ReplayWindow::accept */
    method Accept(s: U64) returns (ok: bool)
      requires Valid()
      modifies this, bits
      ensures Valid()
      ensures ok <==> Admits(old(view), s)
      ensures view == Step(old(view), s)
    {
      hide BitAt, Shl, WOr, Mirrors;
      if !seen {
        FirstBit(bits[..], view, s);
        seen := true; high := s; bits[0] := 1;
        view := Step(view, s);
        return true;
      }
      if s > high {
        MoveTo(s);
        return true;
      }
      ok := AcceptBehind(s);
    }

    /** A number ahead of the window */
    method MoveTo(s: U64)
      requires Valid() && seen && s > high
      modifies this, bits
      ensures Valid() && Admits(old(view), s) && view == Step(old(view), s)
    {
      hide BitAt, Shl, WOr;
      ghost var was := bits[..];
      Advance(s - high);
      MovedAhead(was, bits[..], view, s);
      hide Mirrors;
      high := s;
      bits[0] := WOr(bits[0], 1);
      view := Step(view, s);
    }

    /** A number at or behind the highest */
    method AcceptBehind(s: U64) returns (ok: bool)
      requires Valid() && seen && s <= high
      modifies this, bits
      ensures Valid()
      ensures ok <==> Admits(old(view), s)
      ensures view == Step(old(view), s)
    {
      hide BitAt, Shl, WOr;
      ghost var v := view;
      view := Step(v, s);
      var back := high - s;
      if back >= width {
        Wraps(v.stale);
        stale := (stale + 1) % W64;
        return false;
      }
      var w, m := back / 64, Shl(1, back % 64);
      TestBit(bits[..], back);
      if NatBits.And(bits[w], m) != 0 {
        Wraps(v.dup);
        dup := (dup + 1) % W64;
        return false;
      }
      Marked(bits[..], v, s);
      bits[w] := WOr(bits[w], m);
      return true;
    }

    /** The map moved by any distance: cleared when nothing of it remains */
    method Advance(shift: nat)
      requires bits.Length > 0 && width == 64 * bits.Length
      modifies bits
      ensures forall i :: 0 <= i < width ==> BitAt(bits[..], i) == (i >= shift && BitAt(old(bits[..]), i - shift))
    {
      hide BitAt;
      if shift >= width { Clear(); } else { Shift(shift); }
    }
  }

  lemma ShiftedAt(was: seq<U64>, now: seq<U64>, ws: nat, bs: nat, i: nat)
    requires |now| == |was| && bs < 64 && i < 64 * |was|
    requires forall k :: 0 <= k < |was| ==> now[k] == ShiftedWord(was, k, ws, bs)
    ensures BitAt(now, i) == (i >= 64 * ws + bs && BitAt(was, i - (64 * ws + bs)))
  {
    hide Bit, ShiftedWord;
    ShiftedWordBit(was, i / 64, ws, bs, i % 64);
  }
}
