/** Poly1305 of section 2.5 of RFC 8439, and the incremental code against it. */
module Poly1305 {
  import opened Bytes
  import opened NatBits
  import opened PolyLimbs
  import opened PolyLoad
  import opened PolyFinish

  // ---- the specification ---------------------------------------------------------

  /** One block of n bytes, with a one appended, added and multiplied */
  function StepSpec(r: int, a: int, b: seq<byte>): int { ((a + Le(b) + Pow256(|b|)) * r) % P }

  /** The polynomial of the message at r, modulo 2^130 - 5 */
  function Eval(r: int, a: int, m: seq<byte>): int
    decreases |m|
  {
    if m == [] then a else Eval(r, StepSpec(r, a, m[..Take(m)]), m[Take(m)..])
  }

  function Mac(key: seq<byte>, m: seq<byte>): (r: seq<byte>)
    requires |key| == 32
    ensures |r| == 16
  {
    LeBytes((Eval(Le(Clamp(key[..16])), 0, m) + Le(key[16..])) % W128, 16)
  }

  lemma {:induction false} EvalConcat(r: int, a: int, m: seq<byte>, e: seq<byte>)
    requires |m| % 16 == 0
    ensures Eval(r, a, m + e) == Eval(r, Eval(r, a, m), e)
    decreases |m|
  {
    hide StepSpec;
    if m == [] {
      assert m + e == e;
    } else {
      assert (m + e)[..16] == m[..16] && (m + e)[16..] == m[16..] + e;
      EvalConcat(r, StepSpec(r, a, m[..16]), m[16..], e);
    }
  }

  lemma {:induction false} EvalReduced(r: int, a: int, m: seq<byte>)
    requires 0 <= a < P
    ensures 0 <= Eval(r, a, m) < P
    decreases |m|
  {
    if m != [] { EvalReduced(r, StepSpec(r, a, m[..Take(m)]), m[Take(m)..]); }
  }

  // ---- congruences -----------------------------------------------------------------

  /** A multiplicand may be reduced first. */
  lemma MulMod(x: int, y: int, r: int)
    requires x % P == y % P
    ensures (x * r) % P == (y * r) % P
  {
    var k := x / P - y / P;
    assert x == y + P * k;
    assert x * r == y * r + P * (k * r) by { MulSum(y, k, r); }
    ModDrop(y * r, k * r);
  }

  lemma MulSum(y: int, k: int, r: int)
    ensures (y + P * k) * r == y * r + P * (k * r)
  {
    assert (P * k) * r == P * (k * r);
  }

  lemma AddMod(x: int, y: int, c: int)
    requires x % P == y % P
    ensures (x + c) % P == (y + c) % P
  {
    var k := x / P - y / P;
    assert x + c == (y + c) + P * k;
    ModDrop(y + c, k);
  }

  lemma ModMod(x: int)
    ensures (x % P) % P == x % P
  {
    ModUnique(x % P, 0, x % P);
  }

  // ---- one block on limbs -------------------------------------------------------------

  lemma HighBit(l: u32, hibit: u32)
    requires l < 0x100_0000 && (hibit == 0 || hibit == 0x100_0000)
    ensures Or(l as nat, hibit as nat) == l as nat + hibit as nat
  {
    hide Or;
    assert Pow2(24) == 0x100_0000 by { assert Pow2(20) == 0x10_0000 by { Pow2Values(); } }
    OrDisjoint(l as nat, if hibit == 0 then 0 else 1, 24);
  }

  /** The limbs of the block added to the accumulator */
  function Absorb(h: Limbs, b: seq<byte>, hibit: u32): (r: Limbs)
    requires Settled(h) && |b| == 16 && (hibit == 0 || hibit == 0x100_0000)
    ensures Loaded(r)
  {
    var c := Cut(b);
    Limbs(h.l0 + c.l0, h.l1 + c.l1, h.l2 + c.l2, h.l3 + c.l3, h.l4 + WithHighBit(c.l4, hibit))
  }

  function WithHighBit(l: u32, hibit: u32): (r: u32)
    requires l < 0x100_0000 && (hibit == 0 || hibit == 0x100_0000)
    ensures r as int == l as int + hibit as int
  {
    HighBit(l, hibit);
    Or(l as nat, hibit as nat) as u32
  }

  lemma AbsorbValue(h: Limbs, b: seq<byte>, hibit: u32)
    requires Settled(h) && |b| == 16 && (hibit == 0 || hibit == 0x100_0000)
    ensures Val(Absorb(h, b, hibit)) == Val(h) + Le(b) + hibit as int * B104
  {
    hide Cut, Le, WithHighBit;
    CutValue(b);
  }

  /** The body of the block loop */
  function BlockStep(h: Limbs, r: Limbs, b: seq<byte>, hibit: u32): (h': Limbs)
    requires Settled(h) && Clamped(r) && |b| == 16 && (hibit == 0 || hibit == 0x100_0000)
    ensures Settled(h')
  {
    Carry(Product(Absorb(h, b, hibit), r))
  }

  lemma BlockStepValue(h: Limbs, r: Limbs, b: seq<byte>, hibit: u32, a: int)
    requires Settled(h) && Clamped(r) && |b| == 16 && (hibit == 0 || hibit == 0x100_0000)
    requires Val(h) % P == a % P
    ensures Val(BlockStep(h, r, b, hibit)) % P == ((a + Le(b) + hibit as int * B104) * Val(r)) % P
  {
    hide Absorb, Product, Carry, Val, Le;
    var x := Absorb(h, b, hibit);
    AbsorbValue(h, b, hibit);
    AddMod(Val(h), a, Le(b) + hibit as int * B104);
    MulMod(Val(x), a + Le(b) + hibit as int * B104, Val(r));
  }

  function StepTop(r: int, a: int, b: seq<byte>, top: int): int { ((a + Le(b) + top) * r) % P }

  /** Whole blocks, each with the value top added */
  function EvalTop(r: int, a: int, m: seq<byte>, top: int): int
    decreases |m|
  {
    if |m| < 16 then a else EvalTop(r, StepTop(r, a, m[..16], top), m[16..], top)
  }

  lemma BlockStepTop(h: Limbs, r: Limbs, b: seq<byte>, hibit: u32, a: int, top: int)
    requires Settled(h) && Clamped(r) && |b| == 16 && Val(h) % P == a % P
    requires (hibit == 0 && top == 0) || (hibit == 0x100_0000 && top == W128)
    ensures Val(BlockStep(h, r, b, hibit)) % P == StepTop(Val(r), a, b, top) % P
  {
    hide BlockStep, Val, Le, Settled, Clamped;
    BlockStepValue(h, r, b, hibit, a);
    assert hibit as int * B104 == top;
    ModMod((a + Le(b) + top) * Val(r));
  }

  /** With 2^128 on top, whole blocks are evaluated as the specification does. */
  lemma {:induction false} EvalTopIsEval(r: int, a: int, m: seq<byte>)
    requires |m| % 16 == 0
    ensures EvalTop(r, a, m, W128) == Eval(r, a, m)
    decreases |m|
  {
    hide StepTop, StepSpec;
    if m != [] {
      TopIsSpec(r, a, m[..16]);
      EvalTopIsEval(r, StepSpec(r, a, m[..16]), m[16..]);
    }
  }

  lemma TopIsSpec(r: int, a: int, b: seq<byte>)
    requires |b| == 16
    ensures StepTop(r, a, b, W128) == StepSpec(r, a, b)
  {
    hide Le, Pow256;
    Pow256At16();
  }

  lemma Pow256At16()
    ensures Pow256(16) == W128 && 0x100_0000 * B104 == W128
  {
    assert Pow256(8) == 0x1_0000_0000_0000_0000;
    assert Pow256(12) == 0x1_0000_0000_0000_0000_0000_0000;
  }

  lemma MaskedValue(b: seq<byte>)
    requires |b| == 16
    ensures Val(MaskedLimbs(b)) == Le(Clamp(b))
  {
    hide MaskedLimbs, Clamp, Cut, Le, Val;
    MaskedIsClamped(b);
    CutValue(Clamp(b));
  }

  /** The four loads of the second key half */
  function PadOf(k: seq<byte>): Words
    requires |k| == 16
  {
    Words(Load32(k, 0), Load32(k, 4), Load32(k, 8), Load32(k, 12))
  }

  lemma PadValue(k: seq<byte>)
    requires |k| == 16
    ensures WordsVal(PadOf(k)) == Le(k)
  {
    hide Load32, Le;
    LeSixteen(k);
  }

  lemma NothingYet(r: int)
    ensures Val(Limbs(0, 0, 0, 0, 0)) == 0 && Eval(r, 0, []) == 0
  {}

  // ---- the last block and the tag ---------------------------------------------------------

  function Nulls(n: nat): (r: seq<byte>)
    ensures |r| == n && forall i :: 0 <= i < n ==> r[i] == ByteOf(0)
  {
    seq(n, _ => ByteOf(0))
  }

  /** A short block is completed by a one and zeros. */
  function Completed(d: seq<byte>): (r: seq<byte>)
    requires |d| < 16
    ensures |r| == 16
  {
    d + ([ByteOf(1)] + Nulls(15 - |d|))
  }

  lemma {:induction false} LeZeros(n: nat)
    ensures Le(Nulls(n)) == 0
  {
    hide ValueOf, ByteOf;
    if n > 0 {
      ByteOfValue(0);
      assert Nulls(n)[1..] == Nulls(n - 1);
      LeZeros(n - 1);
    }
  }

  lemma CompletedValue(d: seq<byte>)
    requires |d| < 16
    ensures Le(Completed(d)) == Le(d) + Pow256(|d|)
  {
    hide Le, Completed, Pow256, Nulls, ByteOf;
    var t := [ByteOf(1)] + Nulls(15 - |d|);
    LeOne(15 - |d|);
    LeTail(d, t);
    assert Completed(d) == d + t by { CompletedIs(d); }
  }

  lemma CompletedIs(d: seq<byte>)
    requires |d| < 16
    ensures Completed(d) == d + ([ByteOf(1)] + Nulls(15 - |d|))
  {}

  lemma LeTail(d: seq<byte>, t: seq<byte>)
    requires Le(t) == 1
    ensures Le(d + t) == Le(d) + Pow256(|d|)
  {
    hide Le, Pow256;
    LeConcat(d, t);
  }

  lemma LeOne(n: nat)
    ensures Le([ByteOf(1)] + Nulls(n)) == 1
  {
    hide ValueOf, ByteOf;
    assert ([ByteOf(1)] + Nulls(n))[1..] == Nulls(n);
    LeZeros(n);
    ByteOfValue(1);
  }

  lemma EvalShort(r: int, a: int, d: seq<byte>)
    requires 0 < |d| < 16
    ensures Eval(r, a, d) == EvalTop(r, a, Completed(d), 0)
  {
    hide Le, Pow256, Completed;
    assert d[..|d|] == d && d[|d|..] == [];
    var c := Completed(d);
    assert c[..16] == c && c[16..] == [];
    CompletedValue(d);
  }

  lemma {:induction false} LeBytesSplit(v: nat, n: nat)
    ensures LeBytes(v, 4 + n) == LeBytes(v % W32, 4) + LeBytes(v / W32, n)
  {
    hide ByteOf;
    var u := v % W32;
    FourDigits(v);
    ByteOfDigit(v); ByteOfDigit(u);
    ByteOfDigit(v / 256); ByteOfDigit(u / 256);
    ByteOfDigit(v / 256 / 256); ByteOfDigit(u / 256 / 256);
    ByteOfDigit(v / 256 / 256 / 256); ByteOfDigit(u / 256 / 256 / 256);
    LeBytesFour(v, n);
    LeBytesFour(u, 0);
  }

  lemma LeBytesStep(v: nat, n: nat)
    ensures LeBytes(v, n + 1) == [ByteOf(v)] + LeBytes(v / 256, n)
  {
    hide ByteOf;
  }

  lemma LeBytesFour(v: nat, n: nat)
    ensures LeBytes(v, 4 + n) ==
      [ByteOf(v), ByteOf(v / 256), ByteOf(v / 256 / 256), ByteOf(v / 256 / 256 / 256)]
          + LeBytes(v / 256 / 256 / 256 / 256, n)
  {
    hide ByteOf, LeBytes;
    var a, b, c := v / 256, v / 256 / 256, v / 256 / 256 / 256;
    LeBytesStep(c, n); LeBytesStep(b, n + 1); LeBytesStep(a, n + 2); LeBytesStep(v, n + 3);
  }

  lemma FourDigits(v: nat)
    ensures v / 256 / 256 / 256 / 256 == v / W32
    ensures v % W32 % 256 == v % 256 && v % W32 / 256 % 256 == v / 256 % 256
    ensures v % W32 / 256 / 256 % 256 == v / 256 / 256 % 256 &&
      v % W32 / 256 / 256 / 256 % 256 == v / 256 / 256 / 256 % 256
  {
    var a := v / 256; var b := a / 256; var c := b / 256; var q := c / 256;
    var d0, d1, d2, d3 := v % 256, a % 256, b % 256, c % 256;
    var u := d0 + 256 * d1 + 0x1_0000 * d2 + 0x100_0000 * d3;
    RemainderIs(v, W32, q, u);
    RemainderIs(u, 256, d1 + 256 * d2 + 0x1_0000 * d3, d0);
    RemainderIs(d1 + 256 * d2 + 0x1_0000 * d3, 256, d2 + 256 * d3, d1);
    RemainderIs(d2 + 256 * d3, 256, d3, d2);
    RemainderIs(d3, 256, 0, d3);
  }

  /** store32_le */
  function Store32(w: u32): seq<byte>
  {
    var v := w as nat;
    [ByteOf(v), ByteOf(v / 256), ByteOf(v / 256 / 256), ByteOf(v / 256 / 256 / 256)]
  }

  function StoreWords(w: Words): seq<byte> { Store32(w.w0) + Store32(w.w1) + Store32(w.w2) + Store32(w.w3) }

  lemma StoreIsLeBytes(w: u32)
    ensures Store32(w) == LeBytes(w as nat, 4)
  {
    hide ByteOf;
    LeBytesFour(w as nat, 0);
  }

  lemma StoredWords(w: Words)
    ensures WordsVal(w) >= 0 && StoreWords(w) == LeBytes(WordsVal(w), 16)
  {
    hide ByteOf, LeBytes, Store32;
    StoreIsLeBytes(w.w0); StoreIsLeBytes(w.w1); StoreIsLeBytes(w.w2); StoreIsLeBytes(w.w3);
    var v3 := w.w3 as nat;
    var v2 := w.w2 as nat + v3 * W32;
    var v1 := w.w1 as nat + v2 * W32;
    var v0 := w.w0 as nat + v1 * W32;
    assert v0 == WordsVal(w);
    RemainderIs(v0, W32, v1, w.w0 as nat);
    RemainderIs(v1, W32, v2, w.w1 as nat);
    RemainderIs(v2, W32, v3, w.w2 as nat);
    LeBytesSplit(v0, 12); LeBytesSplit(v1, 8); LeBytesSplit(v2, 4);
  }

  /** From the settled accumulator to the tag bytes */
  function FinishLimbs(h: Limbs, pad: Words): seq<byte>
    requires Settled(h)
  {
    StoreWords(AddPad(Pack(Reduce(FullCarry(h))), pad))
  }

  lemma FinishValue(h: Limbs, pad: Words, e: int, s: int)
    requires Settled(h) && 0 <= e < P && Val(h) % P == e && WordsVal(pad) == s
    ensures (e + s) % W128 >= 0 && FinishLimbs(h, pad) == LeBytes((e + s) % W128, 16)
  {
    hide StoreWords, LeBytes, AddPad, Pack, Reduce, FullCarry, Val, WordsVal;
    var g := Reduce(FullCarry(h));
    assert Val(g) == e;
    var w := AddPad(Pack(g), pad);
    StoredWords(w);
    ModAdd128(e, s);
  }

  lemma ModAdd128(e: int, s: int)
    requires e >= 0
    ensures (e % W128 + s) % W128 == (e + s) % W128
  {
    var q := e / W128;
    assert e + s == q * W128 + (e % W128 + s);
    ModShift128(e % W128 + s, q);
  }

  lemma ModShift128(x: int, q: int)
    ensures (q * W128 + x) % W128 == x % W128
  {
    var a, m := x / W128, x % W128;
    assert q * W128 + x == (q + a) * W128 + m;
    SameQuotient(W128, (q * W128 + x) / W128, (q * W128 + x) % W128, q + a, m);
  }

  // ---- the state -----------------------------------------------------------------------

  /** poly1305_state */
  class State {
    var r: Limbs
    var h: Limbs
    var pad: Words
    var leftover: nat
    var final: bool
    const buffer: array<byte>
    ghost const key: seq<byte>
    ghost var fed: seq<byte>

    /** The key halves */
    ghost predicate Keyed()
      reads this
    {
      && buffer.Length == 16 && |key| == 32
      && Clamped(r) && Val(r) == Le(Clamp(key[..16]))
      && WordsVal(pad) == Le(key[16..])
    }

    /** The accumulator covers the whole blocks fed so far; the rest is buffered. */
    ghost predicate Valid()
      reads this, buffer
    {
      && Keyed() && !final
      && leftover < 16 && leftover <= |fed| && (|fed| - leftover) % 16 == 0
      && buffer[..leftover] == fed[|fed| - leftover..]
      && Settled(h)
      && Val(h) % P == Eval(Val(r), 0, fed[..|fed| - leftover]) % P
    }

    /** poly1305_init */
    constructor (key: seq<byte>)
      requires |key| == 32
      ensures Valid() && this.key == key && fed == [] && fresh(buffer)
    {
      hide MaskedLimbs, Clamp, Le, PadOf, Val, WordsVal, Eval;
      this.key := key;
      r := MaskedLimbs(key[..16]);
      MaskedValue(key[..16]);
      h := Limbs(0, 0, 0, 0, 0);
      pad := PadOf(key[16..]);
      PadValue(key[16..]);
      leftover := 0;
      final := false;
      buffer := new byte[16];
      fed := [];
      new;
      NothingYet(Val(r));
      Started();
    }

    lemma Started()
      requires Keyed() && !final && leftover == 0 && fed == [] && h == Limbs(0, 0, 0, 0, 0)
      ensures Valid()
    {
      hide Eval, Val, WordsVal, Le, Clamp;
      assert fed[..|fed| - leftover] == [];
      NothingYet(Val(r));
    }

    /** poly1305_blocks */
    method Blocks(m: seq<byte>, ghost a: int)
      requires Clamped(r) && Settled(h) && |m| % 16 == 0 && Val(h) % P == a % P
      modifies this`h
      ensures Settled(h)
      ensures Val(h) % P == EvalTop(Val(r), a, m, if final then 0 else W128) % P
    {
      hide BlockStep, StepTop, Val, Settled;
      var hibit: u32 := if final then 0 else 0x100_0000;
      ghost var top := if final then 0 else W128;
      var d, x := m, h;
      ghost var b := a;
      while |d| >= 16
        invariant |d| % 16 == 0 && Settled(x) && Val(x) % P == b % P
        invariant EvalTop(Val(r), b, d, top) == EvalTop(Val(r), a, m, top)
        decreases |d|
      {
        BlockStepTop(x, r, d[..16], hibit, b, top);
        x := BlockStep(x, r, d[..16], hibit);
        b := StepTop(Val(r), b, d[..16], top);
        d := d[16..];
      }
      h := x;
    }

    /** poly1305_update */
    method Update(m: seq<byte>)
      requires Valid()
      modifies this, buffer
      ensures Valid() && fed == old(fed) + m
    {
      hide Le, StepSpec, Eval, Clamp, Val, WordsVal, Settled;
      ghost var was := fed;
      var d := TopUp(m);
      if |d| >= 16 {
        var want := |d| / 16 * 16;
        Whole(d[..want]);
        assert was + m == fed + d[want..] by { assert d == d[..want] + d[want..]; }
        d := d[want..];
      }
      if d != [] {
        Fill(d);
      }
    }

    /** The first part of an update: complete a buffered block */
    method TopUp(m: seq<byte>) returns (d: seq<byte>)
      requires Valid()
      modifies this, buffer
      ensures Valid() && fed + d == old(fed) + m
      ensures d != [] ==> leftover == 0
    {
      hide Le, StepSpec, Eval, Clamp, Val, WordsVal, Settled;
      d := m;
      if leftover > 0 {
        var want := 16 - leftover;
        if want > |d| { want := |d|; }
        Fill(d[..want]);
        assert m == m[..want] + m[want..];
        d := d[want..];
        if leftover == 16 { FlushBuffer(); }
      }
    }

    /** Append to the buffer, which may become full */
    method Fill(d: seq<byte>)
      requires Valid() && leftover + |d| <= 16
      modifies this`leftover, this`fed, buffer
      ensures leftover == old(leftover) + |d| && fed == old(fed) + d
      ensures Keyed() && !final && leftover <= |fed| && (|fed| - leftover) % 16 == 0
      ensures buffer[..leftover] == fed[|fed| - leftover..]
      ensures fed[..|fed| - leftover] == old(fed[..|fed| - leftover])
      ensures leftover < 16 ==> Valid()
    {
      hide Le, StepSpec, Eval, Clamp, Val, WordsVal, Settled;
      CopyIn(d);
      Extended(fed, leftover, d);
      fed := fed + d;
      leftover := leftover + |d|;
    }

    /** memcpy into the buffer, after what it holds */
    method CopyIn(d: seq<byte>)
      requires buffer.Length == 16 && leftover + |d| <= 16
      modifies buffer
      ensures buffer[..leftover + |d|] == old(buffer[..leftover]) + d
    {
      for i := 0 to |d|
        invariant forall k :: 0 <= k < leftover ==> buffer[k] == old(buffer[k])
        invariant forall k :: 0 <= k < i ==> buffer[leftover + k] == d[k]
      {
        buffer[leftover + i] := d[i];
      }
    }

    /** The buffer is full: absorb it */
    method FlushBuffer()
      requires Keyed() && !final && leftover == 16 && 16 <= |fed| && (|fed| - 16) % 16 == 0
      requires buffer[..16] == fed[|fed| - 16..] && Settled(h)
      requires Val(h) % P == Eval(Val(r), 0, fed[..|fed| - 16]) % P
      modifies this`h, this`leftover
      ensures Valid() && leftover == 0
    {
      hide Le, StepSpec, Eval, Clamp, Val, WordsVal;
      ghost var head := fed[..|fed| - 16];
      Blocks(buffer[..], Eval(Val(r), 0, head));
      EvalTopIsEval(Val(r), Eval(Val(r), 0, head), buffer[..]);
      leftover := 0;
      assert buffer[..] == buffer[..16];
      EvalConcat(Val(r), 0, head, buffer[..]);
      assert fed == head + buffer[..] && fed[..|fed|] == fed && fed[|fed|..] == [];
    }

    /** Whole blocks with nothing buffered */
    method Whole(d: seq<byte>)
      requires Valid() && leftover == 0 && |d| % 16 == 0
      modifies this`h, this`fed
      ensures Valid() && fed == old(fed) + d && leftover == 0
    {
      hide Le, StepSpec, Eval, EvalTop, Clamp, Val, WordsVal, Settled;
      ghost var a := Eval(Val(r), 0, fed);
      assert fed[..|fed|] == fed;
      Blocks(d, a);
      EvalTopIsEval(Val(r), a, d);
      EvalConcat(Val(r), 0, fed, d);
      fed := fed + d;
      assert fed[..|fed|] == fed && fed[|fed|..] == [];
    }

    /** What is left over is what the whole blocks did not take: so many bytes, and
        which. */
    lemma LeftoverIs()
      requires Valid()
      ensures leftover == |fed| % 16
      ensures buffer[..leftover] == fed[|fed| / 16 * 16..]
    {
      hide Eval, Val, Le, Clamp, WordsVal;
      assert |fed| - leftover == |fed| / 16 * 16;
    }

    /** poly1305_finish */
    method Finish() returns (mac: seq<byte>)
      requires Valid()
      modifies this, buffer
      ensures mac == Mac(key, fed) && fed == old(fed)
    {
      hide Le, StepSpec, Eval, EvalTop, Clamp, Val, WordsVal, Settled, LeBytes, FinishLimbs, Completed;
      ghost var head, tail := fed[..|fed| - leftover], fed[|fed| - leftover..];
      ghost var a, rv := Eval(Val(r), 0, head), Val(r);
      EvalReduced(rv, 0, head);
      assert fed == head + tail;
      EvalConcat(rv, 0, head, tail);
      if leftover > 0 {
        CompleteBuffer();
        final := true;
        Blocks(buffer[..], a);
        EvalShort(rv, a, tail);
      } else {
        EvalNothing(rv, a);
      }
      EvalReduced(rv, 0, fed);
      assert Val(h) % P == Eval(rv, 0, fed) % P;
      ModUnique(Eval(rv, 0, fed), 0, Eval(rv, 0, fed));
      mac := FinishLimbs(h, pad);
      FinishValue(h, pad, Eval(rv, 0, fed), Le(key[16..]));
    }

    /** A one after the buffered bytes, then zeros */
    method CompleteBuffer()
      requires buffer.Length == 16 && leftover < 16
      modifies buffer
      ensures buffer[..] == Completed(old(buffer[..leftover]))
    {
      hide ByteOf;
      buffer[leftover] := ByteOf(1);
      for i := leftover + 1 to 16
        invariant buffer[..leftover] == old(buffer[..leftover]) && buffer[leftover] == ByteOf(1)
        invariant forall k :: leftover < k < i ==> buffer[k] == ByteOf(0)
      {
        buffer[i] := ByteOf(0);
      }
    }
  }

  lemma Extended(fed: seq<byte>, l: nat, d: seq<byte>)
    requires l <= |fed|
    ensures (fed + d)[|fed| - l..] == fed[|fed| - l..] + d && (fed + d)[..|fed| - l] == fed[..|fed| - l]
  {}

  lemma EvalNothing(r: int, a: int)
    ensures Eval(r, a, []) == a
  {}

  // ---- any cutting of the message ---------------------------------------------------------

  function Flatten(pieces: seq<seq<byte>>): seq<byte>
  {
    if pieces == [] then [] else Flatten(pieces[..|pieces| - 1]) + pieces[|pieces| - 1]
  }

  /** Feeding a message in any pieces, empty ones included, gives its tag. */
  method MacOfPieces(key: seq<byte>, pieces: seq<seq<byte>>) returns (mac: seq<byte>)
    requires |key| == 32
    ensures mac == Mac(key, Flatten(pieces))
  {
    hide Mac, State.Valid, Flatten;
    var st := new State(key);
    FlattenNone();
    for i := 0 to |pieces|
      invariant st.Valid() && st.key == key && st.fed == Flatten(pieces[..i]) && fresh(st) && fresh(st.buffer)
    {
      st.Update(pieces[i]);
      assert pieces[..i + 1] == pieces[..i] + [pieces[i]];
      FlattenNext(pieces[..i], pieces[i]);
    }
    assert pieces[..|pieces|] == pieces;
    mac := st.Finish();
  }

  lemma FlattenNone()
    ensures Flatten([]) == []
  {}

  lemma FlattenNext(pieces: seq<seq<byte>>, p: seq<byte>)
    ensures Flatten(pieces + [p]) == Flatten(pieces) + p
  {
    assert (pieces + [p])[..|pieces|] == pieces;
  }
}
