/** The published vector of section 2.5.2 of RFC 8439 for Poly1305. */
module PolyVector {
  import opened Bytes
  import opened PolyLimbs
  import opened PolyLoad
  import opened Poly1305

  /** A byte string by its numbers */
  function Octets(ns: seq<nat>): (b: seq<byte>)
    ensures |b| == |ns| && forall i :: 0 <= i < |ns| ==> b[i] == ByteOf(ns[i])
  {
    seq(|ns|, i requires 0 <= i < |ns| => ByteOf(ns[i]))
  }

  predicate Small(ns: seq<nat>) { forall i :: 0 <= i < |ns| ==> ns[i] < 256 }

  function Word(ns: seq<nat>, k: nat): nat
    requires k + 4 <= |ns|
  {
    ns[k] + 0x100 * ns[k + 1] + 0x1_0000 * ns[k + 2] + 0x100_0000 * ns[k + 3]
  }

  function Number(ns: seq<nat>): nat
    requires |ns| == 16
  {
    Word(ns, 0) + Word(ns, 4) * W32 + Word(ns, 8) * W64 + Word(ns, 12) * W96
  }

  lemma OctetValue(ns: seq<nat>, i: nat)
    requires Small(ns) && i < |ns|
    ensures ValueOf(Octets(ns)[i]) == ns[i]
  {
    hide ValueOf, ByteOf;
    ByteOfValue(ns[i]);
  }

  lemma OctetWord(ns: seq<nat>, k: nat)
    requires Small(ns) && k + 4 <= |ns|
    ensures Load32(Octets(ns), k) as int == Word(ns, k)
  {
    hide ValueOf, Octets;
    OctetValue(ns, k); OctetValue(ns, k + 1); OctetValue(ns, k + 2); OctetValue(ns, k + 3);
  }

  lemma OctetNumber(ns: seq<nat>)
    requires Small(ns) && |ns| == 16
    ensures Le(Octets(ns)) == Number(ns)
  {
    hide Octets, Load32, Word, Le;
    LeSixteen(Octets(ns));
    OctetWord(ns, 0); OctetWord(ns, 4); OctetWord(ns, 8); OctetWord(ns, 12);
  }

  // ---- the inputs: each string and the number it spells ------------------------------------

  /** The first key half, before clamping */
  function KeyHalf(): (ns: seq<nat>)
    ensures |ns| == 16 && Small(ns)
  {
    [0x85, 0xd6, 0xbe, 0x78, 0x57, 0x55, 0x6d, 0x33, 0x7f, 0x44, 0x52, 0xfe, 0x42, 0xd5, 0x06, 0xa8]
  }

  lemma KeyHalfNumber()
    ensures Number(KeyHalf()) == 0xa806d542fe52447f336d555778bed685
  {}

  /** And after it */
  function Multiplier(): (ns: seq<nat>)
    ensures |ns| == 16 && Small(ns)
  {
    [0x85, 0xd6, 0xbe, 0x08, 0x54, 0x55, 0x6d, 0x03, 0x7c, 0x44, 0x52, 0x0e, 0x40, 0xd5, 0x06, 0x08]
  }

  lemma MultiplierNumber()
    ensures Number(Multiplier()) == 0x806d5400e52447c036d555408bed685
  {}

  /** The second key half */
  function Pad(): (ns: seq<nat>)
    ensures |ns| == 16 && Small(ns)
  {
    [0x01, 0x03, 0x80, 0x8a, 0xfb, 0x0d, 0xb2, 0xfd, 0x4a, 0xbf, 0xf6, 0xaf, 0x41, 0x49, 0xf5, 0x1b]
  }

  lemma PadNumber()
    ensures Number(Pad()) == 0x1bf54941aff6bf4afdb20dfb8a800301
  {}

  /** "Cryptographic Fo" */
  function First(): (ns: seq<nat>)
    ensures |ns| == 16 && Small(ns)
  {
    [0x43, 0x72, 0x79, 0x70, 0x74, 0x6f, 0x67, 0x72, 0x61, 0x70, 0x68, 0x69, 0x63, 0x20, 0x46, 0x6f]
  }

  lemma FirstNumber()
    ensures Number(First()) == 0x6f4620636968706172676f7470797243
  {}

  /** "rum Research Gro" */
  function Second(): (ns: seq<nat>)
    ensures |ns| == 16 && Small(ns)
  {
    [0x72, 0x75, 0x6d, 0x20, 0x52, 0x65, 0x73, 0x65, 0x61, 0x72, 0x63, 0x68, 0x20, 0x47, 0x72, 0x6f]
  }

  lemma SecondNumber()
    ensures Number(Second()) == 0x6f7247206863726165736552206d7572
  {}

  /** The tag */
  function TagBytes(): (ns: seq<nat>)
    ensures |ns| == 16 && Small(ns)
  {
    [0xa8, 0x06, 0x1d, 0xc1, 0x30, 0x51, 0x36, 0xc6, 0xc2, 0x2b, 0x8b, 0xaf, 0x0c, 0x01, 0x27, 0xa9]
  }

  lemma TagBytesNumber()
    ensures Number(TagBytes()) == 0xa927010caf8b2bc2c6365130c11d06a8
  {}

  /** The last block, "up" */
  function Third(): seq<nat> { [0x75, 0x70] }

  lemma Clamped()
    ensures Clamp(Octets(KeyHalf())) == Octets(Multiplier())
  {
    hide ByteOf, ValueOf;
    var b, c := Octets(KeyHalf()), Octets(Multiplier());
    forall i | 0 <= i < 16 ensures Clamp(b)[i] == c[i] {
      ClampOctet(i);
    }
  }

  lemma ClampOctet(i: nat)
    requires i < 16
    ensures Clamp(Octets(KeyHalf()))[i] == ByteOf(Multiplier()[i])
  {
    hide ByteOf, ValueOf;
    OctetValue(KeyHalf(), i);
  }

  lemma ThirdNumber()
    ensures Le(Octets(Third())) == 0x7075 && Pow256(2) == 0x1_0000
  {
    hide ValueOf;
    var b := Octets(Third());
    OctetValue(Third(), 0); OctetValue(Third(), 1);
    assert b[1..][1..] == [] && b[1..][0] == b[1];
    assert Le(b[1..]) == 0x70;
  }

  // ---- the three steps -----------------------------------------------------------------------

  const R: int := 0x806d5400e52447c036d555408bed685

  lemma Step1()
    ensures StepSpec(R, 0, Octets(First())) == 0x2c88c77849d64ae9147ddeb88e69c83fc
  {
    hide Le;
    OctetNumber(First()); FirstNumber(); Pow256At16();
    RemainderIs((0 + 0x6f4620636968706172676f7470797243 + 0x1_0000_0000_0000_0000_0000_0000_0000_0000) * R,
                P, 0x2e0ffa647299a001224557735a7a109,
                0x2c88c77849d64ae9147ddeb88e69c83fc);
  }

  lemma Step2()
    ensures StepSpec(R, 0x2c88c77849d64ae9147ddeb88e69c83fc, Octets(Second())) == 0x2d8adaf23b0337fa7cccfb4ea344b30de
  {
    hide Le;
    OctetNumber(Second()); SecondNumber(); Pow256At16();
    RemainderIs((0x2c88c77849d64ae9147ddeb88e69c83fc + 0x6f7247206863726165736552206d7572
                 + 0x1_0000_0000_0000_0000_0000_0000_0000_0000) * R,
                P, 0x8773264b431966e900dbd96edfe2158,
                0x2d8adaf23b0337fa7cccfb4ea344b30de);
  }

  lemma Step3()
    ensures StepSpec(R, 0x2d8adaf23b0337fa7cccfb4ea344b30de, Octets(Third())) == 0x28d31b7caff946c77c8844335369d03a7
  {
    hide Le;
    ThirdNumber();
    RemainderIs((0x2d8adaf23b0337fa7cccfb4ea344b30de + 0x7075 + 0x1_0000) * R,
                P, 0x5b6382283cff87793f9285521ab29e8,
                0x28d31b7caff946c77c8844335369d03a7);
  }

  function Message(): seq<byte> { Octets(First()) + (Octets(Second()) + Octets(Third())) }

  lemma EvalVector()
    ensures Eval(R, 0, Message()) == 0x28d31b7caff946c77c8844335369d03a7
  {
    hide Octets, StepSpec, First, Second, Third;
    Step1(); Step2(); Step3();
    var a, b, c := Octets(First()), Octets(Second()), Octets(Third());
    assert |c| == 2 by { ThirdLength(); }
    EvalStep(R, 0, a, b + c);
    EvalStep(R, 0x2c88c77849d64ae9147ddeb88e69c83fc, b, c);
    EvalLast(R, 0x2d8adaf23b0337fa7cccfb4ea344b30de, c);
  }

  lemma ThirdLength()
    ensures |Third()| == 2
  {}

  lemma EvalStep(r: int, a: int, b: seq<byte>, m: seq<byte>)
    requires |b| == 16
    ensures Eval(r, a, b + m) == Eval(r, StepSpec(r, a, b), m)
  {
    hide StepSpec;
    assert (b + m)[..16] == b && (b + m)[16..] == m;
  }

  lemma EvalLast(r: int, a: int, b: seq<byte>)
    requires 0 < |b| < 16
    ensures Eval(r, a, b) == StepSpec(r, a, b)
  {
    hide StepSpec;
    assert b[..|b|] == b && b[|b|..] == [];
  }

  /** The tag printed in section 2.5.2, for "Cryptographic Forum Research Group" */
  lemma TagVector()
    ensures Mac(Octets(KeyHalf()) + Octets(Pad()), Message()) == Octets(TagBytes())
  {
    hide Octets, Eval, Clamp, Le, Message, LeBytes, KeyHalf, Pad, TagBytes, Multiplier, Number;
    var key := Octets(KeyHalf()) + Octets(Pad());
    assert key[..16] == Octets(KeyHalf()) && key[16..] == Octets(Pad());
    Clamped();
    OctetNumber(Multiplier()); MultiplierNumber();
    OctetNumber(Pad()); PadNumber();
    OctetNumber(TagBytes()); TagBytesNumber();
    EvalVector();
    BytesOfLe(Octets(TagBytes()));
    RemainderIs(0x28d31b7caff946c77c8844335369d03a7 + 0x1bf54941aff6bf4afdb20dfb8a800301,
                W128, 2,
                0xa927010caf8b2bc2c6365130c11d06a8);
  }
}
