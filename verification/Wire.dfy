/** The 24-byte header ahead of every ciphertext: packed, little-endian. */
module Wire {
  import opened Bytes

  const MAGIC: nat := 0x4C525032
  const HEADER_SIZE: nat := 24
  const TAG_SIZE: nat := 16
  const MAX_PAYLOAD: nat := 1472 - HEADER_SIZE - TAG_SIZE
  const DATA_TYPE: nat := 1

  datatype Header = Header(magic: nat, kind: nat, epoch: nat, flags: nat, seqno: nat, tsc: nat)

  /** Every field fits its width. */
  predicate Fits(h: Header)
  {
    && h.magic < Pow256(4) && h.kind < Pow256(1) && h.epoch < Pow256(1)
    && h.flags < Pow256(2) && h.seqno < Pow256(8) && h.tsc < Pow256(8)
  }

  function Encode(h: Header): (r: seq<byte>)
    ensures |r| == HEADER_SIZE
  {
    LeBytes(h.magic, 4) + LeBytes(h.kind, 1) + LeBytes(h.epoch, 1) + LeBytes(h.flags, 2)
    + LeBytes(h.seqno, 8) + LeBytes(h.tsc, 8)
  }

  function Decode(b: seq<byte>): Header
    requires |b| >= HEADER_SIZE
  {
    Header(Le(b[0..4]), Le(b[4..5]), Le(b[5..6]), Le(b[6..8]), Le(b[8..16]), Le(b[16..24]))
  }

  /** What is written is what is read, whatever follows it. */
  lemma DecodeEncode(h: Header, rest: seq<byte>)
    requires Fits(h)
    ensures Decode(Encode(h) + rest) == h
  {
    hide Le, LeBytes, Pow256;
    var b := Encode(h) + rest;
    assert b[0..4] == LeBytes(h.magic, 4) && b[4..5] == LeBytes(h.kind, 1) && b[5..6] == LeBytes(h.epoch, 1);
    assert b[6..8] == LeBytes(h.flags, 2) && b[8..16] == LeBytes(h.seqno, 8) && b[16..24] == LeBytes(h.tsc, 8);
    LeOfBytes(h.magic, 4); LeOfBytes(h.kind, 1); LeOfBytes(h.epoch, 1);
    LeOfBytes(h.flags, 2); LeOfBytes(h.seqno, 8); LeOfBytes(h.tsc, 8);
  }

  /** What is read fits, and is written back as it came. */
  lemma EncodeDecode(b: seq<byte>)
    requires |b| >= HEADER_SIZE
    ensures Fits(Decode(b)) && Encode(Decode(b)) == b[..HEADER_SIZE]
  {
    hide Le, LeBytes, Pow256;
    BytesOfLe(b[0..4]); BytesOfLe(b[4..5]); BytesOfLe(b[5..6]);
    BytesOfLe(b[6..8]); BytesOfLe(b[8..16]); BytesOfLe(b[16..24]);
    assert b[..24] == b[0..4] + b[4..5] + b[5..6] + b[6..8] + b[8..16] + b[16..24];
  }

  lemma Widths()
    ensures Pow256(1) == 256 && Pow256(2) == 0x1_0000 && Pow256(4) == 0x1_0000_0000
    ensures Pow256(8) == 0x1_0000_0000_0000_0000
  {
    assert Pow256(4) == 0x1_0000_0000;
    assert Pow256(6) == 0x1_0000_0000_0000;
  }

  /** A number read from a header fits 64 bits. */
  lemma NumberFits(d: seq<byte>)
    requires |d| >= HEADER_SIZE
    ensures Decode(d).seqno < W64
  {
    hide Decode, Pow256;
    EncodeDecode(d);
    Widths();
  }

  /** Little-endian numbers of two, four and eight bytes */
  function Little16(b: seq<byte>, k: nat): nat
    requires k + 2 <= |b|
  {
    ValueOf(b[k]) + 0x100 * ValueOf(b[k + 1])
  }

  function Little32(b: seq<byte>, k: nat): nat
    requires k + 4 <= |b|
  {
    Little16(b, k) + 0x1_0000 * Little16(b, k + 2)
  }

  function Little64(b: seq<byte>, k: nat): nat
    requires k + 8 <= |b|
  {
    Little32(b, k) + 0x1_0000_0000 * Little32(b, k + 4)
  }

  lemma LeOne(b: seq<byte>, k: nat)
    requires k + 1 <= |b|
    ensures Le(b[k..k + 1]) == ValueOf(b[k])
  {
    hide ValueOf;
    assert b[k..k + 1][1..] == [];
  }

  lemma LeTwo(b: seq<byte>, k: nat)
    requires k + 2 <= |b|
    ensures Le(b[k..k + 2]) == Little16(b, k)
  {
    hide ValueOf;
    assert b[k..k + 2][1..] == b[k + 1..k + 2];
    LeOne(b, k + 1);
  }

  lemma LeFour(b: seq<byte>, k: nat)
    requires k + 4 <= |b|
    ensures Le(b[k..k + 4]) == Little32(b, k)
  {
    hide ValueOf;
    var s := b[k..k + 4];
    assert s[1..] == b[k + 1..k + 4] && s[1..][1..] == b[k + 2..k + 4];
    LeTwo(b, k + 2);
    assert Le(s[1..]) == ValueOf(b[k + 1]) + 256 * Le(b[k + 2..k + 4]);
  }

  lemma LeEight(b: seq<byte>, k: nat)
    requires k + 8 <= |b|
    ensures Le(b[k..k + 8]) == Little64(b, k)
  {
    hide ValueOf, Little32, Le;
    LeSplit(b[k..k + 8]);
    assert b[k..k + 8][..4] == b[k..k + 4] && b[k..k + 8][4..] == b[k + 4..k + 8];
    LeFour(b, k);
    LeFour(b, k + 4);
  }

  lemma LeSplit(s: seq<byte>)
    requires |s| == 8
    ensures Le(s) == Le(s[..4]) + 0x1_0000_0000 * Le(s[4..])
  {
    hide Le, Pow256;
    assert s == s[..4] + s[4..];
    LeConcat(s[..4], s[4..]);
    Widths();
  }

  /** Which bytes hold which field, in struct order and least significant byte first */
  lemma FieldsAt(b: seq<byte>)
    requires |b| >= HEADER_SIZE
    ensures var h := Decode(b);
      && h.magic == Little32(b, 0) && h.kind == ValueOf(b[4]) && h.epoch == ValueOf(b[5])
      && h.flags == Little16(b, 6) && h.seqno == Little64(b, 8) && h.tsc == Little64(b, 16)
  {
    hide ValueOf, Le, Little32, Little64, Little16;
    LeFour(b, 0);
    LeOne(b, 4);
    LeOne(b, 5);
    LeTwo(b, 6);
    LeEight(b, 8);
    LeEight(b, 16);
  }

  lemma Sizes()
    ensures HEADER_SIZE == 24 && TAG_SIZE == 16 && MAX_PAYLOAD == 1432
  {}
}
