/** AES-256-GCM: the one-pass x86 routine, the two-pass routine, and the entry
    points, against sections 7.1 and 7.2 of NIST SP 800-38D. */
module Gcm {
  import opened Bytes
  import opened AeadCommon
  import opened Ctr
  import opened CtrMode
  import Gf128
  import Ghash
  import GhashTable
  import GhashClmul

  // ---- one pass over the payload ----------------------------------------------

  /** What the hash covers: the ciphertext, which is the output on encryption
      and the input on decryption */
  function Hashed(enc: Cipher, p: seq<byte>, c: nat, src: seq<byte>, encrypt: bool): (r: seq<byte>)
    requires |p| == 12
    ensures |r| == |src|
  {
    if encrypt then Xcrypt(enc, p, c, src) else src
  }

  /** The bytes just produced are the next bytes of the ciphertext. */
  lemma ProgressPrefix(enc: Cipher, p: seq<byte>, c: nat, src: seq<byte>, c': nat, done: seq<byte>)
    requires |p| == 12 && Progress(enc, p, c, src, c', done)
    ensures done == Xcrypt(enc, p, c, src)[..|done|]
  {
    hide Xcrypt;
  }

  lemma HashNext(h: Gf128.Elem, y: Block, d: seq<byte>, n: nat)
    requires d != [] && n == Take(d)
    ensures Ghash.Hash(h, y, d) == Ghash.Hash(h, Ghash.Hash(h, y, d[..n]), d[n..])
  {
    hide Ghash.Step;
    Ghash.HashOne(h, y, d[..n]);
  }

  lemma HashNextFour(h: Gf128.Elem, y: Block, d: seq<byte>)
    requires |d| >= 64
    ensures Ghash.Hash(h, y, d) == Ghash.Hash(h, Ghash.Hash(h, y, d[..64]), d[64..])
  {
    Ghash.HashConcat(h, y, d[..64], d[64..]);
    assert d == d[..64] + d[64..];
  }

  /** One block of gcm_stitch_x86 under the key stream kb: exclusive or, store,
      and hand back what is to be hashed. The input is read before it is stored
      over, so input and output may be the same buffer. */
  method StitchBlock(enc: Cipher, inp: array<byte>, out: array<byte>, pos: nat, n: nat, kb: Block, encrypt: bool,
                     ghost c: nat, ghost p: seq<byte>, ghost src: seq<byte>, ghost c': nat) returns (g: seq<byte>)
    requires |p| == 12 && pos < |src| && n == Take(src[pos..]) && |src| <= inp.Length && |src| <= out.Length
    requires kb == enc(CtrBlock(p, c'))
    requires forall k :: pos <= k < |src| ==> inp[k] == src[k]
    requires Progress(enc, p, c, src, c', out[..pos])
    modifies out
    ensures Progress(enc, p, c, src, Next(c'), out[..pos + n])
    ensures g == Hashed(enc, p, c, src, encrypt)[pos..pos + n]
    ensures forall k :: pos + n <= k < |src| ==> inp[k] == src[k]
    ensures forall k :: pos + n <= k < out.Length ==> out[k] == old(out[k])
  {
    hide XorSeq, CtrBlock, Xcrypt, Next;
    ghost var before := out[..];
    ProgressStep(enc, p, c, src, c', out[..pos], n);
    var d := inp[pos..pos + n];
    assert d == src[pos..pos + n];
    XorAt(inp, out, pos, n, kb);
    assert out[..pos + n] == before[..pos] + out[pos..pos + n];
    g := if encrypt then out[pos..pos + n] else d;
    ProgressPrefix(enc, p, c, src, Next(c'), out[..pos + n]);
    assert out[pos..pos + n] == out[..pos + n][pos..];
  }

  /** The four-block body of gcm_stitch_x86 */
  method StitchFour(enc: Cipher, inp: array<byte>, out: array<byte>, pos: nat, ctr32: nat, encrypt: bool,
                    ghost c: nat, p: seq<byte>, ghost src: seq<byte>) returns (g: seq<byte>)
    requires |p| == 12 && pos + 64 <= |src| && |src| <= inp.Length && |src| <= out.Length && ctr32 < W32
    requires forall k :: pos <= k < |src| ==> inp[k] == src[k]
    requires Progress(enc, p, c, src, ctr32, out[..pos])
    modifies out
    ensures Progress(enc, p, c, src, Plus(ctr32, 4), out[..pos + 64])
    ensures g == Hashed(enc, p, c, src, encrypt)[pos..pos + 64]
    ensures forall k :: pos + 64 <= k < |src| ==> inp[k] == src[k]
    ensures forall k :: pos + 64 <= k < out.Length ==> out[k] == old(out[k])
  {
    hide XorSeq, CtrBlock, Xcrypt, Plus, Next, Hashed, Progress;
    ghost var s := Hashed(enc, p, c, src, encrypt);
    var b: seq<Block> := seq(4, i requires 0 <= i < 4 => CtrBlock(p, Plus(ctr32, i)));
    var ks: seq<Block> := seq(4, i requires 0 <= i < 4 => enc(b[i]));
    PlusNone(ctr32);
    g := [];
    for i := 0 to 4
      invariant Progress(enc, p, c, src, Plus(ctr32, i), out[..pos + 16 * i])
      invariant g == s[pos..pos + 16 * i]
      invariant forall k :: pos + 16 * i <= k < |src| ==> inp[k] == src[k]
      invariant forall k :: pos + 16 * i <= k < out.Length ==> out[k] == old(out[k])
    {
      PlusNext(ctr32, i);
      var gi := StitchBlock(enc, inp, out, pos + 16 * i, 16, ks[i], encrypt, c, p, src, Plus(ctr32, i));
      g := g + gi;
    }
  }

  ghost predicate Powers(hp: seq<Gf128.Elem>, h: Gf128.Elem)
  {
    |hp| == 4 && forall i :: 0 <= i < 4 ==> hp[i] == GhashClmul.Power(h, i + 1)
  }

  /** gcm_stitch_x86: same bytes, same hash and same final counter as the two
      separate passes */
  method Stitch(enc: Cipher, hp: seq<Gf128.Elem>, ctr: array<byte>, y: array<byte>,
                inp: array<byte>, out: array<byte>, len: nat, encrypt: bool, ghost h: Gf128.Elem)
    requires Powers(hp, h)
    requires ctr.Length == 16 && y.Length == 16 && ctr != y && ctr != inp && ctr != out && y != inp && y != out
    requires len <= inp.Length && len <= out.Length
    modifies ctr, y, out
    ensures ctr[..12] == old(ctr[..12]) && Load32(ctr[12..]) == After(Load32(old(ctr[12..])), len)
    ensures out[..len] == Xcrypt(enc, old(ctr[..12]), Load32(old(ctr[12..])), old(inp[..len]))
    ensures out[len..] == old(out[len..])
    ensures y[..] == Ghash.Hash(h, old(y[..]), if encrypt then out[..len] else old(inp[..len]))
  {
    hide Load32, Next, XorSeq, CtrBlock, After, Xcrypt, Plus, Bits, FromBits, Ghash.Hash, GhashClmul.Power;
    var p := ctr[..12];
    var ctr32 := Load32(ctr[12..]);
    var x: Gf128.Elem := Bits(y[..]);
    FromBitsInverse(y[..]);
    ghost var c, src := ctr32, inp[..len];
    ghost var s := Hashed(enc, p, c, src, encrypt);
    ghost var want := Ghash.Hash(h, y[..], s);
    assert s[0..] == s;
    AfterNone(c);
    var pos := 0;
    while len - pos >= 64
      modifies out
      invariant pos <= len && pos % 16 == 0 && ctr32 == After(c, pos) && ctr32 < W32
      invariant forall k :: pos <= k < len ==> inp[k] == src[k]
      invariant Progress(enc, p, c, src, ctr32, out[..pos])
      invariant forall k :: len <= k < out.Length ==> out[k] == old(out[k])
      invariant Ghash.Hash(h, FromBits(x), s[pos..]) == want
    {
      var g := StitchFour(enc, inp, out, pos, ctr32, encrypt, c, p, src);
      HashNextFour(h, FromBits(x), s[pos..]);
      assert s[pos..][..64] == g && s[pos..][64..] == s[pos + 64..];
      x := GhashClmul.HashFourBlocks(hp, x, g, h);
      AfterFour(c, pos);
      ctr32 := Plus(ctr32, 4);
      pos := pos + 64;
    }
    assert hp[0] == h by { PowerOne(h); }
    x, ctr32 := StitchTail(enc, hp[0], inp, out, pos, len, ctr32, x, encrypt, p, c, src);
    AfterBound(c, len);
    StoreCounter(ctr, ctr32);
    GhashClmul.Store(y, FromBits(x));
  }

  /** The single-block loop of gcm_stitch_x86 */
  method StitchTail(enc: Cipher, h: Gf128.Elem, inp: array<byte>, out: array<byte>, start: nat, len: nat,
                    ctr0: nat, x0: Gf128.Elem, encrypt: bool, p: seq<byte>, ghost c: nat, ghost src: seq<byte>)
    returns (x: Gf128.Elem, ctr32: nat)
    requires |p| == 12 && start <= len == |src| && len <= inp.Length && len <= out.Length && start % 16 == 0
    requires ctr0 == After(c, start)
    requires forall k :: start <= k < len ==> inp[k] == src[k]
    requires Progress(enc, p, c, src, ctr0, out[..start])
    modifies out
    ensures ctr32 == After(c, len)
    ensures out[..len] == Xcrypt(enc, p, c, src)
    ensures forall k :: len <= k < out.Length ==> out[k] == old(out[k])
    ensures FromBits(x) == Ghash.Hash(h, FromBits(x0), Hashed(enc, p, c, src, encrypt)[start..])
  {
    hide Next, XorSeq, CtrBlock, After, Xcrypt, FromBits, Ghash.Hash, Progress, Hashed;
    ghost var s := Hashed(enc, p, c, src, encrypt);
    ghost var want := Ghash.Hash(h, FromBits(x0), s[start..]);
    var pos := start;
    x, ctr32 := x0, ctr0;
    while pos < len
      invariant start <= pos <= len && (pos % 16 == 0 || pos == len) && ctr32 == After(c, pos)
      invariant forall k :: pos <= k < len ==> inp[k] == src[k]
      invariant Progress(enc, p, c, src, ctr32, out[..pos])
      invariant forall k :: len <= k < out.Length ==> out[k] == old(out[k])
      invariant Ghash.Hash(h, FromBits(x), s[pos..]) == want
    {
      var n := if len - pos < 16 then len - pos else 16;
      var g := StitchBlock(enc, inp, out, pos, n, enc(CtrBlock(p, ctr32)), encrypt, c, p, src, ctr32);
      HashNext(h, FromBits(x), s[pos..], n);
      assert s[pos..][..n] == g && s[pos..][n..] == s[pos + n..];
      x := GhashClmul.HashOneBlock(h, x, g);
      AfterNext(c, pos, n);
      ctr32 := Next(ctr32);
      pos := pos + n;
    }
    ProgressEnd(enc, p, c, src, ctr32, out[..pos]);
    assert s[pos..] == [];
    GhashClmul.HashNothing(h, FromBits(x));
  }

  method StoreCounter(ctr: array<byte>, v: nat)
    requires ctr.Length == 16 && v < W32
    modifies ctr
    ensures ctr[..12] == old(ctr[..12]) && Load32(ctr[12..]) == v
  {
    hide ByteOf, ValueOf;
    Load32Be32(v);
    ctr[12], ctr[13], ctr[14], ctr[15] := ByteOf(v / 0x100_0000), ByteOf(v / 0x1_0000), ByteOf(v / 0x100), ByteOf(v);
    assert ctr[12..] == Be32(v);
  }

  lemma AfterBound(c: nat, n: nat)
    ensures After(c, n) < W32
  {}

  lemma PowerOne(h: Gf128.Elem)
    ensures GhashClmul.Power(h, 1) == h
  {}

  // ---- the specification ------------------------------------------------------

  /** The two bit lengths, each a 64-bit product that wraps */
  function LengthBlock(aadLen: nat, ctLen: nat): Block
  {
    Be64(aadLen * 8 % (W32 * W32)) + Be64(ctLen * 8 % (W32 * W32))
  }

  function HashKey(enc: Cipher): Gf128.Elem { Bits(enc(ZeroBlock())) }

  /** The string the hash of a message covers */
  function HashInput(aad: seq<byte>, ct: seq<byte>): seq<byte>
  {
    PadTo16(aad) + PadTo16(ct) + LengthBlock(|aad|, |ct|)
  }

  function MessageHash(h: Gf128.Elem, aad: seq<byte>, ct: seq<byte>): Block
  {
    Ghash.Hash(h, ZeroBlock(), HashInput(aad, ct))
  }

  /** GHASH over the padded associated data, the padded ciphertext and the
      length block, encrypted under the first counter block */
  function Tag(enc: Cipher, nonce: seq<byte>, aad: seq<byte>, ct: seq<byte>): (r: seq<byte>)
    requires |nonce| == 12
    ensures |r| == 16
  {
    Xcrypt(enc, nonce, 1, MessageHash(HashKey(enc), aad, ct))
  }

  /** GCM-AE with a 96-bit nonce and a 128-bit tag */
  function SealSpec(enc: Cipher, nonce: seq<byte>, aad: seq<byte>, pt: seq<byte>): (r: seq<byte>)
    requires |nonce| == 12
    ensures |r| == |pt| + 16
  {
    var ct := Xcrypt(enc, nonce, 2, pt);
    ct + Tag(enc, nonce, aad, ct)
  }

  /** GCM-AD */
  function OpenSpec(enc: Cipher, nonce: seq<byte>, aad: seq<byte>, ct: seq<byte>): Opened
    requires |nonce| == 12
  {
    if |ct| < 16 then Failed
    else
      var body := ct[..|ct| - 16];
      if Tag(enc, nonce, aad, body) == ct[|ct| - 16..] then Plain(Xcrypt(enc, nonce, 2, body)) else Failed
  }

  /** Opening what was sealed returns the plaintext. */
  lemma OpenSeal(enc: Cipher, nonce: seq<byte>, aad: seq<byte>, pt: seq<byte>)
    requires |nonce| == 12
    ensures OpenSpec(enc, nonce, aad, SealSpec(enc, nonce, aad, pt)) == Plain(pt)
  {
    hide Tag, Xcrypt;
    var ct := Xcrypt(enc, nonce, 2, pt);
    var s := SealSpec(enc, nonce, aad, pt);
    assert s[..|s| - 16] == ct && s[|s| - 16..] == Tag(enc, nonce, aad, ct);
    XcryptInverse(enc, nonce, 2, pt);
  }

  /** Whatever opens is exactly the sealing of what it opened to, so with
      OpenSeal a string opens if and only if it is a sealed one. */
  lemma OpenedWasSealed(enc: Cipher, nonce: seq<byte>, aad: seq<byte>, ct: seq<byte>)
    requires |nonce| == 12 && OpenSpec(enc, nonce, aad, ct).Plain?
    ensures ct == SealSpec(enc, nonce, aad, OpenSpec(enc, nonce, aad, ct).text)
  {
    hide Tag, Xcrypt;
    var body := ct[..|ct| - 16];
    XcryptInverse(enc, nonce, 2, body);
    assert ct == body + ct[|ct| - 16..];
  }

  // ---- hashing the parts one after the other is hashing the padded whole -------

  lemma {:induction false} HashPadded(h: Gf128.Elem, y: Block, d: seq<byte>)
    ensures Ghash.Hash(h, y, PadTo16(d)) == Ghash.Hash(h, y, d)
    decreases |d|
  {
    hide Ghash.Step, PadTo16, Ghash.Hash, Pad;
    if |d| == 0 {
      PadEnds(d);
    } else if |d| < 16 {
      PadEnds(d);
      Ghash.HashOne(h, y, d);
      Ghash.HashOne(h, y, Pad(d));
      StepPadded(h, y, d);
    } else {
      PadRest(d);
      assert d == d[..16] + d[16..];
      Ghash.HashConcat(h, y, d[..16], d[16..]);
      Ghash.HashConcat(h, y, d[..16], PadTo16(d[16..]));
      HashPadded(h, Ghash.Hash(h, y, d[..16]), d[16..]);
    }
  }

  lemma PadEnds(d: seq<byte>)
    requires |d| < 16
    ensures PadTo16(d) == if d == [] then [] else Pad(d)
  {}

  lemma PadRest(d: seq<byte>)
    requires |d| >= 16
    ensures PadTo16(d) == d[..16] + PadTo16(d[16..])
  {
    assert |d[16..]| % 16 == |d| % 16;
  }

  lemma StepPadded(h: Gf128.Elem, y: Block, d: seq<byte>)
    requires |d| <= 16
    ensures Ghash.Step(h, y, Pad(d)) == Ghash.Step(h, y, d)
  {
    assert Pad(Pad(d)) == Pad(d);
  }

  lemma HashInParts(h: Gf128.Elem, aad: seq<byte>, ct: seq<byte>, l: Block)
    ensures Ghash.Hash(h, ZeroBlock(), PadTo16(aad) + PadTo16(ct) + l) ==
      Ghash.Hash(h, Ghash.Hash(h, Ghash.Hash(h, ZeroBlock(), aad), ct), l)
  {
    hide Ghash.Hash, PadTo16;
    Ghash.HashConcat(h, ZeroBlock(), PadTo16(aad) + PadTo16(ct), l);
    Ghash.HashConcat(h, ZeroBlock(), PadTo16(aad), PadTo16(ct));
    HashPadded(h, ZeroBlock(), aad);
    HashPadded(h, Ghash.Hash(h, ZeroBlock(), aad), ct);
  }

  // ---- the context and its entry points ----------------------------------------

  /** struct lr_gcm_ctx, with the block cipher in place of its round keys */
  class Context {
    const enc: Cipher
    const x86: bool
    const hp: seq<Gf128.Elem>
    const tables: GhashTable.Tables

    ghost function Key(): Gf128.Elem { HashKey(enc) }

    ghost predicate Valid()
      reads tables.hh, tables.hl
    {
      if x86 then Powers(hp, Key()) else tables.Valid(Key())
    }

    ghost predicate Apart(a: array<byte>) { tables.Apart(a) }

    /** lr_gcm_new, on either path */
    constructor (enc: Cipher, x86: bool)
      ensures Valid() && this.enc == enc && this.x86 == x86
      ensures fresh(tables.hh) && fresh(tables.hl)
    {
      hide GhashClmul.Power, GhashTable.NibMul, GhashTable.Pair, Bits;
      this.enc := enc;
      this.x86 := x86;
      var h := enc(ZeroBlock());
      var t := new GhashTable.Tables(h);
      var hp := GhashClmul.InitPowers(h);
      this.tables := t;
      this.hp := hp;
    }

    /** gcm_ctr */
    method Crypt(ctr: array<byte>, inp: array<byte>, out: array<byte>, len: nat)
      requires ctr.Length == 16 && ctr != inp && ctr != out
      requires len <= inp.Length && len <= out.Length
      modifies ctr, out
      ensures ctr[..12] == old(ctr[..12]) && Load32(ctr[12..]) == After(Load32(old(ctr[12..])), len)
      ensures out[..len] == Xcrypt(enc, old(ctr[..12]), Load32(old(ctr[12..])), old(inp[..len]))
      ensures out[len..] == old(out[len..])
    {
      if x86 { X86(enc, ctr, inp, out, len); } else { Portable(enc, ctr, inp, out, len); }
    }

    /** gcm_ghash */
    method Mix(y: array<byte>, data: seq<byte>)
      requires Valid() && Apart(y) && y.Length == 16
      modifies y
      ensures Valid()
      ensures y[..] == Ghash.Hash(Key(), old(y[..]), data)
    {
      hide GhashClmul.Power, GhashTable.NibMul, GhashTable.Pair, HashKey, Ghash.Hash;
      if x86 { GhashClmul.Update(hp, y, data, Key()); } else { GhashTable.Update(tables, y, data, Key()); }
    }

    /** The payload between the associated data and the length block: one pass on
        x86, two passes otherwise */
    method Payload(ctr: array<byte>, y: array<byte>, inp: array<byte>, out: array<byte>, len: nat, encrypt: bool)
      requires Valid() && Apart(y) && Apart(out) && Apart(ctr)
      requires ctr.Length == 16 && y.Length == 16 && ctr != y && ctr != inp && ctr != out && y != inp && y != out
      requires len <= inp.Length && len <= out.Length
      modifies ctr, y, out
      ensures Valid()
      ensures out[..len] == Xcrypt(enc, old(ctr[..12]), Load32(old(ctr[12..])), old(inp[..len]))
      ensures out[len..] == old(out[len..])
      ensures y[..] == Ghash.Hash(Key(), old(y[..]), if encrypt then out[..len] else old(inp[..len]))
    {
      hide GhashClmul.Power, GhashTable.NibMul, GhashTable.Pair, HashKey, Ghash.Step, Load32, XorSeq, After;
      if x86 {
        if len > 0 { Stitch(enc, hp, ctr, y, inp, out, len, encrypt, Key()); }
      } else {
        if !encrypt && len > 0 { Mix(y, inp[..len]); }
        if len > 0 { Crypt(ctr, inp, out, len); }
        if encrypt && len > 0 { Mix(y, out[..len]); }
      }
    }

    /** gcm_core */
    method Core(nonce: seq<byte>, aad: seq<byte>, inp: array<byte>, out: array<byte>, len: nat, encrypt: bool)
      returns (tag: seq<byte>)
      requires Valid() && Apart(out) && |nonce| == 12
      requires len <= inp.Length && len <= out.Length
      modifies out
      ensures Valid()
      ensures out[..len] == Xcrypt(enc, nonce, 2, old(inp[..len]))
      ensures out[len..] == old(out[len..])
      ensures tag == Tag(enc, nonce, aad, if encrypt then out[..len] else old(inp[..len]))
    {
      hide GhashClmul.Power, GhashTable.NibMul, GhashTable.Pair, HashKey, Ghash.Hash, Load32, XorSeq, Xcrypt,
        LengthBlock, PadTo16, Be32, After;
      ghost var src := inp[..len];
      var ctr := FirstCounter(nonce);
      var zero := new byte[16](_ => 0);
      var mask := new byte[16];
      Crypt(ctr, zero, mask, 16);
      assert zero[..] == ZeroBlock();
      MaskIsCipher(enc, nonce);
      assert mask[..] == enc(CtrBlock(nonce, 1)) by { assert mask[..16] == mask[..] && zero[..16] == zero[..]; }
      var y := new byte[16](_ => 0);
      assert y[..] == ZeroBlock();
      assert Valid();
      if aad != [] { Mix(y, aad); } else { GhashClmul.HashNothing(Key(), ZeroBlock()); }
      Payload(ctr, y, inp, out, len, encrypt);
      ghost var ct := if encrypt then out[..len] else src;
      assert |ct| == len;
      Mix(y, LengthBlock(|aad|, len));
      HashInParts(Key(), aad, ct, LengthBlock(|aad|, |ct|));
      tag := XorSeq(y[..], mask[..]);
      TagIsMasked(enc, nonce, y[..]);
    }

    /** lr_gcm_seal */
    method Seal(nonce: seq<byte>, aad: seq<byte>, pt: array<byte>, n: nat, out: array<byte>) returns (written: nat)
      requires Valid() && Apart(out) && |nonce| == 12
      requires n <= pt.Length && n + 16 <= out.Length
      modifies out
      ensures Valid()
      ensures written == n + 16
      ensures out[..written] == SealSpec(enc, nonce, aad, old(pt[..n]))
      ensures out[written..] == old(out[written..])
    {
      hide Tag, Xcrypt, GhashClmul.Power, GhashTable.NibMul, GhashTable.Pair, HashKey;
      ghost var src, was := pt[..n], out[..];
      var tag := Core(nonce, aad, pt, out, n, true);
      ghost var ct := out[..n];
      for i := 0 to 16
        invariant out[..n] == ct && Valid()
        invariant forall k :: 0 <= k < i ==> out[n + k] == tag[k]
        invariant out[n + 16..] == was[n + 16..]
      {
        out[n + i] := tag[i];
      }
      assert out[..n + 16] == ct + tag;
      written := n + 16;
    }

    /** lr_gcm_open. The output buffer receives the decryption whether or not
        the tag verifies. */
    method Open(nonce: seq<byte>, aad: seq<byte>, ct: array<byte>, n: nat, out: array<byte>) returns (r: int)
      requires Valid() && Apart(out) && |nonce| == 12
      requires n <= ct.Length && n <= out.Length + 16
      modifies out
      ensures Valid()
      ensures n < 16 ==> r == -1 && out[..] == old(out[..])
      ensures n >= 16 ==> out[..n - 16] == Xcrypt(enc, nonce, 2, old(ct[..n - 16]))
      ensures n >= 16 ==> out[n - 16..] == old(out[n - 16..])
      ensures match OpenSpec(enc, nonce, aad, old(ct[..n]))
              case Failed => r == -1
              case Plain(text) => r == |text| && out[..r] == text
    {
      hide Tag, Xcrypt, GhashClmul.Power, GhashTable.NibMul, GhashTable.Pair, HashKey;
      if n < 16 { return -1; }
      var body := n - 16;
      ghost var src := ct[..n];
      assert src[..body] == ct[..body];
      ghost var trailer := ct[body..n];
      var tag := Core(nonce, aad, ct, out, body, false);
      assert ct[body..n] == trailer by {
        if ct == out { assert out[body..][..16] == trailer; }
      }
      var same := TagsEqual(tag, ct[body..n]);
      assert src[n - 16..] == trailer;
      r := if same then body else -1;
    }
  }

  method FirstCounter(nonce: seq<byte>) returns (ctr: array<byte>)
    requires |nonce| == 12
    ensures fresh(ctr) && ctr.Length == 16 && ctr[..12] == nonce && Load32(ctr[12..]) == 1
  {
    hide ByteOf, ValueOf, Load32;
    ctr := new byte[16](i requires 0 <= i < 16 => if i < 12 then nonce[i] else ByteOf(if i < 15 then 0 else 1));
    assert ctr[12..] == Be32(1);
    Load32Be32(1);
  }

  /** Encrypting zeros under the first counter yields the mask, and leaves the
      counter at the second. */
  lemma MaskIsCipher(enc: Cipher, nonce: seq<byte>)
    requires |nonce| == 12
    ensures Xcrypt(enc, nonce, 1, ZeroBlock()) == enc(CtrBlock(nonce, 1)) && After(1, 16) == 2
  {
    hide CtrBlock;
    var z := ZeroBlock();
    assert z[..16] == z && z[16..] == [];
    var k := enc(CtrBlock(nonce, 1));
    forall i | 0 <= i < 16 ensures XorSeq(z, k)[i] == k[i] { XorZeroByte(k[i]); }
    assert XorSeq(z, k) == k;
  }

  lemma XorZeroByte(k: byte)
    ensures XorByte(0, k) == k
  {}

  lemma TagIsMasked(enc: Cipher, nonce: seq<byte>, s: Block)
    requires |nonce| == 12
    ensures Xcrypt(enc, nonce, 1, s) == XorSeq(s, enc(CtrBlock(nonce, 1)))
  {
    hide CtrBlock, XorSeq;
    assert s[..16] == s && s[16..] == [];
  }

  // ---- the specification, byte by byte -------------------------------------------

  /** The last hashed block holds the two bit lengths, associated data first, each as
      a 64-bit big-endian number; before it come the data, zero-padded. */
  lemma HashInputIs(aad: seq<byte>, ct: seq<byte>)
    requires 8 * |aad| < W64 && 8 * |ct| < W64
    ensures var x, at := HashInput(aad, ct), Whole(|aad|) + Whole(|ct|);
      && LaidOut(x, aad, ct)
      && Big64(x[at..at + 8]) == 8 * |aad| && Big64(x[at + 8..at + 16]) == 8 * |ct|
  {
    hide Be64, PadTo16, Whole, Big64, LaidOut;
    var l, at := LengthBlock(|aad|, |ct|), Whole(|aad|) + Whole(|ct|);
    PaddedLayout(aad, ct, l);
    var x := HashInput(aad, ct);
    assert |x| == at + 16 by { LaidOutLength(x, aad, ct); }
    Unwrapped(8 * |aad|);
    Unwrapped(8 * |ct|);
    Be64Value(8 * |aad|);
    Be64Value(8 * |ct|);
    assert x[at..at + 8] == x[at..][..8] == l[..8] == Be64(8 * |aad|);
    assert x[at + 8..at + 16] == x[at..][8..] == l[8..] == Be64(8 * |ct|);
  }

  lemma Unwrapped(n: nat)
    requires n < W64
    ensures n % (W32 * W32) == n
  {}

  /** A counter block is the nonce and the counter as a 32-bit big-endian number. */
  lemma CounterBlockIs(p: seq<byte>, c: nat)
    requires |p| == 12 && c < W32
    ensures CtrBlock(p, c)[..12] == p && Load32(CtrBlock(p, c)[12..]) == c
  {
    hide Be32, Load32;
    Load32Be32(c);
    assert CtrBlock(p, c)[12..] == Be32(c);
  }

  /** A sealed string, byte by byte: the text under the counter blocks from 2 on, then
      GHASH of the laid-out input under H = E(0), masked by counter block 1. */
  lemma SealedBytes(enc: Cipher, nonce: seq<byte>, aad: seq<byte>, pt: seq<byte>, k: nat)
    requires |nonce| == 12
    ensures var s := SealSpec(enc, nonce, aad, pt);
      && (k < |pt| ==> s[k] == XorByte(pt[k], enc(CtrBlock(nonce, (2 + k / 16) % W32))[k % 16]))
      && (k < 16 ==>
          var x := Ghash.Hash(Bits(enc(ZeroBlock())), ZeroBlock(), HashInput(aad, s[..|pt|]));
          s[|pt| + k] == XorByte(x[k], enc(CtrBlock(nonce, 1))[k]))
  {
    hide CtrBlock, XorByte, Xcrypt, Ghash.Hash, HashInput, Bits;
    var ct := Xcrypt(enc, nonce, 2, pt);
    var s := SealSpec(enc, nonce, aad, pt);
    assert s[..|pt|] == ct;
    if k < |pt| { XcryptAt(enc, nonce, 2, pt, k); }
    if k < 16 {
      XcryptAt(enc, nonce, 1, MessageHash(HashKey(enc), aad, ct), k);
      FirstBlock(k);
    }
  }

  lemma FirstBlock(k: nat)
    requires k < 16
    ensures (1 + k / 16) % W32 == 1 && k % 16 == k
  {}
}
