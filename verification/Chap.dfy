/** ChaCha20-Poly1305 of section 2.8 of RFC 8439. */
module Chap {
  import opened Bytes
  import opened AeadCommon
  import ChaCha
  import Poly1305

  /** The 64-bit little-endian lengths of the associated data and ciphertext */
  function Lengths(aadLen: nat, ctLen: nat): (r: seq<byte>)
    ensures |r| == 16
  {
    LeBytes(aadLen % W64, 8) + LeBytes(ctLen % W64, 8)
  }

  function MacInput(aad: seq<byte>, ct: seq<byte>): seq<byte>
  {
    PadTo16(aad) + PadTo16(ct) + Lengths(|aad|, |ct|)
  }

  function Zeros64(): seq<byte> { seq(64, _ => 0) }

  /** The one-time key: the first half of block 0 */
  function MacKey(key: seq<byte>, nonce: seq<byte>): (r: seq<byte>)
    requires |key| == 32 && |nonce| == 12
    ensures |r| == 32
  {
    ChaCha.Stream(ChaCha.Initial(key, nonce, ChaCha.Word(0)), Zeros64())[..32]
  }

  function Crypt(key: seq<byte>, nonce: seq<byte>, d: seq<byte>): (r: seq<byte>)
    requires |key| == 32 && |nonce| == 12
    ensures |r| == |d|
  {
    ChaCha.Stream(ChaCha.Initial(key, nonce, ChaCha.Word(1)), d)
  }

  function Tag(key: seq<byte>, nonce: seq<byte>, aad: seq<byte>, ct: seq<byte>): (r: seq<byte>)
    requires |key| == 32 && |nonce| == 12
    ensures |r| == 16
  {
    Poly1305.Mac(MacKey(key, nonce), MacInput(aad, ct))
  }

  function SealSpec(key: seq<byte>, nonce: seq<byte>, aad: seq<byte>, pt: seq<byte>): (r: seq<byte>)
    requires |key| == 32 && |nonce| == 12
    ensures |r| == |pt| + 16
  {
    var ct := Crypt(key, nonce, pt);
    ct + Tag(key, nonce, aad, ct)
  }

  function OpenSpec(key: seq<byte>, nonce: seq<byte>, aad: seq<byte>, ct: seq<byte>): Opened
    requires |key| == 32 && |nonce| == 12
  {
    if |ct| < 16 then Failed
    else
      var body := ct[..|ct| - 16];
      if Tag(key, nonce, aad, body) == ct[|ct| - 16..] then Plain(Crypt(key, nonce, body)) else Failed
  }

  /** Opening what was sealed returns the plaintext. */
  lemma OpenSeal(key: seq<byte>, nonce: seq<byte>, aad: seq<byte>, pt: seq<byte>)
    requires |key| == 32 && |nonce| == 12
    ensures OpenSpec(key, nonce, aad, SealSpec(key, nonce, aad, pt)) == Plain(pt)
  {
    hide Tag, ChaCha.Stream, ChaCha.Initial;
    var ct := Crypt(key, nonce, pt);
    var s := SealSpec(key, nonce, aad, pt);
    assert s[..|s| - 16] == ct && s[|s| - 16..] == Tag(key, nonce, aad, ct);
    ChaCha.StreamInverse(ChaCha.Initial(key, nonce, ChaCha.Word(1)), pt);
  }

  /** Whatever opens is exactly the sealing of what it opened to. */
  lemma OpenedWasSealed(key: seq<byte>, nonce: seq<byte>, aad: seq<byte>, ct: seq<byte>)
    requires |key| == 32 && |nonce| == 12 && OpenSpec(key, nonce, aad, ct).Plain?
    ensures ct == SealSpec(key, nonce, aad, OpenSpec(key, nonce, aad, ct).text)
  {
    hide Tag, ChaCha.Stream, ChaCha.Initial;
    var body := ct[..|ct| - 16];
    ChaCha.StreamInverse(ChaCha.Initial(key, nonce, ChaCha.Word(1)), body);
    assert ct == body + ct[|ct| - 16..];
  }

  // ---- chap_tag ---------------------------------------------------------------------

  /** A part and the zeros that complete its last block, in two updates; nothing
      is left over afterwards */
  method FeedPadded(st: Poly1305.State, d: seq<byte>)
    requires st.Valid() && |st.fed| % 16 == 0
    modifies st, st.buffer
    ensures st.Valid() && st.fed == old(st.fed) + PadTo16(d) && st.leftover == 0
  {
    hide Poly1305.State.Valid;
    ghost var was := st.fed;
    if d != [] {
      st.Update(d);
      if |d| % 16 != 0 {
        st.Update(seq(16 - |d| % 16, _ => 0));
      }
    }
    assert st.fed == was + PadTo16(d);
    SumOfWhole(|was|, |PadTo16(d)|);
    st.LeftoverIs();
  }

  lemma SumOfWhole(a: nat, b: nat)
    requires a % 16 == 0 && b % 16 == 0
    ensures (a + b) % 16 == 0
  {}

  /** Everything chap_tag feeds before it finishes: afterwards nothing is left over,
      so no partial block is ever completed with a one. */
  method FeedAll(st: Poly1305.State, aad: seq<byte>, ct: seq<byte>)
    requires st.Valid() && st.fed == []
    modifies st, st.buffer
    ensures st.Valid() && st.fed == MacInput(aad, ct) && st.leftover == 0
  {
    hide Poly1305.State.Valid, PadTo16, Lengths;
    FeedPadded(st, aad);
    st.LeftoverIs();
    FeedPadded(st, ct);
    st.LeftoverIs();
    st.Update(Lengths(|aad|, |ct|));
    st.LeftoverIs();
    assert st.fed == MacInput(aad, ct);
  }

  /** chap_tag */
  method ChapTag(macKey: seq<byte>, aad: seq<byte>, ct: seq<byte>) returns (tag: seq<byte>)
    requires |macKey| == 32
    ensures tag == Poly1305.Mac(macKey, MacInput(aad, ct))
  {
    hide Poly1305.State.Valid, Poly1305.Mac, MacInput;
    var st := new Poly1305.State(macKey);
    FeedAll(st, aad, ct);
    tag := st.Finish();
  }

  // ---- the entry points ----------------------------------------------------------------

  /** struct lr_chap_ctx */
  class Context {
    const key: seq<byte>
    const x86: bool

    ghost predicate Valid() { |key| == 32 }

    constructor (key: seq<byte>, x86: bool)
      requires |key| == 32
      ensures Valid() && this.key == key && this.x86 == x86
    {
      this.key := key;
      this.x86 := x86;
    }

    /** 64 zero bytes encrypted in place; the first 32 are the key */
    method OneTimeKey(nonce: seq<byte>) returns (k: seq<byte>)
      requires Valid() && |nonce| == 12
      ensures k == MacKey(key, nonce)
    {
      hide ChaCha.Stream, ChaCha.Initial;
      var buf := new byte[64](_ => 0);
      assert buf[..64] == Zeros64();
      ChaCha.XorStream(x86, key, nonce, ChaCha.Word(0), buf, buf, 64);
      k := buf[..32];
      assert k == buf[..64][..32];
    }

    /** lr_chap_seal */
    method Seal(nonce: seq<byte>, aad: seq<byte>, pt: array<byte>, n: nat, out: array<byte>) returns (written: nat)
      requires Valid() && |nonce| == 12 && n <= pt.Length && n + 16 <= out.Length
      modifies out
      ensures written == n + 16
      ensures out[..written] == SealSpec(key, nonce, aad, old(pt[..n]))
      ensures out[written..] == old(out[written..])
    {
      hide ChaCha.Stream, ChaCha.Initial, Poly1305.Mac, MacInput, MacKey;
      ghost var src, was := pt[..n], out[..];
      var mk := OneTimeKey(nonce);
      if n > 0 { ChaCha.XorStream(x86, key, nonce, ChaCha.Word(1), pt, out, n); }
      assert out[..n] == Crypt(key, nonce, src);
      ghost var ct := out[..n];
      var tag := ChapTag(mk, aad, out[..n]);
      for i := 0 to 16
        invariant out[..n] == ct
        invariant forall k :: 0 <= k < i ==> out[n + k] == tag[k]
        invariant out[n + 16..] == was[n + 16..]
      {
        out[n + i] := tag[i];
      }
      assert out[..n + 16] == ct + tag;
      written := n + 16;
    }

    /** lr_chap_open. The output buffer is written only after the tag verifies. */
    method Open(nonce: seq<byte>, aad: seq<byte>, ct: array<byte>, n: nat, out: array<byte>) returns (r: int)
      requires Valid() && |nonce| == 12 && n <= ct.Length && n <= out.Length + 16
      modifies out
      ensures match OpenSpec(key, nonce, aad, old(ct[..n]))
              case Failed => r == -1 && out[..] == old(out[..])
              case Plain(text) => r == |text| && out[..r] == text && out[r..] == old(out[r..])
    {
      hide ChaCha.Stream, ChaCha.Initial, Poly1305.Mac, MacInput, MacKey;
      if n < 16 { return -1; }
      var body := n - 16;
      ghost var src := ct[..n];
      assert src[..body] == ct[..body] && src[n - 16..] == ct[body..n];
      var mk := OneTimeKey(nonce);
      var tag := ChapTag(mk, aad, ct[..body]);
      var same := TagsEqual(tag, ct[body..n]);
      if !same { return -1; }
      if body > 0 { ChaCha.XorStream(x86, key, nonce, ChaCha.Word(1), ct, out, body); }
      assert out[..body] == Crypt(key, nonce, src[..body]);
      r := body;
    }
  }

  // ---- the specification, byte by byte ------------------------------------------------

  /** The lengths are 64-bit little-endian numbers, associated data first; before them
      come the data, zero-padded. */
  lemma MacInputIs(aad: seq<byte>, ct: seq<byte>)
    requires |aad| < W64 && |ct| < W64
    ensures var x, at := MacInput(aad, ct), Whole(|aad|) + Whole(|ct|);
      && LaidOut(x, aad, ct)
      && Le(x[at..at + 8]) == |aad| && Le(x[at + 8..at + 16]) == |ct|
  {
    hide LeBytes, PadTo16, Whole, Le, LaidOut, Pow256;
    var l, at := Lengths(|aad|, |ct|), Whole(|aad|) + Whole(|ct|);
    PaddedLayout(aad, ct, l);
    var x := MacInput(aad, ct);
    assert |x| == at + 16 by { LaidOutLength(x, aad, ct); }
    Pow256At8();
    Kept(|aad|);
    Kept(|ct|);
    LeOfBytes(|aad|, 8);
    LeOfBytes(|ct|, 8);
    assert x[at..at + 8] == x[at..][..8] == l[..8] == LeBytes(|aad|, 8);
    assert x[at + 8..at + 16] == x[at..][8..] == l[8..] == LeBytes(|ct|, 8);
  }

  lemma Kept(n: nat)
    requires n < W64
    ensures n % W64 == n
  {}

  lemma Pow256At8()
    ensures Pow256(8) == W64
  {
    assert Pow256(4) == W32;
  }

  /** The one-time key is the first half of the block with counter 0. */
  lemma MacKeyIs(key: seq<byte>, nonce: seq<byte>)
    requires |key| == 32 && |nonce| == 12
    ensures MacKey(key, nonce) == ChaCha.KeyBlock(ChaCha.Initial(key, nonce, ChaCha.Word(0)))[..32]
  {
    hide ChaCha.KeyBlock, ChaCha.Initial, ChaCha.Bump;
    var s := ChaCha.Initial(key, nonce, ChaCha.Word(0));
    var z, k := Zeros64(), ChaCha.KeyBlock(s);
    assert z[..64] == z && z[64..] == [];
    assert ChaCha.Stream(s, z) == XorSeq(z, k);
    forall i | 0 <= i < 64 ensures XorSeq(z, k)[i] == k[i] { XorZero(k[i]); }
  }

  lemma XorZero(k: byte)
    ensures XorByte(0, k) == k
  {}

  /** The text is under the blocks with counters 1, 2, ... */
  lemma CryptAt(key: seq<byte>, nonce: seq<byte>, d: seq<byte>, k: nat)
    requires |key| == 32 && |nonce| == 12 && k < |d|
    ensures Crypt(key, nonce, d)[k] ==
      XorByte(d[k], ChaCha.KeyBlock(ChaCha.BumpN(ChaCha.Initial(key, nonce, ChaCha.Word(1)), k / 64))[k % 64])
  {
    hide ChaCha.Initial, XorByte;
    ChaCha.StreamAt(ChaCha.Initial(key, nonce, ChaCha.Word(1)), d, k);
  }
}
