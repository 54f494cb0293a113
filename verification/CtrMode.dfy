/** The counter-mode loops: one block at a time, and four blocks in flight. Input
    and output may be the same buffer. */
module CtrMode {
  import opened Bytes
  import opened Ctr

  /** What has been written, followed by what is still to come, is the whole. */
  ghost predicate Progress(enc: Cipher, p: seq<byte>, c: nat, src: seq<byte>, c': nat, done: seq<byte>)
    requires |p| == 12
  {
    |done| <= |src| &&
    done + Xcrypt(enc, p, c', src[|done|..]) == Xcrypt(enc, p, c, src)
  }

  lemma ProgressStep(enc: Cipher, p: seq<byte>, c: nat, src: seq<byte>, c': nat, done: seq<byte>, n: nat)
    requires |p| == 12 && Progress(enc, p, c, src, c', done)
    requires |done| < |src| && n == Take(src[|done|..])
    ensures Progress(enc, p, c, src, Next(c'), done + XorSeq(src[|done|..|done| + n], enc(CtrBlock(p, c'))))
  {
    hide XorSeq, CtrBlock, Next;
    var rest := src[|done|..];
    var k := XorSeq(src[|done|..|done| + n], enc(CtrBlock(p, c')));
    assert rest[..n] == src[|done|..|done| + n] && rest[n..] == src[|done + k|..];
    assert done + (k + Xcrypt(enc, p, Next(c'), rest[n..])) == (done + k) + Xcrypt(enc, p, Next(c'), rest[n..]);
  }

  lemma ProgressEnd(enc: Cipher, p: seq<byte>, c: nat, src: seq<byte>, c': nat, done: seq<byte>)
    requires |p| == 12 && Progress(enc, p, c, src, c', done) && |done| == |src|
    ensures done == Xcrypt(enc, p, c, src)
  {
    assert src[|done|..] == [];
  }

  /** One step of the single-block loop: key stream, increment, exclusive or */
  method OneBlock(enc: Cipher, ctr: array<byte>, inp: array<byte>, out: array<byte>, pos: nat, n: nat)
    requires ctr.Length == 16 && ctr != inp && ctr != out && n <= 16
    requires pos + n <= inp.Length && pos + n <= out.Length
    modifies ctr, out
    ensures ctr[..12] == old(ctr[..12]) && Load32(ctr[12..]) == Next(Load32(old(ctr[12..])))
    ensures out[pos..pos + n] == XorSeq(old(inp[pos..pos + n]), enc(CtrBlock(old(ctr[..12]), Load32(old(ctr[12..])))))
    ensures forall k :: 0 <= k < out.Length && !(pos <= k < pos + n) ==> out[k] == old(out[k])
  {
    hide Be32, Load32, Next, XorSeq;
    Be32Load32(ctr[12..]);
    assert ctr[..] == CtrBlock(ctr[..12], Load32(ctr[12..]));
    var ks := enc(ctr[..]);
    Increment(ctr);
    XorAt(inp, out, pos, n, ks);
  }

  /** aes_ctr_portable */
  method Portable(enc: Cipher, ctr: array<byte>, inp: array<byte>, out: array<byte>, len: nat)
    requires ctr.Length == 16 && ctr != inp && ctr != out
    requires len <= inp.Length && len <= out.Length
    modifies ctr, out
    ensures ctr[..12] == old(ctr[..12]) && Load32(ctr[12..]) == After(Load32(old(ctr[12..])), len)
    ensures out[..len] == Xcrypt(enc, old(ctr[..12]), Load32(old(ctr[12..])), old(inp[..len]))
    ensures out[len..] == old(out[len..])
  {
    ghost var p, c, src := ctr[..12], Load32(ctr[12..]), inp[..len];
    AfterNone(c);
    Tail(enc, ctr, inp, out, 0, len, p, c, src);
  }

  /** The single-block loop from pos on */
  method Tail(enc: Cipher, ctr: array<byte>, inp: array<byte>, out: array<byte>, start: nat, len: nat,
              ghost p: seq<byte>, ghost c: nat, ghost src: seq<byte>)
    requires ctr.Length == 16 && ctr != inp && ctr != out
    requires start <= len <= inp.Length && len <= out.Length && start % 16 == 0
    requires |src| == len && (forall k :: start <= k < len ==> inp[k] == src[k]) && ctr[..12] == p
    requires Load32(ctr[12..]) == After(c, start)
    requires Progress(enc, p, c, src, Load32(ctr[12..]), out[..start])
    modifies ctr, out
    ensures ctr[..12] == p && Load32(ctr[12..]) == After(c, len)
    ensures out[..len] == Xcrypt(enc, p, c, src)
    ensures out[len..] == old(out[len..])
  {
    hide Load32, Next, XorSeq, CtrBlock, After, Xcrypt, Progress;
    var pos := start;
    while pos < len
      invariant start <= pos <= len && (pos % 16 == 0 || pos == len)
      invariant forall k :: pos <= k < len ==> inp[k] == src[k]
      invariant ctr[..12] == p
      invariant Load32(ctr[12..]) == After(c, pos)
      invariant Progress(enc, p, c, src, Load32(ctr[12..]), out[..pos])
      invariant forall k :: len <= k < out.Length ==> out[k] == old(out[k])
    {
      var n := if len - pos < 16 then len - pos else 16;
      ghost var before, c' := out[..], Load32(ctr[12..]);
      ProgressStep(enc, p, c, src, c', out[..pos], n);
      assert inp[pos..pos + n] == src[pos..pos + n];
      OneBlock(enc, ctr, inp, out, pos, n);
      AfterNext(c, pos, n);
      assert out[..pos + n] == before[..pos] + out[pos..pos + n];
      pos := pos + n;
    }
    ProgressEnd(enc, p, c, src, Load32(ctr[12..]), out[..pos]);
  }

  lemma AfterNext(c: nat, pos: nat, n: nat)
    requires pos % 16 == 0 && 0 < n <= 16
    ensures Next(After(c, pos)) == After(c, pos + n)
  {
    assert (pos + 15) / 16 == pos / 16 && (pos + n + 15) / 16 == pos / 16 + 1;
    ModSum(c + pos / 16, 1);
  }

  function Plus(c: nat, k: nat): (r: nat) ensures r < W32 { (c + k) % W32 }

  lemma PlusNext(c: nat, k: nat)
    ensures Next(Plus(c, k)) == Plus(c, k + 1)
  {
    ModSum(c + k, 1);
  }

  lemma PlusNone(c: nat)
    requires c < W32
    ensures Plus(c, 0) == c
  {}

  lemma AfterFour(c: nat, pos: nat)
    requires pos % 16 == 0
    ensures Plus(After(c, pos), 4) == After(c, pos + 64)
  {
    assert (pos + 15) / 16 == pos / 16 && (pos + 64 + 15) / 16 == pos / 16 + 4;
    ModSum(c + pos / 16, 4);
  }

  /** Four key-stream blocks, the counter stored back after each */
  method FourKeys(enc: Cipher, ctr: array<byte>) returns (ks: seq<Block>)
    requires ctr.Length == 16
    modifies ctr
    ensures |ks| == 4
    ensures forall k :: 0 <= k < 4 ==> ks[k] == enc(CtrBlock(old(ctr[..12]), Plus(Load32(old(ctr[12..])), k)))
    ensures ctr[..12] == old(ctr[..12]) && Load32(ctr[12..]) == Plus(Load32(old(ctr[12..])), 4)
  {
    hide Be32, Load32, Next, Plus;
    ghost var p, c := ctr[..12], Load32(ctr[12..]);
    PlusNone(c);
    var b: seq<Block> := [];
    for i := 0 to 4
      invariant |b| == i && ctr[..12] == p && Load32(ctr[12..]) == Plus(c, i)
      invariant forall k :: 0 <= k < i ==> b[k] == CtrBlock(p, Plus(c, k))
    {
      Be32Load32(ctr[12..]);
      assert ctr[..] == CtrBlock(p, Plus(c, i));
      b := b + [ctr[..]];
      PlusNext(c, i);
      Increment(ctr);
    }
    ks := seq(4, i requires 0 <= i < 4 => enc(b[i]));
  }

  /** aes_ctr_x86 */
  method X86(enc: Cipher, ctr: array<byte>, inp: array<byte>, out: array<byte>, len: nat)
    requires ctr.Length == 16 && ctr != inp && ctr != out
    requires len <= inp.Length && len <= out.Length
    modifies ctr, out
    ensures ctr[..12] == old(ctr[..12]) && Load32(ctr[12..]) == After(Load32(old(ctr[12..])), len)
    ensures out[..len] == Xcrypt(enc, old(ctr[..12]), Load32(old(ctr[12..])), old(inp[..len]))
    ensures out[len..] == old(out[len..])
  {
    hide Load32, Next, XorSeq, CtrBlock, After, Xcrypt, Plus;
    ghost var p, c, src := ctr[..12], Load32(ctr[12..]), inp[..len];
    AfterNone(c);
    var pos := 0;
    while len - pos >= 64
      invariant pos <= len && pos % 16 == 0
      invariant forall k :: pos <= k < len ==> inp[k] == src[k]
      invariant ctr[..12] == p
      invariant Load32(ctr[12..]) == After(c, pos)
      invariant Progress(enc, p, c, src, Load32(ctr[12..]), out[..pos])
      invariant forall k :: len <= k < out.Length ==> out[k] == old(out[k])
    {
      ghost var c' := Load32(ctr[12..]);
      var ks := FourKeys(enc, ctr);
      XorFour(enc, inp, out, pos, ks, p, c, src, c');
      AfterFour(c, pos);
      pos := pos + 64;
    }
    Tail(enc, ctr, inp, out, pos, len, p, c, src);
  }

  method XorFour(enc: Cipher, inp: array<byte>, out: array<byte>, pos: nat, ks: seq<Block>,
                 ghost p: seq<byte>, ghost c: nat, ghost src: seq<byte>, ghost c': nat)
    requires |p| == 12 && pos + 64 <= |src| && |src| <= inp.Length && |src| <= out.Length && c' < W32
    requires |ks| == 4 && forall k :: 0 <= k < 4 ==> ks[k] == enc(CtrBlock(p, Plus(c', k)))
    requires forall k :: pos <= k < |src| ==> inp[k] == src[k]
    requires Progress(enc, p, c, src, c', out[..pos])
    modifies out
    ensures Progress(enc, p, c, src, Plus(c', 4), out[..pos + 64])
    ensures forall k :: pos + 64 <= k < |src| ==> inp[k] == src[k]
    ensures forall k :: pos + 64 <= k < out.Length ==> out[k] == old(out[k])
  {
    hide XorSeq, CtrBlock, Xcrypt, Plus, Next, Progress;
    PlusNone(c');
    for i := 0 to 4
      invariant Progress(enc, p, c, src, Plus(c', i), out[..pos + 16 * i])
      invariant forall k :: pos + 16 * i <= k < |src| ==> inp[k] == src[k]
      invariant forall k :: pos + 16 * i <= k < out.Length ==> out[k] == old(out[k])
    {
      ghost var before, at := out[..], pos + 16 * i;
      ProgressStep(enc, p, c, src, Plus(c', i), out[..at], 16);
      PlusNext(c', i);
      assert inp[at..at + 16] == src[at..at + 16];
      XorAt(inp, out, pos + 16 * i, 16, ks[i]);
      assert out[..at + 16] == before[..at] + out[at..at + 16];
    }
  }
}
