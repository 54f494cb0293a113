/** What the two local AEADs share. */
module AeadCommon {
  import opened Bytes

  datatype Opened = Failed | Plain(text: seq<byte>)

  /** d followed by the fewest zero bytes that complete its last block */
  function PadTo16(d: seq<byte>): (r: seq<byte>)
    ensures |r| % 16 == 0
  {
    d + seq((16 - |d| % 16) % 16, _ => 0)
  }

  /** ct_eq16 */
  method TagsEqual(a: seq<byte>, b: seq<byte>) returns (same: bool)
    requires |a| == 16 && |b| == 16
    ensures same <==> a == b
  {
    var d: byte := 0;
    for i := 0 to 16
      invariant d == 0 <==> a[..i] == b[..i]
    {
      OrXor(d, a[i], b[i]);
      d := d | (a[i] ^ b[i]);
      assert a[..i + 1] == a[..i] + [a[i]] && b[..i + 1] == b[..i] + [b[i]];
    }
    same := d == 0;
    assert a[..16] == a && b[..16] == b;
  }

  lemma OrXor(d: byte, a: byte, b: byte)
    ensures d | (a ^ b) == 0 <==> d == 0 && a == b
  {}

  /** n rounded up to whole blocks */
  function Whole(n: nat): (r: nat)
    ensures n <= r < n + 16 && r % 16 == 0
  {
    (n + 15) / 16 * 16
  }

  /** Associated data and ciphertext, each from a block boundary on and followed by
      zeros up to the next, then the lengths */
  ghost predicate LaidOut(x: seq<byte>, aad: seq<byte>, ct: seq<byte>)
  {
    var a, c := Whole(|aad|), Whole(|ct|);
    && |x| == a + c + 16
    && x[..|aad|] == aad && x[a..a + |ct|] == ct
    && (forall i :: |aad| <= i < a ==> x[i] == 0)
    && (forall i :: a + |ct| <= i < a + c ==> x[i] == 0)
  }

  lemma PadToWhole(d: seq<byte>)
    ensures |PadTo16(d)| == Whole(|d|) && PadTo16(d)[..|d|] == d
    ensures forall i :: |d| <= i < Whole(|d|) ==> PadTo16(d)[i] == 0
  {}

  lemma PaddedLayout(aad: seq<byte>, ct: seq<byte>, lengths: seq<byte>)
    requires |lengths| == 16
    ensures LaidOut(PadTo16(aad) + PadTo16(ct) + lengths, aad, ct)
    ensures (PadTo16(aad) + PadTo16(ct) + lengths)[Whole(|aad|) + Whole(|ct|)..] == lengths
  {
    PadToWhole(aad);
    PadToWhole(ct);
    hide PadTo16, Whole;
    var p, q := PadTo16(aad), PadTo16(ct);
    var x := p + q + lengths;
    assert x[..|aad|] == p[..|aad|];
    assert x[|p|..|p| + |ct|] == q[..|ct|];
    assert forall i :: |p| <= i < |p| + |q| ==> x[i] == q[i - |p|];
  }

  lemma LaidOutLength(x: seq<byte>, aad: seq<byte>, ct: seq<byte>)
    requires LaidOut(x, aad, ct)
    ensures |x| == Whole(|aad|) + Whole(|ct|) + 16
  {}
}
