/** The cipher interface a shard sees, and the ciphers that satisfy it. */
module Aead {
  import opened Bytes
  import opened AeadCommon
  import opened KeySchedule
  import Ctr
  import Gcm
  import Chap

  /** seal and open as functions of key, nonce, associated data and text. spill is
      what open leaves in its output buffer, which for some ciphers happens even
      when the tag does not verify. An empty seal means failure. */
  datatype Cipher = Cipher(seal: (Key, seq<byte>, seq<byte>, seq<byte>) -> seq<byte>,
                           open: (Key, seq<byte>, seq<byte>, seq<byte>) -> Opened,
                           spill: (Key, seq<byte>, seq<byte>, seq<byte>) -> seq<byte>)

  /** What the buffers of a shard rely on */
  ghost predicate Bounded(a: Cipher)
  {
    && (forall k: Key, n, ad, pt :: a.seal(k, n, ad, pt) == [] || |a.seal(k, n, ad, pt)| == |pt| + 16)
    && (forall k: Key, n, ad, ct :: |a.spill(k, n, ad, ct)| <= (if |ct| < 16 then 0 else |ct| - 16))
    && (forall k: Key, n, ad, ct :: a.open(k, n, ad, ct).Plain? ==> a.open(k, n, ad, ct).text == a.spill(k, n, ad, ct))
  }

  /** What its correctness relies on */
  ghost predicate Lawful(a: Cipher)
  {
    && Bounded(a)
    && forall k: Key, n, ad, pt :: |n| == 12 ==>
         |a.seal(k, n, ad, pt)| == |pt| + 16 && a.open(k, n, ad, a.seal(k, n, ad, pt)) == Plain(pt)
  }

  // ---- the local AES-256-GCM, for any block cipher ---------------------------------

  function GcmSeal(block: Key -> Ctr.Cipher, k: Key, n: seq<byte>, ad: seq<byte>, pt: seq<byte>): seq<byte>
  {
    if |n| == 12 then Gcm.SealSpec(block(k), n, ad, pt) else []
  }

  function GcmOpen(block: Key -> Ctr.Cipher, k: Key, n: seq<byte>, ad: seq<byte>, ct: seq<byte>): Opened
  {
    if |n| == 12 then Gcm.OpenSpec(block(k), n, ad, ct) else Failed
  }

  /** The decryption is written out whether or not the tag verifies. */
  function GcmSpill(block: Key -> Ctr.Cipher, k: Key, n: seq<byte>, ad: seq<byte>, ct: seq<byte>): seq<byte>
  {
    if |n| == 12 && |ct| >= 16 then Ctr.Xcrypt(block(k), n, 2, ct[..|ct| - 16]) else []
  }

  function GcmCipher(block: Key -> Ctr.Cipher): Cipher
  {
    Cipher((k: Key, n: seq<byte>, ad: seq<byte>, pt: seq<byte>) => GcmSeal(block, k, n, ad, pt),
           (k: Key, n: seq<byte>, ad: seq<byte>, ct: seq<byte>) => GcmOpen(block, k, n, ad, ct),
           (k: Key, n: seq<byte>, ad: seq<byte>, ct: seq<byte>) => GcmSpill(block, k, n, ad, ct))
  }

  lemma GcmLawful(block: Key -> Ctr.Cipher)
    ensures Lawful(GcmCipher(block))
  {
    hide Gcm.SealSpec, Gcm.OpenSpec, Ctr.Xcrypt;
    var a := GcmCipher(block);
    forall k: Key, n, ad, ct
      ensures a.open(k, n, ad, ct).Plain? ==> a.open(k, n, ad, ct).text == a.spill(k, n, ad, ct)
    {
      if |n| == 12 { GcmOpenText(block(k), n, ad, ct); }
    }
    forall k: Key, n, ad, pt | |n| == 12
      ensures |a.seal(k, n, ad, pt)| == |pt| + 16 && a.open(k, n, ad, a.seal(k, n, ad, pt)) == Plain(pt)
    {
      Gcm.OpenSeal(block(k), n, ad, pt);
    }
  }

  lemma GcmOpenText(enc: Ctr.Cipher, n: seq<byte>, ad: seq<byte>, ct: seq<byte>)
    requires |n| == 12
    ensures Gcm.OpenSpec(enc, n, ad, ct).Plain? ==>
      |ct| >= 16 && Gcm.OpenSpec(enc, n, ad, ct).text == Ctr.Xcrypt(enc, n, 2, ct[..|ct| - 16])
  {
    hide Gcm.Tag, Ctr.Xcrypt;
  }

  // ---- the local ChaCha20-Poly1305 ---------------------------------------------------

  function ChapSeal(k: Key, n: seq<byte>, ad: seq<byte>, pt: seq<byte>): seq<byte>
  {
    if |n| == 12 then Chap.SealSpec(k, n, ad, pt) else []
  }

  function ChapOpen(k: Key, n: seq<byte>, ad: seq<byte>, ct: seq<byte>): Opened
  {
    if |n| == 12 then Chap.OpenSpec(k, n, ad, ct) else Failed
  }

  /** Nothing is written unless the tag verifies. */
  function ChapSpill(k: Key, n: seq<byte>, ad: seq<byte>, ct: seq<byte>): seq<byte>
  {
    match ChapOpen(k, n, ad, ct)
    case Failed => []
    case Plain(t) => t
  }

  function ChapCipher(): Cipher
  {
    Cipher((k: Key, n: seq<byte>, ad: seq<byte>, pt: seq<byte>) => ChapSeal(k, n, ad, pt),
           (k: Key, n: seq<byte>, ad: seq<byte>, ct: seq<byte>) => ChapOpen(k, n, ad, ct),
           (k: Key, n: seq<byte>, ad: seq<byte>, ct: seq<byte>) => ChapSpill(k, n, ad, ct))
  }

  lemma ChapLawful()
    ensures Lawful(ChapCipher())
  {
    hide Chap.SealSpec, Chap.OpenSpec;
    var a := ChapCipher();
    forall k: Key, n, ad, ct ensures |a.spill(k, n, ad, ct)| <= (if |ct| < 16 then 0 else |ct| - 16) {
      if |n| == 12 { ChapOpenLength(k, n, ad, ct); }
    }
    forall k: Key, n, ad, pt | |n| == 12
      ensures |a.seal(k, n, ad, pt)| == |pt| + 16 && a.open(k, n, ad, a.seal(k, n, ad, pt)) == Plain(pt)
    {
      Chap.OpenSeal(k, n, ad, pt);
    }
  }

  lemma ChapOpenLength(k: Key, n: seq<byte>, ad: seq<byte>, ct: seq<byte>)
    requires |n| == 12
    ensures Chap.OpenSpec(k, n, ad, ct).Plain? ==> |ct| >= 16 && |Chap.OpenSpec(k, n, ad, ct).text| == |ct| - 16
  {
    hide Chap.Tag, Chap.Crypt;
  }

  // ---- the null control ----------------------------------------------------------------

  /** The nonce, repeated, in place of a tag */
  function NullTag(n: seq<byte>): (r: seq<byte>)
    ensures |r| == 16
  {
    seq(16, i requires 0 <= i < 16 => if i % 12 < |n| then n[i % 12] else 0)
  }

  function NullBody(ct: seq<byte>): seq<byte> { if |ct| < 16 then [] else ct[..|ct| - 16] }

  function NullCipher(): Cipher
  {
    Cipher((k: Key, n: seq<byte>, ad: seq<byte>, pt: seq<byte>) => pt + NullTag(n),
           (k: Key, n: seq<byte>, ad: seq<byte>, ct: seq<byte>) => if |ct| < 16 then Failed else Plain(NullBody(ct)),
           (k: Key, n: seq<byte>, ad: seq<byte>, ct: seq<byte>) => NullBody(ct))
  }

  /** The null control copies the text and appends the nonce, repeated to sixteen bytes. */
  lemma NullSeals(k: Key, n: seq<byte>, ad: seq<byte>, pt: seq<byte>, i: nat)
    requires |n| == 12
    ensures var s := NullCipher().seal(k, n, ad, pt);
      && |s| == |pt| + 16 && s[..|pt|] == pt
      && (i < 12 ==> s[|pt| + i] == n[i]) && (i < 4 ==> s[|pt| + 12 + i] == n[i])
  {}

  lemma NullLawful()
    ensures Lawful(NullCipher())
  {
    var a := NullCipher();
    forall k: Key, n, ad, pt | |n| == 12
      ensures |a.seal(k, n, ad, pt)| == |pt| + 16 && a.open(k, n, ad, a.seal(k, n, ad, pt)) == Plain(pt)
    {
      assert NullBody(pt + NullTag(n)) == pt;
    }
  }

  // ---- two endpoints -----------------------------------------------------------------------

  /** A packet sealed at quotient q opens at a peer with the same secret at q or
      q + 1, whatever path either took through its epochs one by one. */
  lemma PeerOpens<C>(a: Cipher, cfg: Config<C>, secret: C, sent: seq<nat>, seen: seq<nat>, seqno: nat,
                     ad: seq<byte>, pt: seq<byte>)
    requires Lawful(a) && cfg.perEpoch > 0 && cfg.known
    requires Steady(cfg, sent) && Steady(cfg, seen)
    requires Quotient(cfg, seen) == Quotient(cfg, sent) || Quotient(cfg, seen) == Quotient(cfg, sent) + 1
    ensures
      var tx, rx := RunKeys(cfg, Start(cfg, secret), sent), RunKeys(cfg, Start(cfg, secret), seen);
      var e := tx.epoch;
      && CipherFor(tx, e).Some? && CipherFor(rx, e).Some?
      && a.open(CipherFor(rx, e).value, NonceFor(rx, e, seqno), ad,
                a.seal(CipherFor(tx, e).value, NonceFor(tx, e, seqno), ad, pt)) == Plain(pt)
  {
    hide RunKeys, At, ChainAt, Steady, Quotient, SaltFor, CipherFor;
    var q, q' := Quotient(cfg, sent), Quotient(cfg, seen);
    SteadyState(cfg, secret, sent);
    SteadyState(cfg, secret, seen);
    AtSlots(cfg, secret, q);
    PeerWindow(cfg, secret, q, q);
    PeerWindow(cfg, secret, q, q');
    var tx, rx := RunKeys(cfg, Start(cfg, secret), sent), RunKeys(cfg, Start(cfg, secret), seen);
    assert CipherFor(tx, tx.epoch) == CipherFor(rx, tx.epoch) && CipherFor(tx, tx.epoch).Some?;
    assert NonceFor(rx, tx.epoch, seqno) == NonceFor(tx, tx.epoch, seqno);
  }
}
