/** What a datagram that does not verify changes in a shard: the window, which
    records its number, and the plain buffer, when the cipher writes to it. */
module Unverified {
  import opened Bytes
  import opened AeadCommon
  import opened Aead
  import opened Wire
  import opened ShardSpec
  import opened Loopback
  import opened WordBits
  import KS = KeySchedule
  import RW = ReplayWindow
  import Ctr
  import Gcm
  import Chap

  // ---- the window ----------------------------------------------------------------------

  /** After one datagram with the last number of all, verified or not, every packet
      numbered below 2^64 - 1024 is refused, and only those. */
  lemma LastNumberShuts<C>(cfg: Config<C>, secret: C, d: seq<byte>, p: seq<byte>)
    requires cfg.replay && WellFormed(d) && Decode(d).seqno == W64 - 1
    requires WellFormed(p) && Decode(p).seqno != W64 - 1
    ensures var s := Start(cfg, secret);
      Handle(cfg, Run(cfg, s, [Receive(d)]).state, p).effect.verdict == Replayed <==>
          Decode(p).seqno < W64 - WINDOW_BITS
  {
    hide Run, Handle, Decode, Start, RW.Run, RW.Admits, Numbers;
    StartWindow(cfg, secret);
    RefusedIff(cfg, Start(cfg, secret), [Receive(d)], p);
    NumberFits(p);
    OneNumber(d);
    WindowAfter(W64 - 1);
    ShutBelow(Decode(p).seqno);
  }

  lemma StartWindow<C>(cfg: Config<C>, secret: C)
    ensures Start(cfg, secret).window == RW.Fresh(WINDOW_BITS)
  {}

  lemma ShutBelow(x: U64)
    requires x != W64 - 1
    ensures !RW.Admits(RW.View(WINDOW_BITS, {W64 - 1}, W64 - 1, 0, 0), x) <==> x < W64 - WINDOW_BITS
  {}

  lemma OneNumber(d: seq<byte>)
    requires WellFormed(d)
    ensures Numbers([Receive(d)]) == [Decode(d).seqno]
  {
    hide Decode;
    var es := [Receive(d)];
    assert es[..0] == [];
    assert Numbers(es[..0]) == [];
  }

  lemma WindowAfter(x: nat)
    ensures RW.Run(RW.Fresh(WINDOW_BITS), [x]) == RW.View(WINDOW_BITS, {x}, x, 0, 0)
  {
    assert [x][..0] == [];
  }

  /** A datagram of an epoch the shard has no cipher for */
  function Stray(): seq<byte>
  {
    Encode(Wire.Header(MAGIC, DATA_TYPE, 1, 0, W64 - 1, 0)) + seq(TAG_SIZE, _ => 0)
  }

  lemma StrayFails<C>(cfg: Config<C>, secret: C)
    ensures WellFormed(Stray()) && Decode(Stray()).seqno == W64 - 1
    ensures Handle(cfg, Start(cfg, secret), Stray()).effect.verdict == Unauthentic
  {
    hide Encode, Decode, Pow256, Pattern, Stray;
    StrayHeader();
    var h := Wire.Header(MAGIC, DATA_TYPE, 1, 0, W64 - 1, 0);
    assert KS.CipherFor(KS.Start(cfg.keys, secret), 1).None?;
    assert RW.Admits(RW.Fresh(WINDOW_BITS), W64 - 1);
  }

  lemma StrayHeader()
    ensures |Stray()| == HEADER_SIZE + TAG_SIZE
    ensures Decode(Stray()) == Wire.Header(MAGIC, DATA_TYPE, 1, 0, W64 - 1, 0)
  {
    hide Encode, Decode, Pow256;
    Widths();
    DecodeEncode(Wire.Header(MAGIC, DATA_TYPE, 1, 0, W64 - 1, 0), seq(TAG_SIZE, _ => 0));
  }

  /** One stray datagram, and a genuine packet that would be sent on is refused. */
  lemma StrayRefusesGenuine<C>(cfg: Config<C>, secret: C, text: seq<byte>, p: seq<byte>)
    requires Fixed(cfg, Start(cfg, secret).keys) && Own(cfg, Start(cfg, secret).keys, text, p) &&
      text <= Start(cfg, secret).plain
    requires Decode(p).seqno < W64 - WINDOW_BITS
    ensures var s := Start(cfg, secret);
      && Handle(cfg, s, p).effect.verdict == Emitted
      && Handle(cfg, Run(cfg, s, [Receive(Stray())]).state, p).effect.verdict == Replayed
  {
    hide Own, Handle, Run, Decode, Stray, Start, WellFormed, Fixed, OpensTo, KS.Sound, Lawful;
    var s := Start(cfg, secret);
    FixedMeans(cfg, s.keys);
    OwnOpens(cfg, s.keys, text, p);
    OpensFormed(cfg, s.keys, text, p);
    HandleOwn(cfg, s, text, p);
    StartAdmits(cfg, secret, Decode(p).seqno);
    StrayFails(cfg, secret);
    LastNumberShuts(cfg, secret, Stray(), p);
  }

  lemma OpensFormed<C>(cfg: Config<C>, k: KS.Keys<C>, text: seq<byte>, p: seq<byte>)
    requires OpensTo(cfg, k, text, p)
    ensures WellFormed(p) && |p| >= HEADER_SIZE
  {}

  lemma StartAdmits<C>(cfg: Config<C>, secret: C, x: nat)
    ensures RW.Admits(Start(cfg, secret).window, x)
  {}

  lemma FixedMeans<C>(cfg: Config<C>, k: KS.Keys<C>)
    requires Fixed(cfg, k)
    ensures Lawful(cfg.aead) && KS.Sound(cfg.keys, k) && cfg.replay
  {}

  // ---- a datagram that reaches open and fails ------------------------------------------------

  /** The first byte of a tag changed */
  function Altered(t: seq<byte>): (r: seq<byte>)
    requires |t| == TAG_SIZE
    ensures |r| == TAG_SIZE && r != t
  {
    var b := XorByte(t[0], 1);
    assert b != t[0];
    [b] + t[1..]
  }

  /** The header of current-epoch packet 2^64 - 1 and an altered tag */
  function Forged<C>(cfg: Config<C>, secret: C): seq<byte>
    requires cfg.keys.known && Lawful(cfg.aead)
  {
    var k, head := KS.Start(cfg.keys, secret), Encode(Wire.Header(MAGIC, DATA_TYPE, 0, 0, W64 - 1, 0));
    var n := KS.NonceFor(k, 0, W64 - 1);
    SealsTag(cfg.aead, k.current.cipher.value, n, head);
    head + Altered(cfg.aead.seal(k.current.cipher.value, n, head, []))
  }

  lemma SealsTag(a: Cipher, k: KS.Key, n: seq<byte>, ad: seq<byte>)
    requires Lawful(a) && |n| == 12
    ensures |a.seal(k, n, ad, [])| == TAG_SIZE
  {}

  lemma GcmRejects(enc: Ctr.Cipher, n: seq<byte>, ad: seq<byte>, t: seq<byte>)
    requires |n| == 12 && |t| == 16 && t != Gcm.SealSpec(enc, n, ad, [])
    ensures Gcm.OpenSpec(enc, n, ad, t) == Failed
  {
    hide Gcm.OpenSpec, Gcm.SealSpec;
    if Gcm.OpenSpec(enc, n, ad, t).Plain? {
      GcmOpenText(enc, n, ad, t);
      Gcm.OpenedWasSealed(enc, n, ad, t);
    }
  }

  lemma ChapRejects(k: KS.Key, n: seq<byte>, ad: seq<byte>, t: seq<byte>)
    requires |n| == 12 && |t| == 16 && t != Chap.SealSpec(k, n, ad, [])
    ensures Chap.OpenSpec(k, n, ad, t) == Failed
  {
    hide Chap.OpenSpec, Chap.SealSpec;
    if Chap.OpenSpec(k, n, ad, t).Plain? {
      ChapOpenLength(k, n, ad, t);
      Chap.OpenedWasSealed(k, n, ad, t);
    }
  }

  lemma ForgedHeader<C>(cfg: Config<C>, secret: C)
    requires cfg.keys.known && Lawful(cfg.aead)
    ensures var f, h := Forged(cfg, secret), Wire.Header(MAGIC, DATA_TYPE, 0, 0, W64 - 1, 0);
      |f| == HEADER_SIZE + TAG_SIZE && Decode(f) == h && f[..HEADER_SIZE] == Encode(h)
  {
    hide Encode, Decode, Pow256, Altered, KS.Start, KS.NonceFor, Lawful;
    Widths();
    var h, f := Wire.Header(MAGIC, DATA_TYPE, 0, 0, W64 - 1, 0), Forged(cfg, secret);
    assert f[..HEADER_SIZE] == Encode(h);
    assert f == Encode(h) + f[HEADER_SIZE..];
    DecodeEncode(h, f[HEADER_SIZE..]);
  }

  /** With either local cipher the altered tag does not verify: the datagram is handed
      to open, refused there, and its number is recorded all the same. */
  lemma ForgedFails<C>(cfg: Config<C>, secret: C, block: KS.Key -> Ctr.Cipher)
    requires cfg.keys.known && cfg.replay && Lawful(cfg.aead) &&
      (cfg.aead == GcmCipher(block) || cfg.aead == ChapCipher())
    ensures var d := Forged(cfg, secret);
      && WellFormed(d) && Decode(d).seqno == W64 - 1
      && Handle(cfg, Start(cfg, secret), d).effect.verdict == Unauthentic
      && Handle(cfg, Start(cfg, secret), d).effect.tried == [W64 - 1]
  {
    hide Encode, Decode, Pattern, Lawful, KS.NonceFor, KS.Start, KS.CipherFor, Forged, Forward;
    var d, k := Forged(cfg, secret), KS.Start(cfg.keys, secret);
    ForgedHeader(cfg, secret);
    ForgedRefused(cfg, secret, block);
    assert RW.Admits(RW.Fresh(WINDOW_BITS), W64 - 1);
  }

  lemma ForgedRefused<C>(cfg: Config<C>, secret: C, block: KS.Key -> Ctr.Cipher)
    requires cfg.keys.known && Lawful(cfg.aead) && (cfg.aead == GcmCipher(block) || cfg.aead == ChapCipher())
    ensures var d, k := Forged(cfg, secret), KS.Start(cfg.keys, secret);
      && |d| >= HEADER_SIZE && KS.CipherFor(k, 0).Some?
      && cfg.aead.open(KS.CipherFor(k, 0).value, KS.NonceFor(k, 0, W64 - 1),
                       d[..HEADER_SIZE], d[HEADER_SIZE..]) == Failed
  {
    hide Encode, KS.NonceFor, Altered, Gcm.SealSpec, Gcm.OpenSpec, Chap.SealSpec, Chap.OpenSpec, Lawful;
    var d, k := Forged(cfg, secret), KS.Start(cfg.keys, secret);
    var head := Encode(Wire.Header(MAGIC, DATA_TYPE, 0, 0, W64 - 1, 0));
    var n, key := KS.NonceFor(k, 0, W64 - 1), k.current.cipher.value;
    var t := d[HEADER_SIZE..];
    assert d[..HEADER_SIZE] == head;
    assert |t| == TAG_SIZE && t != cfg.aead.seal(key, n, head, []);
    if cfg.aead == GcmCipher(block) { GcmRejects(block(key), n, head, t); } else { ChapRejects(key, n, head, t); }
  }

  /** One forged datagram, and every packet numbered below 2^64 - 1024 is refused. */
  lemma ForgedShuts<C>(cfg: Config<C>, secret: C, block: KS.Key -> Ctr.Cipher, p: seq<byte>)
    requires cfg.keys.known && cfg.replay && Lawful(cfg.aead) &&
      (cfg.aead == GcmCipher(block) || cfg.aead == ChapCipher())
    requires WellFormed(p) && Decode(p).seqno < W64 - WINDOW_BITS
    ensures var s := Run(cfg, Start(cfg, secret), [Receive(Forged(cfg, secret))]).state;
      Handle(cfg, s, p).effect.verdict == Replayed
  {
    hide Handle, Run, Decode, Forged, Pattern, WellFormed, Lawful, KS.Start;
    ForgedFails(cfg, secret, block);
    LastNumberShuts(cfg, secret, Forged(cfg, secret), p);
  }

  // ---- the plain buffer -------------------------------------------------------------------------

  /** The local AES-GCM leaves its decryption in plain though the tag fails, and the
      next packet made seals those bytes. */
  lemma GcmSpills<C>(cfg: Config<C>, block: KS.Key -> Ctr.Cipher, s: State<C>, d: seq<byte>, tsc: U64)
    requires cfg.aead == GcmCipher(block) && WellFormed(d) && cfg.payload <= |s.plain|
    requires cfg.replay ==> RW.Admits(s.window, Decode(d).seqno)
    requires KS.CipherFor(s.keys, Decode(d).epoch).Some? && Handle(cfg, s, d).effect.verdict == Unauthentic
    ensures var o, h := Handle(cfg, s, d), Decode(d);
      var key := KS.CipherFor(s.keys, h.epoch).value;
      var n, c := KS.NonceFor(s.keys, h.epoch, h.seqno), d[HEADER_SIZE..|d| - TAG_SIZE];
      var left := Overlay(s.plain, Ctr.Xcrypt(block(key), n, 2, c));
      && o.state.plain == left && cfg.payload <= |left|
      && MakePacket(cfg, o.state, tsc) == SealNext(cfg, o.state, Blank(tsc), left[..cfg.payload])
  {
    hide Handle, Decode, WellFormed, KS.NonceFor, KS.CipherFor, Overlay, RW.Admits, SealNext, Ctr.Xcrypt, Written,
      GcmCipher;
    GcmWritten(cfg, block, s, d);
    HandlePlain(cfg, s, d);
    PlainGrows(cfg, s, Receive(d));
  }

  lemma GcmWritten<C>(cfg: Config<C>, block: KS.Key -> Ctr.Cipher, s: State<C>, d: seq<byte>)
    requires cfg.aead == GcmCipher(block) && WellFormed(d) && (cfg.replay ==> RW.Admits(s.window, Decode(d).seqno))
    requires KS.CipherFor(s.keys, Decode(d).epoch).Some?
    ensures |d| >= HEADER_SIZE + TAG_SIZE
    ensures var h := Decode(d); var key := KS.CipherFor(s.keys, h.epoch).value;
      Written(cfg, s, d) ==
        Ctr.Xcrypt(block(key), KS.NonceFor(s.keys, h.epoch, h.seqno), 2, d[HEADER_SIZE..|d| - TAG_SIZE])
  {
    hide Decode, KS.NonceFor, KS.CipherFor, RW.Admits, Ctr.Xcrypt;
    var ct := d[HEADER_SIZE..];
    assert ct[..|ct| - 16] == d[HEADER_SIZE..|d| - TAG_SIZE];
  }

  /** ChaCha20-Poly1305 writes nothing unless the tag verifies. */
  lemma ChapKeeps<C>(cfg: Config<C>, s: State<C>, d: seq<byte>)
    requires cfg.aead == ChapCipher()
    ensures Handle(cfg, s, d).effect.verdict == Unauthentic ==> Handle(cfg, s, d).state.plain == s.plain
  {
    hide Handle, Decode, KS.NonceFor, KS.CipherFor, RW.Admits, Chap.OpenSpec;
    UnauthenticIff(cfg, s, d);
    HandlePlain(cfg, s, d);
    assert Overlay(s.plain, []) == s.plain;
  }

  /** A current-epoch datagram whose one byte of text differs from the first byte of
      plain, correctly encrypted, with an altered tag */
  function Spilling<C>(cfg: Config<C>, secret: C, block: KS.Key -> Ctr.Cipher): seq<byte>
    requires cfg.keys.known
  {
    var s, head := Start(cfg, secret), SpillHead();
    var enc, n := block(s.keys.current.cipher.value), KS.NonceFor(s.keys, 0, 0);
    var c := Ctr.Xcrypt(enc, n, 2, [XorByte(s.plain[0], 1)]);
    head + (c + Altered(Gcm.Tag(enc, n, head, c)))
  }

  function SpillHead(): (r: seq<byte>)
    ensures |r| == HEADER_SIZE
  {
    Encode(Wire.Header(MAGIC, DATA_TYPE, 0, 0, 0, 0))
  }

  lemma SpillHeader(rest: seq<byte>)
    ensures Decode(SpillHead() + rest) == Wire.Header(MAGIC, DATA_TYPE, 0, 0, 0, 0)
  {
    hide Encode, Decode, Pow256;
    Widths();
    DecodeEncode(Wire.Header(MAGIC, DATA_TYPE, 0, 0, 0, 0), rest);
  }

  /** It does not open, and what open leaves is the byte that differs. */
  lemma SpillOpens(enc: Ctr.Cipher, n: seq<byte>, ad: seq<byte>, b: byte)
    requires |n| == 12
    ensures var c := Ctr.Xcrypt(enc, n, 2, [b]); var ct := c + Altered(Gcm.Tag(enc, n, ad, c));
      |ct| == 17 && Gcm.OpenSpec(enc, n, ad, ct) == Failed && Ctr.Xcrypt(enc, n, 2, ct[..1]) == [b]
  {
    hide Gcm.Tag, Ctr.Xcrypt, Altered;
    var c := Ctr.Xcrypt(enc, n, 2, [b]);
    var ct := c + Altered(Gcm.Tag(enc, n, ad, c));
    assert ct[..|ct| - 16] == c && ct[|ct| - 16..] == Altered(Gcm.Tag(enc, n, ad, c));
    Ctr.XcryptInverse(enc, n, 2, [b]);
  }

  /** At a new shard it is refused by the tag and changes the payload bytes. */
  lemma SpillChanges<C>(cfg: Config<C>, secret: C, block: KS.Key -> Ctr.Cipher)
    requires cfg.keys.known && cfg.aead == GcmCipher(block) && cfg.payload > 0
    ensures var s, d := Start(cfg, secret), Spilling(cfg, secret, block); var o := Handle(cfg, s, d);
      && o.effect.verdict == Unauthentic && cfg.payload <= |o.state.plain|
      && o.state.plain[..cfg.payload] == [XorByte(s.plain[0], 1)] + s.plain[1..cfg.payload]
      && o.state.plain[..cfg.payload] != s.plain[..cfg.payload]
  {
    hide Spilling, Handle, KS.NonceFor, KS.CipherFor, WellFormed, Decode, GcmCipher, Start, Written, Overlay;
    var s, d := Start(cfg, secret), Spilling(cfg, secret, block);
    SpillFacts(cfg, secret, block);
    StartWindow(cfg, secret);
    assert RW.Admits(s.window, 0);
    OpenFails(cfg, s, d);
    HandlePlain(cfg, s, d);
    FirstByte(s.plain, cfg.payload);
  }

  /** A datagram that reaches open and fails there is counted as unauthentic. */
  lemma OpenFails<C>(cfg: Config<C>, s: State<C>, d: seq<byte>)
    requires WellFormed(d) && RW.Admits(s.window, Decode(d).seqno) && KS.CipherFor(s.keys, Decode(d).epoch).Some?
    requires var h := Decode(d);
      cfg.aead.open(KS.CipherFor(s.keys, h.epoch).value, KS.NonceFor(s.keys, h.epoch, h.seqno),
                    d[..HEADER_SIZE], d[HEADER_SIZE..]) == Failed
    ensures Handle(cfg, s, d).effect.verdict == Unauthentic
  {
    hide Handle, Decode, WellFormed, KS.CipherFor, KS.NonceFor, RW.Admits;
    UnauthenticIff(cfg, s, d);
  }

  lemma FirstByte(p: seq<byte>, n: nat)
    requires 0 < n <= |p|
    ensures var b := XorByte(p[0], 1); var o := Overlay(p, [b]);
      n <= |o| && o[..n] == [b] + p[1..n] && o[..n] != p[..n]
  {
    var b := XorByte(p[0], 1);
    assert b != p[0];
    var o := Overlay(p, [b]);
    assert o[..n] == [b] + p[1..n];
    assert o[..n][0] == b && p[..n][0] == p[0];
  }

  lemma SpillFacts<C>(cfg: Config<C>, secret: C, block: KS.Key -> Ctr.Cipher)
    requires cfg.keys.known && cfg.aead == GcmCipher(block)
    ensures var s, d := Start(cfg, secret), Spilling(cfg, secret, block);
      && WellFormed(d) && Decode(d).epoch == 0 && Decode(d).seqno == 0
      && KS.CipherFor(s.keys, 0).Some?
      && cfg.aead.open(KS.CipherFor(s.keys, 0).value, KS.NonceFor(s.keys, 0, 0),
                       d[..HEADER_SIZE], d[HEADER_SIZE..]) == Failed
      && Written(cfg, s, d) == [XorByte(s.plain[0], 1)]
  {
    hide Decode, Start, KS.Start, KS.NonceFor, KS.CipherFor, SpillHead, Altered, Gcm.Tag, Gcm.OpenSpec, Ctr.Xcrypt;
    hide GcmCipher, Written, WellFormed, RW.Admits;
    var s, d := Start(cfg, secret), Spilling(cfg, secret, block);
    StartCipher(cfg, secret);
    var key, n, b := s.keys.current.cipher.value, KS.NonceFor(s.keys, 0, 0), XorByte(s.plain[0], 1);
    var ct := d[HEADER_SIZE..];
    assert d[..HEADER_SIZE] == SpillHead() && d == SpillHead() + ct;
    SpillOpens(block(key), n, SpillHead(), b);
    SpillHeader(ct);
    GcmOpens(block, key, n, SpillHead(), ct);
    assert ct[..1] == d[HEADER_SIZE..|d| - TAG_SIZE];
    Formed(d);
    StartAdmits(cfg, secret, 0);
    GcmWritten(cfg, block, s, d);
  }

  lemma StartCipher<C>(cfg: Config<C>, secret: C)
    requires cfg.keys.known
    ensures var k := Start(cfg, secret).keys;
      k.current.cipher.Some? && KS.CipherFor(k, 0) == k.current.cipher
  {
    hide Pattern;
  }

  lemma Formed(d: seq<byte>)
    requires |d| >= HEADER_SIZE + TAG_SIZE && Decode(d).magic == MAGIC
    ensures WellFormed(d)
  {
    hide Decode;
  }

  lemma GcmOpens(block: KS.Key -> Ctr.Cipher, k: KS.Key, n: seq<byte>, ad: seq<byte>, ct: seq<byte>)
    requires |n| == 12
    ensures GcmCipher(block).open(k, n, ad, ct) == Gcm.OpenSpec(block(k), n, ad, ct)
  {
    hide Gcm.OpenSpec;
  }
}
