/** Two shards with one secret: what one makes, the other handles. */
module Peers {
  import opened Bytes
  import opened AeadCommon
  import opened Aead
  import opened Wire
  import opened ShardSpec
  import opened WordBits
  import KS = KeySchedule
  import RW = ReplayWindow

  /** A shard whose keys came from the secret by a steady path of numbers */
  ghost predicate OnPath<C>(cfg: Config<C>, secret: C, k: KS.Keys<C>, path: seq<nat>)
    requires cfg.keys.perEpoch > 0
  {
    KS.Steady(cfg.keys, path) && k == KS.RunKeys(cfg.keys, KS.Start(cfg.keys, secret), path)
  }

  /** The packet a shard makes next: its header, its number and its epoch */
  lemma Made<C>(cfg: Config<C>, s: State<C>, tsc: U64)
    requires Lawful(cfg.aead) && cfg.keys.known && KS.Sound(cfg.keys, s.keys) && cfg.payload <= |s.plain|
    ensures var o, k := MakePacket(cfg, s, tsc), KS.Rekey(cfg.keys, s.keys, s.seqno);
      && |o.effect.out| == 1 && |o.effect.out[0]| >= HEADER_SIZE && KS.CipherFor(k, k.epoch).Some?
      && var p := o.effect.out[0];
      && WellFormed(p) && Decode(p).epoch == k.epoch && Decode(p).seqno == s.seqno
      && p[HEADER_SIZE..] == cfg.aead.seal(KS.CipherFor(k, k.epoch).value, KS.NonceFor(k, k.epoch, s.seqno),
                                           p[..HEADER_SIZE], s.plain[..cfg.payload])
  {
    hide Encode, Decode, Pow256, KS.NonceFor, Lawful;
    var k, text := KS.Rekey(cfg.keys, s.keys, s.seqno), s.plain[..cfg.payload];
    var h := ShardSpec.Header(k, Blank(tsc), s.seqno);
    var key, n := KS.CipherFor(k, k.epoch).value, KS.NonceFor(k, k.epoch, s.seqno);
    var body := cfg.aead.seal(key, n, Encode(h), text);
    SealedSize(cfg.aead, key, n, Encode(h), text);
    Widths();
    DecodeEncode(h, body);
    var p := Encode(h) + body;
    assert p[..HEADER_SIZE] == Encode(h) && p[HEADER_SIZE..] == body;
  }

  lemma SealedSize(a: Cipher, key: KS.Key, n: seq<byte>, ad: seq<byte>, text: seq<byte>)
    requires Lawful(a) && |n| == 12
    ensures |a.seal(key, n, ad, text)| == |text| + TAG_SIZE
  {}

  lemma NextOnPath<C>(cfg: KS.Config<C>, k: KS.Keys<C>, path: seq<nat>, seqno: nat)
    ensures KS.RunKeys(cfg, k, path + [seqno]) == KS.Rekey(cfg, KS.RunKeys(cfg, k, path), seqno)
  {
    hide KS.Rekey;
    assert (path + [seqno])[..|path|] == path;
  }

  /** A datagram that the cipher of its epoch opens is sent on, if the window admits it. */
  lemma OpenedIsEmitted<C>(cfg: Config<C>, t: State<C>, p: seq<byte>, text: seq<byte>)
    requires Lawful(cfg.aead) && cfg.keys.known && KS.Sound(cfg.keys, t.keys)
    requires WellFormed(p) && (cfg.replay ==> RW.Admits(t.window, Decode(p).seqno))
    requires KS.CipherFor(t.keys, Decode(p).epoch).Some?
    requires var h := Decode(p);
      cfg.aead.open(KS.CipherFor(t.keys, h.epoch).value, KS.NonceFor(t.keys, h.epoch, h.seqno),
                    p[..HEADER_SIZE], p[HEADER_SIZE..]) == Plain(text)
    ensures var o := Handle(cfg, t, p);
      o.effect.verdict == Emitted && o.effect.tried == [Decode(p).seqno] && o.state.plain == Overlay(t.plain, text)
  {
    hide Decode, KS.CipherFor, KS.NonceFor, KS.Sound, RW.Admits, RW.Step, SealNext, Lawful;
    OpenLeaves(cfg.aead);
    HandlePlain(cfg, t, p);
    forall s1: State<C>, h, x | s1.keys == t.keys ensures SealNext(cfg, s1, h, x).effect.verdict == Emitted {
      AlwaysSeals(cfg, s1, h, x);
    }
  }

  lemma OpenLeaves(a: Cipher)
    requires Lawful(a)
    ensures forall k: KS.Key, n, ad, ct ::
      a.open(k, n, ad, ct).Plain? ==> a.open(k, n, ad, ct).text == a.spill(k, n, ad, ct)
  {}

  /** A packet made at quotient q is opened and sent on by a peer at q or q + 1, both
      on steady paths from one secret, whenever the peer's window admits its number;
      and the text the peer holds is the text that was sealed. */
  lemma PeerSendsOn<C>(cfg: Config<C>, peer: Config<C>, secret: C, s: State<C>, sent: seq<nat>, tsc: U64,
                       t: State<C>, seen: seq<nat>)
    requires Lawful(cfg.aead) && cfg.keys.known && cfg.keys.perEpoch > 0 && cfg.payload <= |s.plain|
    requires peer.aead == cfg.aead && peer.keys == cfg.keys
    requires OnPath(cfg, secret, s.keys, sent) && KS.Steady(cfg.keys, sent + [s.seqno]) &&
      OnPath(cfg, secret, t.keys, seen)
    requires var q, q' := KS.Quotient(cfg.keys, sent + [s.seqno]), KS.Quotient(cfg.keys, seen); q' == q || q' == q + 1
    ensures |MakePacket(cfg, s, tsc).effect.out| == 1
    ensures var p := MakePacket(cfg, s, tsc).effect.out[0];
      && WellFormed(p) && Decode(p).seqno == s.seqno
      && ((peer.replay ==> RW.Admits(t.window, s.seqno)) ==>
          && Handle(peer, t, p).effect.verdict == Emitted
          && Handle(peer, t, p).state.plain == Overlay(t.plain, s.plain[..cfg.payload]))
  {
    hide MakePacket, Handle, WellFormed, Decode, Lawful, KS.Sound, KS.Steady, KS.Quotient, KS.RunKeys, KS.Start;
    hide KS.CipherFor, KS.NonceFor, KS.Rekey, RW.Admits, Overlay;
    var z, text := KS.Start(cfg.keys, secret), s.plain[..cfg.payload];
    KS.Reachable(cfg.keys, secret, sent);
    KS.Reachable(cfg.keys, secret, seen);
    NextOnPath(cfg.keys, z, sent, s.seqno);
    Made(cfg, s, tsc);
    var p := MakePacket(cfg, s, tsc).effect.out[0];
    PeerOpens(cfg.aead, cfg.keys, secret, sent + [s.seqno], seen, s.seqno, p[..HEADER_SIZE], text);
    if peer.replay ==> RW.Admits(t.window, s.seqno) { OpenedIsEmitted(peer, t, p, text); }
  }

  /** A peer two to 255 epochs on has no cipher for it, and counts it as unauthentic. */
  lemma PeerTooFar<C>(cfg: Config<C>, peer: Config<C>, secret: C, s: State<C>, sent: seq<nat>, tsc: U64,
                      t: State<C>, seen: seq<nat>)
    requires Lawful(cfg.aead) && cfg.keys.known && cfg.keys.perEpoch > 0 && cfg.payload <= |s.plain|
    requires peer.aead == cfg.aead && peer.keys == cfg.keys
    requires OnPath(cfg, secret, s.keys, sent) && KS.Steady(cfg.keys, sent + [s.seqno]) &&
      OnPath(cfg, secret, t.keys, seen)
    requires var q, q' := KS.Quotient(cfg.keys, sent + [s.seqno]), KS.Quotient(cfg.keys, seen); q + 2 <= q' <= q + 255
    requires peer.replay ==> RW.Admits(t.window, s.seqno)
    ensures |MakePacket(cfg, s, tsc).effect.out| == 1
    ensures Handle(peer, t, MakePacket(cfg, s, tsc).effect.out[0]).effect.verdict == Unauthentic
  {
    hide MakePacket, Handle, Decode, Lawful, KS.Sound, KS.Steady, KS.Quotient, KS.RunKeys, KS.Start;
    hide KS.CipherFor, KS.NonceFor, KS.Rekey, RW.Admits, KS.At, KS.EpochSlot;
    var q, q' := KS.Quotient(cfg.keys, sent + [s.seqno]), KS.Quotient(cfg.keys, seen);
    KS.Reachable(cfg.keys, secret, sent);
    NextOnPath(cfg.keys, KS.Start(cfg.keys, secret), sent, s.seqno);
    Made(cfg, s, tsc);
    KS.SteadyState(cfg.keys, secret, sent + [s.seqno]);
    KS.SteadyState(cfg.keys, secret, seen);
    KS.AtSlots(cfg.keys, secret, q);
    KS.PeerWindow(cfg.keys, secret, q, q');
    UnauthenticIff(peer, t, MakePacket(cfg, s, tsc).effect.out[0]);
  }
}
