/** A shard as a state machine: one step per packet made and per datagram
    received, and what holds over every run of such steps. */
module ShardSpec {
  import opened Bytes
  import opened AeadCommon
  import opened Aead
  import opened Wire
  import KS = KeySchedule
  import RW = ReplayWindow
  import Ctr
  import opened WordBits

  datatype Config<!C> = Config(aead: Cipher, keys: KS.Config<C>, payload: nat, replay: bool)

  /** The counters, before they wrap at 64 bits */
  datatype Stats = Stats(packets: nat, bytes: nat, authFail: nat, replayDrop: nat, rekeys: nat)

  datatype State<C> = State(seqno: U64, keys: KS.Keys<C>, window: RW.View, plain: seq<byte>, stats: Stats)

  /** One use of a key to seal */
  datatype Seal = Seal(key: KS.Key, nonce: seq<byte>, seqno: nat)

  datatype Verdict = Malformed | Replayed | Unauthentic | Unsealed | Emitted

  /** What a step did: its verdict, the numbers it handed to open, the keys and
      nonces it sealed with, and the packets it put out */
  datatype Effect = Effect(verdict: Verdict, tried: seq<nat>, seals: seq<Seal>, out: seq<seq<byte>>)

  datatype Outcome<C> = Outcome(state: State<C>, effect: Effect)

  datatype Event = Make(tsc: U64) | Receive(datagram: seq<byte>)

  // ---- a shard as constructed ------------------------------------------------------

  /** The payload every shard starts with */
  function Pattern(n: nat): (r: seq<byte>)
    ensures |r| == n
  {
    seq(n, i requires 0 <= i < n => ByteOf(i * 31 + 7))
  }

  const SLACK: nat := 64
  const WINDOW_BITS: nat := 1024

  /** A shard as constructed */
  function Start<C>(cfg: Config<C>, secret: C): (s: State<C>)
    ensures |s.plain| == cfg.payload + SLACK
  {
    var plain := Pattern(cfg.payload) + seq(SLACK, _ => 0);
    State(0, KS.Start(cfg.keys, secret), RW.Fresh(WINDOW_BITS), plain, Stats(0, 0, 0, 0, 0))
  }

  // ---- the steps -------------------------------------------------------------------

  /** s with its first |t| bytes replaced */
  function Overlay(s: seq<byte>, t: seq<byte>): seq<byte>
  {
    if |t| <= |s| then t + s[|t|..] else t
  }

  function Header<C>(k: KS.Keys<C>, h: Wire.Header, seqno: nat): Wire.Header { h.(epoch := k.epoch, seqno := seqno) }

  /** Sealing the next number: rekey if it is due, then seal under the current
      epoch with the header as associated data */
  function SealNext<C>(cfg: Config<C>, s: State<C>, h: Wire.Header, text: seq<byte>): Outcome<C>
  {
    var k := KS.Rekey(cfg.keys, s.keys, s.seqno);
    var s' := s.(seqno := (s.seqno + 1) % W64, keys := k);
    match KS.CipherFor(k, k.epoch)
    case None => Outcome(s', Effect(Unsealed, [], [], []))
    case Some(key) =>
      var head, n := Encode(Header(k, h, s.seqno)), KS.NonceFor(k, k.epoch, s.seqno);
      var body := cfg.aead.seal(key, n, head, text);
      var used := [Seal(key, n, s.seqno)];
      if body == [] then Outcome(s', Effect(Unsealed, [], used, []))
      else Outcome(s', Effect(Emitted, [], used, [head + body]))
  }

  function Blank(tsc: U64): Wire.Header { Wire.Header(MAGIC, DATA_TYPE, 0, 0, 0, tsc) }

  /** make_packet with the shard's own counter: the payload is whatever plain holds */
  function MakePacket<C>(cfg: Config<C>, s: State<C>, tsc: U64): Outcome<C>
    requires cfg.payload <= |s.plain|
  {
    SealNext(cfg, s, Blank(tsc), s.plain[..cfg.payload])
  }

  predicate WellFormed(d: seq<byte>) { |d| >= HEADER_SIZE + TAG_SIZE && Decode(d).magic == MAGIC }

  /** Too short for a header and a tag, or the first four bytes are not "2PRL" */
  predicate Unreadable(d: seq<byte>) { |d| < 40 || Little32(d, 0) != 0x4C52_5032 }

  lemma WellFormedIff(d: seq<byte>)
    ensures WellFormed(d) <==> !Unreadable(d)
  {
    hide Decode, Little32;
    if |d| >= HEADER_SIZE { FieldsAt(d); }
  }

  /** The verified payload goes out again under the next number. */
  function Forward<C>(cfg: Config<C>, s: State<C>, h: Wire.Header, text: seq<byte>): Outcome<C>
  {
    var o := SealNext(cfg, s, h, text);
    var t := s.stats;
    var t1 := t.(rekeys := t.rekeys + o.state.keys.rekeys - s.keys.rekeys);
    var t2 := if o.effect.verdict == Emitted then t1.(packets := t.packets + 1, bytes := t.bytes + |text|) else t1;
    Outcome(o.state.(stats := t2), o.effect.(tried := [h.seqno]))
  }

  /** Past the window: find the epoch's cipher, open, forward. What open leaves
      behind is in plain even when it fails. */
  function OpenOne<C>(cfg: Config<C>, s: State<C>, d: seq<byte>): Outcome<C>
    requires |d| >= HEADER_SIZE
  {
    var h := Decode(d);
    var failed := s.stats.(authFail := s.stats.authFail + 1);
    match KS.CipherFor(s.keys, h.epoch)
    case None => Outcome(s.(stats := failed), Effect(Unauthentic, [], [], []))
    case Some(key) =>
      var n, ad, ct := KS.NonceFor(s.keys, h.epoch, h.seqno), d[..HEADER_SIZE], d[HEADER_SIZE..];
      var s1 := s.(plain := Overlay(s.plain, cfg.aead.spill(key, n, ad, ct)));
      match cfg.aead.open(key, n, ad, ct)
      case Failed => Outcome(s1.(stats := failed), Effect(Unauthentic, [h.seqno], [], []))
      case Plain(text) => Forward(cfg, s1, h, text)
  }

  /** One datagram. The window records the number before the tag is checked. */
  function Handle<C>(cfg: Config<C>, s: State<C>, d: seq<byte>): Outcome<C>
  {
    if !WellFormed(d) then Outcome(s, Effect(Malformed, [], [], []))
    else if !cfg.replay then OpenOne(cfg, s, d)
    else
      var s1 := s.(window := RW.Step(s.window, Decode(d).seqno));
      if RW.Admits(s.window, Decode(d).seqno) then OpenOne(cfg, s1, d)
      else Outcome(s1.(stats := s.stats.(replayDrop := s.stats.replayDrop + 1)), Effect(Replayed, [], [], []))
  }

  function Step<C>(cfg: Config<C>, s: State<C>, e: Event): Outcome<C>
    requires cfg.payload <= |s.plain|
  {
    match e
    case Make(tsc) => MakePacket(cfg, s, tsc)
    case Receive(d) => Handle(cfg, s, d)
  }

  lemma PlainGrows<C>(cfg: Config<C>, s: State<C>, e: Event)
    requires cfg.payload <= |s.plain|
    ensures |s.plain| <= |Step(cfg, s, e).state.plain|
  {
    hide KS.CipherFor, KS.NonceFor, KS.Rekey, Encode, Decode, RW.Step, RW.Admits;
  }

  datatype Trace<C> = Trace(state: State<C>, effects: seq<Effect>)

  /** The state after a run, and what each of its steps did */
  function Run<C>(cfg: Config<C>, s: State<C>, es: seq<Event>): (r: Trace<C>)
    requires cfg.payload <= |s.plain|
    ensures cfg.payload <= |r.state.plain| && |r.effects| == |es|
  {
    if es == [] then Trace(s, [])
    else
      var t, e := Run(cfg, s, es[..|es| - 1]), es[|es| - 1];
      PlainGrows(cfg, t.state, e);
      var o := Step(cfg, t.state, e);
      Trace(o.state, t.effects + [o.effect])
  }

  lemma RunStep<C>(cfg: Config<C>, s: State<C>, es: seq<Event>, e: Event)
    requires cfg.payload <= |s.plain|
    ensures var t := Run(cfg, s, es); var o := Step(cfg, t.state, e);
      Run(cfg, s, es + [e]) == Trace(o.state, t.effects + [o.effect])
  {
    hide Step;
    assert (es + [e])[..|es|] == es;
  }

  /** Runs compose. */
  lemma {:induction false} RunConcat<C>(cfg: Config<C>, s: State<C>, es: seq<Event>, fs: seq<Event>)
    requires cfg.payload <= |s.plain|
    ensures var t := Run(cfg, s, es); var u := Run(cfg, t.state, fs);
      Run(cfg, s, es + fs) == Trace(u.state, t.effects + u.effects)
    decreases |fs|
  {
    hide Step, Run;
    var t := Run(cfg, s, es);
    if fs == [] {
      assert es + fs == es && t.effects + [] == t.effects;
      RunEmpty(cfg, t.state);
    } else {
      var f, g := fs[..|fs| - 1], fs[|fs| - 1];
      RunConcat(cfg, s, es, f);
      assert es + fs == es + f + [g];
      RunStep(cfg, s, es + f, g);
      assert fs == f + [g];
      RunStep(cfg, t.state, f, g);
      var u := Run(cfg, t.state, f);
      var e := Step(cfg, u.state, g).effect;
      assert (t.effects + u.effects) + [e] == t.effects + (u.effects + [e]);
    }
  }

  lemma RunEmpty<C>(cfg: Config<C>, s: State<C>)
    requires cfg.payload <= |s.plain|
    ensures Run(cfg, s, []) == Trace(s, [])
  {}

  // ---- what is left in plain ---------------------------------------------------------------------

  /** What a datagram puts at the front of plain: nothing if it does not reach open,
      else what open leaves there, verified or not */
  function Written<C>(cfg: Config<C>, s: State<C>, d: seq<byte>): seq<byte>
  {
    if !WellFormed(d) || (cfg.replay && !RW.Admits(s.window, Decode(d).seqno)) then []
    else
      var h := Decode(d);
      match KS.CipherFor(s.keys, h.epoch)
      case None => []
      case Some(key) => cfg.aead.spill(key, KS.NonceFor(s.keys, h.epoch, h.seqno), d[..HEADER_SIZE], d[HEADER_SIZE..])
  }

  /** The cipher of the datagram's epoch does not open it. */
  predicate Fails<C>(cfg: Config<C>, s: State<C>, d: seq<byte>)
    requires |d| >= HEADER_SIZE
  {
    var h := Decode(d);
    match KS.CipherFor(s.keys, h.epoch)
    case None => true
    case Some(key) =>
      cfg.aead.open(key, KS.NonceFor(s.keys, h.epoch, h.seqno), d[..HEADER_SIZE], d[HEADER_SIZE..]) == Failed
  }

  /** Exactly which datagrams count as not authentic. */
  lemma UnauthenticIff<C>(cfg: Config<C>, s: State<C>, d: seq<byte>)
    ensures Handle(cfg, s, d).effect.verdict == Unauthentic <==>
      WellFormed(d) && (cfg.replay ==> RW.Admits(s.window, Decode(d).seqno)) && Fails(cfg, s, d)
  {
    hide KS.CipherFor, KS.NonceFor, Decode, RW.Step, RW.Admits, SealNext;
    forall s1: State<C>, h, text ensures SealNext(cfg, s1, h, text).effect.verdict in {Emitted, Unsealed} {
      SealNextVerdict(cfg, s1, h, text);
    }
  }

  lemma HandlePlain<C>(cfg: Config<C>, s: State<C>, d: seq<byte>)
    ensures Handle(cfg, s, d).state.plain == Overlay(s.plain, Written(cfg, s, d))
  {
    hide KS.CipherFor, KS.NonceFor, KS.Rekey, Encode, Decode, RW.Step, RW.Admits;
  }

  /** t agrees with the start of s, as far as both go. */
  predicate Agrees(s: seq<byte>, t: seq<byte>) { forall i :: 0 <= i < |s| && i < |t| ==> s[i] == t[i] }

  lemma OverlayKeeps(s: seq<byte>, t: seq<byte>, n: nat)
    requires n <= |s|
    ensures n <= |Overlay(s, t)| && (Overlay(s, t)[..n] == s[..n] <==> Agrees(s[..n], t))
  {
    var o := Overlay(s, t);
    if o[..n] == s[..n] {
      forall i | 0 <= i < n && i < |t| ensures s[..n][i] == t[i] { assert o[..n][i] == o[i] == t[i]; }
    }
  }

  ghost predicate Keeps<C>(cfg: Config<C>, s: State<C>, e: Event)
    requires cfg.payload <= |s.plain|
  {
    e.Receive? ==> Agrees(s.plain[..cfg.payload], Written(cfg, s, e.datagram))
  }

  /** The payload bytes survive a step exactly when what it writes agrees with them. */
  lemma StepKeepsIff<C>(cfg: Config<C>, s: State<C>, e: Event)
    requires cfg.payload <= |s.plain|
    ensures cfg.payload <= |Step(cfg, s, e).state.plain|
    ensures Step(cfg, s, e).state.plain[..cfg.payload] == s.plain[..cfg.payload] <==> Keeps(cfg, s, e)
  {
    hide Overlay, Agrees, Written, Handle, KS.CipherFor, KS.NonceFor, KS.Rekey, Encode;
    match e
    case Make(tsc) =>
    case Receive(d) =>
      HandlePlain(cfg, s, d);
      OverlayKeeps(s.plain, Written(cfg, s, d), cfg.payload);
  }

  /** The payload bytes are those of the start at every point of a run. */
  ghost predicate Intact<C>(cfg: Config<C>, s: State<C>, es: seq<Event>)
    requires cfg.payload <= |s.plain|
  {
    && Run(cfg, s, es).state.plain[..cfg.payload] == s.plain[..cfg.payload]
    && (es == [] || Intact(cfg, s, es[..|es| - 1]))
  }

  /** Every step of a run writes what agrees with the payload bytes it finds. */
  ghost predicate Harmless<C>(cfg: Config<C>, s: State<C>, es: seq<Event>)
    requires cfg.payload <= |s.plain|
  {
    es == [] || (Harmless(cfg, s, es[..|es| - 1]) && Keeps(cfg, Run(cfg, s, es[..|es| - 1]).state, es[|es| - 1]))
  }

  /** And they survive throughout a run of arbitrary datagrams exactly when every
      step is harmless. */
  lemma {:induction false} RunKeepsIff<C>(cfg: Config<C>, s: State<C>, es: seq<Event>)
    requires cfg.payload <= |s.plain|
    ensures Intact(cfg, s, es) <==> Harmless(cfg, s, es)
  {
    hide Step, Keeps;
    if es != [] {
      var f, e := es[..|es| - 1], es[|es| - 1];
      RunKeepsIff(cfg, s, f);
      IntactNow(cfg, s, f);
      StepKeepsIff(cfg, Run(cfg, s, f).state, e);
    }
  }

  lemma IntactNow<C>(cfg: Config<C>, s: State<C>, es: seq<Event>)
    requires cfg.payload <= |s.plain|
    ensures Intact(cfg, s, es) ==> Run(cfg, s, es).state.plain[..cfg.payload] == s.plain[..cfg.payload]
  {
    hide Run;
  }

  lemma SealNextVerdict<C>(cfg: Config<C>, s: State<C>, h: Wire.Header, text: seq<byte>)
    ensures SealNext(cfg, s, h, text).effect.verdict in {Emitted, Unsealed}
  {
    hide KS.Rekey, KS.CipherFor, KS.NonceFor, Encode;
  }

  /** A datagram changes nothing and counts nowhere exactly when its bytes say so. */
  lemma MalformedIff<C>(cfg: Config<C>, s: State<C>, d: seq<byte>)
    ensures Handle(cfg, s, d).effect.verdict == Malformed <==> Unreadable(d)
    ensures Unreadable(d) ==> Handle(cfg, s, d) == Outcome(s, Effect(Malformed, [], [], []))
  {
    hide KS.CipherFor, KS.NonceFor, Decode, RW.Step, RW.Admits, SealNext, Unreadable;
    WellFormedIff(d);
    forall s1: State<C>, h, text ensures SealNext(cfg, s1, h, text).effect.verdict in {Emitted, Unsealed} {
      SealNextVerdict(cfg, s1, h, text);
    }
  }

  /** Sealing always takes a number, whether or not it succeeds. */
  lemma SealNextTakes<C>(cfg: Config<C>, s: State<C>, h: Wire.Header, text: seq<byte>)
    ensures var o := SealNext(cfg, s, h, text);
      o.state.seqno == (s.seqno + 1) % W64 && o.state.keys == KS.Rekey(cfg.keys, s.keys, s.seqno)
  {
    hide KS.Rekey, KS.CipherFor, KS.NonceFor, Encode;
  }

  /** A packet made takes a number, and so does a datagram that opens; no other does, and
      the keys change with nothing else. */
  lemma NumberTaken<C>(cfg: Config<C>, s: State<C>, d: seq<byte>, tsc: U64)
    requires cfg.payload <= |s.plain|
    ensures MakePacket(cfg, s, tsc).state.seqno == (s.seqno + 1) % W64
    ensures var o := Handle(cfg, s, d);
      if WellFormed(d) && (cfg.replay ==> RW.Admits(s.window, Decode(d).seqno)) && !Fails(cfg, s, d)
      then o.state.seqno == (s.seqno + 1) % W64 && o.state.keys == KS.Rekey(cfg.keys, s.keys, s.seqno)
      else o.state.seqno == s.seqno && o.state.keys == s.keys
  {
    hide KS.Rekey, KS.CipherFor, KS.NonceFor, Decode, RW.Step, RW.Admits, SealNext;
    SealNextTakes(cfg, s, Blank(tsc), s.plain[..cfg.payload]);
    forall s1: State<C>, h, text | s1.keys == s.keys && s1.seqno == s.seqno
      ensures var o := SealNext(cfg, s1, h, text);
        o.state.seqno == (s.seqno + 1) % W64 && o.state.keys == KS.Rekey(cfg.keys, s.keys, s.seqno)
    {
      SealNextTakes(cfg, s1, h, text);
    }
  }

  // ---- the headers that go out ------------------------------------------------------------------

  /** Only the epoch and the number of a header change. */
  lemma SealedHeader<C>(cfg: Config<C>, s: State<C>, h: Wire.Header, text: seq<byte>)
    requires Fits(h) && KS.Sound(cfg.keys, s.keys)
    ensures var o := SealNext(cfg, s, h, text);
      && (o.effect.verdict == Emitted <==> |o.effect.out| == 1)
      && (|o.effect.out| == 1 ==>
          && |o.effect.out[0]| >= HEADER_SIZE
          && Decode(o.effect.out[0]) == Wire.Header(h.magic, h.kind, o.state.keys.epoch, h.flags, s.seqno, h.tsc))
  {
    hide Encode, Decode, Pow256, KS.CipherFor, KS.NonceFor;
    var k := KS.Rekey(cfg.keys, s.keys, s.seqno);
    var h' := Header(k, h, s.seqno);
    Widths();
    match KS.CipherFor(k, k.epoch)
    case None =>
    case Some(key) =>
      DecodeEncode(h', cfg.aead.seal(key, KS.NonceFor(k, k.epoch, s.seqno), Encode(h'), text));
  }

  /** A packet made is data, without flags, with the current epoch, the shard's number
      and the tick it was given. */
  lemma MadeHeader<C>(cfg: Config<C>, s: State<C>, tsc: U64)
    requires cfg.payload <= |s.plain| && KS.Sound(cfg.keys, s.keys)
    ensures var o := MakePacket(cfg, s, tsc);
      |o.effect.out| == 1 ==>
        && |o.effect.out[0]| >= HEADER_SIZE
        && Decode(o.effect.out[0]) == Wire.Header(0x4C52_5032, 1, o.state.keys.epoch, 0, s.seqno, tsc)
  {
    hide SealNext, Decode, Pow256, KS.Sound;
    Widths();
    SealedHeader(cfg, s, Blank(tsc), s.plain[..cfg.payload]);
  }

  /** A packet sent on keeps the type, flags and tick of the one received. */
  lemma ForwardedHeader<C>(cfg: Config<C>, s: State<C>, d: seq<byte>)
    requires KS.Sound(cfg.keys, s.keys) && Handle(cfg, s, d).effect.verdict == Emitted
    ensures |d| >= HEADER_SIZE
    ensures var o, h := Handle(cfg, s, d), Decode(d);
      && |o.effect.out| == 1 && |o.effect.out[0]| >= HEADER_SIZE
      && Decode(o.effect.out[0]) == Wire.Header(h.magic, h.kind, o.state.keys.epoch, h.flags, s.seqno, h.tsc)
  {
    hide SealNext, Decode, Pow256, KS.Sound, Handle;
    var s1, text := EmittedForward(cfg, s, d);
    EncodeDecode(d);
    SealedHeader(cfg, s1, Decode(d), text);
  }

  /** What is sent on was forwarded from a state with the same keys and counter. */
  lemma EmittedForward<C>(cfg: Config<C>, s: State<C>, d: seq<byte>) returns (s1: State<C>, text: seq<byte>)
    requires Handle(cfg, s, d).effect.verdict == Emitted
    ensures |d| >= HEADER_SIZE && s1.keys == s.keys && s1.seqno == s.seqno
    ensures Handle(cfg, s, d) == Forward(cfg, s1, Decode(d), text)
  {
    hide Forward, Decode, KS.CipherFor, KS.NonceFor, RW.Step, RW.Admits;
    var h := Decode(d);
    var key := KS.CipherFor(s.keys, h.epoch).value;
    var n, ad, ct := KS.NonceFor(s.keys, h.epoch, h.seqno), d[..HEADER_SIZE], d[HEADER_SIZE..];
    text := cfg.aead.open(key, n, ad, ct).text;
    s1 := s.(plain := Overlay(s.plain, cfg.aead.spill(key, n, ad, ct)),
             window := if cfg.replay then RW.Step(s.window, h.seqno) else s.window);
  }

  /** The slack behind every buffer and the width of the window */
  lemma BufferSlack()
    ensures SLACK == 64 && WINDOW_BITS == 1024
  {}

  /** The pattern, as numbers */
  lemma PatternAt(n: nat, i: nat)
    requires i < n
    ensures ValueOf(Pattern(n)[i]) == (31 * i + 7) % 256
  {
    hide ValueOf, ByteOf;
    ByteOfValue(i * 31 + 7);
  }

  // ---- accounting ------------------------------------------------------------------------

  /** How many received datagrams of a run ended with a given verdict */
  function Ended(es: seq<Event>, fs: seq<Effect>, v: Verdict): nat
    requires |es| == |fs|
  {
    if es == [] then 0
    else Ended(es[..|es| - 1], fs[..|es| - 1], v) + One(es[|es| - 1].Receive? && fs[|es| - 1].verdict == v)
  }

  function Received(es: seq<Event>): nat
  {
    if es == [] then 0 else Received(es[..|es| - 1]) + One(es[|es| - 1].Receive?)
  }

  /** The payload bytes of the packets forwarded */
  function Forwarded(es: seq<Event>, fs: seq<Effect>): int
    requires |es| == |fs|
  {
    if es == [] then 0 else Forwarded(es[..|es| - 1], fs[..|es| - 1]) + BytesOut(es[|es| - 1], fs[|es| - 1])
  }

  function BytesOut(e: Event, f: Effect): int
  {
    if e.Receive? && |f.out| == 1 then |f.out[0]| - HEADER_SIZE - TAG_SIZE else 0
  }

  function One(c: bool): nat { if c then 1 else 0 }

  /** Which counter each verdict moves, and by how much */
  lemma StepTally<C>(cfg: Config<C>, s: State<C>, e: Event)
    requires cfg.payload <= |s.plain| && Bounded(cfg.aead)
    ensures var o := Step(cfg, s, e); var t, t' := s.stats, o.state.stats;
      && t'.packets == t.packets + One(e.Receive? && o.effect.verdict == Emitted)
      && t'.bytes == t.bytes + BytesOut(e, o.effect)
      && t'.authFail == t.authFail + One(e.Receive? && o.effect.verdict == Unauthentic)
      && t'.replayDrop == t.replayDrop + One(e.Receive? && o.effect.verdict == Replayed)
      && (e.Receive? ==> t'.rekeys - t.rekeys == o.state.keys.rekeys - s.keys.rekeys)
      && (e.Make? ==> t' == t && o.effect.verdict in {Emitted, Unsealed})
      && (e.Receive? ==> (o.effect.verdict == Malformed <==> !WellFormed(e.datagram)))
      && |o.effect.out| == One(o.effect.verdict == Emitted)
  {
    hide KS.CipherFor, KS.NonceFor, Encode, Decode, RW.Step, RW.Admits, Bounded;
    SealShape(cfg, s);
  }

  /** A seal that succeeds adds exactly the tag. */
  lemma SealShape<C>(cfg: Config<C>, s: State<C>)
    requires Bounded(cfg.aead)
    ensures forall k: KS.Key, n, ad, pt ::
      cfg.aead.seal(k, n, ad, pt) == [] || |cfg.aead.seal(k, n, ad, pt)| == |pt| + 16
  {}

  /** Every datagram received is forwarded, refused by the tag, refused by the
      window, or dropped in silence. */
  lemma {:induction false} Accounts<C>(cfg: Config<C>, s: State<C>, es: seq<Event>)
    requires cfg.payload <= |s.plain| && Bounded(cfg.aead)
    ensures var r := Run(cfg, s, es); var t, t' := s.stats, r.state.stats;
      && t'.packets == t.packets + Ended(es, r.effects, Emitted)
      && t'.authFail == t.authFail + Ended(es, r.effects, Unauthentic)
      && t'.replayDrop == t.replayDrop + Ended(es, r.effects, Replayed)
      && t'.bytes == t.bytes + Forwarded(es, r.effects)
      && Received(es) == (t'.packets - t.packets) + (t'.authFail - t.authFail) + (t'.replayDrop - t.replayDrop)
                       + Ended(es, r.effects, Malformed) + Ended(es, r.effects, Unsealed)
  {
    hide Step, BytesOut;
    if es != [] {
      var f, e := es[..|es| - 1], es[|es| - 1];
      Accounts(cfg, s, f);
      var t := Run(cfg, s, f);
      StepTally(cfg, t.state, e);
      assert Run(cfg, s, es).effects[..|f|] == t.effects;
    }
  }

  /** With a known cipher that always seals, only malformed datagrams go uncounted. */
  lemma NeverUnsealed<C>(cfg: Config<C>, s: State<C>, e: Event)
    requires cfg.payload <= |s.plain| && KS.Sound(cfg.keys, s.keys) && cfg.keys.known && Lawful(cfg.aead)
    ensures Step(cfg, s, e).effect.verdict != Unsealed
  {
    hide Encode, Decode, RW.Step, RW.Admits, KS.NonceFor, Lawful, SealNext;
    forall s1: State<C>, h, text | s1.keys == s.keys ensures SealNext(cfg, s1, h, text).effect.verdict == Emitted {
      AlwaysSeals(cfg, s1, h, text);
    }
  }

  lemma AlwaysSeals<C>(cfg: Config<C>, s: State<C>, h: Wire.Header, text: seq<byte>)
    requires KS.Sound(cfg.keys, s.keys) && cfg.keys.known && Lawful(cfg.aead)
    ensures SealNext(cfg, s, h, text).effect.verdict == Emitted
  {
    hide Encode, KS.NonceFor;
    var k := KS.Rekey(cfg.keys, s.keys, s.seqno);
    var head, n := Encode(Header(k, h, s.seqno)), KS.NonceFor(k, k.epoch, s.seqno);
    assert |cfg.aead.seal(k.current.cipher.value, n, head, text)| == |text| + 16;
  }

  function MalformedIn(es: seq<Event>): nat
  {
    if es == [] then 0
    else MalformedIn(es[..|es| - 1]) + One(es[|es| - 1].Receive? && Unreadable(es[|es| - 1].datagram))
  }

  /** Then what is missing from the counters is exactly the malformed datagrams. */
  lemma {:induction false} ExactAccounts<C>(cfg: Config<C>, s: State<C>, es: seq<Event>)
    requires cfg.payload <= |s.plain| && KS.Sound(cfg.keys, s.keys) && cfg.keys.known && Lawful(cfg.aead)
    ensures var t, t' := s.stats, Run(cfg, s, es).state.stats;
      Received(es) == (t'.packets - t.packets) + (t'.authFail - t.authFail) + (t'.replayDrop - t.replayDrop)
          + MalformedIn(es)
  {
    hide Step, BytesOut, Lawful, KS.Sound, WellFormed, Unreadable;
    if es != [] {
      var f, e := es[..|es| - 1], es[|es| - 1];
      ExactAccounts(cfg, s, f);
      if e.Receive? { WellFormedIff(e.datagram); }
      var t := Run(cfg, s, f);
      StaysSound(cfg, s, f);
      assert Bounded(cfg.aead) by { LawfulBounded(cfg.aead); }
      StepTally(cfg, t.state, e);
      NeverUnsealed(cfg, t.state, e);
    }
  }

  lemma LawfulBounded(a: Cipher)
    ensures Lawful(a) ==> Bounded(a)
  {}

  // ---- each number is opened at most once ---------------------------------------------------

  lemma StepWindow<C>(cfg: Config<C>, s: State<C>, e: Event)
    requires cfg.payload <= |s.plain| && cfg.replay && RW.Coherent(s.window)
    ensures var o := Step(cfg, s, e);
      && RW.Coherent(o.state.window) && s.window.accepted <= o.state.window.accepted
      && s.window.high <= o.state.window.high
      && (o.effect.tried == [] ||
          exists x :: o.effect.tried == [x] && x !in s.window.accepted && x in o.state.window.accepted)
  {
    hide KS.CipherFor, KS.NonceFor, KS.Rekey, Encode, Decode;
  }

  /** The numbers a run handed to open, in order */
  function Opened(fs: seq<Effect>): seq<nat>
  {
    if fs == [] then [] else Opened(fs[..|fs| - 1]) + fs[|fs| - 1].tried
  }

  ghost predicate Distinct<T(!new)>(s: seq<T>) { forall i, j :: 0 <= i < j < |s| ==> s[i] != s[j] }

  /** With the window on, no number reaches the cipher twice, over any run of
      arbitrary datagrams and packets made. */
  lemma {:induction false} OpenedOnce<C>(cfg: Config<C>, s: State<C>, es: seq<Event>)
    requires cfg.payload <= |s.plain| && cfg.replay && RW.Coherent(s.window)
    ensures var r := Run(cfg, s, es);
      && Distinct(Opened(r.effects)) && RW.Coherent(r.state.window)
      && s.window.accepted <= r.state.window.accepted && s.window.high <= r.state.window.high
      && (forall x :: x in Opened(r.effects) ==> x in r.state.window.accepted && x !in s.window.accepted)
  {
    hide Step, RW.Coherent, Distinct;
    if es == [] {
      DistinctNext([], 0);
    } else {
      var f, e := es[..|es| - 1], es[|es| - 1];
      OpenedOnce(cfg, s, f);
      var t := Run(cfg, s, f);
      StepWindow(cfg, t.state, e);
      assert Run(cfg, s, es).effects[..|f|] == t.effects;
      var o := Step(cfg, t.state, e).effect.tried;
      if o == [] {
        assert Opened(t.effects) + o == Opened(t.effects);
      } else {
        assert o == [o[0]];
        DistinctNext(Opened(t.effects), o[0]);
      }
    }
  }

  lemma DistinctNext(xs: seq<nat>, x: nat)
    ensures Distinct<nat>([])
    ensures Distinct(xs) && x !in xs ==> Distinct(xs + [x])
  {}

  // ---- what the window has seen ------------------------------------------------------------------

  /** The numbers in the headers of the well-formed datagrams received, authentic or not */
  function Numbers(es: seq<Event>): seq<nat>
  {
    if es == [] then []
    else
      var e := es[|es| - 1];
      Numbers(es[..|es| - 1]) + if e.Receive? && WellFormed(e.datagram) then [Decode(e.datagram).seqno] else []
  }

  lemma StepSees<C>(cfg: Config<C>, s: State<C>, e: Event)
    requires cfg.payload <= |s.plain| && cfg.replay
    ensures Step(cfg, s, e).state.window ==
      if e.Receive? && WellFormed(e.datagram) then RW.Step(s.window, Decode(e.datagram).seqno) else s.window
  {
    hide KS.CipherFor, KS.NonceFor, KS.Rekey, Encode, Decode, RW.Step, RW.Admits;
  }

  /** The window depends on the headers alone: no tag, key or cipher enters it. */
  lemma {:induction false} WindowIsRun<C>(cfg: Config<C>, s: State<C>, es: seq<Event>)
    requires cfg.payload <= |s.plain| && cfg.replay
    ensures Run(cfg, s, es).state.window == RW.Run(s.window, Numbers(es))
  {
    hide Step, RW.Step, WellFormed, Decode;
    if es != [] {
      var f, e := es[..|es| - 1], es[|es| - 1];
      WindowIsRun(cfg, s, f);
      StepSees(cfg, Run(cfg, s, f).state, e);
      var ns := Numbers(es);
      if e.Receive? && WellFormed(e.datagram) {
        assert ns[..|ns| - 1] == Numbers(f);
      } else {
        assert ns == Numbers(f);
      }
    }
  }

  /** Exactly when a datagram is refused as a replay: by the numbers before it,
      whoever sent them. */
  lemma RefusedIff<C>(cfg: Config<C>, s: State<C>, es: seq<Event>, p: seq<byte>)
    requires cfg.payload <= |s.plain| && cfg.replay && WellFormed(p)
    ensures Handle(cfg, Run(cfg, s, es).state, p).effect.verdict == Replayed
       <==> !RW.Admits(RW.Run(s.window, Numbers(es)), Decode(p).seqno)
  {
    hide Run, KS.CipherFor, KS.NonceFor, KS.Rekey, Encode, Decode, RW.Step, RW.Admits, RW.Run, Numbers;
    WindowIsRun(cfg, s, es);
  }

  // ---- what is left in plain, from the datagrams alone ---------------------------------------------

  lemma {:induction false} KeysStay<C>(cfg: Config<C>, s: State<C>, es: seq<Event>)
    requires cfg.payload <= |s.plain| && cfg.keys.perEpoch == 0
    ensures Run(cfg, s, es).state.keys == s.keys
  {
    hide Step;
    if es != [] {
      KeysStay(cfg, s, es[..|es| - 1]);
      StepKeys(cfg, Run(cfg, s, es[..|es| - 1]).state, es[|es| - 1]);
    }
  }

  /** The starting state with the window that the headers of the first i events leave */
  function Ahead<C>(s: State<C>, es: seq<Event>, i: nat): State<C>
    requires i <= |es|
  {
    s.(window := RW.Run(s.window, Numbers(es[..i])))
  }

  /** Datagram i writes what agrees with the payload bytes of the starting state. */
  ghost predicate Agreeable<C>(cfg: Config<C>, s: State<C>, es: seq<Event>, i: nat)
    requires cfg.payload <= |s.plain| && i < |es|
  {
    es[i].Receive? ==> Agrees(s.plain[..cfg.payload], Written(cfg, Ahead(s, es, i), es[i].datagram))
  }

  lemma WrittenAhead<C>(cfg: Config<C>, s: State<C>, es: seq<Event>, i: nat)
    requires cfg.payload <= |s.plain| && cfg.keys.perEpoch == 0 && i < |es| && es[i].Receive?
    ensures Written(cfg, Run(cfg, s, es[..i]).state, es[i].datagram) == Written(cfg, Ahead(s, es, i), es[i].datagram)
  {
    hide Run, WellFormed, Decode, KS.CipherFor, KS.NonceFor, RW.Admits, RW.Run, Numbers;
    KeysStay(cfg, s, es[..i]);
    if cfg.replay { WindowIsRun(cfg, s, es[..i]); }
  }

  /** Without rekeying, the payload bytes survive a run if and only if every datagram
      is agreeable: a condition on the datagrams and the starting state alone. */
  lemma {:induction false} IntactIff<C>(cfg: Config<C>, s: State<C>, es: seq<Event>)
    requires cfg.payload <= |s.plain| && cfg.keys.perEpoch == 0
    ensures Intact(cfg, s, es) <==> forall i :: 0 <= i < |es| ==> Agreeable(cfg, s, es, i)
  {
    hide Step, Agreeable, Agrees, Written, Intact;
    IntactParts(cfg, s, es);
    if es != [] {
      var n := |es| - 1;
      var f, e := es[..n], es[n];
      IntactIff(cfg, s, f);
      forall i | 0 <= i < n ensures Agreeable(cfg, s, es, i) == Agreeable(cfg, s, f, i) {
        AgreeablePrefix(cfg, s, es, i);
      }
      IntactParts(cfg, s, f);
      StepKeepsIff(cfg, Run(cfg, s, f).state, e);
      if Intact(cfg, s, f) { KeepsAhead(cfg, s, es); }
    }
  }

  lemma IntactParts<C>(cfg: Config<C>, s: State<C>, es: seq<Event>)
    requires cfg.payload <= |s.plain|
    ensures Intact(cfg, s, es) <==>
      && Run(cfg, s, es).state.plain[..cfg.payload] == s.plain[..cfg.payload]
      && (es == [] || Intact(cfg, s, es[..|es| - 1]))
  {
    hide Run;
  }

  lemma AgreeablePrefix<C>(cfg: Config<C>, s: State<C>, es: seq<Event>, i: nat)
    requires cfg.payload <= |s.plain| && i < |es| - 1
    ensures Agreeable(cfg, s, es, i) == Agreeable(cfg, s, es[..|es| - 1], i)
  {
    hide Agrees, Written;
    assert es[..|es| - 1][..i] == es[..i];
  }

  /** The last step keeps the bytes exactly when its datagram is agreeable. */
  lemma KeepsAhead<C>(cfg: Config<C>, s: State<C>, es: seq<Event>)
    requires cfg.payload <= |s.plain| && cfg.keys.perEpoch == 0 && es != []
    requires Run(cfg, s, es[..|es| - 1]).state.plain[..cfg.payload] == s.plain[..cfg.payload]
    ensures Keeps(cfg, Run(cfg, s, es[..|es| - 1]).state, es[|es| - 1]) <==> Agreeable(cfg, s, es, |es| - 1)
  {
    hide Run, Agrees, Written;
    if es[|es| - 1].Receive? { WrittenAhead(cfg, s, es, |es| - 1); }
  }

  // ---- no nonce is used twice ----------------------------------------------------------------

  function Seals(fs: seq<Effect>): seq<Seal>
  {
    if fs == [] then [] else Seals(fs[..|fs| - 1]) + fs[|fs| - 1].seals
  }

  /** A step seals at most once, with the counter's number, and only by using it up. */
  ghost predicate SealsNext<C>(cfg: Config<C>, s: State<C>, o: Outcome<C>)
  {
    && KS.Sound(cfg.keys, o.state.keys)
    && (o.state.seqno == s.seqno || o.state.seqno == (s.seqno + 1) % W64)
    && (o.effect.seals == [] || (|o.effect.seals| == 1 && o.state.seqno == (s.seqno + 1) % W64 &&
         o.effect.seals[0].seqno == s.seqno && SealedBy(o.effect.seals[0], o.state.keys)))
  }

  lemma SealNextSeals<C>(cfg: Config<C>, s: State<C>, h: Wire.Header, text: seq<byte>)
    requires KS.Sound(cfg.keys, s.keys)
    ensures SealsNext(cfg, s, SealNext(cfg, s, h, text))
  {
    hide Encode, Ctr.Be64;
  }

  lemma StepSeals<C>(cfg: Config<C>, s: State<C>, e: Event)
    requires cfg.payload <= |s.plain| && KS.Sound(cfg.keys, s.keys)
    ensures SealsNext(cfg, s, Step(cfg, s, e))
  {
    hide Encode, Decode, RW.Step, RW.Admits, KS.NonceFor, KS.CipherFor, KS.Sound, SealedBy, SealNext;
    forall s1: State<C>, h, text | s1.seqno == s.seqno && s1.keys == s.keys
      ensures SealsNext(cfg, s, SealNext(cfg, s1, h, text))
    {
      SealNextSeals(cfg, s1, h, text);
    }
  }

  /** The nonce ends in the number, big-endian. */
  predicate Numbered(x: Seal) { |x.nonce| == 12 && x.nonce[4..] == Ctr.Be64(x.seqno) }

  lemma NumberedSeal<C>(x: Seal, k: KS.Keys<C>)
    requires SealedBy(x, k)
    ensures Numbered(x)
  {
    hide Ctr.Be64;
  }

  /** A seal under the epoch current in k: its cipher and that cipher's own salt */
  predicate SealedBy<C>(x: Seal, k: KS.Keys<C>)
  {
    k.current.cipher == KS.Some(x.key) && x.nonce == k.current.salt + Ctr.Be64(x.seqno)
  }

  /** Seals with numbers of their own, in order, each in its nonce */
  ghost predicate InOrder(x: seq<Seal>, lo: nat, hi: nat)
  {
    && (forall i :: 0 <= i < |x| ==> lo <= x[i].seqno < hi && Numbered(x[i]))
    && (forall i, j :: 0 <= i < j < |x| ==> x[i].seqno < x[j].seqno)
  }

  lemma InOrderNext<C>(x: seq<Seal>, lo: nat, hi: nat, y: Seal, k: KS.Keys<C>)
    requires lo <= hi && InOrder(x, lo, hi) && y.seqno == hi && SealedBy(y, k)
    ensures InOrder(x + [y], lo, hi + 1)
  {
    hide Numbered, SealedBy;
    NumberedSeal(y, k);
  }

  lemma InOrderUnused(x: seq<Seal>, lo: nat, hi: nat)
    ensures InOrder([], lo, hi) && (InOrder(x, lo, hi) ==> InOrder(x, lo, hi + 1))
  {
    hide Numbered;
  }

  lemma SealsStep<C>(cfg: Config<C>, s: State<C>, es: seq<Event>)
    requires cfg.payload <= |s.plain| && es != []
    ensures var t, e := Run(cfg, s, es[..|es| - 1]), es[|es| - 1];
      && Run(cfg, s, es).state == Step(cfg, t.state, e).state
      && Seals(Run(cfg, s, es).effects) == Seals(t.effects) + Step(cfg, t.state, e).effect.seals
  {
    hide Step;
    var t := Run(cfg, s, es[..|es| - 1]);
    assert Run(cfg, s, es).effects[..|es| - 1] == t.effects;
  }

  lemma SealsNone<C>(cfg: Config<C>, s: State<C>)
    requires cfg.payload <= |s.plain|
    ensures Run(cfg, s, []).state == s && Seals(Run(cfg, s, []).effects) == []
  {}

  /** How many numbers a run takes; a datagram that is not sent on takes none */
  function Taken<C>(cfg: Config<C>, s: State<C>, es: seq<Event>): (n: nat)
    requires cfg.payload <= |s.plain|
    ensures n <= |es|
  {
    if es == [] then 0
    else
      var t, e := Run(cfg, s, es[..|es| - 1]).state, es[|es| - 1];
      Taken(cfg, s, es[..|es| - 1]) + One(Step(cfg, t, e).state.seqno != t.seqno)
  }

  /** The counter is where the numbers taken have brought it, over any run. */
  lemma {:induction false} CounterIs<C>(cfg: Config<C>, s: State<C>, es: seq<Event>)
    requires cfg.payload <= |s.plain| && KS.Sound(cfg.keys, s.keys)
    ensures Run(cfg, s, es).state.seqno == (s.seqno + Taken(cfg, s, es)) % W64
  {
    hide Step, KS.Sound, Taken, SealedBy;
    if es == [] {
      TakenNone(cfg, s);
    } else {
      var f, e := es[..|es| - 1], es[|es| - 1];
      CounterIs(cfg, s, f);
      StaysSound(cfg, s, f);
      StepSeals(cfg, Run(cfg, s, f).state, e);
      TakenStep(cfg, s, es);
      RW.Wraps(s.seqno + Taken(cfg, s, f));
    }
  }

  /** Until the counter wraps, each seal takes a number of its own, in order. */
  lemma {:induction false} SealNumbers<C>(cfg: Config<C>, s: State<C>, es: seq<Event>)
    requires cfg.payload <= |s.plain| && KS.Sound(cfg.keys, s.keys) && s.seqno + Taken(cfg, s, es) <= W64
    ensures InOrder(Seals(Run(cfg, s, es).effects), s.seqno, s.seqno + Taken(cfg, s, es))
  {
    hide Step, SealedBy, InOrder, KS.Sound, Run, Seals, Taken;
    InOrderUnused([], s.seqno, s.seqno);
    SealsNone(cfg, s);
    if es != [] {
      var f, e := es[..|es| - 1], es[|es| - 1];
      var t, used := Run(cfg, s, f), Taken(cfg, s, f);
      var o := Step(cfg, t.state, e);
      TakenStep(cfg, s, es);
      SealNumbers(cfg, s, f);
      CounterIs(cfg, s, f);
      StaysSound(cfg, s, f);
      SealsStep(cfg, s, es);
      StepSeals(cfg, t.state, e);
      InOrderUnused(Seals(t.effects), s.seqno, s.seqno + used);
      if o.effect.seals == [] {
        assert Seals(Run(cfg, s, es).effects) == Seals(t.effects);
      } else {
        assert o.effect.seals == [o.effect.seals[0]];
        InOrderNext(Seals(t.effects), s.seqno, s.seqno + used, o.effect.seals[0], o.state.keys);
      }
    } else {
      TakenNone(cfg, s);
    }
  }

  lemma TakenNone<C>(cfg: Config<C>, s: State<C>)
    requires cfg.payload <= |s.plain|
    ensures Taken(cfg, s, []) == 0
  {}

  lemma TakenStep<C>(cfg: Config<C>, s: State<C>, es: seq<Event>)
    requires cfg.payload <= |s.plain| && es != []
    ensures var t := Run(cfg, s, es[..|es| - 1]).state;
      Taken(cfg, s, es) == Taken(cfg, s, es[..|es| - 1]) + One(Step(cfg, t, es[|es| - 1]).state.seqno != t.seqno)
  {
    hide Step;
  }

  /** No two seals of a run share a nonce before the counter wraps, whatever
      datagrams arrive and however often the keys change. */
  lemma NoncesUnique<C>(cfg: Config<C>, s: State<C>, es: seq<Event>, i: nat, j: nat)
    requires cfg.payload <= |s.plain| && KS.Sound(cfg.keys, s.keys) && s.seqno + Taken(cfg, s, es) <= W64
    requires i < j < |Seals(Run(cfg, s, es).effects)|
    ensures var x := Seals(Run(cfg, s, es).effects); x[i].nonce != x[j].nonce
  {
    hide Run, KS.Sound, Ctr.Be64, Taken;
    SealNumbers(cfg, s, es);
    var x := Seals(Run(cfg, s, es).effects);
    assert Numbered(x[i]) && Numbered(x[j]);
    KS.NoncesDiffer(x[i].nonce[..4], x[i].seqno, x[j].nonce[..4], x[j].seqno);
    assert x[i].nonce == x[i].nonce[..4] + x[i].nonce[4..] && x[j].nonce == x[j].nonce[..4] + x[j].nonce[4..];
  }

  ghost predicate AllSealedBy<C>(x: seq<Seal>, k: KS.Keys<C>)
  {
    forall i :: 0 <= i < |x| ==> SealedBy(x[i], k) && x[i].seqno < W64
  }

  /** Without rekeying every seal of a run, of any length, is under one key, and its
      nonce is a function of its number: from the wrap on, nonces repeat. */
  lemma {:induction false} OneKey<C>(cfg: Config<C>, s: State<C>, es: seq<Event>)
    requires cfg.payload <= |s.plain| && KS.Sound(cfg.keys, s.keys) && cfg.keys.perEpoch == 0
    ensures var r := Run(cfg, s, es); r.state.keys == s.keys && AllSealedBy(Seals(r.effects), s.keys)
  {
    hide Step, SealedBy, KS.Sound;
    if es != [] {
      var f, e := es[..|es| - 1], es[|es| - 1];
      OneKey(cfg, s, f);
      var t := Run(cfg, s, f);
      SealsStep(cfg, s, es);
      StepSeals(cfg, t.state, e);
      StepKeys(cfg, t.state, e);
    }
  }

  lemma StepKeys<C>(cfg: Config<C>, s: State<C>, e: Event)
    requires cfg.payload <= |s.plain| && cfg.keys.perEpoch == 0
    ensures Step(cfg, s, e).state.keys == s.keys
  {
    hide Encode, Decode, RW.Step, RW.Admits, KS.NonceFor, KS.CipherFor;
  }

  lemma NonceRepeatsIff<C>(cfg: Config<C>, s: State<C>, es: seq<Event>, i: nat, j: nat)
    requires cfg.payload <= |s.plain| && KS.Sound(cfg.keys, s.keys) && cfg.keys.perEpoch == 0
    requires i < |Seals(Run(cfg, s, es).effects)| && j < |Seals(Run(cfg, s, es).effects)|
    ensures var x := Seals(Run(cfg, s, es).effects);
      x[i].key == x[j].key && (x[i].nonce == x[j].nonce <==> x[i].seqno == x[j].seqno)
  {
    hide Run, KS.Sound, Ctr.Be64;
    OneKey(cfg, s, es);
    var x := Seals(Run(cfg, s, es).effects);
    assert x[i].nonce == s.keys.current.salt + Ctr.Be64(x[i].seqno);
    assert x[j].nonce == s.keys.current.salt + Ctr.Be64(x[j].seqno);
    var salt := s.keys.current.salt;
    if x[i].seqno != x[j].seqno { KS.NoncesDiffer(salt, x[i].seqno, salt, x[j].seqno); }
  }

  /** Slot 0 carries the current epoch's tag, and a live slot 1 another, in every
      state a shard reaches. */
  lemma {:induction false} StaysSound<C>(cfg: Config<C>, s: State<C>, es: seq<Event>)
    requires cfg.payload <= |s.plain| && KS.Sound(cfg.keys, s.keys)
    ensures KS.Sound(cfg.keys, Run(cfg, s, es).state.keys)
  {
    hide Step, KS.Sound;
    if es != [] {
      StaysSound(cfg, s, es[..|es| - 1]);
      StepSeals(cfg, Run(cfg, s, es[..|es| - 1]).state, es[|es| - 1]);
    }
  }
}
