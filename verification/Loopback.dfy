/** A shard fed with its own packets, in order and with losses: the self-test's
    arrangement, with the window on and without rekeying. */
module Loopback {
  import opened Bytes
  import opened AeadCommon
  import opened Aead
  import opened Wire
  import opened ShardSpec
  import KS = KeySchedule
  import RW = ReplayWindow
  import opened WordBits

  /** A packet under way, with the number it was given before it wrapped */
  datatype Parcel = Parcel(number: nat, packet: seq<byte>)

  /** The shard, its socket's queue, what it sent on, how many numbers it took, and
      the numbers of the packets that reached it, in order */
  datatype Loop<C> = Loop(shard: State<C>, queue: seq<Parcel>, sent: seq<seq<byte>>, issued: nat, delivered: seq<nat>)

  function Idle<C>(cfg: Config<C>, secret: C): Loop<C> { Loop(Start(cfg, secret), [], [], 0, []) }

  datatype Hop = Stage(tsc: U64) | Deliver | Lose

  function Parcels(number: nat, out: seq<seq<byte>>): (r: seq<Parcel>)
    ensures |r| == |out|
  {
    seq(|out|, i requires 0 <= i < |out| => Parcel(number, out[i]))
  }

  function Hopped<C>(cfg: Config<C>, l: Loop<C>, h: Hop): Loop<C>
    requires cfg.payload <= |l.shard.plain|
  {
    match h
    case Stage(tsc) =>
      var o := MakePacket(cfg, l.shard, tsc);
      l.(shard := o.state, queue := l.queue + Parcels(l.issued, o.effect.out), issued := l.issued + 1)
    case Deliver =>
      if l.queue == [] then l
      else
        var o := Handle(cfg, l.shard, l.queue[0].packet);
        l.(shard := o.state, queue := l.queue[1..], sent := l.sent + o.effect.out,
           issued := l.issued + One(o.state.seqno != l.shard.seqno), delivered := l.delivered + [l.queue[0].number])
    case Lose =>
      if l.queue == [] then l else l.(queue := l.queue[1..])
  }

  lemma HoppedGrows<C>(cfg: Config<C>, l: Loop<C>, h: Hop)
    requires cfg.payload <= |l.shard.plain|
    ensures cfg.payload <= |Hopped(cfg, l, h).shard.plain| && l.issued <= Hopped(cfg, l, h).issued
  {
    hide MakePacket, Handle;
    match h
    case Stage(tsc) => PlainGrows(cfg, l.shard, Make(tsc));
    case Deliver => if l.queue != [] { PlainGrows(cfg, l.shard, Receive(l.queue[0].packet)); }
    case Lose =>
  }

  function Around<C>(cfg: Config<C>, l: Loop<C>, hs: seq<Hop>): (r: Loop<C>)
    requires cfg.payload <= |l.shard.plain|
    ensures cfg.payload <= |r.shard.plain|
  {
    if hs == [] then l
    else
      var r := Around(cfg, l, hs[..|hs| - 1]);
      HoppedGrows(cfg, r, hs[|hs| - 1]);
      Hopped(cfg, r, hs[|hs| - 1])
  }

  // ---- the shard's own packets --------------------------------------------------------

  /** What the shard under keys k seals the text into, under some header */
  predicate Own<C>(cfg: Config<C>, k: KS.Keys<C>, text: seq<byte>, p: seq<byte>)
  {
    && |p| >= HEADER_SIZE
    && Decode(p).magic == MAGIC && Decode(p).epoch == k.epoch
    && k.current.cipher.Some?
    && p[HEADER_SIZE..] ==
       cfg.aead.seal(k.current.cipher.value, KS.NonceFor(k, k.epoch, Decode(p).seqno), p[..HEADER_SIZE], text)
  }

  /** Opening p at keys k gives the text. */
  predicate OpensTo<C>(cfg: Config<C>, k: KS.Keys<C>, text: seq<byte>, p: seq<byte>)
  {
    && WellFormed(p)
    && KS.CipherFor(k, Decode(p).epoch).Some?
    && cfg.aead.open(KS.CipherFor(k, Decode(p).epoch).value, KS.NonceFor(k, Decode(p).epoch, Decode(p).seqno),
                     p[..HEADER_SIZE], p[HEADER_SIZE..]) == Plain(text)
  }

  lemma OwnOpens<C>(cfg: Config<C>, k: KS.Keys<C>, text: seq<byte>, p: seq<byte>)
    requires Lawful(cfg.aead) && KS.Sound(cfg.keys, k) && Own(cfg, k, text, p)
    ensures OpensTo(cfg, k, text, p) && |p| == HEADER_SIZE + |text| + TAG_SIZE
  {
    hide Decode, KS.SaltFor, Ctr.Be64;
    var n := KS.NonceFor(k, k.epoch, Decode(p).seqno);
    assert |n| == 12;
    assert |cfg.aead.seal(k.current.cipher.value, n, p[..HEADER_SIZE], text)| == |text| + 16;
  }

  /** What holds of the keys throughout: known cipher, no rekeying */
  ghost predicate Fixed<C>(cfg: Config<C>, k: KS.Keys<C>)
  {
    Lawful(cfg.aead) && cfg.keys.known && cfg.keys.perEpoch == 0 && cfg.replay && KS.Sound(cfg.keys, k)
  }

  lemma SealNextOwn<C>(cfg: Config<C>, s: State<C>, h: Wire.Header, text: seq<byte>)
    requires Fixed(cfg, s.keys) && h.magic == MAGIC && Fits(h)
    ensures var o := SealNext(cfg, s, h, text);
      && o.state == s.(seqno := (s.seqno + 1) % W64) && o.effect.verdict == Emitted
      && |o.effect.out| == 1 && |o.effect.out[0]| >= HEADER_SIZE && Own(cfg, s.keys, text, o.effect.out[0])
      && Decode(o.effect.out[0]).seqno == s.seqno
  {
    hide Encode, Decode, Pow256, KS.NonceFor, Lawful;
    var k := s.keys;
    var oh := ShardSpec.Header(k, h, s.seqno);
    Widths();
    var key, n := k.current.cipher.value, KS.NonceFor(k, k.epoch, s.seqno);
    var body := cfg.aead.seal(key, n, Encode(oh), text);
    Sealed(cfg.aead, key, n, Encode(oh), text);
    DecodeEncode(oh, body);
    var p := Encode(oh) + body;
    assert p[..HEADER_SIZE] == Encode(oh) && p[HEADER_SIZE..] == body;
  }

  lemma Sealed(a: Cipher, key: KS.Key, n: seq<byte>, ad: seq<byte>, text: seq<byte>)
    requires Lawful(a) && |n| == 12
    ensures |a.seal(key, n, ad, text)| == |text| + 16
  {}

  /** Opening an own packet puts back the bytes that are there already. */
  lemma OpenOneOwn<C>(cfg: Config<C>, s: State<C>, text: seq<byte>, p: seq<byte>)
    requires Fixed(cfg, s.keys) && Own(cfg, s.keys, text, p) && text <= s.plain
    ensures OpenOne(cfg, s, p) == Forward(cfg, s, Decode(p), text)
  {
    hide Forward, Decode, KS.NonceFor, KS.CipherFor, Own;
    OwnOpens(cfg, s.keys, text, p);
    var key := KS.CipherFor(s.keys, Decode(p).epoch).value;
    var n, ad, ct := KS.NonceFor(s.keys, Decode(p).epoch, Decode(p).seqno), p[..HEADER_SIZE], p[HEADER_SIZE..];
    assert cfg.aead.open(key, n, ad, ct).text == cfg.aead.spill(key, n, ad, ct);
    assert Overlay(s.plain, text) == s.plain;
  }

  /** An own packet is sent on or refused by the window, and changes nothing but the
      counter, the window and the counts. */
  lemma HandleOwn<C>(cfg: Config<C>, s: State<C>, text: seq<byte>, p: seq<byte>)
    requires Fixed(cfg, s.keys) && Own(cfg, s.keys, text, p) && text <= s.plain
    ensures var o, t, w := Handle(cfg, s, p), s.stats, RW.Step(s.window, Decode(p).seqno);
      if RW.Admits(s.window, Decode(p).seqno) then
        && o.state == State((s.seqno + 1) % W64, s.keys, w, s.plain,
          t.(packets := t.packets + 1, bytes := t.bytes + |text|))
        && o.effect.verdict == Emitted && o.effect.tried == [Decode(p).seqno]
        && |o.effect.out| == 1 && Own(cfg, s.keys, text, o.effect.out[0])
      else
        && o.state == State(s.seqno, s.keys, w, s.plain, t.(replayDrop := t.replayDrop + 1))
        && o.effect == Effect(Replayed, [], [], [])
  {
    hide Decode, OpenOne, Forward, Own, KS.NonceFor, KS.CipherFor, KS.Sound, Lawful, RW.Step, RW.Admits;
    OwnOpens(cfg, s.keys, text, p);
    var s1 := s.(window := RW.Step(s.window, Decode(p).seqno));
    OpenOneOwn(cfg, s1, text, p);
    ForwardOwn(cfg, s1, text, p);
  }

  lemma ForwardOwn<C>(cfg: Config<C>, s: State<C>, text: seq<byte>, p: seq<byte>)
    requires Fixed(cfg, s.keys) && |p| >= HEADER_SIZE && Decode(p).magic == MAGIC
    ensures var o, t := Forward(cfg, s, Decode(p), text), s.stats;
      && o.state == s.(seqno := (s.seqno + 1) % W64, stats := t.(packets := t.packets + 1, bytes := t.bytes + |text|))
      && o.effect.verdict == Emitted && o.effect.tried == [Decode(p).seqno]
      && |o.effect.out| == 1 && Own(cfg, s.keys, text, o.effect.out[0])
  {
    hide Decode, SealNext, Own, KS.Sound, Lawful;
    EncodeDecode(p);
    SealNextOwn(cfg, s, Decode(p), text);
  }

  // ---- the schedule of numbers --------------------------------------------------------------

  /** What the hops do to numbers alone: the next one, those under way, those that
      arrived, and the set-based window. No packet, key or cipher enters it. */
  datatype Plan = Plan(next: nat, queue: seq<nat>, delivered: seq<nat>, window: RW.View)

  function Fresh(): Plan { Plan(0, [], [], RW.Fresh(WINDOW_BITS)) }

  function Planned(p: Plan, h: Hop): Plan
  {
    match h
    case Stage(_) => p.(next := p.next + 1, queue := p.queue + [p.next])
    case Deliver =>
      if p.queue == [] then p
      else
        var x := p.queue[0];
        Plan(p.next + One(RW.Admits(p.window, x % W64)), p.queue[1..], p.delivered + [x], RW.Step(p.window, x % W64))
    case Lose => if p.queue == [] then p else p.(queue := p.queue[1..])
  }

  function PlanOf(hs: seq<Hop>): Plan
  {
    if hs == [] then Fresh() else Planned(PlanOf(hs[..|hs| - 1]), hs[|hs| - 1])
  }

  /** Numbers as the headers carry them */
  function Wrapped(ns: seq<nat>): (r: seq<nat>)
    ensures |r| == |ns| && forall i :: 0 <= i < |ns| ==> r[i] == ns[i] % W64
  {
    seq(|ns|, i requires 0 <= i < |ns| => ns[i] % W64)
  }

  ghost predicate Rising(ns: seq<nat>, next: nat)
  {
    && (forall i :: 0 <= i < |ns| ==> ns[i] < next)
    && (forall i, j :: 0 <= i < j < |ns| ==> ns[i] < ns[j])
  }

  /** The window is that of the numbers that arrived, and they rise. */
  lemma {:induction false} PlanIs(hs: seq<Hop>)
    ensures var p := PlanOf(hs);
      p.window == RW.Run(RW.Fresh(WINDOW_BITS), Wrapped(p.delivered)) && Rising(p.delivered + p.queue, p.next)
  {
    hide RW.Step, RW.Admits;
    if hs == [] {
      assert Wrapped([]) == [];
    } else {
      PlanIs(hs[..|hs| - 1]);
      var p := PlanOf(hs[..|hs| - 1]);
      match hs[|hs| - 1]
      case Stage(_) => assert p.delivered + (p.queue + [p.next]) == p.delivered + p.queue + [p.next];
      case Deliver =>
        if p.queue != [] {
          var x := p.queue[0];
          var ws := Wrapped(p.delivered + [x]);
          assert ws[..|ws| - 1] == Wrapped(p.delivered);
          assert p.delivered + [x] + p.queue[1..] == p.delivered + p.queue;
        }
      case Lose => if p.queue != [] { LoseRising(p.delivered, p.queue, p.next); }
    }
  }

  lemma LoseRising(d: seq<nat>, q: seq<nat>, next: nat)
    requires q != [] && Rising(d + q, next)
    ensures Rising(d + q[1..], next)
  {
    var a, b := d + q, d + q[1..];
    assert forall i :: 0 <= i < |b| ==> b[i] == a[if i < |d| then i else i + 1];
  }

  // ---- every run --------------------------------------------------------------------------

  ghost predicate AllOwn<C>(cfg: Config<C>, k: KS.Keys<C>, ps: seq<seq<byte>>)
  {
    forall i :: 0 <= i < |ps| ==> Own(cfg, k, Pattern(cfg.payload), ps[i])
  }

  /** The queue holds own packets that carry the plan's numbers. */
  ghost predicate Queued<C>(cfg: Config<C>, k: KS.Keys<C>, queue: seq<Parcel>, numbers: seq<nat>)
  {
    && |queue| == |numbers|
    && forall i :: 0 <= i < |queue| ==>
      queue[i].number == numbers[i] && Own(cfg, k, Pattern(cfg.payload), queue[i].packet) &&
      Decode(queue[i].packet).seqno == numbers[i] % W64
  }

  /** The loop follows the plan; the shard keeps its keys and its pattern. */
  ghost predicate Kept<C>(cfg: Config<C>, secret: C, l: Loop<C>, p: Plan)
  {
    var s, z := l.shard, Start(cfg, secret);
    && s.keys == z.keys && s.plain == z.plain
    && l.issued == p.next && s.seqno == p.next % W64
    && l.delivered == p.delivered && s.window == p.window
    && Queued(cfg, s.keys, l.queue, p.queue)
    && AllOwn(cfg, s.keys, l.sent)
    && s.stats == Stats(|l.sent|, |l.sent| * cfg.payload, 0, p.window.dup + p.window.stale, 0)
    && |l.sent| + s.stats.replayDrop == |l.delivered|
  }

  lemma StageKept<C>(cfg: Config<C>, secret: C, l: Loop<C>, p: Plan, tsc: U64)
    requires Fixed(cfg, Start(cfg, secret).keys) && Kept(cfg, secret, l, p)
    ensures Kept(cfg, secret, Hopped(cfg, l, Stage(tsc)), Planned(p, Stage(tsc)))
  {
    hide SealNext, Own, Fixed, Decode, Pattern, KS.Start, Queued, AllOwn;
    var s, text := l.shard, Pattern(cfg.payload);
    assert s.plain[..cfg.payload] == text;
    Widths();
    SealNextOwn(cfg, s, Blank(tsc), text);
    var out := MakePacket(cfg, s, tsc).effect.out;
    assert Parcels(l.issued, out) == [Parcel(p.next, out[0])];
    RW.Wraps(p.next);
    QueuedNext(cfg, s.keys, l.queue, p.queue, Parcel(p.next, out[0]));
  }

  lemma QueuedNext<C>(cfg: Config<C>, k: KS.Keys<C>, queue: seq<Parcel>, numbers: seq<nat>, x: Parcel)
    requires Queued(cfg, k, queue, numbers) && Own(cfg, k, Pattern(cfg.payload), x.packet)
    requires Decode(x.packet).seqno == x.number % W64
    ensures Queued(cfg, k, queue + [x], numbers + [x.number])
  {
    hide Own, Decode, Pattern;
  }

  lemma QueuedTail<C>(cfg: Config<C>, k: KS.Keys<C>, queue: seq<Parcel>, numbers: seq<nat>)
    requires Queued(cfg, k, queue, numbers)
    ensures |queue| == |numbers|
    ensures queue != [] ==>
      && queue[0].number == numbers[0] && Own(cfg, k, Pattern(cfg.payload), queue[0].packet)
      && |queue[0].packet| >= HEADER_SIZE && Decode(queue[0].packet).seqno == numbers[0] % W64
      && Queued(cfg, k, queue[1..], numbers[1..])
  {
    hide Decode, Pattern;
  }

  lemma AllOwnNext<C>(cfg: Config<C>, k: KS.Keys<C>, ps: seq<seq<byte>>, p: seq<byte>)
    requires AllOwn(cfg, k, ps) && Own(cfg, k, Pattern(cfg.payload), p)
    ensures AllOwn(cfg, k, ps + [p])
  {
    hide Own, Pattern;
  }

  lemma DeliverKept<C>(cfg: Config<C>, secret: C, l: Loop<C>, p: Plan)
    requires Fixed(cfg, Start(cfg, secret).keys) && Kept(cfg, secret, l, p) && l.queue != []
    ensures p.queue != [] && Kept(cfg, secret, Hopped(cfg, l, Deliver), Planned(p, Deliver))
  {
    hide Handle, Own, Fixed, Decode, KS.Start, Queued, AllOwn, Pattern, RW.Step, RW.Admits;
    var s, text, x := l.shard, Pattern(cfg.payload), l.queue[0];
    assert s.plain[..cfg.payload] == text;
    QueuedTail(cfg, s.keys, l.queue, p.queue);
    HandleOwn(cfg, s, text, x.packet);
    var o := Handle(cfg, s, x.packet);
    RW.Wraps(p.next);
    StepCounts(s.window, p.queue[0] % W64);
    if RW.Admits(s.window, p.queue[0] % W64) {
      assert o.effect.out == [o.effect.out[0]];
      AllOwnNext(cfg, s.keys, l.sent, o.effect.out[0]);
      assert (|l.sent| + 1) * cfg.payload == |l.sent| * cfg.payload + cfg.payload;
    } else {
      assert l.sent + o.effect.out == l.sent;
    }
  }

  lemma StepCounts(w: RW.View, x: nat)
    ensures var w' := RW.Step(w, x); w'.dup + w'.stale == w.dup + w.stale + One(!RW.Admits(w, x))
  {}

  lemma HopKept<C>(cfg: Config<C>, secret: C, l: Loop<C>, p: Plan, h: Hop)
    requires Fixed(cfg, Start(cfg, secret).keys) && Kept(cfg, secret, l, p) && cfg.payload <= |l.shard.plain|
    ensures Kept(cfg, secret, Hopped(cfg, l, h), Planned(p, h))
  {
    hide Handle, MakePacket, Fixed, Queued, AllOwn;
    QueuedTail(cfg, l.shard.keys, l.queue, p.queue);
    match h
    case Stage(tsc) => StageKept(cfg, secret, l, p, tsc);
    case Deliver => if l.queue != [] { DeliverKept(cfg, secret, l, p); }
    case Lose =>
  }

  lemma KeptStart<C>(cfg: Config<C>, secret: C)
    ensures Kept(cfg, secret, Idle(cfg, secret), Fresh())
  {
    hide Decode, Own;
  }

  /** Every run, of any length, follows its plan. */
  lemma {:induction false} StaysKept<C>(cfg: Config<C>, secret: C, hs: seq<Hop>)
    requires Fixed(cfg, Start(cfg, secret).keys)
    ensures Kept(cfg, secret, Around(cfg, Idle(cfg, secret), hs), PlanOf(hs))
  {
    hide Hopped, Kept, Fixed, Planned;
    if hs == [] {
      KeptStart(cfg, secret);
    } else {
      StaysKept(cfg, secret, hs[..|hs| - 1]);
      HopKept(cfg, secret, Around(cfg, Idle(cfg, secret), hs[..|hs| - 1]), PlanOf(hs[..|hs| - 1]), hs[|hs| - 1]);
    }
  }

  /** What holds of every loop, however long: plain keeps its pattern, nothing fails
      to verify, the byte count is exact, every packet delivered is sent on or refused
      by the window, and every packet sent on opens to the pattern. And nothing is
      refused if and only if the numbers that arrived, as their headers carry them,
      are each admitted by the set-based window. */
  lemma LoopbackAlways<C>(cfg: Config<C>, secret: C, hs: seq<Hop>)
    requires Lawful(cfg.aead) && cfg.keys.known && cfg.keys.perEpoch == 0 && cfg.replay
    ensures var l := Around(cfg, Idle(cfg, secret), hs); var st := l.shard.stats;
      && l.shard.plain == Pattern(cfg.payload) + seq(SLACK, _ => 0)
      && st.authFail == 0 && st.rekeys == 0
      && st.packets == |l.sent| && st.bytes == st.packets * cfg.payload
      && st.packets + st.replayDrop == |l.delivered|
      && (forall i :: 0 <= i < |l.sent| ==> OpensTo(cfg, KS.Start(cfg.keys, secret), Pattern(cfg.payload), l.sent[i]))
      && l.delivered == PlanOf(hs).delivered && l.issued == PlanOf(hs).next
      && (st.replayDrop == 0 <==>
          forall i :: 0 <= i < |l.delivered| ==> RW.Verdict(RW.Fresh(WINDOW_BITS), Wrapped(l.delivered), i))
  {
    hide Around, Own, OpensTo, Queued, Pattern, Lawful, PlanOf, Rising, RW.Verdict, RW.Run;
    FixedStart(cfg, secret);
    StaysKept(cfg, secret, hs);
    PlanIs(hs);
    var l := Around(cfg, Idle(cfg, secret), hs);
    RW.NoRefusals(WINDOW_BITS, Wrapped(l.delivered));
    forall i | 0 <= i < |l.sent| ensures OpensTo(cfg, KS.Start(cfg.keys, secret), Pattern(cfg.payload), l.sent[i]) {
      OwnOpens(cfg, l.shard.keys, Pattern(cfg.payload), l.sent[i]);
    }
  }

  lemma FixedStart<C>(cfg: Config<C>, secret: C)
    requires Lawful(cfg.aead) && cfg.keys.known && cfg.keys.perEpoch == 0 && cfg.replay
    ensures Fixed(cfg, Start(cfg, secret).keys)
  {
    hide Lawful;
  }

  lemma Unwrapped(d: seq<nat>, q: seq<nat>, next: nat)
    requires Rising(d + q, next) && next <= W64
    ensures Wrapped(d) == d && Rising(d, next)
  {
    var a := d + q;
    forall i | 0 <= i < |d| ensures d[i] == a[i] && Wrapped(d)[i] == d[i] { Small(d[i]); }
  }

  lemma Small(n: nat)
    ensures n < W64 ==> n % W64 == n
  {}

  /** The promise of the self-test: while no number has wrapped, nothing is refused
      and everything delivered is sent on. */
  lemma LoopbackClean<C>(cfg: Config<C>, secret: C, hs: seq<Hop>)
    requires Lawful(cfg.aead) && cfg.keys.known && cfg.keys.perEpoch == 0 && cfg.replay
    requires PlanOf(hs).next <= W64
    ensures var l := Around(cfg, Idle(cfg, secret), hs); var st := l.shard.stats;
      && st.authFail == 0 && st.replayDrop == 0
      && st.packets == |l.delivered| && st.bytes == st.packets * cfg.payload
  {
    hide Around, OpensTo, Lawful, PlanOf, Pattern, RW.Verdict, RW.Run;
    LoopbackAlways(cfg, secret, hs);
    PlanIs(hs);
    var p := PlanOf(hs);
    var ws := Wrapped(p.delivered);
    Unwrapped(p.delivered, p.queue, p.next);
    forall i | 0 <= i < |ws| ensures RW.Verdict(RW.Fresh(WINDOW_BITS), ws, i) {
      RW.RisingAccepted(WINDOW_BITS, ws, i);
    }
  }

  // ---- and beyond the wrap ----------------------------------------------------------------

  /** n packets staged and lost, one after the other */
  function Idling(n: nat): seq<Hop> { if n == 0 then [] else Idling(n - 1) + [Stage(0), Lose] }

  lemma PlanNext(hs: seq<Hop>, h: Hop)
    ensures PlanOf(hs + [h]) == Planned(PlanOf(hs), h)
  {
    hide Planned;
    assert (hs + [h])[..|hs|] == hs;
  }

  lemma {:induction false} IdlingPlan(n: nat)
    ensures PlanOf(Idling(n)) == Fresh().(next := n)
  {
    if n > 0 {
      IdlingPlan(n - 1);
      PlanNext(Idling(n - 1), Stage(0));
      PlanNext(Idling(n - 1) + [Stage(0)], Lose);
      assert Idling(n - 1) + [Stage(0)] + [Lose] == Idling(n);
    }
  }

  /** The bound is needed: this lossy, in-order run takes a few more numbers than
      2^64, and a fresh packet is refused as a replay. */
  lemma WrapRefuses<C>(cfg: Config<C>, secret: C)
    requires Lawful(cfg.aead) && cfg.keys.known && cfg.keys.perEpoch == 0 && cfg.replay
    ensures var l := Around(cfg, Idle(cfg, secret), Idling(W64 - 1) + [Stage(0)] + [Deliver] + [Stage(0)] + [Deliver]);
      l.delivered == [W64 - 1, W64 + 1] && l.shard.stats.replayDrop == 1
  {
    hide Around, PlanOf, Idling, Queued, AllOwn, Pattern, Lawful, Fixed;
    var hs := Idling(W64 - 1);
    IdlingPlan(W64 - 1);
    PlanNext(hs, Stage(0));
    PlanNext(hs + [Stage(0)], Deliver);
    PlanNext(hs + [Stage(0)] + [Deliver], Stage(0));
    PlanNext(hs + [Stage(0)] + [Deliver] + [Stage(0)], Deliver);
    FixedStart(cfg, secret);
    StaysKept(cfg, secret, hs + [Stage(0)] + [Deliver] + [Stage(0)] + [Deliver]);
  }
}
