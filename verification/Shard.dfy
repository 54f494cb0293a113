/** The shard object: buffers, counters and the loops around them. */
module Shard {
  import opened Bytes
  import opened AeadCommon
  import opened Aead
  import opened Wire
  import opened ShardSpec
  import opened Loopback
  import KS = KeySchedule
  import RW = ReplayWindow
  import opened WordBits

  method NewWindow(on: bool) returns (w: RW.Window?)
    ensures on <==> w != null
    ensures w != null ==> fresh(w) && fresh(w.bits) && w.Valid() && w.view == RW.Fresh(WINDOW_BITS)
  {
    hide RW.Window.Valid;
    if on { w := new RW.Window(WINDOW_BITS); } else { w := null; }
  }

  /** vector::assign with zeros */
  method Zeroed(n: nat) returns (a: array<byte>)
    ensures fresh(a) && a.Length == n && forall i :: 0 <= i < n ==> a[i] == 0
  {
    a := new byte[n](_ => 0);
  }

  /** The four vectors of a shard: receive and send slots, the plaintext with its
      pattern in place, and the loader's scratch */
  method Buffers(size: nat, payload: nat, stride: nat)
      returns (arena: array<byte>, out: array<byte>, plain: array<byte>, tmpl: array<byte>)
    ensures fresh(arena) && fresh(out) && fresh(plain) && fresh(tmpl)
    ensures arena != out && arena != plain && arena != tmpl && out != plain && out != tmpl && plain != tmpl
    ensures arena.Length == out.Length == size && tmpl.Length == stride
    ensures plain[..] == Pattern(payload) + seq(SLACK, _ => 0)
  {
    hide ByteOf;
    arena := Zeroed(size);
    out := Zeroed(size);
    plain := Zeroed(payload + SLACK);
    tmpl := Zeroed(stride);
    for i := 0 to payload
      modifies plain
      invariant forall j :: 0 <= j < i ==> plain[j] == ByteOf(j * 31 + 7)
      invariant forall j :: i <= j < plain.Length ==> plain[j] == 0
    {
      plain[i] := ByteOf(i * 31 + 7);
    }
  }

  /** memcpy */
  method WriteAt(dst: array<byte>, at: nat, src: seq<byte>)
    requires at + |src| <= dst.Length
    modifies dst
    ensures forall j :: 0 <= j < dst.Length ==> dst[j] == if at <= j < at + |src| then src[j - at] else old(dst[j])
  {
    for i := 0 to |src|
      invariant forall j :: 0 <= j < dst.Length ==> dst[j] == if at <= j < at + i then src[j - at] else old(dst[j])
    {
      dst[at + i] := src[i];
    }
  }

  /** Where slot i begins */
  function Offset(i: nat, stride: nat): nat { i * stride }

  lemma SlotFits(i: nat, slots: nat, stride: nat)
    requires i < slots
    ensures Offset(i, stride) + stride <= Offset(slots, stride)
  {
    MulGrows(i + 1, slots, stride);
  }

  lemma MulGrows(a: nat, b: nat, c: nat)
    requires a <= b
    ensures a * c <= b * c
  {}

  function Arrivals(ds: seq<seq<byte>>): (es: seq<Event>)
    ensures |es| == |ds|
  {
    seq(|ds|, i requires 0 <= i < |ds| => Receive(ds[i]))
  }

  function Makes(ticks: seq<U64>): (es: seq<Event>)
    ensures |es| == |ticks|
  {
    seq(|ticks|, i requires 0 <= i < |ticks| => Make(ticks[i]))
  }

  /** The packets put out, in order */
  function Emissions(fs: seq<Effect>): seq<seq<byte>>
  {
    if fs == [] then [] else Emissions(fs[..|fs| - 1]) + fs[|fs| - 1].out
  }

  /** Which of its sockets a new shard could open: the black hole its packets go to,
      the transport, and the loader. On the wire it needs the transport alone. */
  datatype Sockets = Sockets(hole: bool, transport: bool, loader: bool)

  predicate Connected(k: Sockets, loopback: bool) { k.transport && (loopback ==> k.hole && k.loader) }

  /** The elements that are flagged, in order */
  function Picked<T>(xs: seq<T>, flags: seq<bool>): (r: seq<T>)
    requires |xs| == |flags|
    ensures |r| <= |xs|
  {
    if xs == [] then []
    else
      Picked(xs[..|xs| - 1], flags[..|xs| - 1]) + if flags[|xs| - 1] then [xs[|xs| - 1]] else []
  }

  lemma PickedNext<T>(xs: seq<T>, flags: seq<bool>, x: T, f: bool)
    requires |xs| == |flags|
    ensures Picked(xs + [x], flags + [f]) == Picked(xs, flags) + (if f then [x] else [])
    ensures Picked<T>([], []) == []
  {
    assert (xs + [x])[..|xs|] == xs && (flags + [f])[..|xs|] == flags;
  }

  function Clamped<C>(cfg: Config<C>): Config<C>
  {
    cfg.(payload := if cfg.payload > MAX_PAYLOAD then MAX_PAYLOAD else cfg.payload)
  }

  class Shard<C> {
    const cfg: Config<C>
    const slots: nat
    const loopback: bool
    const keys: KS.Schedule<C>
    const window: RW.Window?
    const plain: array<byte>
    const arena: array<byte>
    const out: array<byte>
    const tmpl: array<byte>
    var rlens: seq<nat>
    var slens: seq<nat>
    var seqno: U64
    var packets: U64
    var bytes: U64
    var authFail: U64
    var replayDrop: U64
    var rekeys: U64
    var ready: bool
    ghost var tally: Stats

    /** The size of a slot: a whole packet and some slack */
    function Stride(): nat { HEADER_SIZE + cfg.payload + TAG_SIZE + SLACK }

    ghost predicate Apart()
    {
      && plain != out && plain != arena && plain != tmpl && out != arena && out != tmpl && arena != tmpl
      && (window != null ==> Foreign(window.bits, plain) && Foreign(window.bits, arena))
      && (window != null ==> Foreign(window.bits, out) && Foreign(window.bits, tmpl))
    }

    ghost predicate Counted()
      reads this`packets, this`bytes, this`authFail, this`replayDrop, this`rekeys, this`tally
    {
      && packets == tally.packets % W64 && bytes == tally.bytes % W64 && authFail == tally.authFail % W64
      && replayDrop == tally.replayDrop % W64 && rekeys == tally.rekeys % W64
    }

    /** Sizes: what the constructor allots */
    ghost predicate Sized()
      reads this`rlens, this`slens
    {
      && plain.Length == cfg.payload + SLACK && tmpl.Length == Stride()
      && out.Length == Offset(slots, Stride()) && |slens| == slots
      && (forall i :: 0 <= i < slots ==> slens[i] <= Stride())
      && Receivable()
    }

    ghost predicate Receivable()
      reads this`rlens
    {
      && arena.Length == Offset(slots, Stride()) && |rlens| == slots
      && (forall i :: 0 <= i < slots ==> rlens[i] <= Stride())
    }

    ghost predicate Valid()
      reads this, keys, window, if window == null then {} else {window.bits}
    {
      && ready && Apart() && Sized() && Counted()
      && keys.cfg == cfg.keys && Bounded(cfg.aead)
      && (cfg.replay <==> window != null)
      && (window != null ==> window.Valid())
    }

    ghost function View(): RW.View
      reads window
    {
      if window == null then RW.Fresh(WINDOW_BITS) else window.view
    }

    /** The state of the specification */
    ghost function Model(): State<C>
      reads this, keys, window, plain
    {
      State(seqno, keys.State(), View(), plain[..], tally)
    }

    /** Receive slot i */
    ghost function Datagram(i: nat): (d: seq<byte>)
      requires Receivable() && i < slots
      reads this`rlens, arena
      ensures |d| == rlens[i]
    {
      SlotFits(i, slots, Stride());
      arena[Offset(i, Stride())..Offset(i, Stride()) + rlens[i]]
    }

    /** The first n receive slots */
    ghost function Datagrams(n: nat): (ds: seq<seq<byte>>)
      requires Receivable() && n <= slots
      reads this`rlens, arena
      ensures |ds| == n
    {
      if n == 0 then [] else Datagrams(n - 1) + [Datagram(n - 1)]
    }

    /** Send slot k */
    ghost function Outgoing(k: nat): (d: seq<byte>)
      requires Sized() && k < slots
      reads this`slens, this`rlens, out
      ensures |d| == slens[k]
    {
      SlotFits(k, slots, Stride());
      SlotOf(out[..], slens, Stride(), k)
    }

    /** Shard::Shard: clamp the payload, size every buffer for it, fill in the pattern */
    constructor (wanted: Config<C>, secret: C, slots: nat, loopback: bool, sockets: Sockets)
      requires Bounded(wanted.aead)
      ensures cfg.payload == (if wanted.payload > 1432 then 1432 else wanted.payload)
      ensures cfg == Clamped(wanted) && this.slots == slots && this.loopback == loopback
      ensures ready <==> wanted.keys.known && Connected(sockets, loopback)
      ensures ready ==> Valid()
      ensures Model() == ShardSpec.Start(cfg, secret)
      ensures fresh(keys) && fresh(plain) && fresh(arena) && fresh(out) && fresh(tmpl) &&
        (window != null ==> fresh(window) && fresh(window.bits))
    {
      hide Offset, Bounded, RW.Window.Valid, KS.Start, KS.CipherFor, Pattern;
      StartKnown(wanted.keys, secret);
      cfg := Clamped(wanted);
      this.slots, this.loopback := slots, loopback;
      var ks := new KS.Schedule(wanted.keys, secret);
      keys := ks;
      var c := ks.ForEpoch(0);
      ready := c.Some? && Connected(sockets, loopback);
      var w := NewWindow(wanted.replay);
      window := w;
      var n := Clamped(wanted).payload;
      var stride := HEADER_SIZE + n + TAG_SIZE + SLACK;
      var received, sending, text, loader := Buffers(Offset(slots, stride), n, stride);
      arena, out, plain, tmpl := received, sending, text, loader;
      rlens, slens := seq(slots, _ => 0), seq(slots, _ => 0);
      seqno := 0;
      packets, bytes, authFail, replayDrop, rekeys := 0, 0, 0, 0, 0;
      tally := Stats(0, 0, 0, 0, 0);
    }

    /** Shard::reset_stats */
    method ResetStats()
      requires Valid()
      modifies this`packets, this`bytes, this`authFail, this`replayDrop, this`rekeys, this`tally
      ensures Valid() && Model() == old(Model()).(stats := Stats(0, 0, 0, 0, 0))
    {
      hide Offset, Bounded, RW.Window.Valid;
      packets, bytes, authFail, replayDrop, rekeys := 0, 0, 0, 0, 0;
      tally := Stats(0, 0, 0, 0, 0);
    }

    /** Takes the next number, rekeys if due, writes the header and the sealed
        first n bytes of plain to dst. len is 0 when there is nothing to send. */
    method SealInto(dst: array<byte>, at: nat, h: Wire.Header, n: nat) returns (len: nat, rekeyed: bool)
      requires Valid() && (dst == out || dst == tmpl)
      requires n <= plain.Length && at + HEADER_SIZE + n + TAG_SIZE <= dst.Length
      modifies this`seqno, keys, dst
      ensures Valid()
      ensures var o := SealNext(cfg, old(Model()), h, old(plain[..n]));
        && Model() == o.state && (rekeyed <==> o.state.keys.rekeys == old(Model()).keys.rekeys + 1)
        && (o.state.keys.rekeys == old(Model()).keys.rekeys || rekeyed)
        && (len == 0 <==> o.effect.verdict != Emitted)
        && (len > 0 ==> len == HEADER_SIZE + n + TAG_SIZE && o.effect.out == [dst[at..at + len]])
      ensures forall j :: 0 <= j < dst.Length && (j < at || j >= at + HEADER_SIZE + n + TAG_SIZE) ==>
        dst[j] == old(dst[j])
    {
      hide Offset, RW.Window.Valid, KS.Rekey, KS.CipherFor, KS.NonceFor, Encode, Counted, SealNext, Bounded, Sized;
      ghost var s, text := Model(), plain[..n];
      var number := seqno;
      seqno := (seqno + 1) % W64;
      rekeyed := keys.MaybeRekey(number);
      RekeyCount(cfg.keys, s.keys, number);
      var c := keys.ForEpoch(keys.epoch);
      if c.None? {
        SealNextNone(cfg, s, h, text);
        return 0, rekeyed;
      }
      SealNextSome(cfg, s, h, text);
      var head := Encode(ShardSpec.Header(keys.State(), h, number));
      var nonce := keys.Nonce(keys.epoch, number);
      len := WriteSealed(dst, at, head, c.value, nonce, n);
    }

    /** The header and the sealed first n bytes of plain */
    method WriteSealed(dst: array<byte>, at: nat, head: seq<byte>, key: KS.Key, nonce: seq<byte>, n: nat)
        returns (len: nat)
      requires Valid() && (dst == out || dst == tmpl) && |head| == HEADER_SIZE
      requires n <= plain.Length && at + HEADER_SIZE + n + TAG_SIZE <= dst.Length
      modifies dst
      ensures Valid() && Model() == old(Model())
      ensures var body := cfg.aead.seal(key, nonce, head, old(plain[..n]));
        && (len == 0 <==> body == [])
        && (len > 0 ==> len == HEADER_SIZE + n + TAG_SIZE && dst[at..at + len] == head + body)
      ensures forall j :: 0 <= j < dst.Length && (j < at || j >= at + HEADER_SIZE + n + TAG_SIZE) ==>
        dst[j] == old(dst[j])
    {
      hide Offset, RW.Window.Valid, Counted, Bounded, Sized;
      ghost var text := plain[..];
      WriteAt(dst, at, head);
      assert plain[..] == text;
      var body := cfg.aead.seal(key, nonce, head, plain[..n]);
      if body == [] { return 0; }
      SealShape(cfg, Model());
      WriteAt(dst, at + HEADER_SIZE, body);
      assert plain[..] == text;
      len := HEADER_SIZE + |body|;
      assert dst[at..at + len] == head + body;
    }

    method CountAuthFail()
      requires Valid()
      modifies this`authFail, this`tally
      ensures Valid() && Model() == old(Model()).(stats := old(tally).(authFail := old(tally).authFail + 1))
    {
      hide Offset, RW.Window.Valid, Bounded, Sized, Apart;
      RW.Wraps(tally.authFail);
      authFail := (authFail + 1) % W64;
      tally := tally.(authFail := tally.authFail + 1);
    }

    /** The counts of one forwarding */
    method CountForward(rekeyed: bool, emitted: bool, pl: nat)
      requires Valid()
      modifies this`rekeys, this`packets, this`bytes, this`tally
      ensures Valid() && Model() == old(Model()).(stats := Tallied(old(tally), rekeyed, emitted, pl))
    {
      hide Offset, RW.Window.Valid, Bounded, Sized, Apart;
      if rekeyed {
        RW.Wraps(tally.rekeys);
        rekeys := (rekeys + 1) % W64;
      }
      if emitted {
        RW.Wraps(tally.packets);
        packets := (packets + 1) % W64;
        WrapsBy(tally.bytes, pl);
        bytes := (bytes + pl) % W64;
      }
      tally := Tallied(tally, rekeyed, emitted, pl);
    }

    /** What open leaves in plain */
    method OpenInto(key: KS.Key, nonce: seq<byte>, ad: seq<byte>, ct: seq<byte>)
      requires Valid() && |cfg.aead.spill(key, nonce, ad, ct)| <= plain.Length
      modifies plain
      ensures Valid()
      ensures Model() == old(Model()).(plain := Overlay(old(plain[..]), cfg.aead.spill(key, nonce, ad, ct)))
    {
      hide Offset, RW.Window.Valid, Counted, Bounded;
      var spill := cfg.aead.spill(key, nonce, ad, ct);
      WriteAt(plain, 0, spill);
      assert plain[..] == Overlay(old(plain[..]), spill);
    }

    /** Open what arrived in receive slot i into plain, and seal it again into send slot k */
    method OpenSlot(i: nat, k: nat) returns (sent: bool)
      requires Valid() && i < slots && k < slots && rlens[i] >= HEADER_SIZE + TAG_SIZE
      modifies this`seqno, this`authFail, this`rekeys, this`packets, this`bytes, this`tally, this`slens
      modifies keys, plain, out
      ensures Valid()
      ensures var o := OpenOne(cfg, old(Model()), Datagram(i));
        && Model() == o.state && |o.effect.out| <= 1 && (sent <==> o.effect.out != [])
        && (sent ==> o.effect.out == [Outgoing(k)])
      ensures forall j :: 0 <= j < k ==> slens[j] == old(slens[j])
      ensures forall j :: 0 <= j < Offset(k, Stride()) && j < out.Length ==> out[j] == old(out[j])
    {
      hide Offset, RW.Window.Valid, KS.CipherFor, KS.NonceFor, Encode, Decode, Counted, SealNext, Bounded, OpenOne;
      SlotFits(i, slots, Stride());
      SlotFits(k, slots, Stride());
      ghost var s := Model();
      var d := arena[Offset(i, Stride())..Offset(i, Stride()) + rlens[i]];
      OpenOneCases(cfg, s, d);
      var h := Decode(d);
      var c := keys.ForEpoch(h.epoch);
      if c.None? {
        CountAuthFail();
        return false;
      }
      var nonce := keys.Nonce(h.epoch, h.seqno);
      var ad, ct := d[..HEADER_SIZE], d[HEADER_SIZE..];
      SpillFits(cfg, c.value, nonce, ad, ct);
      OpenInto(c.value, nonce, ad, ct);
      match cfg.aead.open(c.value, nonce, ad, ct)
      case Failed =>
        CountAuthFail();
        return false;
      case Plain(text) =>
        assert plain[..|text|] == text;
        sent := ForwardSlot(k, h, |text|);
    }

    /** Seal the first pl bytes of plain into send slot k under the next number */
    method ForwardSlot(k: nat, h: Wire.Header, pl: nat) returns (sent: bool)
      requires Valid() && k < slots && pl <= plain.Length
      modifies this`seqno, this`rekeys, this`packets, this`bytes, this`tally, this`slens, keys, out
      ensures Valid()
      ensures var o := Forward(cfg, old(Model()), h, plain[..pl]);
        && Model() == o.state && |o.effect.out| <= 1 && (sent <==> o.effect.out != [])
        && (sent ==> o.effect.out == [Outgoing(k)])
      ensures forall j :: 0 <= j < k ==> slens[j] == old(slens[j])
      ensures forall j :: 0 <= j < Offset(k, Stride()) && j < out.Length ==> out[j] == old(out[j])
    {
      hide Offset, RW.Window.Valid, Counted, SealNext, Bounded, Forward, Tallied;
      SlotFits(k, slots, Stride());
      ghost var s := Model();
      var len, rekeyed := SealInto(out, Offset(k, Stride()), h, pl);
      ForwardIs(cfg, s, h, plain[..pl], rekeyed);
      CountForward(rekeyed, len > 0, pl);
      if len == 0 { return false; }
      slens := slens[k := len];
      sent := true;
    }

    method CountReplay()
      requires Valid()
      modifies this`replayDrop, this`tally
      ensures Valid() && Model() == old(Model()).(stats := old(tally).(replayDrop := old(tally).replayDrop + 1))
    {
      hide Offset, RW.Window.Valid, Bounded, Sized, Apart;
      RW.Wraps(tally.replayDrop);
      replayDrop := (replayDrop + 1) % W64;
      tally := tally.(replayDrop := tally.replayDrop + 1);
    }

    /** One turn of drain's inner loop */
    method HandleSlot(i: nat, k: nat) returns (sent: bool)
      requires Valid() && i < slots && k < slots
      modifies this`seqno, this`authFail, this`replayDrop, this`rekeys, this`packets, this`bytes, this`tally, this`slens
      modifies keys, plain, out, window, if window == null then {} else {window.bits}
      ensures Valid()
      ensures var o := Handle(cfg, old(Model()), Datagram(i));
        && Model() == o.state && |o.effect.out| <= 1 && (sent <==> o.effect.out != [])
        && (sent ==> o.effect.out == [Outgoing(k)])
      ensures forall j :: 0 <= j < k ==> slens[j] == old(slens[j])
      ensures forall j :: 0 <= j < Offset(k, Stride()) && j < out.Length ==> out[j] == old(out[j])
    {
      hide Offset, RW.Window.Valid, Decode, Counted, Bounded, OpenOne, RW.Step, RW.Admits;
      SlotFits(i, slots, Stride());
      var d := arena[Offset(i, Stride())..Offset(i, Stride()) + rlens[i]];
      if rlens[i] < HEADER_SIZE + TAG_SIZE { return false; }
      var h := Decode(d);
      if h.magic != MAGIC { return false; }
      if window != null {
        NumberFits(d);
        var isNew := window.Accept(h.seqno);
        if !isNew {
          CountReplay();
          return false;
        }
      }
      sent := OpenSlot(i, k);
    }

    /** The same, with the send slots already filled left as they are */
    method HandleNext(i: nat, k: nat) returns (sent: bool)
      requires Valid() && i < slots && k < slots
      modifies this`seqno, this`authFail, this`replayDrop, this`rekeys, this`packets, this`bytes, this`tally, this`slens
      modifies keys, plain, out, window, if window == null then {} else {window.bits}
      ensures Valid()
      ensures var o := Handle(cfg, old(Model()), Datagram(i));
        && Model() == o.state && |o.effect.out| <= 1 && (sent <==> o.effect.out != [])
        && (sent ==> o.effect.out == [Outgoing(k)])
      ensures forall j :: 0 <= j < k ==> Outgoing(j) == old(Outgoing(j))
    {
      hide Offset, RW.Window.Valid, Counted, Bounded, Handle, Apart;
      ghost var buf, lens := out[..], slens;
      sent := HandleSlot(i, k);
      SlotsKept(buf, out[..], lens, slens, Stride(), slots, k);
      forall j | 0 <= j < k ensures Outgoing(j) == old(Outgoing(j)) {
        assert SlotOf(buf, lens, Stride(), j) == SlotOf(out[..], slens, Stride(), j);
      }
    }

    /** The inner loop: a batch of n datagrams */
    method Batch(n: nat) returns (toSend: nat)
      requires Valid() && n <= slots
      modifies this`seqno, this`authFail, this`replayDrop, this`rekeys, this`packets, this`bytes, this`tally, this`slens
      modifies keys, plain, out, window, if window == null then {} else {window.bits}
      ensures Valid() && toSend <= n
      ensures var r := Run(cfg, old(Model()), Arrivals(Datagrams(n)));
        && Model() == r.state && |Emissions(r.effects)| == toSend
        && forall j :: 0 <= j < toSend ==> Outgoing(j) == Emissions(r.effects)[j]
    {
      hide Offset, RW.Window.Valid, Counted, Bounded, Handle, Run, Emissions, Arrivals, Outgoing, Datagram, SlotOf;
      ghost var s := Model();
      toSend := 0;
      ghost var r := Run(cfg, s, Arrivals([]));
      RunNone(cfg, s);
      for i := 0 to n
        invariant Valid() && toSend <= i
        invariant r == Run(cfg, s, Arrivals(Datagrams(i))) && Model() == r.state
        invariant |Emissions(r.effects)| == toSend
        invariant forall j :: 0 <= j < toSend ==> Outgoing(j) == Emissions(r.effects)[j]
      {
        ghost var ds, d, m, was := Datagrams(i), Datagram(i), Model(), r;
        var sent := HandleNext(i, toSend);
        assert Datagrams(i) == ds && Datagram(i) == d;
        assert Datagrams(i + 1) == ds + [d];
        RunArrival(cfg, s, ds, d);
        r := Run(cfg, s, Arrivals(ds + [d]));
        assert Model() == r.state;
        assert Emissions(r.effects) == Emissions(was.effects) + Handle(cfg, m, d).effect.out;
        if sent { toSend := toSend + 1; }
      }
    }

    /** The transport: any number of datagrams up to max, any bytes, each no
        longer than its slot */
    method RecvBatch(max: nat) returns (n: nat)
      requires Valid() && max <= slots
      modifies arena, this`rlens
      ensures Valid() && n <= max
    {
      hide Offset, RW.Window.Valid, Counted, Bounded;
      n :| 0 <= n <= max;
      for j := 0 to arena.Length
        invariant Valid()
      {
        arena[j] := *;
      }
      for j := 0 to slots
        invariant Valid()
      {
        var len: nat :| len <= Stride();
        rlens := rlens[j := len];
      }
    }

    /** What the transport is given: the first n send slots */
    method SendBatch(n: nat) returns (packets: seq<seq<byte>>)
      requires Valid() && n <= slots
      ensures |packets| == n && forall j :: 0 <= j < n ==> packets[j] == Outgoing(j)
    {
      hide Offset, RW.Window.Valid, Counted, Bounded, Apart;
      packets := [];
      for k := 0 to n
        invariant |packets| == k && forall j :: 0 <= j < k ==> packets[j] == Outgoing(j)
      {
        SlotFits(k, slots, Stride());
        packets := packets + [out[Offset(k, Stride())..Offset(k, Stride()) + slens[k]]];
      }
    }

    /** Shard::drain: what arrived, how much of it, and what was sent on */
    method Drain(budget: int) returns (processed: int, ghost arrived: seq<seq<byte>>, sent: seq<seq<byte>>)
      requires Valid()
      modifies this`seqno, this`authFail, this`replayDrop, this`rekeys, this`packets, this`bytes, this`tally,
        this`slens, this`rlens
      modifies keys, plain, out, arena, window, if window == null then {} else {window.bits}
      ensures Valid()
      ensures processed == |arrived| && processed <= (if budget < 0 then 0 else budget)
      ensures forall d :: d in arrived ==> |d| <= Stride()
      ensures var r := Run(cfg, old(Model()), Arrivals(arrived)); Model() == r.state && sent == Emissions(r.effects)
      ensures |sent| <= processed
      ensures var t, r := old(tally), Run(cfg, old(Model()), Arrivals(arrived));
        processed == (tally.packets - t.packets) + (tally.authFail - t.authFail) + (tally.replayDrop - t.replayDrop)
                     + Ended(Arrivals(arrived), r.effects, Malformed) + Ended(Arrivals(arrived), r.effects, Unsealed)
    {
      hide Offset, RW.Window.Valid, Counted, Bounded, Run, Emissions, Arrivals, Outgoing, Datagram, Datagrams, SlotOf,
        Ended, Received;
      ghost var s := Model();
      processed, arrived, sent := 0, [], [];
      RunNone(cfg, s);
      while processed < budget
        invariant Valid() && 0 <= processed == |arrived| && (budget < 0 ==> processed == 0) &&
          (budget >= 0 ==> processed <= budget)
        invariant forall d :: d in arrived ==> |d| <= Stride()
        invariant Model() == Run(cfg, s, Arrivals(arrived)).state &&
          sent == Emissions(Run(cfg, s, Arrivals(arrived)).effects)
        invariant |sent| <= processed
        decreases budget - processed
      {
        var want := budget - processed;
        if want > slots { want := slots; }
        var n := RecvBatch(want);
        if n <= 0 { break; }
        ghost var s1 := Model();
        var toSend := Batch(n);
        ghost var r := Run(cfg, s1, Arrivals(Datagrams(n)));
        if toSend > 0 {
          var batch := SendBatch(toSend);
          assert batch == Emissions(r.effects);
          sent := sent + batch;
        } else {
          assert Emissions(r.effects) == [];
        }
        DatagramsFit(n);
        RunBatches(cfg, s, arrived, Datagrams(n));
        arrived := arrived + Datagrams(n);
        processed := processed + n;
      }
      Accounts(cfg, s, Arrivals(arrived));
      AllReceived(arrived);
    }

    /** Shard::preload: up to n packets made with the shard's own numbers, of
        which the socket takes some */
    method Preload(n: int) returns (ok: nat, ghost ticks: seq<U64>, staged: seq<seq<byte>>, ghost taken: seq<bool>)
      requires Valid()
      modifies this`seqno, keys, tmpl
      ensures Valid()
      ensures |ticks| <= (if n < 0 then 0 else n) && (!loopback ==> ticks == [])
      ensures var r := Run(cfg, old(Model()), Makes(ticks));
        && Model() == r.state && ok == |staged| <= |ticks|
        && |taken| == |Emissions(r.effects)| && staged == Picked(Emissions(r.effects), taken)
        && (loopback && |ticks| < n ==> ticks != [] && r.effects[|ticks| - 1].verdict == Unsealed)
    {
      hide Offset, RW.Window.Valid, Counted, Bounded, Run, Emissions, Makes, SealNext, Picked;
      ghost var s := Model();
      ok, ticks, staged, taken := 0, [], [], [];
      RunNoMakes(cfg, s);
      PickedNext<seq<byte>>([], [], [], true);
      if !loopback { return; }
      var i := 0;
      while i < n
        invariant Valid() && 0 <= i == |ticks| && (n < 0 ==> i == 0) && (n >= 0 ==> i <= n)
        invariant Model() == Run(cfg, s, Makes(ticks)).state && ok == |staged| <= |ticks|
        invariant |taken| == |Emissions(Run(cfg, s, Makes(ticks)).effects)|
        invariant staged == Picked(Emissions(Run(cfg, s, Makes(ticks)).effects), taken)
      {
        var tsc: U64 := *;
        ghost var m, made := Model(), Emissions(Run(cfg, s, Makes(ticks)).effects);
        RunMake(cfg, s, ticks, tsc);
        ticks := ticks + [tsc];
        var len, rekeyed := SealInto(tmpl, 0, Blank(tsc), cfg.payload);
        ghost var o := MakePacket(cfg, m, tsc);
        if len == 0 {
          SealNextOut(cfg, m, Blank(tsc), m.plain[..cfg.payload]);
          assert made + o.effect.out == made;
          break;
        }
        assert o.effect.out == [tmpl[..len]];
        var took: bool := *;
        PickedNext(made, taken, tmpl[..len], took);
        if took { ok, staged := ok + 1, staged + [tmpl[..len]]; }
        taken := taken + [took];
        i := i + 1;
      }
    }

    lemma DatagramsFit(n: nat)
      requires Receivable() && n <= slots
      ensures forall d :: d in Datagrams(n) ==> |d| <= Stride()
    {
      hide Datagram;
      if n > 0 { DatagramsFit(n - 1); }
    }
  }

  lemma SealNextNone<C>(cfg: Config<C>, s: State<C>, h: Wire.Header, text: seq<byte>)
    requires var k := KS.Rekey(cfg.keys, s.keys, s.seqno); KS.CipherFor(k, k.epoch).None?
    ensures SealNext(cfg, s, h, text) ==
      Outcome(s.(seqno := (s.seqno + 1) % W64, keys := KS.Rekey(cfg.keys, s.keys, s.seqno)),
          Effect(Unsealed, [], [], []))
  {
    hide KS.Rekey, KS.CipherFor;
  }

  lemma SealNextSome<C>(cfg: Config<C>, s: State<C>, h: Wire.Header, text: seq<byte>)
    requires var k := KS.Rekey(cfg.keys, s.keys, s.seqno); KS.CipherFor(k, k.epoch).Some?
    ensures var k := KS.Rekey(cfg.keys, s.keys, s.seqno);
      var head := Encode(ShardSpec.Header(k, h, s.seqno));
      var body := cfg.aead.seal(KS.CipherFor(k, k.epoch).value, KS.NonceFor(k, k.epoch, s.seqno), head, text);
      var o := SealNext(cfg, s, h, text);
      && o.state == s.(seqno := (s.seqno + 1) % W64, keys := k)
      && (body == [] ==> o.effect.verdict == Unsealed && o.effect.out == [])
      && (body != [] ==> o.effect.verdict == Emitted && o.effect.out == [head + body])
  {
    hide KS.Rekey, KS.CipherFor, KS.NonceFor, Encode;
  }

  function Tallied(t: Stats, rekeyed: bool, emitted: bool, pl: nat): Stats
  {
    t.(rekeys := t.rekeys + One(rekeyed), packets := t.packets + One(emitted),
        bytes := t.bytes + if emitted then pl else 0)
  }

  lemma WrapsBy(n: nat, k: nat)
    ensures (n % W64 + k) % W64 == (n + k) % W64
  {}

  lemma OpenOneCases<C>(cfg: Config<C>, s: State<C>, d: seq<byte>)
    requires |d| >= HEADER_SIZE
    ensures var h := Decode(d); var c := KS.CipherFor(s.keys, h.epoch); var o := OpenOne(cfg, s, d);
      var failed := s.stats.(authFail := s.stats.authFail + 1);
      && (c.None? ==> o == Outcome(s.(stats := failed), Effect(Unauthentic, [], [], [])))
      && (c.Some? ==>
        var n, ad, ct := KS.NonceFor(s.keys, h.epoch, h.seqno), d[..HEADER_SIZE], d[HEADER_SIZE..];
        var s1 := s.(plain := Overlay(s.plain, cfg.aead.spill(c.value, n, ad, ct)));
        match cfg.aead.open(c.value, n, ad, ct)
        case Failed => o == Outcome(s1.(stats := failed), Effect(Unauthentic, [h.seqno], [], []))
        case Plain(text) => o == Forward(cfg, s1, h, text))
  {
    hide Decode, KS.CipherFor, KS.NonceFor, Forward;
  }

  lemma SpillFits<C>(cfg: Config<C>, k: KS.Key, n: seq<byte>, ad: seq<byte>, ct: seq<byte>)
    requires Bounded(cfg.aead)
    ensures |cfg.aead.spill(k, n, ad, ct)| <= (if |ct| < 16 then 0 else |ct| - 16)
    ensures cfg.aead.open(k, n, ad, ct).Plain? ==> cfg.aead.open(k, n, ad, ct).text == cfg.aead.spill(k, n, ad, ct)
  {}

  lemma ForwardIs<C>(cfg: Config<C>, s: State<C>, h: Wire.Header, text: seq<byte>, rekeyed: bool)
    requires SealNext(cfg, s, h, text).state.keys.rekeys == s.keys.rekeys + One(rekeyed)
    ensures var o := SealNext(cfg, s, h, text); var emitted := o.effect.verdict == Emitted;
      && Forward(cfg, s, h, text) ==
         Outcome(o.state.(stats := Tallied(s.stats, rekeyed, emitted, |text|)), o.effect.(tried := [h.seqno]))
      && o.state.stats == s.stats && |o.effect.out| == One(emitted)
  {
    hide KS.Rekey, KS.CipherFor, KS.NonceFor, Encode;
  }

  function SlotOf(buf: seq<byte>, lens: seq<nat>, stride: nat, j: nat): seq<byte>
    requires j < |lens| && Offset(j, stride) + lens[j] <= |buf|
  {
    buf[Offset(j, stride)..Offset(j, stride) + lens[j]]
  }

  /** Writing slot k leaves the slots before it as they were. */
  lemma SlotsKept(was: seq<byte>, now: seq<byte>, lens: seq<nat>, lens': seq<nat>, stride: nat, slots: nat, k: nat)
    requires |was| == |now| == Offset(slots, stride) && |lens| == |lens'| == slots && k <= slots
    requires forall j :: 0 <= j < k ==> lens[j] == lens'[j] <= stride
    requires forall j :: 0 <= j < Offset(k, stride) && j < |was| ==> was[j] == now[j]
    ensures forall j :: 0 <= j < k ==>
      Offset(j, stride) + lens[j] <= |was| && SlotOf(was, lens, stride, j) == SlotOf(now, lens', stride, j)
  {
    hide Offset;
    forall j | 0 <= j < k
      ensures Offset(j, stride) + lens[j] <= |was| && SlotOf(was, lens, stride, j) == SlotOf(now, lens', stride, j)
    {
      SlotFits(j, k, stride);
      SlotFits(j, slots, stride);
    }
  }

  lemma RunNone<C>(cfg: Config<C>, s: State<C>)
    requires cfg.payload <= |s.plain|
    ensures Run(cfg, s, Arrivals([])) == Trace(s, []) && Emissions([]) == []
  {}

  lemma RunArrival<C>(cfg: Config<C>, s: State<C>, ds: seq<seq<byte>>, d: seq<byte>)
    requires cfg.payload <= |s.plain|
    ensures var t, r := Run(cfg, s, Arrivals(ds)), Run(cfg, s, Arrivals(ds + [d]));
      var o := Handle(cfg, t.state, d);
      r.state == o.state && Emissions(r.effects) == Emissions(t.effects) + o.effect.out
  {
    hide Handle;
    var es := Arrivals(ds);
    assert Arrivals(ds + [d]) == es + [Receive(d)];
    RunStep(cfg, s, es, Receive(d));
    var t, r := Run(cfg, s, es), Run(cfg, s, Arrivals(ds + [d]));
    assert r.effects[..|ds|] == t.effects;
  }

  lemma {:induction false} AllReceived(ds: seq<seq<byte>>)
    ensures Received(Arrivals(ds)) == |ds|
  {
    if ds != [] {
      AllReceived(ds[..|ds| - 1]);
      assert Arrivals(ds)[..|ds| - 1] == Arrivals(ds[..|ds| - 1]);
    }
  }

  /** Batches run one after the other. */
  lemma RunBatches<C>(cfg: Config<C>, s: State<C>, ds: seq<seq<byte>>, es: seq<seq<byte>>)
    requires cfg.payload <= |s.plain|
    ensures var t := Run(cfg, s, Arrivals(ds)); var u := Run(cfg, t.state, Arrivals(es));
      var r := Run(cfg, s, Arrivals(ds + es));
      r.state == u.state && Emissions(r.effects) == Emissions(t.effects) + Emissions(u.effects)
  {
    hide Run, Emissions;
    var t := Run(cfg, s, Arrivals(ds));
    assert Arrivals(ds + es) == Arrivals(ds) + Arrivals(es);
    RunConcat(cfg, s, Arrivals(ds), Arrivals(es));
    EmissionsConcat(t.effects, Run(cfg, t.state, Arrivals(es)).effects);
  }

  lemma EmissionsNext(fs: seq<Effect>, f: Effect)
    ensures Emissions(fs + [f]) == Emissions(fs) + f.out
  {
    assert (fs + [f])[..|fs|] == fs;
  }

  lemma {:induction false} EmissionsConcat(fs: seq<Effect>, gs: seq<Effect>)
    ensures Emissions(fs + gs) == Emissions(fs) + Emissions(gs)
    decreases |gs|
  {
    if gs == [] {
      assert fs + gs == fs;
    } else {
      hide Emissions;
      var hs, g := gs[..|gs| - 1], gs[|gs| - 1];
      EmissionsConcat(fs, hs);
      assert fs + gs == fs + hs + [g] && gs == hs + [g];
      EmissionsNext(fs + hs, g);
      EmissionsNext(hs, g);
    }
  }

  lemma SealNextOut<C>(cfg: Config<C>, s: State<C>, h: Wire.Header, text: seq<byte>)
    ensures |SealNext(cfg, s, h, text).effect.out| == One(SealNext(cfg, s, h, text).effect.verdict == Emitted)
  {
    hide KS.Rekey, KS.CipherFor, KS.NonceFor, Encode;
  }

  lemma RunNoMakes<C>(cfg: Config<C>, s: State<C>)
    requires cfg.payload <= |s.plain|
    ensures Run(cfg, s, Makes([])) == Trace(s, []) && Emissions([]) == []
  {}

  lemma RunMake<C>(cfg: Config<C>, s: State<C>, ticks: seq<U64>, tsc: U64)
    requires cfg.payload <= |s.plain|
    ensures var t, r := Run(cfg, s, Makes(ticks)), Run(cfg, s, Makes(ticks + [tsc]));
      var o := MakePacket(cfg, t.state, tsc);
      && r.state == o.state && r.effects == t.effects + [o.effect]
      && Emissions(r.effects) == Emissions(t.effects) + o.effect.out
      && o.effect.verdict in {Emitted, Unsealed}
  {
    hide SealNext;
    var es := Makes(ticks);
    assert Makes(ticks + [tsc]) == es + [Make(tsc)];
    RunStep(cfg, s, es, Make(tsc));
    var t, r := Run(cfg, s, es), Run(cfg, s, Makes(ticks + [tsc]));
    assert r.effects[..|ticks|] == t.effects;
    SealNextVerdict(cfg, t.state, Blank(tsc), t.state.plain[..cfg.payload]);
  }

  lemma StartKnown<C>(cfg: KS.Config<C>, secret: C)
    ensures KS.CipherFor(KS.Start(cfg, secret), 0).Some? <==> cfg.known
  {}

  lemma RekeyCount<C>(cfg: KS.Config<C>, k: KS.Keys<C>, seqno: nat)
    ensures var k' := KS.Rekey(cfg, k, seqno); k'.rekeys == k.rekeys || k'.rekeys == k.rekeys + 1
  {}

  ghost predicate Foreign(a: object, b: object) { a != b }
}
