/** The transport self-test: a new shard stages packets for itself, its socket loses
    some and keeps their order, and the shard drains it. */
module SelfTest {
  import opened Bytes
  import opened Aead
  import opened Wire
  import opened ShardSpec
  import opened Loopback
  import opened Shard
  import opened WordBits
  import KS = KeySchedule

  // ---- staging and draining as hops ----------------------------------------------------

  function Stages(ticks: seq<U64>): (hs: seq<Hop>)
    ensures |hs| == |ticks|
  {
    seq(|ticks|, i requires 0 <= i < |ticks| => Stage(ticks[i]))
  }

  /** A packet that arrives is delivered, any other is lost. */
  function Drains(flags: seq<bool>): (hs: seq<Hop>)
    ensures |hs| == |flags|
  {
    seq(|flags|, i requires 0 <= i < |flags| => if flags[i] then Deliver else Lose)
  }

  function Packets(q: seq<Parcel>): (ps: seq<seq<byte>>)
    ensures |ps| == |q|
  {
    seq(|q|, i requires 0 <= i < |q| => q[i].packet)
  }

  lemma AroundNext<C>(cfg: Config<C>, l: Loop<C>, hs: seq<Hop>, h: Hop)
    requires cfg.payload <= |l.shard.plain|
    ensures Around(cfg, l, hs + [h]) == Hopped(cfg, Around(cfg, l, hs), h)
  {
    hide Hopped;
    assert (hs + [h])[..|hs|] == hs;
  }

  lemma AroundNone<C>(cfg: Config<C>, l: Loop<C>)
    requires cfg.payload <= |l.shard.plain|
    ensures Around(cfg, l, []) == l
  {}

  lemma {:induction false} AroundConcat<C>(cfg: Config<C>, l: Loop<C>, hs: seq<Hop>, gs: seq<Hop>)
    requires cfg.payload <= |l.shard.plain|
    ensures Around(cfg, l, hs + gs) == Around(cfg, Around(cfg, l, hs), gs)
    decreases |gs|
  {
    hide Hopped, Around;
    if gs == [] {
      assert hs + gs == hs;
      AroundNone(cfg, Around(cfg, l, hs));
    } else {
      var t, g := gs[..|gs| - 1], gs[|gs| - 1];
      AroundConcat(cfg, l, hs, t);
      assert hs + gs == hs + t + [g] && gs == t + [g];
      AroundNext(cfg, l, hs + t, g);
      AroundNext(cfg, Around(cfg, l, hs), t, g);
    }
  }

  /** Staging is a run of packets made, which are then queued in order. */
  lemma {:induction false} StageRun<C>(cfg: Config<C>, l: Loop<C>, ticks: seq<U64>)
    requires cfg.payload <= |l.shard.plain|
    ensures var r, t := Around(cfg, l, Stages(ticks)), Run(cfg, l.shard, Makes(ticks));
      && r.shard == t.state && r.delivered == l.delivered
      && Packets(r.queue) == Packets(l.queue) + Emissions(t.effects)
  {
    hide Around, MakePacket, Run, Emissions, Makes;
    if ticks == [] {
      assert Stages(ticks) == [];
      AroundNone(cfg, l);
      RunNoMakes(cfg, l.shard);
      assert Packets(l.queue) + [] == Packets(l.queue);
    } else {
      var f, tsc := ticks[..|ticks| - 1], ticks[|ticks| - 1];
      assert ticks == f + [tsc];
      StageRun(cfg, l, f);
      assert Stages(ticks) == Stages(f) + [Stage(tsc)];
      AroundNext(cfg, l, Stages(f), Stage(tsc));
      RunMake(cfg, l.shard, f, tsc);
      var m := Around(cfg, l, Stages(f));
      var o := MakePacket(cfg, m.shard, tsc);
      PacketsNext(m.queue, m.issued, o.effect.out);
      Regroup(Packets(l.queue), Emissions(Run(cfg, l.shard, Makes(f)).effects), o.effect.out);
    }
  }

  lemma PacketsNext(q: seq<Parcel>, number: nat, out: seq<seq<byte>>)
    ensures Packets(q + Parcels(number, out)) == Packets(q) + out
  {}

  lemma Regroup(a: seq<seq<byte>>, b: seq<seq<byte>>, c: seq<seq<byte>>)
    ensures (a + b) + c == a + (b + c)
  {}

  /** Draining is a run of the packets that arrive. */
  lemma {:induction false} DrainRun<C>(cfg: Config<C>, l: Loop<C>, flags: seq<bool>)
    requires cfg.payload <= |l.shard.plain| && |flags| <= |l.queue|
    ensures var r, arrived := Around(cfg, l, Drains(flags)), Picked(Packets(l.queue)[..|flags|], flags);
      && r.shard == Run(cfg, l.shard, Arrivals(arrived)).state
      && r.queue == l.queue[|flags|..] && |r.delivered| == |l.delivered| + |arrived|
  {
    hide Around, Handle, Run, Arrivals, Picked;
    var ps := Packets(l.queue);
    if flags == [] {
      assert Drains(flags) == [] && ps[..0] == [] && l.queue[0..] == l.queue;
      AroundNone(cfg, l);
      PickedNext<seq<byte>>([], [], [], true);
      RunNone(cfg, l.shard);
    } else {
      var n := |flags| - 1;
      var f, g := flags[..n], flags[n];
      assert flags == f + [g] && ps[..n + 1] == ps[..n] + [ps[n]];
      DrainRun(cfg, l, f);
      assert Drains(flags) == Drains(f) + [if g then Deliver else Lose];
      AroundNext(cfg, l, Drains(f), if g then Deliver else Lose);
      PickedNext(ps[..n], f, ps[n], g);
      var was := Picked(ps[..n], f);
      assert was + [] == was;
      RunArrival(cfg, l.shard, was, ps[n]);
      assert l.queue[n..][0] == l.queue[n] && l.queue[n..][1..] == l.queue[n + 1..];
    }
  }

  lemma {:induction false} PlanBound(hs: seq<Hop>)
    ensures PlanOf(hs).next <= |hs|
  {
    if hs != [] { PlanBound(hs[..|hs| - 1]); }
  }

  /** One packet at most for each call of make_packet */
  lemma {:induction false} MadeBound<C>(cfg: Config<C>, s: State<C>, ticks: seq<U64>)
    requires cfg.payload <= |s.plain|
    ensures |Emissions(Run(cfg, s, Makes(ticks)).effects)| <= |ticks|
  {
    hide Run, Emissions, Makes, SealNext;
    if ticks == [] {
      RunNoMakes(cfg, s);
    } else {
      var f, tsc := ticks[..|ticks| - 1], ticks[|ticks| - 1];
      assert ticks == f + [tsc];
      MadeBound(cfg, s, f);
      RunMake(cfg, s, f, tsc);
      var t := Run(cfg, s, Makes(f)).state;
      SealNextOut(cfg, t, Blank(tsc), t.plain[..cfg.payload]);
    }
  }

  // ---- the promise ----------------------------------------------------------------------

  /** For every number of packets and every loss: what arrives of what was made, in
      order, is all sent on, and the pattern stays. */
  lemma StagedThenDrained<C>(cfg: Config<C>, secret: C, ticks: seq<U64>, flags: seq<bool>)
    requires Lawful(cfg.aead) && cfg.keys.known && cfg.keys.perEpoch == 0 && cfg.replay && 2 * |ticks| <= W64
    requires |flags| == |Emissions(Run(cfg, Start(cfg, secret), Makes(ticks)).effects)|
    ensures var t := Run(cfg, Start(cfg, secret), Makes(ticks));
      var arrived := Picked(Emissions(t.effects), flags);
      var s := Run(cfg, t.state, Arrivals(arrived)).state;
      && s.plain == Pattern(cfg.payload) + seq(SLACK, _ => 0)
      && s.stats.authFail == 0 && s.stats.replayDrop == 0
      && s.stats.packets == |arrived| && s.stats.bytes == |arrived| * cfg.payload
  {
    hide Around, Run, Emissions, Makes, Arrivals, Picked, Pattern, Lawful, PlanOf, KS.Start, OpensTo;
    var l0 := Idle(cfg, secret);
    var t := Run(cfg, l0.shard, Makes(ticks));
    StageRun(cfg, l0, ticks);
    var l1 := Around(cfg, l0, Stages(ticks));
    assert Packets(l1.queue) == Emissions(t.effects);
    DrainRun(cfg, l1, flags);
    assert Packets(l1.queue)[..|flags|] == Emissions(t.effects);
    var hs := Stages(ticks) + Drains(flags);
    AroundConcat(cfg, l0, Stages(ticks), Drains(flags));
    MadeBound(cfg, l0.shard, ticks);
    PlanBound(hs);
    LoopbackAlways(cfg, secret, hs);
    LoopbackClean(cfg, secret, hs);
  }

  /** In order, with some left out */
  ghost predicate Subsequence<T(!new)>(xs: seq<T>, ys: seq<T>)
  {
    exists flags :: |flags| == |ys| && xs == Picked(ys, flags)
  }

  /** Leaving out twice is leaving out once. */
  lemma {:induction false} PickedTwice<T(!new)>(xs: seq<T>, f: seq<bool>, g: seq<bool>) returns (h: seq<bool>)
    requires |xs| == |f| && |g| == |Picked(xs, f)|
    ensures |h| == |xs| && Picked(xs, h) == Picked(Picked(xs, f), g)
    decreases |xs|
  {
    hide Picked;
    if xs == [] {
      h := [];
      PickedNone(xs, f);
      PickedNone(Picked(xs, f), g);
    } else {
      var n := |xs| - 1;
      var t, x, ft, b := xs[..n], xs[n], f[..n], f[n];
      assert xs == t + [x] && f == ft + [b];
      PickedNext(t, ft, x, b);
      var p := Picked(t, ft);
      if b {
        var m := |p|;
        assert g == g[..m] + [g[m]];
        h := PickedTwice(t, ft, g[..m]);
        PickedNext(p, g[..m], x, g[m]);
        PickedNext(t, h, x, g[m]);
        h := h + [g[m]];
      } else {
        assert p + [] == p;
        h := PickedTwice(t, ft, g);
        PickedNext(t, h, x, false);
        assert Picked(t, h) + [] == Picked(t, h);
        h := h + [false];
      }
    }
  }

  lemma PickedNone<T>(xs: seq<T>, f: seq<bool>)
    requires |xs| == |f|
    ensures xs == [] ==> Picked(xs, f) == []
  {}

  /** The self-test on the object: if what the socket handed over is what it took, in
      order and with losses, then everything received is sent on, nothing is refused,
      and the byte count is exact. */
  method RoundTrip<C>(wanted: Config<C>, secret: C, slots: nat, want: nat, sockets: Sockets)
      returns (shard: Shard<C>, got: int, ghost staged: seq<seq<byte>>, ghost arrived: seq<seq<byte>>)
    requires Lawful(wanted.aead) && wanted.keys.perEpoch == 0 && wanted.replay && want < 0x8000_0000
    ensures shard.ready <==> wanted.keys.known && Connected(sockets, true)
    ensures !shard.ready ==> got == 0 && staged == [] && arrived == []
    ensures shard.ready ==> shard.Valid() && got == |arrived| <= want && |staged| <= want
    ensures shard.ready && Subsequence(arrived, staged) ==>
      && shard.authFail == 0 && shard.replayDrop == 0
      && shard.packets == got && shard.bytes == got * shard.cfg.payload
      && shard.plain[..] == Pattern(shard.cfg.payload) + seq(SLACK, _ => 0)
  {
    hide Lawful, Bounded, Shard.Sized, Shard.Apart, Run, Emissions, Makes, Arrivals, Picked, Pattern, KS.Start,
      Subsequence;
    LawfulBounded(wanted.aead);
    got, staged, arrived := 0, [], [];
    shard := new Shard(wanted, secret, slots, true, sockets);
    if !shard.ready { return; }
    ghost var ticks: seq<U64>, taken: seq<bool>;
    var ok: nat, queued: seq<seq<byte>>, sent: seq<seq<byte>>;
    ok, ticks, queued, taken := shard.Preload(want);
    got, arrived, sent := shard.Drain(want);
    staged := queued;
    ghost var cfg := shard.cfg;
    if Subsequence(arrived, staged) {
      Clean(cfg, secret, ticks, taken, staged, arrived);
      Fits(got, cfg.payload);
    }
  }

  lemma Fits(got: int, payload: nat)
    requires 0 <= got < 0x8000_0000 && payload <= MAX_PAYLOAD
    ensures got % W64 == got && got * payload % W64 == got * payload
  {
    MulGrows(got, 0x8000_0000, payload);
    Small(got);
    Small(got * payload);
  }

  lemma Clean<C>(cfg: Config<C>, secret: C, ticks: seq<U64>, taken: seq<bool>,
                 staged: seq<seq<byte>>, arrived: seq<seq<byte>>)
    requires Lawful(cfg.aead) && cfg.keys.known && cfg.keys.perEpoch == 0 && cfg.replay && 2 * |ticks| <= W64
    requires var made := Emissions(Run(cfg, Start(cfg, secret), Makes(ticks)).effects);
      |taken| == |made| && staged == Picked(made, taken)
    requires Subsequence(arrived, staged)
    ensures var s := Run(cfg, Run(cfg, Start(cfg, secret), Makes(ticks)).state, Arrivals(arrived)).state;
      && s.plain == Pattern(cfg.payload) + seq(SLACK, _ => 0)
      && s.stats.authFail == 0 && s.stats.replayDrop == 0
      && s.stats.packets == |arrived| && s.stats.bytes == |arrived| * cfg.payload
  {
    hide Lawful, Run, Emissions, Makes, Arrivals, Picked, Pattern, Start;
    var made := Emissions(Run(cfg, Start(cfg, secret), Makes(ticks)).effects);
    var g :| |g| == |staged| && arrived == Picked(staged, g);
    var h := PickedTwice(made, taken, g);
    StagedThenDrained(cfg, secret, ticks, h);
  }
}
