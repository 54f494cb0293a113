/** The counter-mode kernel: one thread for each 16-byte block of a batch of
    packets, and what any order of their byte stores leaves in memory. */
module Gpu {
  import opened Bytes
  import opened Ctr

  /** A batch: equal payloads back to back, a nonce for each */
  datatype Job = Job(enc: Cipher, packets: nat, payload: nat, inp: seq<byte>, nonces: seq<byte>)

  predicate Shaped(j: Job) { |j.inp| == j.packets * j.payload && |j.nonces| == j.packets * 12 }

  function Quot(a: nat, d: nat): nat
    requires d > 0
  {
    a / d
  }

  function Rem(a: nat, d: nat): nat
    requires d > 0
  {
    a % d
  }

  lemma Divided(a: nat, d: nat)
    requires d > 0
    ensures a == Quot(a, d) * d + Rem(a, d) && Rem(a, d) < d
  {}

  lemma DividedIs(a: nat, d: nat, q: nat, r: nat)
    requires a == q * d + r && r < d
    ensures Quot(a, d) == q && Rem(a, d) == r
  {
    RemainderIs(a, d, q, r);
  }

  lemma QuotLess(a: nat, d: nat, n: nat)
    requires a < n * d
    ensures d > 0 && Quot(a, d) < n
  {
    hide Quot, Rem;
    if d == 0 {
      Nothing(n);
    } else {
      Divided(a, d);
      if Quot(a, d) >= n { Grows(n, Quot(a, d), d); }
    }
  }

  lemma Nothing(n: nat)
    ensures n * 0 == 0
  {}

  function BlocksPerPacket(j: Job): nat { (j.payload + 15) / 16 }

  function Total(j: Job): nat { j.packets * BlocksPerPacket(j) }

  /** Thread blocks of 256 threads */
  function Grid(j: Job): nat { (Total(j) + 255) / 256 }

  /** Every block has its thread, and fewer than 256 threads have no block. */
  lemma GridCovers(j: Job)
    ensures Total(j) <= Grid(j) * 256 < Total(j) + 256
  {}

  /** The i-th byte store of a thread */
  datatype Store = Store(gid: nat, i: nat)

  /** Where a thread's block begins in its packet, and how much of it there is */
  function PacketOf(j: Job, gid: nat): nat
    requires BlocksPerPacket(j) > 0
  {
    Quot(gid, BlocksPerPacket(j))
  }

  function BlockOf(j: Job, gid: nat): nat
    requires BlocksPerPacket(j) > 0
  {
    Rem(gid, BlocksPerPacket(j))
  }

  function Width(j: Job, gid: nat): int
    requires BlocksPerPacket(j) > 0
  {
    var rest := j.payload - BlockOf(j, gid) * 16;
    if rest < 16 then rest else 16
  }

  predicate Live(j: Job, s: Store) { s.gid < Total(j) && BlocksPerPacket(j) > 0 && s.i < Width(j, s.gid) }

  function Address(j: Job, s: Store): nat
    requires Live(j, s)
  {
    PacketOf(j, s.gid) * j.payload + BlockOf(j, s.gid) * 16 + s.i
  }

  /** The one store that writes address a */
  function StoreAt(j: Job, a: nat): Store
    requires j.payload > 0
  {
    Store(Quot(a, j.payload) * BlocksPerPacket(j) + Rem(a, j.payload) / 16, Rem(a, j.payload) % 16)
  }

  lemma LiveParts(j: Job, s: Store)
    requires Live(j, s)
    ensures j.payload > 0 && PacketOf(j, s.gid) < j.packets && s.i < 16
    ensures BlockOf(j, s.gid) * 16 + s.i < j.payload && BlockOf(j, s.gid) < BlocksPerPacket(j)
    ensures s.gid == PacketOf(j, s.gid) * BlocksPerPacket(j) + BlockOf(j, s.gid)
  {
    hide Quot, Rem;
    QuotLess(s.gid, BlocksPerPacket(j), j.packets);
    Divided(s.gid, BlocksPerPacket(j));
  }

  lemma Grows(a: nat, b: nat, c: nat)
    requires a <= b
    ensures a * c <= b * c
  {}

  lemma InBounds(j: Job, s: Store)
    requires Live(j, s)
    ensures Address(j, s) < j.packets * j.payload
  {
    LiveParts(j, s);
    Grows(PacketOf(j, s.gid) + 1, j.packets, j.payload);
  }

  /** An address tells which store writes it. */
  lemma AddressDecides(j: Job, s: Store)
    requires Live(j, s)
    ensures j.payload > 0 && StoreAt(j, Address(j, s)) == s
  {
    hide PacketOf, BlockOf, Width, Quot, Rem, BlocksPerPacket;
    LiveParts(j, s);
    var p, k := PacketOf(j, s.gid), BlockOf(j, s.gid);
    DividedIs(Address(j, s), j.payload, p, k * 16 + s.i);
    assert (k * 16 + s.i) / 16 == k && (k * 16 + s.i) % 16 == s.i;
  }

  /** No two stores go to the same byte. */
  lemma Disjoint(j: Job, s: Store, t: Store)
    requires Live(j, s) && Live(j, t) && s != t
    ensures Address(j, s) != Address(j, t)
  {
    hide Address, StoreAt;
    AddressDecides(j, s);
    AddressDecides(j, t);
  }

  lemma ThreadOf(j: Job, a: nat)
    requires a < j.packets * j.payload
    ensures j.payload > 0 && BlocksPerPacket(j) > 0 && Quot(a, j.payload) < j.packets && Rem(a, j.payload) < j.payload
    ensures var gid := StoreAt(j, a).gid;
      PacketOf(j, gid) == Quot(a, j.payload) && BlockOf(j, gid) == Rem(a, j.payload) / 16 && gid < Total(j)
  {
    hide Quot, Rem;
    QuotLess(a, j.payload, j.packets);
    Divided(a, j.payload);
    var b, p, r := BlocksPerPacket(j), Quot(a, j.payload), Rem(a, j.payload);
    DividedIs(p * b + r / 16, b, p, r / 16);
    Grows(p + 1, j.packets, b);
    Distributes(p, b);
  }

  lemma Distributes(p: nat, b: nat)
    ensures (p + 1) * b == p * b + b
  {}

  /** Every payload byte is written. */
  lemma Covers(j: Job, a: nat)
    requires a < j.packets * j.payload
    ensures j.payload > 0 && Live(j, StoreAt(j, a)) && Address(j, StoreAt(j, a)) == a
  {
    hide Quot, Rem, PacketOf, BlockOf, Total;
    ThreadOf(j, a);
    Divided(a, j.payload);
  }

  // ---- the key stream a thread computes -------------------------------------------------

  function NonceOf(j: Job, p: nat): (n: seq<byte>)
    requires Shaped(j) && p < j.packets
    ensures |n| == 12
  {
    j.nonces[p * 12..p * 12 + 12]
  }

  function KeyStream(j: Job, gid: nat): Bytes.Block
    requires Shaped(j) && BlocksPerPacket(j) > 0 && PacketOf(j, gid) < j.packets
  {
    j.enc(CtrBlock(NonceOf(j, PacketOf(j, gid)), (BlockOf(j, gid) + 1) % W32))
  }

  function Stored(j: Job, s: Store): byte
    requires Shaped(j) && Live(j, s)
  {
    LiveParts(j, s);
    InBounds(j, s);
    XorByte(j.inp[Address(j, s)], KeyStream(j, s.gid)[s.i])
  }

  // ---- any order ------------------------------------------------------------------------

  ghost predicate AllLive(j: Job, order: seq<Store>) { forall k :: 0 <= k < |order| ==> Live(j, order[k]) }

  /** Memory after the stores of an interleaving */
  function Exec(j: Job, mem: seq<byte>, order: seq<Store>): (r: seq<byte>)
    requires Shaped(j) && AllLive(j, order) && |mem| >= j.packets * j.payload
    ensures |r| == |mem|
  {
    if order == [] then mem
    else
      var s := order[|order| - 1];
      assert Live(j, s);
      InBounds(j, s);
      Exec(j, mem, order[..|order| - 1])[Address(j, s) := Stored(j, s)]
  }

  lemma {:induction false} ExecAt(j: Job, mem: seq<byte>, order: seq<Store>, a: nat)
    requires Shaped(j) && AllLive(j, order) && j.packets * j.payload <= |mem| && a < |mem|
    ensures a >= j.packets * j.payload ==> Exec(j, mem, order)[a] == mem[a]
    ensures a < j.packets * j.payload ==> j.payload > 0 && Live(j, StoreAt(j, a))
    ensures a < j.packets * j.payload ==>
      Exec(j, mem, order)[a] == if StoreAt(j, a) in order then Stored(j, StoreAt(j, a)) else mem[a]
  {
    hide Live, Address, Stored, StoreAt, Shaped;
    if a < j.packets * j.payload { Covers(j, a); }
    if order != [] {
      var s := order[|order| - 1];
      ExecAt(j, mem, order[..|order| - 1], a);
      InBounds(j, s);
      AddressDecides(j, s);
    }
  }

  // ---- the sequential meaning ---------------------------------------------------------------

  function Text(j: Job, p: nat): (t: seq<byte>)
    requires Shaped(j) && p < j.packets
    ensures |t| == j.payload
  {
    Grows(p + 1, j.packets, j.payload);
    j.inp[p * j.payload..p * j.payload + j.payload]
  }

  /** The first p packets, each in counter mode from its nonce and 1 */
  function Sequential(j: Job, p: nat): (r: seq<byte>)
    requires Shaped(j) && p <= j.packets
    ensures |r| == p * j.payload
  {
    if p == 0 then [] else Sequential(j, p - 1) + Xcrypt(j.enc, NonceOf(j, p - 1), 1, Text(j, p - 1))
  }

  lemma {:induction false} SequentialAt(j: Job, p: nat, a: nat)
    requires Shaped(j) && p <= j.packets && a < p * j.payload
    ensures j.payload > 0 && Quot(a, j.payload) < p
    ensures Sequential(j, p)[a] ==
      Xcrypt(j.enc, NonceOf(j, Quot(a, j.payload)), 1, Text(j, Quot(a, j.payload)))[Rem(a, j.payload)]
  {
    hide Xcrypt, NonceOf, Text, Quot, Rem;
    QuotLess(a, j.payload, p);
    var w := (p - 1) * j.payload;
    Distributes(p - 1, j.payload);
    if a < w { SequentialAt(j, p - 1, a); } else { DividedIs(a, j.payload, p - 1, a - w); }
  }

  /** What a thread stores is what sequential counter mode puts there. */
  lemma StoredIsSequential(j: Job, a: nat)
    requires Shaped(j) && a < j.packets * j.payload
    ensures j.payload > 0 && Live(j, StoreAt(j, a)) && Stored(j, StoreAt(j, a)) == Sequential(j, j.packets)[a]
  {
    hide Xcrypt, NonceOf, XorByte, CtrBlock, Sequential, Quot, Rem, PacketOf, BlockOf, Address, Live, StoreAt;
    Covers(j, a);
    ThreadOf(j, a);
    SequentialAt(j, j.packets, a);
    StoreByte(j, a);
    var p, r := Quot(a, j.payload), Rem(a, j.payload);
    XcryptAt(j.enc, NonceOf(j, p), 1, Text(j, p), r);
    TextAt(j, a);
  }

  lemma StoreByte(j: Job, a: nat)
    requires j.payload > 0
    ensures StoreAt(j, a).i == Rem(a, j.payload) % 16
  {}

  lemma TextAt(j: Job, a: nat)
    requires Shaped(j) && a < j.packets * j.payload
    ensures j.payload > 0 && Quot(a, j.payload) < j.packets && Rem(a, j.payload) < j.payload
    ensures Text(j, Quot(a, j.payload))[Rem(a, j.payload)] == j.inp[a]
  {
    hide Quot, Rem, Text;
    QuotLess(a, j.payload, j.packets);
    Divided(a, j.payload);
    TextByte(j, Quot(a, j.payload), Rem(a, j.payload));
  }

  lemma TextByte(j: Job, p: nat, r: nat)
    requires Shaped(j) && p < j.packets && r < j.payload
    ensures p * j.payload + r < |j.inp| && Text(j, p)[r] == j.inp[p * j.payload + r]
  {
    Grows(p + 1, j.packets, j.payload);
    Distributes(p, j.payload);
  }

  /** Where byte r of packet p is */
  function Place(j: Job, p: nat, r: nat): nat { p * j.payload + r }

  lemma Placed(j: Job, p: nat, r: nat)
    requires Shaped(j) && p < j.packets && r < j.payload
    ensures Place(j, p, r) < j.packets * j.payload == |j.inp| && Text(j, p)[r] == j.inp[Place(j, p, r)]
    ensures Quot(Place(j, p, r), j.payload) == p && Rem(Place(j, p, r), j.payload) == r
  {
    hide Text, Quot, Rem;
    TextByte(j, p, r);
    DividedIs(Place(j, p, r), j.payload, p, r);
  }

  /** The sequential result, byte by byte: byte r of packet p is under the packet's
      twelve nonce bytes and the block counters from 1. */
  lemma SequentialByte(j: Job, p: nat, r: nat)
    requires Shaped(j) && p < j.packets && r < j.payload
    ensures Place(j, p, r) < j.packets * j.payload && 12 * p + 12 <= |j.nonces|
    ensures Sequential(j, j.packets)[Place(j, p, r)] ==
      XorByte(j.inp[Place(j, p, r)], j.enc(j.nonces[12 * p..12 * p + 12] + Be32((1 + r / 16) % W32))[r % 16])
  {
    hide Xcrypt, XorByte, Be32, Sequential, Text, Quot, Rem, CtrBlock, NonceOf, Place;
    Placed(j, p, r);
    SequentialAt(j, j.packets, Place(j, p, r));
    XcryptAt(j.enc, NonceOf(j, p), 1, Text(j, p), r);
    NonceBytes(j, p, (1 + r / 16) % W32);
  }

  lemma NonceBytes(j: Job, p: nat, c: nat)
    requires Shaped(j) && p < j.packets
    ensures 12 * p + 12 <= |j.nonces| && CtrBlock(NonceOf(j, p), c) == j.nonces[12 * p..12 * p + 12] + Be32(c)
  {
    hide Be32;
  }

  /** Whatever order the stores of all threads are made in, and however they
      interleave, memory ends as if the packets had been encrypted one by one;
      bytes past the batch are not touched. */
  lemma AnyOrder(j: Job, mem: seq<byte>, order: seq<Store>)
    requires Shaped(j) && AllLive(j, order) && j.packets * j.payload <= |mem|
    requires forall s :: Live(j, s) ==> s in order
    ensures Exec(j, mem, order) == Sequential(j, j.packets) + mem[j.packets * j.payload..]
  {
    hide Live, Stored, StoreAt, Exec, Sequential, Shaped;
    var got, want := Exec(j, mem, order), Sequential(j, j.packets) + mem[j.packets * j.payload..];
    forall a | 0 <= a < |mem| ensures got[a] == want[a] {
      ExecAt(j, mem, order, a);
      if a < j.packets * j.payload { StoredIsSequential(j, a); }
    }
  }

  // ---- the kernel -----------------------------------------------------------------------------

  /** The first n stores of a thread, in its own order */
  function Stores(gid: nat, n: nat): (r: seq<Store>)
    ensures |r| == n && forall k :: 0 <= k < n ==> r[k] == Store(gid, k)
  {
    seq(n, i requires 0 <= i < n => Store(gid, i))
  }

  lemma StoresLive(j: Job, gid: nat, n: nat)
    requires gid < Total(j) && BlocksPerPacket(j) > 0 && n <= Width(j, gid)
    ensures AllLive(j, Stores(gid, n))
  {
    hide PacketOf, BlockOf;
  }

  lemma StoresNext(j: Job, mem: seq<byte>, gid: nat, n: nat)
    requires Shaped(j) && |mem| >= j.packets * j.payload
    requires gid < Total(j) && BlocksPerPacket(j) > 0 && n < Width(j, gid)
    ensures AllLive(j, Stores(gid, n)) && AllLive(j, Stores(gid, n + 1)) && Live(j, Store(gid, n))
    ensures Address(j, Store(gid, n)) < |mem|
    ensures Exec(j, mem, Stores(gid, n + 1)) ==
      Exec(j, mem, Stores(gid, n))[Address(j, Store(gid, n)) := Stored(j, Store(gid, n))]
  {
    hide Address, Stored, PacketOf, BlockOf;
    StoresLive(j, gid, n);
    StoresLive(j, gid, n + 1);
    assert Live(j, Store(gid, n));
    InBounds(j, Store(gid, n));
    assert Stores(gid, n + 1)[..n] == Stores(gid, n);
  }

  /** One thread: aes_ctr_kernel */
  method Thread(j: Job, out: array<byte>, blockIdx: nat, threadIdx: nat)
    requires Shaped(j) && out.Length >= j.packets * j.payload && threadIdx < 256
    modifies out
    ensures var gid := blockIdx * 256 + threadIdx;
      if gid < Total(j) then
        && BlocksPerPacket(j) > 0 && Width(j, gid) > 0 && AllLive(j, Stores(gid, Width(j, gid)))
        && out[..] == Exec(j, old(out[..]), Stores(gid, Width(j, gid)))
      else out[..] == old(out[..])
  {
    hide Address, Stored, PacketOf, BlockOf, Quot, Rem, Exec, Live, CtrBlock, Stores, AllLive;
    var gid := blockIdx * 256 + threadIdx;
    if gid >= Total(j) { return; }
    HasBlocks(j, gid);
    var pkt, blk := gid / BlocksPerPacket(j), gid % BlocksPerPacket(j);
    PartsAre(j, gid);
    var ctr := j.nonces[pkt * 12..pkt * 12 + 12] + Be32((blk + 1) % W32);
    var ks := j.enc(ctr);
    var base := pkt * j.payload + blk * 16;
    var n := if j.payload - blk * 16 < 16 then j.payload - blk * 16 else 16;
    ghost var mem := out[..];
    NoStores(j, mem, gid);
    for i := 0 to n
      invariant AllLive(j, Stores(gid, i)) && out[..] == Exec(j, mem, Stores(gid, i))
    {
      StoresNext(j, mem, gid, i);
      StoreIs(j, gid, i);
      out[base + i] := XorByte(j.inp[base + i], ks[i]);
    }
  }

  lemma NoStores(j: Job, mem: seq<byte>, gid: nat)
    requires Shaped(j) && |mem| >= j.packets * j.payload
    ensures AllLive(j, Stores(gid, 0)) && Exec(j, mem, Stores(gid, 0)) == mem
  {}

  lemma HasBlocks(j: Job, gid: nat)
    requires gid < Total(j)
    ensures BlocksPerPacket(j) > 0
  {
    if BlocksPerPacket(j) == 0 { Nothing(j.packets); }
  }

  lemma PartsAre(j: Job, gid: nat)
    requires gid < Total(j) && BlocksPerPacket(j) > 0
    ensures PacketOf(j, gid) == gid / BlocksPerPacket(j) < j.packets && BlockOf(j, gid) == gid % BlocksPerPacket(j)
    ensures BlockOf(j, gid) * 16 < j.payload && Width(j, gid) > 0
  {
    QuotLess(gid, BlocksPerPacket(j), j.packets);
    hide Quot;
    Divided(gid, BlocksPerPacket(j));
  }

  lemma StoreIs(j: Job, gid: nat, i: nat)
    requires Shaped(j) && Live(j, Store(gid, i))
    ensures var s, p, k := Store(gid, i), PacketOf(j, gid), BlockOf(j, gid);
      var base := p * j.payload + k * 16;
      && p < j.packets && i < 16
      && Address(j, s) == base + i < |j.inp|
      && Stored(j, s) == XorByte(j.inp[base + i], j.enc(j.nonces[p * 12..p * 12 + 12] + Be32((k + 1) % W32))[i])
  {
    hide PacketOf, BlockOf, XorByte, Be32;
    LiveParts(j, Store(gid, i));
    InBounds(j, Store(gid, i));
  }

  // ---- a launch ---------------------------------------------------------------------------------

  lemma {:induction false} ExecConcat(j: Job, mem: seq<byte>, o: seq<Store>, o': seq<Store>)
    requires Shaped(j) && |mem| >= j.packets * j.payload && AllLive(j, o) && AllLive(j, o')
    ensures AllLive(j, o + o') && Exec(j, mem, o + o') == Exec(j, Exec(j, mem, o), o')
    decreases |o'|
  {
    hide Live, Address, Stored, Shaped;
    if o' == [] {
      assert o + o' == o;
    } else {
      var t := o'[..|o'| - 1];
      ExecConcat(j, mem, o, t);
      assert (o + o')[..|o + o'| - 1] == o + t;
    }
  }

  /** The threads of a grid one after another, in any order that leaves none out */
  method Launch(j: Job, out: array<byte>, order: seq<nat>)
    requires Shaped(j) && out.Length >= j.packets * j.payload
    requires forall gid :: 0 <= gid < Grid(j) * 256 ==> gid in order
    modifies out
    ensures out[..] == Sequential(j, j.packets) + old(out[j.packets * j.payload..])
  {
    hide Live, Address, Stored, Shaped, Exec, Sequential, Stores, AllLive, Total, Width, BlocksPerPacket;
    ghost var mem, done: seq<Store> := out[..], [];
    Nowhere(j, mem);
    for k := 0 to |order|
      invariant AllLive(j, done) && out[..] == Exec(j, mem, done)
      invariant forall m :: 0 <= m < k && order[m] < Total(j) ==> Finished(j, order[m], done)
    {
      ghost var gid, was := order[k], done;
      Thread(j, out, order[k] / 256, order[k] % 256);
      if gid < Total(j) {
        ghost var more := Stores(gid, Width(j, gid));
        ExecConcat(j, mem, done, more);
        done := done + more;
        forall m | 0 <= m < k && order[m] < Total(j) ensures Finished(j, order[m], done) {
          FinishedStays(j, order[m], was, more);
        }
        FinishedNow(j, gid, was);
      }
    }
    forall s | Live(j, s) ensures s in done { LiveFinished(j, s, order, done); }
    AnyOrder(j, mem, done);
  }

  lemma Nowhere(j: Job, mem: seq<byte>)
    requires Shaped(j) && |mem| >= j.packets * j.payload
    ensures AllLive(j, []) && Exec(j, mem, []) == mem
  {}

  /** Every store of a thread has been made. */
  ghost predicate Finished(j: Job, gid: nat, done: seq<Store>)
  {
    BlocksPerPacket(j) > 0 && forall i :: 0 <= i < Width(j, gid) ==> Store(gid, i) in done
  }

  lemma FinishedStays(j: Job, gid: nat, done: seq<Store>, more: seq<Store>)
    requires Finished(j, gid, done)
    ensures Finished(j, gid, done + more)
  {
    hide Width;
  }

  lemma FinishedNow(j: Job, gid: nat, done: seq<Store>)
    requires BlocksPerPacket(j) > 0 && Width(j, gid) > 0
    ensures Finished(j, gid, done + Stores(gid, Width(j, gid)))
  {
    hide Width;
    var n := Width(j, gid);
    forall i | 0 <= i < n ensures Store(gid, i) in done + Stores(gid, n) {
      assert Stores(gid, n)[i] == Store(gid, i);
    }
  }

  lemma LiveFinished(j: Job, s: Store, order: seq<nat>, done: seq<Store>)
    requires Live(j, s)
    requires forall gid :: 0 <= gid < Grid(j) * 256 ==> gid in order
    requires forall m :: 0 <= m < |order| && order[m] < Total(j) ==> Finished(j, order[m], done)
    ensures s in done
  {
    hide Width, Total;
    GridCovers(j);
    assert s.gid in order;
    var m :| 0 <= m < |order| && order[m] == s.gid;
    assert Finished(j, s.gid, done);
  }

  const INT_LIMIT: nat := 0x8000_0000

  /** The nonce indices of every thread fit an int exactly when the nonces do. */
  lemma NonceIndexFits(j: Job)
    requires j.packets > 0 && j.payload > 0
    ensures (forall s :: Live(j, s) ==> BlocksPerPacket(j) > 0 && PacketOf(j, s.gid) * 12 + 11 < INT_LIMIT) <==>
      j.packets * 12 <= INT_LIMIT
  {
    hide PacketOf, BlockOf, Address, Live;
    if j.packets * 12 <= INT_LIMIT {
      forall s | Live(j, s) ensures BlocksPerPacket(j) > 0 && PacketOf(j, s.gid) * 12 + 11 < INT_LIMIT {
        LiveParts(j, s);
      }
    } else {
      var a := (j.packets - 1) * j.payload;
      Distributes(j.packets - 1, j.payload);
      Covers(j, a);
      ThreadOf(j, a);
      DividedIs(a, j.payload, j.packets - 1, 0);
      assert Live(j, StoreAt(j, a)) && PacketOf(j, StoreAt(j, a).gid) == j.packets - 1;
    }
  }

  /** The grid passed to the launch fits an int exactly when there are fewer than
      2^39 - 255 blocks. */
  lemma GridFits(j: Job)
    ensures Grid(j) < INT_LIMIT <==> Total(j) <= (INT_LIMIT - 1) * 256
  {
    hide Total;
  }

  /** The other int-wide quantities of a thread never overflow for a payload whose
      rounding up does not, nor does its counter wrap. */
  lemma IntsFit(j: Job, s: Store)
    requires Live(j, s) && j.payload + 15 < INT_LIMIT
    ensures BlocksPerPacket(j) < INT_LIMIT && BlockOf(j, s.gid) * 16 < INT_LIMIT && 0 < Width(j, s.gid) <= 16
    ensures (BlockOf(j, s.gid) + 1) % W32 == BlockOf(j, s.gid) + 1
    ensures j.packets < INT_LIMIT ==> Address(j, s) < 0x8000_0000_0000_0000 && Total(j) < 0x8000_0000_0000_0000
  {
    hide PacketOf, BlockOf, Address;
    LiveParts(j, s);
    InBounds(j, s);
    if j.packets < INT_LIMIT {
      Grows(j.packets, INT_LIMIT, j.payload);
      Grows(j.payload, INT_LIMIT, INT_LIMIT);
      Grows(j.packets, INT_LIMIT, BlocksPerPacket(j));
      Grows(BlocksPerPacket(j), INT_LIMIT, INT_LIMIT);
    }
  }
}
