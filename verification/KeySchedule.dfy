/** The two-slot epoch ratchet. Key derivation is a parameter: any pair of
    functions of the chain value and the epoch byte, either of which may fail. */
module KeySchedule {
  import opened Bytes
  import opened Ctr

  type Key = k: seq<byte> | |k| == 32 witness seq(32, _ => 0)

  type Salt = s: seq<byte> | |s| == 4 witness seq(4, _ => 0)

  datatype Option<T> = None | Some(value: T)

  datatype Material = Material(key: Key, salt: Salt)

  /** The two HKDF calls; C is the type of the chain value */
  datatype Kdf<!C> = Kdf(traffic: (C, nat) -> Option<Material>, ratchet: (C, nat) -> Option<C>)

  function ZeroMaterial(): Material { Material(seq(32, _ => 0), seq(4, _ => 0)) }

  /** One epoch: its cipher, absent when the cipher name is unknown or the slot
      is empty, its nonce salt, and the epoch byte it answers to */
  datatype Slot = Slot(cipher: Option<Key>, salt: Salt, tag: nat)

  datatype Keys<C> = Keys(chain: C, epoch: nat, rekeys: nat, current: Slot, previous: Slot)

  /** What does not change over a schedule's life */
  datatype Config<!C> = Config(kdf: Kdf<C>, known: bool, perEpoch: nat)

  // ---- the transitions -------------------------------------------------------------

  function MaterialFor<C>(cfg: Config<C>, chain: C, e: nat): Material
  {
    match cfg.kdf.traffic(chain, e)
    case Some(m) => m
    case None => ZeroMaterial()
  }

  function NextChain<C>(cfg: Config<C>, chain: C, e: nat): C
  {
    match cfg.kdf.ratchet(chain, e)
    case Some(c) => c
    case None => chain
  }

  function SlotFor<C>(cfg: Config<C>, chain: C, e: nat): Slot
  {
    var m := MaterialFor(cfg, chain, e);
    Slot(if cfg.known then Some(m.key) else None, m.salt, e)
  }

  /** derive: the current epoch moves to the spare slot, a new one takes its
      place, and the chain is ratcheted */
  function Derive<C>(cfg: Config<C>, k: Keys<C>, e: nat): Keys<C>
  {
    k.(previous := k.current, current := SlotFor(cfg, k.chain, e), chain := NextChain(cfg, k.chain, e))
  }

  function Start<C>(cfg: Config<C>, secret: C): Keys<C>
  {
    Keys(NextChain(cfg, secret, 0), 0, 0, SlotFor(cfg, secret, 0), Slot(None, ZeroMaterial().salt, 0))
  }

  /** The epoch byte of a sequence number */
  function Wanted<C>(cfg: Config<C>, seqno: nat): (e: nat)
    ensures e < 256
  {
    if cfg.perEpoch == 0 then 0 else seqno / cfg.perEpoch % 256
  }

  /** maybe_rekey */
  function Rekey<C>(cfg: Config<C>, k: Keys<C>, seqno: nat): Keys<C>
  {
    if cfg.perEpoch == 0 || Wanted(cfg, seqno) == k.epoch then k
    else
      var e := Wanted(cfg, seqno);
      Derive(cfg, k, e).(epoch := e, rekeys := k.rekeys + 1)
  }

  /** for_epoch: the current slot is tried first */
  function CipherFor<C>(k: Keys<C>, e: nat): Option<Key>
  {
    if k.current.cipher.Some? && e == k.current.tag then k.current.cipher
    else if k.previous.cipher.Some? && e == k.previous.tag then k.previous.cipher
    else None
  }

  /** nonce: the spare slot is tried first, and the current one is the default */
  function SaltFor<C>(k: Keys<C>, e: nat): Salt
  {
    if k.previous.cipher.Some? && e == k.previous.tag then k.previous.salt else k.current.salt
  }

  function NonceFor<C>(k: Keys<C>, e: nat, seqno: nat): (n: seq<byte>)
    ensures |n| == 12
  {
    SaltFor(k, e) + Be64(seqno)
  }

  /** The state after a run of sequence numbers */
  function RunKeys<C>(cfg: Config<C>, k: Keys<C>, ss: seq<nat>): Keys<C>
  {
    if ss == [] then k else Rekey(cfg, RunKeys(cfg, k, ss[..|ss| - 1]), ss[|ss| - 1])
  }

  // ---- invariants of every reachable state ---------------------------------------------

  ghost predicate Sound<C>(cfg: Config<C>, k: Keys<C>)
  {
    && k.current.tag == k.epoch && k.epoch < 256
    && k.current.cipher.Some? == cfg.known
    && (k.previous.cipher.Some? ==> k.previous.tag != k.current.tag)
    && (cfg.perEpoch == 0 ==> k.epoch == 0)
  }

  lemma {:induction false} Reachable<C>(cfg: Config<C>, secret: C, ss: seq<nat>)
    ensures Sound(cfg, RunKeys(cfg, Start(cfg, secret), ss))
  {
    if ss != [] { Reachable(cfg, secret, ss[..|ss| - 1]); }
  }

  /** The slots are looked up in opposite orders, yet cipher and salt always come
      from the same one. */
  lemma SameSlot<C>(cfg: Config<C>, k: Keys<C>, e: nat)
    requires Sound(cfg, k) && CipherFor(k, e).Some?
    ensures (CipherFor(k, e) == k.current.cipher && SaltFor(k, e) == k.current.salt && e == k.current.tag)
         || (CipherFor(k, e) == k.previous.cipher && SaltFor(k, e) == k.previous.salt && e == k.previous.tag)
    ensures e == k.epoch ==> CipherFor(k, e) == k.current.cipher && SaltFor(k, e) == k.current.salt
  {}

  /** Different sequence numbers give different nonces, under whatever salts. */
  lemma NoncesDiffer(salt: Salt, s: nat, salt': Salt, s': nat)
    requires s < W64 && s' < W64 && s != s'
    ensures salt + Be64(s) != salt' + Be64(s')
  {
    hide Be64;
    assert (salt + Be64(s))[4..] == Be64(s) && (salt' + Be64(s'))[4..] == Be64(s');
    if Be64(s) == Be64(s') { Be64Injective(s, s'); }
  }

  // ---- the state is a function of the epochs visited -------------------------------------

  /** The epochs a run switches to, in order */
  function Trace<C>(cfg: Config<C>, ss: seq<nat>): seq<nat>
  {
    if ss == [] then []
    else
      var t := Trace(cfg, ss[..|ss| - 1]);
      var e := Wanted(cfg, ss[|ss| - 1]);
      if e == LastEpoch(t) then t else t + [e]
  }

  function LastEpoch(t: seq<nat>): nat { if t == [] then 0 else t[|t| - 1] }

  /** One ratchet per epoch visited, however far apart they are */
  function Visit<C>(cfg: Config<C>, secret: C, t: seq<nat>): Keys<C>
  {
    if t == [] then Start(cfg, secret)
    else
      var e := t[|t| - 1];
      Derive(cfg, Visit(cfg, secret, t[..|t| - 1]), e).(epoch := e, rekeys := |t|)
  }

  lemma {:induction false} VisitEpoch<C>(cfg: Config<C>, secret: C, t: seq<nat>)
    ensures Visit(cfg, secret, t).epoch == LastEpoch(t) && Visit(cfg, secret, t).rekeys == |t|
  {
  }

  /** Two runs that visit the same epochs end in the same state. */
  lemma {:induction false} RunIsVisit<C>(cfg: Config<C>, secret: C, ss: seq<nat>)
    ensures RunKeys(cfg, Start(cfg, secret), ss) == Visit(cfg, secret, Trace(cfg, ss))
  {
    hide Derive, Start;
    if ss != [] {
      var s := ss[..|ss| - 1];
      RunIsVisit(cfg, secret, s);
      var t := Trace(cfg, s);
      VisitEpoch(cfg, secret, t);
      var e := Wanted(cfg, ss[|ss| - 1]);
      if e != LastEpoch(t) { assert (t + [e])[..|t|] == t; }
    }
  }

  // ---- the free chain: exactly when two runs agree ----------------------------------------

  /** The derivation that forgets nothing: the chain is the list of epochs */
  function FreeKdf(): Kdf<seq<nat>>
  {
    Kdf((c, e) => Some(ZeroMaterial()), (c, e) => Some(c + [e]))
  }

  lemma {:induction false} FreeChain(cfg: Config<seq<nat>>, secret: seq<nat>, t: seq<nat>)
    requires cfg.kdf == FreeKdf()
    ensures Visit(cfg, secret, t).chain == secret + [0] + t
  {
    if t != [] {
      FreeChain(cfg, secret, t[..|t| - 1]);
      assert t == t[..|t| - 1] + [t[|t| - 1]];
    }
  }

  /** Under the free derivation two runs hold the same chain if and only if they
      switched through the same epochs; a run that jumps over epochs does not
      catch up with one that visited them. */
  lemma SameChainIff(cfg: Config<seq<nat>>, secret: seq<nat>, ss: seq<nat>, ss': seq<nat>)
    requires cfg.kdf == FreeKdf()
    ensures RunKeys(cfg, Start(cfg, secret), ss).chain == RunKeys(cfg, Start(cfg, secret), ss').chain
       <==> Trace(cfg, ss) == Trace(cfg, ss')
  {
    RunIsVisit(cfg, secret, ss); RunIsVisit(cfg, secret, ss');
    FreeChain(cfg, secret, Trace(cfg, ss)); FreeChain(cfg, secret, Trace(cfg, ss'));
    var p, t, t' := secret + [0], Trace(cfg, ss), Trace(cfg, ss');
    assert (p + t)[|p|..] == t && (p + t')[|p|..] == t';
  }

  /** A jump over one epoch: the same number, a different chain. */
  lemma JumpDiverges(secret: seq<nat>)
    ensures var cfg := Config(FreeKdf(), true, 1);
      RunKeys(cfg, Start(cfg, secret), [0, 2]).chain != RunKeys(cfg, Start(cfg, secret), [0, 1, 2]).chain
  {
    var cfg := Config(FreeKdf(), true, 1);
    assert [0, 2][..1] == [0] && [0, 1, 2][..2] == [0, 1] && [0, 1][..1] == [0] && [0][..0] == [];
    assert Trace(cfg, [0]) == [] && Trace(cfg, [0, 2]) == [2];
    assert Trace(cfg, [0, 1]) == [1] && Trace(cfg, [0, 1, 2]) == [1, 2];
    SameChainIff(cfg, secret, [0, 2], [0, 1, 2]);
  }

  // ---- steady runs: the state depends only on the quotient ---------------------------------

  function Quotient<C>(cfg: Config<C>, ss: seq<nat>): nat
    requires cfg.perEpoch > 0
  {
    if ss == [] then 0 else ss[|ss| - 1] / cfg.perEpoch
  }

  /** Each number's quotient by the epoch length stays or rises by one. */
  predicate Steady<C>(cfg: Config<C>, ss: seq<nat>)
    requires cfg.perEpoch > 0
  {
    ss == [] || (Steady(cfg, ss[..|ss| - 1]) &&
                 (Quotient(cfg, ss) == Quotient(cfg, ss[..|ss| - 1]) ||
                  Quotient(cfg, ss) == Quotient(cfg, ss[..|ss| - 1]) + 1))
  }

  /** The epochs 1 .. q, as bytes */
  function Epochs(q: nat): (r: seq<nat>)
    ensures |r| == q
  {
    seq(q, i requires 0 <= i < q => (i + 1) % 256)
  }

  lemma LastOfEpochs(q: nat)
    ensures LastEpoch(Epochs(q)) == q % 256 && Epochs(q + 1) == Epochs(q) + [(q + 1) % 256] && (q + 1) % 256 != q % 256
  {}

  lemma {:induction false} SteadyTrace<C>(cfg: Config<C>, ss: seq<nat>)
    requires cfg.perEpoch > 0 && Steady(cfg, ss)
    ensures Trace(cfg, ss) == Epochs(Quotient(cfg, ss))
  {
    hide Epochs, LastEpoch;
    if ss != [] {
      var s := ss[..|ss| - 1];
      SteadyTrace(cfg, s);
      LastOfEpochs(Quotient(cfg, s));
    } else {
      EpochsNone();
    }
  }

  lemma EpochsNone()
    ensures Epochs(0) == []
  {}

  /** The state of a schedule at quotient q */
  function At<C>(cfg: Config<C>, secret: C, q: nat): Keys<C> { Visit(cfg, secret, Epochs(q)) }

  /** Two schedules with one secret agree whenever their quotients do. */
  lemma SteadyState<C>(cfg: Config<C>, secret: C, ss: seq<nat>)
    requires cfg.perEpoch > 0 && Steady(cfg, ss)
    ensures RunKeys(cfg, Start(cfg, secret), ss) == At(cfg, secret, Quotient(cfg, ss))
  {
    hide Visit, Trace;
    RunIsVisit(cfg, secret, ss);
    SteadyTrace(cfg, ss);
  }

  /** The chain value epoch q is derived from */
  function ChainAt<C>(cfg: Config<C>, secret: C, q: nat): C
  {
    if q == 0 then secret else NextChain(cfg, ChainAt(cfg, secret, q - 1), (q - 1) % 256)
  }

  function EpochSlot<C>(cfg: Config<C>, secret: C, q: nat): Slot { SlotFor(cfg, ChainAt(cfg, secret, q), q % 256) }

  lemma {:induction false} AtSlots<C>(cfg: Config<C>, secret: C, q: nat)
    ensures var k := At(cfg, secret, q);
      && k.epoch == q % 256 && k.rekeys == q
      && k.chain == ChainAt(cfg, secret, q + 1)
      && k.current == EpochSlot(cfg, secret, q)
      && (if q == 0 then k.previous.cipher == None else k.previous == EpochSlot(cfg, secret, q - 1))
  {
    hide SlotFor, NextChain, Epochs;
    EpochsNone();
    if q > 0 {
      AtSlots(cfg, secret, q - 1);
      LastOfEpochs(q - 1);
      assert Epochs(q)[..q - 1] == Epochs(q - 1);
    }
  }

  /** The current key and salt at quotient q are the traffic material derived from that
      epoch's chain value under that epoch's byte, or zeros if the derivation fails. */
  lemma AtMaterial<C>(cfg: Config<C>, secret: C, q: nat)
    ensures var k, t := At(cfg, secret, q), cfg.kdf.traffic(ChainAt(cfg, secret, q), q % 256);
      && (t.Some? ==> k.current.salt == t.value.salt && (cfg.known ==> k.current.cipher == Some(t.value.key)))
      && (t.None? ==> k.current.salt == [0, 0, 0, 0])
      && (t.None? && cfg.known ==> k.current.cipher.Some? && forall i :: 0 <= i < 32 ==> k.current.cipher.value[i] == 0)
      && (!cfg.known ==> k.current.cipher == None)
  {
    hide At, ChainAt;
    AtSlots(cfg, secret, q);
  }

  /** And the chain value of the next epoch is the one ratcheted under this byte, or
      this one again if the ratchet fails. */
  lemma ChainIs<C>(cfg: Config<C>, secret: C, q: nat)
    ensures ChainAt(cfg, secret, 0) == secret
    ensures var c := ChainAt(cfg, secret, q); var r := cfg.kdf.ratchet(c, q % 256);
      ChainAt(cfg, secret, q + 1) == if r.Some? then r.value else c
  {}

  /** A nonce is four salt bytes and the number, most significant byte first. */
  lemma NonceIs<C>(k: Keys<C>, e: nat, seqno: nat)
    requires seqno < W64
    ensures NonceFor(k, e, seqno)[..4] == SaltFor(k, e) && Big64(NonceFor(k, e, seqno)[4..]) == seqno
  {
    hide Be64, Big64;
    assert NonceFor(k, e, seqno)[4..] == Be64(seqno);
    Be64Value(seqno);
  }

  /** Which cipher a schedule at q' has for the epoch byte of q, for every q and
      q': its own epoch or the one before, if the byte matches, and else none. */
  lemma PeerCipher<C>(cfg: Config<C>, secret: C, q: nat, q': nat)
    ensures CipherFor(At(cfg, secret, q'), q % 256) ==
      if q' % 256 == q % 256 then EpochSlot(cfg, secret, q').cipher
      else if q' > 0 && (q' - 1) % 256 == q % 256 then EpochSlot(cfg, secret, q' - 1).cipher
      else None
  {
    hide At, ChainAt;
    AtSlots(cfg, secret, q');
  }

  /** A packet's epoch is known to a peer at the same quotient or the next, with
      the same cipher and salt, and to no peer 2 to 255 epochs further on. */
  lemma PeerWindow<C>(cfg: Config<C>, secret: C, q: nat, q': nat)
    ensures q' == q || q' == q + 1 ==>
      CipherFor(At(cfg, secret, q'), q % 256) == EpochSlot(cfg, secret, q).cipher &&
      (cfg.known ==> SaltFor(At(cfg, secret, q'), q % 256) == EpochSlot(cfg, secret, q).salt)
    ensures q + 2 <= q' <= q + 255 ==> CipherFor(At(cfg, secret, q'), q % 256) == None
  {
    hide At, ChainAt;
    PeerCipher(cfg, secret, q, q');
    AtSlots(cfg, secret, q');
    if q' == q + 1 { LastOfEpochs(q); }
    if q' == q && q > 0 { LastOfEpochs(q - 1); }
    if q + 2 <= q' <= q + 255 { Apart256(q, q'); }
  }

  lemma Apart256(q: nat, q': nat)
    requires q + 2 <= q' <= q + 255
    ensures q' % 256 != q % 256 && (q' - 1) % 256 != q % 256
  {}

  // ---- the object ---------------------------------------------------------------------------

  class Schedule<C> {
    const cfg: Config<C>
    var chain: C
    var epoch: nat
    var rekeys: nat
    var current: Slot
    var previous: Slot

    function State(): Keys<C>
      reads this
    {
      Keys(chain, epoch, rekeys, current, previous)
    }

    constructor (cfg: Config<C>, secret: C)
      ensures this.cfg == cfg && State() == Start(cfg, secret)
    {
      this.cfg := cfg;
      chain := NextChain(cfg, secret, 0);
      epoch, rekeys := 0, 0;
      current := SlotFor(cfg, secret, 0);
      previous := Slot(None, ZeroMaterial().salt, 0);
    }

    method Ratchet(e: nat)
      modifies this
      ensures State() == Derive(cfg, old(State()), e)
    {
      var m := MaterialFor(cfg, chain, e);
      previous := current;
      current := Slot(if cfg.known then Some(m.key) else None, m.salt, e);
      chain := NextChain(cfg, chain, e);
    }

    method MaybeRekey(seqno: nat) returns (rekeyed: bool)
      modifies this
      ensures State() == Rekey(cfg, old(State()), seqno)
      ensures rekeyed <==> rekeys == old(rekeys) + 1
    {
      if cfg.perEpoch == 0 { return false; }
      var want := seqno / cfg.perEpoch % 256;
      if want == epoch { return false; }
      epoch := want;
      Ratchet(epoch);
      rekeys := rekeys + 1;
      return true;
    }

    method ForEpoch(e: nat) returns (c: Option<Key>)
      ensures c == CipherFor(State(), e)
    {
      if current.cipher.Some? && e == current.tag { return current.cipher; }
      if previous.cipher.Some? && e == previous.tag { return previous.cipher; }
      return None;
    }

    /** nonce: four salt bytes, then the number big-endian */
    method Nonce(e: nat, seqno: nat) returns (n: seq<byte>)
      ensures n == NonceFor(State(), e, seqno)
    {
      var s := if previous.cipher.Some? && e == previous.tag then previous.salt else current.salt;
      n := s + Be64(seqno);
    }
  }
}
