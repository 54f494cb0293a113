/** ChaCha20 of sections 2.1 to 2.4 of RFC 8439: the quarter-round form, which is
    the reference, and the row form that computes two blocks per 256-bit
    register and four per iteration. */
module ChaCha {
  import opened Bytes
  import Ctr

  /** uint32_t */
  datatype Word = Word(v: bv32)

  type State = s: seq<Word> | |s| == 16 witness seq(16, _ => Word(0))

  // ---- words ------------------------------------------------------------------

  function Add(a: Word, b: Word): Word { Word(a.v + b.v) }

  function Xor(a: Word, b: Word): Word { Word(a.v ^ b.v) }

  function Rot16(x: Word): Word { Word((x.v << 16) | (x.v >> 16)) }

  function Rot12(x: Word): Word { Word((x.v << 12) | (x.v >> 20)) }

  function Rot8(x: Word): Word { Word((x.v << 8) | (x.v >> 24)) }

  function Rot7(x: Word): Word { Word((x.v << 7) | (x.v >> 25)) }

  datatype Quad = Quad(a: Word, b: Word, c: Word, d: Word)

  /** The quarter round */
  function Quarter(q: Quad): Quad
  {
    var a := Add(q.a, q.b); var d := Rot16(Xor(q.d, a));
    var c := Add(q.c, d); var b := Rot12(Xor(q.b, c));
    var a' := Add(a, b); var d' := Rot8(Xor(d, a'));
    var c' := Add(c, d'); var b' := Rot7(Xor(b, c'));
    Quad(a', b', c', d')
  }

  // ---- the block function -----------------------------------------------------

  function QuarterAt(s: State, i: nat, j: nat, k: nat, l: nat): State
    requires i < 16 && j < 16 && k < 16 && l < 16
  {
    var q := Quarter(Quad(s[i], s[j], s[k], s[l]));
    s[i := q.a][j := q.b][k := q.c][l := q.d]
  }

  function Columns(s: State): State
  {
    QuarterAt(QuarterAt(QuarterAt(QuarterAt(s, 0, 4, 8, 12), 1, 5, 9, 13), 2, 6, 10, 14), 3, 7, 11, 15)
  }

  function Diagonals(s: State): State
  {
    QuarterAt(QuarterAt(QuarterAt(QuarterAt(s, 0, 5, 10, 15), 1, 6, 11, 12), 2, 7, 8, 13), 3, 4, 9, 14)
  }

  function Rounds(s: State, n: nat): State
  {
    if n == 0 then s else Diagonals(Columns(Rounds(s, n - 1)))
  }

  function AddState(s: State, t: State): (r: State)
    ensures forall i :: 0 <= i < 16 ==> r[i] == Add(s[i], t[i])
  {
    seq(16, i requires 0 <= i < 16 => Add(s[i], t[i]))
  }

  function ByteAt(w: Word, k: nat): byte
    requires k < 4
  {
    if k == 0 then (w.v & 0xff) as byte
    else if k == 1 then ((w.v >> 8) & 0xff) as byte
    else if k == 2 then ((w.v >> 16) & 0xff) as byte
    else ((w.v >> 24) & 0xff) as byte
  }

  /** Little-endian serialisation */
  function Serial(ws: seq<Word>): (r: seq<byte>)
    ensures |r| == 4 * |ws|
    ensures forall i :: 0 <= i < 4 * |ws| ==> r[i] == ByteAt(ws[i / 4], i % 4)
  {
    seq(4 * |ws|, i requires 0 <= i < 4 * |ws| => ByteAt(ws[i / 4], i % 4))
  }

  /** One 64-byte block of key stream */
  function KeyBlock(s: State): (r: seq<byte>)
    ensures |r| == 64
  {
    Serial(AddState(Rounds(s, 10), s))
  }

  /** The state with its block counter advanced by one, wrapping */
  function Bump(s: State): State { s[12 := Add(s[12], Word(1))] }

  function Take64(d: seq<byte>): (n: nat)
    ensures n <= |d| && n <= 64 && (d != [] ==> n > 0)
  {
    if |d| < 64 then |d| else 64
  }

  /** The cipher of section 2.4 from a given state on */
  function Stream(s: State, d: seq<byte>): (r: seq<byte>)
    ensures |r| == |d|
    decreases |d|
  {
    if d == [] then [] else XorSeq(d[..Take64(d)], KeyBlock(s)) + Stream(Bump(s), d[Take64(d)..])
  }

  lemma {:induction false} StreamInverse(s: State, d: seq<byte>)
    ensures Stream(s, Stream(s, d)) == d
    decreases |d|
  {
    hide KeyBlock, Bump, XorSeq;
    if d != [] {
      var n, e := Take64(d), Stream(s, d);
      assert e[..n] == XorSeq(d[..n], KeyBlock(s)) && e[n..] == Stream(Bump(s), d[n..]);
      XorSeqCancel(d[..n], KeyBlock(s));
      StreamInverse(Bump(s), d[n..]);
      assert d == d[..n] + d[n..];
    }
  }

  // ---- the row form -----------------------------------------------------------

  /** A 128-bit lane of four words, and a 256-bit register of two lanes */
  datatype Four = Four(w0: Word, w1: Word, w2: Word, w3: Word)

  datatype Reg = Reg(lo: Four, hi: Four)

  function FAdd(a: Four, b: Four): Four { Four(Add(a.w0, b.w0), Add(a.w1, b.w1), Add(a.w2, b.w2), Add(a.w3, b.w3)) }

  function FXor(a: Four, b: Four): Four { Four(Xor(a.w0, b.w0), Xor(a.w1, b.w1), Xor(a.w2, b.w2), Xor(a.w3, b.w3)) }

  function VAdd(a: Reg, b: Reg): Reg { Reg(FAdd(a.lo, b.lo), FAdd(a.hi, b.hi)) }

  function VXor(a: Reg, b: Reg): Reg { Reg(FXor(a.lo, b.lo), FXor(a.hi, b.hi)) }

  /** One word of the byte shuffle (1,0,3,2): bytes 2,3,0,1 from the lowest up */
  function Shuffle16(x: Word): Word
  {
    Word(((x.v >> 16) & 0xff) | (((x.v >> 24) & 0xff) << 8) | ((x.v & 0xff) << 16) | (((x.v >> 8) & 0xff) << 24))
  }

  /** One word of the byte shuffle (2,1,0,3): bytes 3,0,1,2 from the lowest up */
  function Shuffle8(x: Word): Word
  {
    Word(((x.v >> 24) & 0xff) | ((x.v & 0xff) << 8) | (((x.v >> 8) & 0xff) << 16) | (((x.v >> 16) & 0xff) << 24))
  }

  lemma ShufflesRotate(x: bv32)
    ensures ((x >> 16) & 0xff) | (((x >> 24) & 0xff) << 8) | ((x & 0xff) << 16) | (((x >> 8) & 0xff) << 24) ==
      (x << 16) | (x >> 16)
    ensures ((x >> 24) & 0xff) | ((x & 0xff) << 8) | (((x >> 8) & 0xff) << 16) | (((x >> 16) & 0xff) << 24) ==
      (x << 8) | (x >> 24)
  {}

  function FRot16(x: Four): Four { Four(Shuffle16(x.w0), Shuffle16(x.w1), Shuffle16(x.w2), Shuffle16(x.w3)) }

  function VRot16(x: Reg): Reg { Reg(FRot16(x.lo), FRot16(x.hi)) }

  function FRot8(x: Four): Four { Four(Shuffle8(x.w0), Shuffle8(x.w1), Shuffle8(x.w2), Shuffle8(x.w3)) }

  function VRot8(x: Reg): Reg { Reg(FRot8(x.lo), FRot8(x.hi)) }

  function FRot12(x: Four): Four { Four(Rot12(x.w0), Rot12(x.w1), Rot12(x.w2), Rot12(x.w3)) }

  function VRot12(x: Reg): Reg { Reg(FRot12(x.lo), FRot12(x.hi)) }

  function FRot7(x: Four): Four { Four(Rot7(x.w0), Rot7(x.w1), Rot7(x.w2), Rot7(x.w3)) }

  function VRot7(x: Reg): Reg { Reg(FRot7(x.lo), FRot7(x.hi)) }

  /** _mm256_shuffle_epi32 by 0x39, 0x4E and 0x93: word i of each lane comes from
      word i + 1, i + 2 and i + 3 of it */
  function F1(x: Four): Four { Four(x.w1, x.w2, x.w3, x.w0) }

  function F2(x: Four): Four { Four(x.w2, x.w3, x.w0, x.w1) }

  function F3(x: Four): Four { Four(x.w3, x.w0, x.w1, x.w2) }

  function Turn1(x: Reg): Reg { Reg(F1(x.lo), F1(x.hi)) }

  function Turn2(x: Reg): Reg { Reg(F2(x.lo), F2(x.hi)) }

  function Turn3(x: Reg): Reg { Reg(F3(x.lo), F3(x.hi)) }

  datatype Rows = Rows(a: Reg, b: Reg, c: Reg, d: Reg)

  /** The twelve register operations of one round */
  function VQuarter(r: Rows): Rows
  {
    var a := VAdd(r.a, r.b); var d := VRot16(VXor(r.d, a));
    var c := VAdd(r.c, d); var b := VRot12(VXor(r.b, c));
    var a' := VAdd(a, b); var d' := VRot8(VXor(d, a'));
    var c' := VAdd(c, d'); var b' := VRot7(VXor(b, c'));
    Rows(a', b', c', d')
  }

  function VDouble(r: Rows): Rows
  {
    var s := VQuarter(r);
    var t := VQuarter(Rows(s.a, Turn1(s.b), Turn2(s.c), Turn3(s.d)));
    Rows(t.a, Turn3(t.b), Turn2(t.c), Turn1(t.d))
  }

  function VRounds(r: Rows, n: nat): Rows
  {
    if n == 0 then r else VDouble(VRounds(r, n - 1))
  }

  function Half(x: Reg, l: nat): Four
    requires l < 2
  {
    if l == 0 then x.lo else x.hi
  }

  function StateOf(a: Four, b: Four, c: Four, d: Four): State
  {
    [a.w0, a.w1, a.w2, a.w3, b.w0, b.w1, b.w2, b.w3, c.w0, c.w1, c.w2, c.w3, d.w0, d.w1, d.w2, d.w3]
  }

  /** The ChaCha state held in 128-bit lane l of the four rows */
  function Lane(r: Rows, l: nat): State
    requires l < 2
  {
    StateOf(Half(r.a, l), Half(r.b, l), Half(r.c, l), Half(r.d, l))
  }

  lemma ShuffleIsRot(x: Word)
    ensures Shuffle16(x) == Rot16(x) && Shuffle8(x) == Rot8(x)
  {
    ShufflesRotate(x.v);
  }

  datatype FourRows = FourRows(a: Four, b: Four, c: Four, d: Four)

  function LaneRows(r: Rows, l: nat): FourRows
    requires l < 2
  {
    FourRows(Half(r.a, l), Half(r.b, l), Half(r.c, l), Half(r.d, l))
  }

  /** The round on one lane, word position by word position */
  function FQuarter(r: FourRows): FourRows
  {
    var q0 := Quarter(Quad(r.a.w0, r.b.w0, r.c.w0, r.d.w0));
    var q1 := Quarter(Quad(r.a.w1, r.b.w1, r.c.w1, r.d.w1));
    var q2 := Quarter(Quad(r.a.w2, r.b.w2, r.c.w2, r.d.w2));
    var q3 := Quarter(Quad(r.a.w3, r.b.w3, r.c.w3, r.d.w3));
    FourRows(Four(q0.a, q1.a, q2.a, q3.a), Four(q0.b, q1.b, q2.b, q3.b),
             Four(q0.c, q1.c, q2.c, q3.c), Four(q0.d, q1.d, q2.d, q3.d))
  }

  /** The register operations as the byte shuffles replaced by rotations */
  function Rotated16(x: Four): Four { Four(Rot16(x.w0), Rot16(x.w1), Rot16(x.w2), Rot16(x.w3)) }

  function Rotated8(x: Four): Four { Four(Rot8(x.w0), Rot8(x.w1), Rot8(x.w2), Rot8(x.w3)) }

  lemma ShuffledFour(x: Four)
    ensures FRot16(x) == Rotated16(x) && FRot8(x) == Rotated8(x)
  {
    hide Shuffle16, Shuffle8, Rot16, Rot8;
    ShuffleIsRot(x.w0); ShuffleIsRot(x.w1); ShuffleIsRot(x.w2); ShuffleIsRot(x.w3);
  }

  /** Each word position of the rows undergoes its own quarter round. */
  lemma VQuarterIsQuarter(r: Rows, l: nat)
    requires l < 2
    ensures LaneRows(VQuarter(r), l) == FQuarter(LaneRows(r, l))
  {
    hide Add, Xor, Rot16, Rot12, Rot8, Rot7, FRot16, FRot8;
    var f := LaneRows(r, l);
    var a := FAdd(f.a, f.b);
    var d0 := FXor(f.d, a);
    ShuffledFour(d0);
    var d := FRot16(d0);
    var c := FAdd(f.c, d);
    var b := FRot12(FXor(f.b, c));
    var a' := FAdd(a, b);
    ShuffledFour(FXor(d, a'));
  }

  lemma QuarterAtEffect(s: State, i: nat, j: nat, k: nat, l: nat)
    requires i < j < 16 && i < k < 16 && i < l < 16 && j != k && j != l && k != l
    ensures var t, q := QuarterAt(s, i, j, k, l), Quarter(Quad(s[i], s[j], s[k], s[l]));
      t[i] == q.a && t[j] == q.b && t[k] == q.c && t[l] == q.d
    ensures forall m :: 0 <= m < 16 && m != i && m != j && m != k && m != l ==> QuarterAt(s, i, j, k, l)[m] == s[m]
  {
    hide Quarter;
  }

  lemma ColumnsOf(s: State)
    ensures var q0 := Quarter(Quad(s[0], s[4], s[8], s[12]));
            var q1 := Quarter(Quad(s[1], s[5], s[9], s[13]));
            var q2 := Quarter(Quad(s[2], s[6], s[10], s[14]));
            var q3 := Quarter(Quad(s[3], s[7], s[11], s[15]));
            Columns(s) == [q0.a, q1.a, q2.a, q3.a, q0.b, q1.b, q2.b, q3.b,
                           q0.c, q1.c, q2.c, q3.c, q0.d, q1.d, q2.d, q3.d]
  {
    hide Quarter, QuarterAt;
    var s1 := QuarterAt(s, 0, 4, 8, 12);
    QuarterAtEffect(s, 0, 4, 8, 12);
    var s2 := QuarterAt(s1, 1, 5, 9, 13);
    QuarterAtEffect(s1, 1, 5, 9, 13);
    var s3 := QuarterAt(s2, 2, 6, 10, 14);
    QuarterAtEffect(s2, 2, 6, 10, 14);
    var s4 := QuarterAt(s3, 3, 7, 11, 15);
    QuarterAtEffect(s3, 3, 7, 11, 15);
  }

  lemma DiagonalsOf(s: State)
    ensures var q0 := Quarter(Quad(s[0], s[5], s[10], s[15]));
            var q1 := Quarter(Quad(s[1], s[6], s[11], s[12]));
            var q2 := Quarter(Quad(s[2], s[7], s[8], s[13]));
            var q3 := Quarter(Quad(s[3], s[4], s[9], s[14]));
            Diagonals(s) == [q0.a, q1.a, q2.a, q3.a, q3.b, q0.b, q1.b, q2.b,
                             q2.c, q3.c, q0.c, q1.c, q1.d, q2.d, q3.d, q0.d]
  {
    hide Quarter, QuarterAt;
    var s1 := QuarterAt(s, 0, 5, 10, 15);
    QuarterAtEffect(s, 0, 5, 10, 15);
    var s2 := QuarterAt(s1, 1, 6, 11, 12);
    QuarterAtEffect(s1, 1, 6, 11, 12);
    var s3 := QuarterAt(s2, 2, 7, 8, 13);
    QuarterAtEffect(s2, 2, 7, 8, 13);
    var s4 := QuarterAt(s3, 3, 4, 9, 14);
    QuarterAtEffect(s3, 3, 4, 9, 14);
  }

  lemma ColumnsOfRows(r: FourRows)
    ensures var t := FQuarter(r); Columns(StateOf(r.a, r.b, r.c, r.d)) == StateOf(t.a, t.b, t.c, t.d)
  {
    hide Quarter, Columns;
    ColumnsOf(StateOf(r.a, r.b, r.c, r.d));
  }

  lemma DiagonalsOfRows(r: FourRows)
    ensures var t := FQuarter(FourRows(r.a, F1(r.b), F2(r.c), F3(r.d)));
      Diagonals(StateOf(r.a, r.b, r.c, r.d)) == StateOf(t.a, F3(t.b), F2(t.c), F1(t.d))
  {
    hide Quarter, Diagonals;
    DiagonalsOf(StateOf(r.a, r.b, r.c, r.d));
  }

  /** Turning the rows, a column round and turning back is a diagonal round. */
  lemma VDoubleLane(r: Rows, l: nat)
    requires l < 2
    ensures Lane(VDouble(r), l) == Diagonals(Columns(Lane(r, l)))
  {
    hide FQuarter, VQuarter, Columns, Diagonals, StateOf;
    var s := VQuarter(r);
    var u := Rows(s.a, Turn1(s.b), Turn2(s.c), Turn3(s.d));
    VQuarterIsQuarter(r, l);
    ColumnsOfRows(LaneRows(r, l));
    VQuarterIsQuarter(u, l);
    DiagonalsOfRows(LaneRows(s, l));
  }

  lemma {:induction false} VRoundsLane(r: Rows, l: nat, n: nat)
    requires l < 2
    ensures Lane(VRounds(r, n), l) == Rounds(Lane(r, l), n)
  {
    hide Lane, VDouble, Columns, Diagonals;
    if n > 0 {
      VRoundsLane(r, l, n - 1);
      VDoubleLane(VRounds(r, n - 1), l);
    }
  }

  // ---- four blocks --------------------------------------------------------------

  function RowOf(s: State, k: nat): Four
    requires k <= 12
  {
    Four(s[k], s[k + 1], s[k + 2], s[k + 3])
  }

  function Broadcast(x: Four): Reg { Reg(x, x) }

  const ONE: Four := Four(Word(1), Word(0), Word(0), Word(0))

  const TWO: Four := Four(Word(2), Word(0), Word(0), Word(0))

  /** The rows of blocks n and n + 1 */
  function FirstRows(s: State): Rows
  {
    Rows(Broadcast(RowOf(s, 0)), Broadcast(RowOf(s, 4)), Broadcast(RowOf(s, 8)),
        Reg(RowOf(s, 12), FAdd(RowOf(s, 12), ONE)))
  }

  /** The rows of blocks n + 2 and n + 3 */
  function SecondRows(s: State): Rows
  {
    FirstRows(s).(d := VAdd(FirstRows(s).d, Broadcast(TWO)))
  }

  lemma AddZero(x: Word)
    ensures Add(x, Word(0)) == x
  {}

  lemma AddTwo(x: Word)
    ensures Add(x, Word(2)) == Add(Add(x, Word(1)), Word(1))
  {}

  /** The last row of a state with its counter advanced */
  function FBump(x: Four): Four { Four(Add(x.w0, Word(1)), x.w1, x.w2, x.w3) }

  lemma AddOneTwo(x: Four)
    ensures FAdd(x, ONE) == FBump(x) && FAdd(x, TWO) == FBump(FBump(x))
  {
    hide Add;
    AddZero(x.w1); AddZero(x.w2); AddZero(x.w3);
    AddTwo(x.w0);
  }

  lemma BumpOf(a: Four, b: Four, c: Four, d: Four)
    ensures Bump(StateOf(a, b, c, d)) == StateOf(a, b, c, FBump(d))
  {
    hide Add;
  }

  lemma StateOfRows(s: State)
    ensures StateOf(RowOf(s, 0), RowOf(s, 4), RowOf(s, 8), RowOf(s, 12)) == s
  {}

  lemma RowsOf(s: State)
    ensures Lane(FirstRows(s), 0) == s && Lane(FirstRows(s), 1) == Bump(s)
    ensures Lane(SecondRows(s), 0) == Bump(Bump(s)) && Lane(SecondRows(s), 1) == Bump(Bump(Bump(s)))
  {
    hide StateOf, RowOf, Bump, FBump, FAdd;
    var a, b, c, d := RowOf(s, 0), RowOf(s, 4), RowOf(s, 8), RowOf(s, 12);
    StateOfRows(s);
    AddOneTwo(d);
    AddOneTwo(FBump(d));
    BumpOf(a, b, c, d);
    BumpOf(a, b, c, FBump(d));
    BumpOf(a, b, c, FBump(FBump(d)));
  }

  /** The final additions, lane by lane */
  function VSum(r: Rows, r0: Rows): Rows
  {
    Rows(VAdd(r.a, r0.a), VAdd(r.b, r0.b), VAdd(r.c, r0.c), VAdd(r.d, r0.d))
  }

  lemma AddStateOf(r: FourRows, t: FourRows)
    ensures AddState(StateOf(r.a, r.b, r.c, r.d), StateOf(t.a, t.b, t.c, t.d)) ==
      StateOf(FAdd(r.a, t.a), FAdd(r.b, t.b), FAdd(r.c, t.c), FAdd(r.d, t.d))
  {
    hide Add, AddState;
    var x, y := StateOf(r.a, r.b, r.c, r.d), StateOf(t.a, t.b, t.c, t.d);
    var z, w := AddState(x, y), StateOf(FAdd(r.a, t.a), FAdd(r.b, t.b), FAdd(r.c, t.c), FAdd(r.d, t.d));
    forall i | 0 <= i < 16 ensures z[i] == w[i] {
      AddedWord(r, t, i);
    }
  }

  lemma AddedWord(r: FourRows, t: FourRows, i: nat)
    requires i < 16
    ensures StateOf(FAdd(r.a, t.a), FAdd(r.b, t.b), FAdd(r.c, t.c), FAdd(r.d, t.d))[i] ==
      Add(StateOf(r.a, r.b, r.c, r.d)[i], StateOf(t.a, t.b, t.c, t.d)[i])
  {
    hide Add;
  }

  lemma VSumLane(r: Rows, r0: Rows, l: nat)
    requires l < 2
    ensures Lane(VSum(r, r0), l) == AddState(Lane(r, l), Lane(r0, l))
  {
    hide FAdd, AddState, StateOf;
    AddStateOf(LaneRows(r, l), LaneRows(r0, l));
  }

  /** _mm256_permute2x128_si256 by 0x20 (h = 0) and 0x31 (h = 1) */
  function Permute(x: Reg, y: Reg, h: nat): Reg
    requires h < 2
  {
    Reg(Half(x, h), Half(y, h))
  }

  function Words(x: Reg): (r: seq<Word>)
    ensures |r| == 8
  {
    [x.lo.w0, x.lo.w1, x.lo.w2, x.lo.w3, x.hi.w0, x.hi.w1, x.hi.w2, x.hi.w3]
  }

  /** The key stream of four consecutive blocks */
  function KeyBlocks4(s: State): (r: seq<byte>)
    ensures |r| == 256
  {
    KeyBlock(s) + KeyBlock(Bump(s)) + KeyBlock(Bump(Bump(s))) + KeyBlock(Bump(Bump(Bump(s))))
  }

  lemma PermuteLane(r: Rows, h: nat)
    requires h < 2
    ensures Words(Permute(r.a, r.b, h)) + Words(Permute(r.c, r.d, h)) == Lane(r, h)
  {}

  lemma SerialConcat(v: seq<Word>, w: seq<Word>)
    ensures Serial(v + w) == Serial(v) + Serial(w)
  {
    hide ByteAt;
    var l, r := Serial(v + w), Serial(v) + Serial(w);
    forall i | 0 <= i < |l| ensures l[i] == r[i] {
      if i >= 4 * |v| {
        assert i / 4 - |v| == (i - 4 * |v|) / 4 && i % 4 == (i - 4 * |v|) % 4;
      }
    }
  }

  /** The bytes a register stores */
  function Store(x: Reg): (r: seq<byte>)
    ensures |r| == 32
  {
    Serial(Words(x))
  }

  /** Two permuted registers, serialised, are one block of key stream. */
  lemma PermutedBlock(r: Rows, r0: Rows, s: State, h: nat)
    requires h < 2 && s == Lane(r0, h) && r == VSum(VRounds(r0, 10), r0)
    ensures Store(Permute(r.a, r.b, h)) + Store(Permute(r.c, r.d, h)) == KeyBlock(s)
  {
    hide Permute, VSum, Serial, Lane, Rounds, VRounds, AddState, Words;
    SerialConcat(Words(Permute(r.a, r.b, h)), Words(Permute(r.c, r.d, h)));
    PermuteLane(r, h);
    VSumLane(VRounds(r0, 10), r0, h);
    VRoundsLane(r0, h, 10);
  }

  /** chacha_4blocks_avx2 */
  method FourBlocksAvx2(s: State, inp: array<byte>, out: array<byte>, pos: nat)
    requires pos + 256 <= inp.Length && pos + 256 <= out.Length
    modifies out
    ensures out[pos..pos + 256] == XorSeq(old(inp[pos..pos + 256]), KeyBlocks4(s))
    ensures forall k :: 0 <= k < out.Length && !(pos <= k < pos + 256) ==> out[k] == old(out[k])
  {
    hide VDouble, VSum, Permute, KeyBlock, Bump, FirstRows, SecondRows, Store, Lane, XorSeq;
    var p0, q0 := FirstRows(s), SecondRows(s);
    var p, q := p0, q0;
    for i := 0 to 10
      invariant p == VRounds(p0, i) && q == VRounds(q0, i)
    {
      p, q := VDouble(p), VDouble(q);
    }
    p, q := VSum(p, p0), VSum(q, q0);
    RowsOf(s);
    PermutedBlock(p, p0, s, 0);
    PermutedBlock(p, p0, Bump(s), 1);
    PermutedBlock(q, q0, Bump(Bump(s)), 0);
    PermutedBlock(q, q0, Bump(Bump(Bump(s))), 1);
    var o: seq<Reg> := [Permute(p.a, p.b, 0), Permute(p.c, p.d, 0), Permute(p.a, p.b, 1), Permute(p.c, p.d, 1),
                        Permute(q.a, q.b, 0), Permute(q.c, q.d, 0), Permute(q.a, q.b, 1), Permute(q.c, q.d, 1)];
    ghost var ks := KeyBlocks4(s);
    SplitEight(ks, o);
    StoreEight(inp, out, pos, o, ks);
  }

  /** The registers cut the key stream into 32-byte pieces. */
  lemma SplitEight(ks: seq<byte>, o: seq<Reg>)
    requires |o| == 8
    requires ks == (Store(o[0]) + Store(o[1])) + (Store(o[2]) + Store(o[3])) + (Store(o[4]) + Store(o[5]))
      + (Store(o[6]) + Store(o[7]))
    ensures |ks| == 256 && forall i :: 0 <= i < 8 ==> Store(o[i]) == ks[32 * i..32 * i + 32]
  {
    hide Store;
    assert Store(o[0]) == ks[..32] && Store(o[1]) == ks[32..64] && Store(o[2]) == ks[64..96] &&
      Store(o[3]) == ks[96..128];
    assert Store(o[4]) == ks[128..160] && Store(o[5]) == ks[160..192] && Store(o[6]) == ks[192..224] &&
      Store(o[7]) == ks[224..];
  }

  lemma XorSeqExtend(a: seq<byte>, k: seq<byte>, m: nat, n: nat)
    requires m <= n <= |a| && n <= |k|
    ensures XorSeq(a[..m], k[..m]) + XorSeq(a[m..n], k[m..n]) == XorSeq(a[..n], k[..n])
  {
    hide XorByte;
  }

  /** The eight 32-byte loads, exclusive ors and stores */
  method StoreEight(inp: array<byte>, out: array<byte>, pos: nat, o: seq<Reg>, ghost ks: seq<byte>)
    requires pos + 256 <= inp.Length && pos + 256 <= out.Length && |o| == 8 && |ks| == 256
    requires forall i :: 0 <= i < 8 ==> Store(o[i]) == ks[32 * i..32 * i + 32]
    modifies out
    ensures out[pos..pos + 256] == XorSeq(old(inp[pos..pos + 256]), ks)
    ensures forall k :: 0 <= k < out.Length && !(pos <= k < pos + 256) ==> out[k] == old(out[k])
  {
    hide Store, Keyed;
    ghost var src := inp[pos..pos + 256];
    KeyedEnds(src, ks);
    for i := 0 to 8
      invariant out[pos..pos + 32 * i] == Keyed(src, ks, 32 * i)
      invariant forall k :: 32 * i <= k < 256 ==> inp[pos + k] == src[k]
      invariant forall k :: 0 <= k < out.Length && !(pos <= k < pos + 32 * i) ==> out[k] == old(out[k])
    {
      StorePiece(inp, out, pos, i, Store(o[i]), src, ks);
    }
  }

  /** The first m bytes of a text under its key stream */
  ghost function Keyed(src: seq<byte>, ks: seq<byte>, m: nat): seq<byte>
    requires m <= |src| && m <= |ks|
  {
    XorSeq(src[..m], ks[..m])
  }

  lemma KeyedEnds(src: seq<byte>, ks: seq<byte>)
    requires |src| == |ks|
    ensures Keyed(src, ks, 0) == [] && Keyed(src, ks, |src|) == XorSeq(src, ks)
  {
    assert src[..|src|] == src && ks[..|ks|] == ks;
  }

  lemma KeyedNext(src: seq<byte>, ks: seq<byte>, m: nat, n: nat)
    requires m <= n <= |src| && n <= |ks|
    ensures Keyed(src, ks, m) + XorSeq(src[m..n], ks[m..n]) == Keyed(src, ks, n)
  {
    XorSeqExtend(src, ks, m, n);
  }

  method StorePiece(inp: array<byte>, out: array<byte>, pos: nat, i: nat, k: seq<byte>,
                    ghost src: seq<byte>, ghost ks: seq<byte>)
    requires i < 8 && pos + 256 <= inp.Length && pos + 256 <= out.Length && |src| == |ks| == 256
    requires k == ks[32 * i..32 * i + 32]
    requires out[pos..pos + 32 * i] == Keyed(src, ks, 32 * i)
    requires forall k :: 32 * i <= k < 256 ==> inp[pos + k] == src[k]
    modifies out
    ensures out[pos..pos + 32 * i + 32] == Keyed(src, ks, 32 * i + 32)
    ensures forall k :: 32 * i + 32 <= k < 256 ==> inp[pos + k] == src[k]
    ensures forall k :: 0 <= k < out.Length && !(pos + 32 * i <= k < pos + 32 * i + 32) ==> out[k] == old(out[k])
  {
    hide Keyed, XorByte;
    var at := pos + 32 * i;
    ghost var before := out[pos..at];
    assert inp[at..at + 32] == src[32 * i..32 * i + 32];
    KeyedNext(src, ks, 32 * i, 32 * i + 32);
    Ctr.XorAt(inp, out, at, 32, k);
    assert out[pos..at] == before;
    assert out[pos..at + 32] == out[pos..at] + out[at..at + 32];
  }

  // ---- the scalar code ----------------------------------------------------------

  /** The QR macro on four words of the working state */
  method QuarterRound(x: array<Word>, i: nat, j: nat, k: nat, l: nat)
    requires x.Length == 16 && i < j < 16 && i < k < 16 && i < l < 16 && j != k && j != l && k != l
    modifies x
    ensures x[..] == QuarterAt(old(x[..]), i, j, k, l)
  {
    hide Add, Xor, Rot16, Rot12, Rot8, Rot7;
    x[i] := Add(x[i], x[j]); x[l] := Xor(x[l], x[i]); x[l] := Rot16(x[l]);
    x[k] := Add(x[k], x[l]); x[j] := Xor(x[j], x[k]); x[j] := Rot12(x[j]);
    x[i] := Add(x[i], x[j]); x[l] := Xor(x[l], x[i]); x[l] := Rot8(x[l]);
    x[k] := Add(x[k], x[l]); x[j] := Xor(x[j], x[k]); x[j] := Rot7(x[j]);
  }

  /** chacha_block_portable */
  method BlockPortable(s: State) returns (ks: seq<byte>)
    ensures ks == KeyBlock(s)
  {
    hide QuarterAt, AddState, Serial;
    var x := new Word[16](i requires 0 <= i < 16 => s[i]);
    assert x[..] == s;
    for i := 0 to 10
      invariant x[..] == Rounds(s, i)
    {
      QuarterRound(x, 0, 4, 8, 12);
      QuarterRound(x, 1, 5, 9, 13);
      QuarterRound(x, 2, 6, 10, 14);
      QuarterRound(x, 3, 7, 11, 15);
      QuarterRound(x, 0, 5, 10, 15);
      QuarterRound(x, 1, 6, 11, 12);
      QuarterRound(x, 2, 7, 8, 13);
      QuarterRound(x, 3, 4, 9, 14);
    }
    ks := StoreSum(x, s);
  }

  /** The final additions and the little-endian stores */
  method StoreSum(x: array<Word>, s: State) returns (ks: seq<byte>)
    requires x.Length == 16
    ensures ks == Serial(AddState(x[..], s))
  {
    hide ByteAt, Add, Serial, Front;
    ghost var t := AddState(x[..], s);
    ks := [];
    FrontEnds(t);
    for i := 0 to 16
      invariant ks == Front(t, i)
    {
      var w := Add(x[i], s[i]);
      FrontNext(t, i);
      ks := ks + [ByteAt(w, 0), ByteAt(w, 1), ByteAt(w, 2), ByteAt(w, 3)];
    }
  }

  /** The bytes of the first i words */
  ghost function Front(t: State, i: nat): seq<byte>
    requires i <= 16
  {
    Serial(t)[..4 * i]
  }

  lemma FrontEnds(t: State)
    ensures Front(t, 0) == [] && Front(t, 16) == Serial(t)
  {
    hide ByteAt;
  }

  lemma FrontNext(t: State, i: nat)
    requires i < 16
    ensures Front(t, i + 1) == Front(t, i) + [ByteAt(t[i], 0), ByteAt(t[i], 1), ByteAt(t[i], 2), ByteAt(t[i], 3)]
  {
    hide ByteAt;
    var b := Serial(t);
    SerialAt(t, i, 0); SerialAt(t, i, 1); SerialAt(t, i, 2); SerialAt(t, i, 3);
    hide Serial;
    assert b[..4 * i + 4] == b[..4 * i] + [b[4 * i], b[4 * i + 1], b[4 * i + 2], b[4 * i + 3]];
  }

  lemma SerialAt(t: State, i: nat, k: nat)
    requires i < 16 && k < 4
    ensures Serial(t)[4 * i + k] == ByteAt(t[i], k)
  {
    hide ByteAt;
    assert (4 * i + k) / 4 == i && (4 * i + k) % 4 == k;
  }

  /** What has been written, followed by what is still to come, is the whole. */
  ghost predicate Progress(s: State, src: seq<byte>, s': State, done: seq<byte>)
  {
    |done| <= |src| && done + Stream(s', src[|done|..]) == Stream(s, src)
  }

  lemma ProgressStep(s: State, src: seq<byte>, s': State, done: seq<byte>, n: nat)
    requires Progress(s, src, s', done) && |done| < |src| && n == Take64(src[|done|..])
    ensures Progress(s, src, Bump(s'), done + XorSeq(src[|done|..|done| + n], KeyBlock(s')))
  {
    hide XorSeq, Bump, KeyBlock;
    var rest, k := src[|done|..], XorSeq(src[|done|..|done| + n], KeyBlock(s'));
    assert rest[..n] == src[|done|..|done| + n] && rest[n..] == src[|done + k|..];
    assert done + (k + Stream(Bump(s'), rest[n..])) == (done + k) + Stream(Bump(s'), rest[n..]);
  }

  /** What is written after a prefix extends it. */
  lemma Appended(out: array<byte>, before: seq<byte>, pos: nat, n: nat)
    requires pos + n <= out.Length && |before| == pos && forall k :: 0 <= k < pos ==> out[k] == before[k]
    ensures out[..pos + n] == before + out[pos..pos + n]
  {}

  /** chacha_xor_portable, from the initial state on */
  method XorPortable(s0: State, inp: array<byte>, out: array<byte>, len: nat)
    requires len <= inp.Length && len <= out.Length
    modifies out
    ensures out[..len] == Stream(s0, old(inp[..len]))
    ensures forall k :: len <= k < out.Length ==> out[k] == old(out[k])
  {
    hide XorSeq, Bump, KeyBlock, Stream, Progress;
    ghost var src := inp[..len];
    var s, pos := s0, 0;
    ProgressStart(s0, src);
    while pos < len
      invariant pos <= len
      invariant forall k :: pos <= k < len ==> inp[k] == src[k]
      invariant Progress(s0, src, s, out[..pos])
      invariant forall k :: len <= k < out.Length ==> out[k] == old(out[k])
    {
      var ks := BlockPortable(s);
      var n := if len - pos < 64 then len - pos else 64;
      ghost var before := out[..pos];
      ProgressStep(s0, src, s, before, n);
      assert inp[pos..pos + n] == src[pos..pos + n];
      Ctr.XorAt(inp, out, pos, n, ks);
      Appended(out, before, pos, n);
      s := Bump(s);
      pos := pos + n;
    }
    ProgressEnd(s0, src, s, out[..pos]);
  }

  lemma ProgressStart(s: State, src: seq<byte>)
    ensures Progress(s, src, s, [])
  {
    assert src[0..] == src;
  }

  lemma ProgressEnd(s: State, src: seq<byte>, s': State, done: seq<byte>)
    requires Progress(s, src, s', done) && |done| == |src|
    ensures done == Stream(s, src)
  {
    assert src[|done|..] == [];
  }

  // ---- the vector loop ------------------------------------------------------------

  function BumpN(s: State, n: nat): State
    decreases n
  {
    if n == 0 then s else BumpN(Bump(s), n - 1)
  }

  /** The key stream of n consecutive blocks */
  function KeyBlocks(s: State, n: nat): (r: seq<byte>)
    ensures |r| == 64 * n
    decreases n
  {
    if n == 0 then [] else KeyBlock(s) + KeyBlocks(Bump(s), n - 1)
  }

  lemma KeyBlocksFour(s: State)
    ensures KeyBlocks(s, 4) == KeyBlocks4(s)
  {
    hide KeyBlock, Bump;
    var s1, s2, s3 := Bump(s), Bump(Bump(s)), Bump(Bump(Bump(s)));
    assert KeyBlocks(s3, 1) == KeyBlock(s3) + [] == KeyBlock(s3);
    assert KeyBlocks(s2, 2) == KeyBlock(s2) + KeyBlocks(s3, 1);
    assert KeyBlocks(s1, 3) == KeyBlock(s1) + KeyBlocks(s2, 2);
  }

  /** A message of at most n blocks is one exclusive or with their key stream. */
  lemma {:induction false} StreamIsXor(s: State, d: seq<byte>, n: nat)
    requires |d| <= 64 * n
    ensures Stream(s, d) == XorSeq(d, KeyBlocks(s, n))
    decreases n
  {
    hide KeyBlock, Bump, XorSeq;
    if d != [] {
      StreamIsXor(Bump(s), d[Take64(d)..], n - 1);
      XorSeqSplit(d, KeyBlock(s), KeyBlocks(Bump(s), n - 1), Take64(d));
    } else {
      assert XorSeq(d, KeyBlocks(s, n)) == [];
    }
  }

  lemma XorSeqSplit(d: seq<byte>, k: seq<byte>, l: seq<byte>, m: nat)
    requires m <= |d| <= |k| + |l| && m <= |k| && (m == |d| || m == |k|)
    ensures XorSeq(d, k + l) == XorSeq(d[..m], k) + XorSeq(d[m..], l)
  {
    hide XorByte;
    var a, b := XorSeq(d[..m], k), XorSeq(d[m..], l);
    var x, y := XorSeq(d, k + l), a + b;
    forall i | 0 <= i < |d| ensures x[i] == y[i] {
      if i < m {
        assert y[i] == a[i] && d[..m][i] == d[i] && (k + l)[i] == k[i];
      } else {
        assert y[i] == b[i - m] && d[m..][i - m] == d[i] && (k + l)[i] == l[i - m];
      }
    }
  }

  lemma {:induction false} StreamConcat(s: State, d: seq<byte>, e: seq<byte>, n: nat)
    requires |d| == 64 * n
    ensures Stream(s, d + e) == Stream(s, d) + Stream(BumpN(s, n), e)
    decreases n
  {
    hide KeyBlock, Bump, XorSeq;
    if n == 0 {
      assert d + e == e;
    } else {
      assert (d + e)[..64] == d[..64] && (d + e)[64..] == d[64..] + e;
      StreamConcat(Bump(s), d[64..], e, n - 1);
    }
  }

  lemma ProgressFour(s: State, src: seq<byte>, s': State, done: seq<byte>)
    requires Progress(s, src, s', done) && |done| + 256 <= |src|
    ensures Progress(s, src, BumpN(s', 4), done + XorSeq(src[|done|..|done| + 256], KeyBlocks4(s')))
  {
    hide XorSeq, Bump, BumpN, Stream, KeyBlocks, KeyBlocks4;
    var n := |done|;
    var d, e := src[n..n + 256], src[n + 256..];
    assert src[n..] == d + e;
    StreamConcat(s', d, e, 4);
    StreamIsXor(s', d, 4);
    KeyBlocksFour(s');
    var k := XorSeq(d, KeyBlocks4(s'));
    assert done + (k + Stream(BumpN(s', 4), e)) == (done + k) + Stream(BumpN(s', 4), e);
    assert src[|done + k|..] == e;
  }

  lemma AddFour(s: State)
    ensures s[12 := Add(s[12], Word(4))] == BumpN(s, 4)
  {
    var x := s[12];
    hide Add;
    FourOnes(x);
    assert BumpN(s, 4) == Bump(Bump(Bump(Bump(s))));
  }

  lemma FourOnes(x: Word)
    ensures Add(Add(Add(Add(x, Word(1)), Word(1)), Word(1)), Word(1)) == Add(x, Word(4))
  {}

  /** chacha_xor_avx2, from the initial state on */
  method XorAvx2(s0: State, inp: array<byte>, out: array<byte>, len: nat)
    requires len <= inp.Length && len <= out.Length
    modifies out
    ensures out[..len] == Stream(s0, old(inp[..len]))
    ensures forall k :: len <= k < out.Length ==> out[k] == old(out[k])
  {
    hide XorSeq, Bump, BumpN, KeyBlocks4, Stream, Progress, Add;
    ghost var src := inp[..len];
    var s, pos := s0, 0;
    ProgressStart(s0, src);
    while len - pos >= 256
      invariant pos <= len
      invariant forall k :: pos <= k < len ==> inp[k] == src[k]
      invariant Progress(s0, src, s, out[..pos])
      invariant forall k :: len <= k < out.Length ==> out[k] == old(out[k])
    {
      ghost var before := out[..pos];
      ProgressFour(s0, src, s, before);
      assert inp[pos..pos + 256] == src[pos..pos + 256];
      FourBlocksAvx2(s, inp, out, pos);
      Appended(out, before, pos, 256);
      AddFour(s);
      s := s[12 := Add(s[12], Word(4))];
      pos := pos + 256;
    }
    if pos < len {
      assert inp[pos..len] == src[pos..];
      ghost var before := out[..pos];
      LastChunk(s, inp, out, pos, len);
      ProgressRest(s0, src, s, before, out[pos..len]);
      Appended(out, before, pos, len - pos);
    } else {
      ProgressEnd(s0, src, s, out[..pos]);
    }
  }

  lemma ProgressRest(s: State, src: seq<byte>, s': State, done: seq<byte>, rest: seq<byte>)
    requires Progress(s, src, s', done) && rest == Stream(s', src[|done|..])
    ensures done + rest == Stream(s, src)
  {}

  /** The final chunk, zero-padded to 256 bytes and cut back */
  method LastChunk(s: State, inp: array<byte>, out: array<byte>, pos: nat, len: nat)
    requires pos < len < pos + 256 && len <= inp.Length && len <= out.Length
    modifies out
    ensures out[pos..len] == Stream(s, old(inp[pos..len]))
    ensures forall k :: 0 <= k < out.Length && !(pos <= k < len) ==> out[k] == old(out[k])
  {
    hide XorByte, KeyBlocks4, KeyBlocks, Stream, XorSeq;
    ghost var src := inp[pos..len];
    var zin := Padded(inp, pos, len);
    var zout := new byte[256];
    FourBlocksAvx2(s, zin, zout, 0);
    assert zin[0..256] == zin[..] && zout[0..256] == zout[..];
    StreamIsXor(s, src, 4);
    KeyBlocksFour(s);
    XorPrefix(src, zin[..], KeyBlocks4(s));
    CopyOut(zout, out, pos, len);
  }

  method Padded(inp: array<byte>, pos: nat, len: nat) returns (zin: array<byte>)
    requires pos < len < pos + 256 && len <= inp.Length
    ensures fresh(zin) && zin.Length == 256 && zin[..len - pos] == inp[pos..len]
  {
    zin := new byte[256](_ => 0);
    for i := 0 to len - pos
      invariant forall k :: 0 <= k < i ==> zin[k] == inp[pos + k]
    {
      zin[i] := inp[pos + i];
    }
  }

  method CopyOut(zout: array<byte>, out: array<byte>, pos: nat, len: nat)
    requires pos < len < pos + 256 && zout.Length == 256 && len <= out.Length && zout != out
    modifies out
    ensures out[pos..len] == zout[..len - pos]
    ensures forall k :: 0 <= k < out.Length && !(pos <= k < len) ==> out[k] == old(out[k])
  {
    for i := 0 to len - pos
      invariant forall k :: 0 <= k < i ==> out[pos + k] == zout[k]
      invariant forall k :: 0 <= k < out.Length && !(pos <= k < pos + i) ==> out[k] == old(out[k])
    {
      out[pos + i] := zout[i];
    }
  }

  /** Exclusive or is byte by byte: padding does not change the first bytes. */
  lemma XorPrefix(a: seq<byte>, z: seq<byte>, k: seq<byte>)
    requires |a| <= |z| <= |k| && z[..|a|] == a
    ensures XorSeq(z, k)[..|a|] == XorSeq(a, k)
  {
    hide XorByte;
    forall i | 0 <= i < |a| ensures XorSeq(z, k)[i] == XorSeq(a, k)[i] { assert z[i] == a[i]; }
  }

  /** The first block, whole or the only one, then the rest */
  lemma StreamStep(s: State, x: seq<byte>, y: seq<byte>)
    requires 0 < |x| <= 64 && (|x| == 64 || y == [])
    ensures Stream(s, x + y) == XorSeq(x, KeyBlock(s)) + Stream(Bump(s), y)
  {
    hide KeyBlock, Bump, XorSeq;
    assert (x + y)[..|x|] == x && (x + y)[|x|..] == y;
  }

  /** Byte k is under byte k mod 64 of the k / 64-th block from here on. */
  lemma {:induction false} StreamAt(s: State, d: seq<byte>, k: nat)
    requires k < |d|
    ensures Stream(s, d)[k] == XorByte(d[k], KeyBlock(BumpN(s, k / 64))[k % 64])
    decreases |d|
  {
    hide KeyBlock, Bump, XorByte, Stream, BumpN;
    var n := Take64(d);
    var x, y := d[..n], d[n..];
    assert d == x + y;
    StreamStep(s, x, y);
    var head, tail := XorSeq(x, KeyBlock(s)), Stream(Bump(s), y);
    if k < 64 {
      BumpNone(s);
      assert (head + tail)[k] == head[k];
    } else {
      hide XorSeq;
      NextBlock(s, k);
      StreamAt(Bump(s), y, k - 64);
      assert (head + tail)[k] == tail[k - 64] && y[k - 64] == d[k];
    }
  }

  lemma BumpNone(s: State)
    ensures BumpN(s, 0) == s
  {}

  lemma NextBlock(s: State, k: nat)
    requires k >= 64
    ensures (k - 64) / 64 == k / 64 - 1 && (k - 64) % 64 == k % 64
    ensures BumpN(s, k / 64) == BumpN(Bump(s), k / 64 - 1)
  {
    hide Bump;
  }

  /** Advancing the state is starting it with the next counter. */
  lemma BumpInitial(key: seq<byte>, nonce: seq<byte>, counter: Word)
    requires |key| == 32 && |nonce| == 12
    ensures Bump(Initial(key, nonce, counter)) == Initial(key, nonce, Word(counter.v + 1))
  {
    hide Load;
  }

  // ---- the initial state ------------------------------------------------------------

  function Load(b: seq<byte>, k: nat): Word
    requires k + 4 <= |b|
  {
    Word((b[k] as bv32) | ((b[k + 1] as bv32) << 8) | ((b[k + 2] as bv32) << 16) | ((b[k + 3] as bv32) << 24))
  }

  /** "expand 32-byte k" */
  const SIGMA: seq<byte> :=
    [0x65, 0x78, 0x70, 0x61, 0x6e, 0x64, 0x20, 0x33, 0x32, 0x2d, 0x62, 0x79, 0x74, 0x65, 0x20, 0x6b]

  /** chacha_state: the state of section 2.3 */
  function Initial(key: seq<byte>, nonce: seq<byte>, counter: Word): State
    requires |key| == 32 && |nonce| == 12
  {
    [Load(SIGMA, 0), Load(SIGMA, 4), Load(SIGMA, 8), Load(SIGMA, 12),
     Load(key, 0), Load(key, 4), Load(key, 8), Load(key, 12),
     Load(key, 16), Load(key, 20), Load(key, 24), Load(key, 28),
     counter, Load(nonce, 0), Load(nonce, 4), Load(nonce, 8)]
  }

  /** chacha_xor */
  method XorStream(x86: bool, key: seq<byte>, nonce: seq<byte>, counter: Word,
                   inp: array<byte>, out: array<byte>, len: nat)
    requires |key| == 32 && |nonce| == 12 && len <= inp.Length && len <= out.Length
    modifies out
    ensures out[..len] == Stream(Initial(key, nonce, counter), old(inp[..len]))
    ensures forall k :: len <= k < out.Length ==> out[k] == old(out[k])
  {
    hide Stream;
    var s := Initial(key, nonce, counter);
    if x86 { XorAvx2(s, inp, out, len); } else { XorPortable(s, inp, out, len); }
  }
}
