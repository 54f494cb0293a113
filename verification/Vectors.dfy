/** The published vectors of RFC 8439 for ChaCha20 and Poly1305: they fix the
    constants, the round structure and the byte order of the reference definitions. */
module Vectors {
  import opened Bytes
  import opened ChaCha

  // ---- section 2.1.1: one quarter round ---------------------------------------------------

  lemma QuarterVector()
    ensures Quarter(Quad(Word(0x11111111), Word(0x01020304), Word(0x9b8d6f43), Word(0x01234567)))
         == Quad(Word(0xea2a92f4), Word(0xcb1cf8ce), Word(0x4581472e), Word(0x5881c4bb))
  {}

  // ---- the rotations: a word turned left and then right by the same distance --------------

  function Back16(x: bv32): bv32 { (x >> 16) | (x << 16) }

  lemma Turn16(x: bv32)
    ensures Back16((x << 16) | (x >> 16)) == x
  {}

  lemma Undo16(x: Word)
    ensures Back16(Rot16(x).v) == x.v
  {
    hide Back16;
    Turn16(x.v);
  }

  function Back12(x: bv32): bv32 { (x >> 12) | (x << 20) }

  lemma Turn12(x: bv32)
    ensures Back12((x << 12) | (x >> 20)) == x
  {}

  lemma Undo12(x: Word)
    ensures Back12(Rot12(x).v) == x.v
  {
    hide Back12;
    Turn12(x.v);
  }

  function Back8(x: bv32): bv32 { (x >> 8) | (x << 24) }

  lemma Turn8(x: bv32)
    ensures Back8((x << 8) | (x >> 24)) == x
  {}

  lemma Undo8(x: Word)
    ensures Back8(Rot8(x).v) == x.v
  {
    hide Back8;
    Turn8(x.v);
  }

  function Back7(x: bv32): bv32 { (x >> 7) | (x << 25) }

  lemma Turn7(x: bv32)
    ensures Back7((x << 7) | (x >> 25)) == x
  {}

  lemma Undo7(x: Word)
    ensures Back7(Rot7(x).v) == x.v
  {
    hide Back7;
    Turn7(x.v);
  }

  /** Each rotation is undone by turning back by its distance, so it turns by exactly
      that distance. */
  lemma RotationsTurn(x: Word)
    ensures Back16(Rot16(x).v) == x.v && Back12(Rot12(x).v) == x.v
    ensures Back8(Rot8(x).v) == x.v && Back7(Rot7(x).v) == x.v
  {
    hide *;
    Undo16(x); Undo12(x); Undo8(x); Undo7(x);
  }

  // ---- section 2.3.2: one block ---------------------------------------------------------------

  function Key(): (k: seq<byte>)
    ensures |k| == 32
  {
    [0x00, 0x01, 0x02, 0x03, 0x04, 0x05, 0x06, 0x07, 0x08, 0x09, 0x0a, 0x0b, 0x0c, 0x0d, 0x0e, 0x0f,
     0x10, 0x11, 0x12, 0x13, 0x14, 0x15, 0x16, 0x17, 0x18, 0x19, 0x1a, 0x1b, 0x1c, 0x1d, 0x1e, 0x1f]
  }

  function Nonce(): (n: seq<byte>)
    ensures |n| == 12
  {
    [0x00, 0x00, 0x00, 0x09, 0x00, 0x00, 0x00, 0x4a, 0x00, 0x00, 0x00, 0x00]
  }

  function State0(): State
  {
      [Word(0x61707865), Word(0x3320646e), Word(0x79622d32), Word(0x6b206574),
       Word(0x03020100), Word(0x07060504), Word(0x0b0a0908), Word(0x0f0e0d0c),
       Word(0x13121110), Word(0x17161514), Word(0x1b1a1918), Word(0x1f1e1d1c),
       Word(0x00000001), Word(0x09000000), Word(0x4a000000), Word(0x00000000)]
  }

  function State1(): State
  {
      [Word(0xcd52e917), Word(0x85ab03b4), Word(0xb3457395), Word(0xf96de7dd),
       Word(0xc4b7cd22), Word(0x5c2e187a), Word(0xc95eb461), Word(0x316c801a),
       Word(0x7bf7d740), Word(0x7eddd644), Word(0xf1a1bdf5), Word(0x761246ca),
       Word(0x6b0d58a3), Word(0x6798471a), Word(0xd737f167), Word(0xf173888d)]
  }

  function State2(): State
  {
      [Word(0xcf1a7584), Word(0x048927ec), Word(0x54051fda), Word(0xc244ff28),
       Word(0x901d2f40), Word(0x7974b81c), Word(0x378dcfb4), Word(0xcd47fd0e),
       Word(0x2dafb216), Word(0x27c89cd6), Word(0xcd3c9aa0), Word(0x79fc89c7),
       Word(0x10aef18d), Word(0x16218765), Word(0x68f76705), Word(0x04d6ee22)]
  }

  function State3(): State
  {
      [Word(0x03a14032), Word(0x66b15927), Word(0x9d6b6b42), Word(0xb84c4109),
       Word(0xa7143ae0), Word(0xa09b33dd), Word(0xa5daaf88), Word(0x2fd91a73),
       Word(0xc90c6b18), Word(0x5a202413), Word(0xc20e01b6), Word(0x72cd6b74),
       Word(0xba35d777), Word(0xb360f1bf), Word(0x8178315b), Word(0x2cd11b1a)]
  }

  function State4(): State
  {
      [Word(0x9a2d3589), Word(0x0b23fc4e), Word(0x40af3b6b), Word(0xceea8144),
       Word(0x0a1bffc6), Word(0x5e5993f7), Word(0x9904c2e7), Word(0x0d334718),
       Word(0xe46c6354), Word(0xc9503229), Word(0x04fef5aa), Word(0xf8933f72),
       Word(0x2687d476), Word(0x54e65231), Word(0x3594ffc5), Word(0x2b3bb2ca)]
  }

  function State5(): State
  {
      [Word(0xc53318c5), Word(0xca325d96), Word(0x7e7d11cb), Word(0x3404e2ca),
       Word(0x26d7cf73), Word(0x6088d379), Word(0xc0f0e9bd), Word(0xe310cdb9),
       Word(0xae2ca8db), Word(0x42f67c72), Word(0x71669aca), Word(0x975c171d),
       Word(0x9e5ec228), Word(0x7d85a9f3), Word(0x201d0756), Word(0x63fa6953)]
  }

  function State6(): State
  {
      [Word(0x04a3131a), Word(0x66176309), Word(0x0415bab1), Word(0x61b880a2),
       Word(0x36cc86c7), Word(0xbf8a4465), Word(0xf77dd720), Word(0xfc0bdc90),
       Word(0x07d13aca), Word(0xeb0be9af), Word(0x61599491), Word(0x918512dc),
       Word(0x33b6686d), Word(0x795cc671), Word(0xc0049972), Word(0xa0a81bde)]
  }

  function State7(): State
  {
      [Word(0x9b70f51f), Word(0x7ea8ac11), Word(0x21e54da9), Word(0xca393b2f),
       Word(0x93b08686), Word(0x6a4c50ae), Word(0x19212a5a), Word(0x9b032958),
       Word(0xd839165e), Word(0x4c06e28a), Word(0xd3fde99e), Word(0x26acc13d),
       Word(0xa609f555), Word(0x2c246549), Word(0x95151853), Word(0x2c847a0d)]
  }

  function State8(): State
  {
      [Word(0xca5c85dd), Word(0x93a4f90e), Word(0xd9f0df58), Word(0x26dd82dd),
       Word(0x982563f8), Word(0x712aa9ff), Word(0x279a61e8), Word(0x970f72bd),
       Word(0x1c25931a), Word(0x5180bb10), Word(0x779c27e7), Word(0x54077e08),
       Word(0xa9b751fb), Word(0x382f3ce2), Word(0x8db1757d), Word(0xcc38080b)]
  }

  function State9(): State
  {
      [Word(0xb6b87de6), Word(0x9a016148), Word(0x93859815), Word(0x4915e6cc),
       Word(0xdc33c122), Word(0x98e18fa3), Word(0x5ffbe8fc), Word(0xf7154b8b),
       Word(0x28c1fcb3), Word(0xc4b38f9d), Word(0x83e2f5d7), Word(0x7d24b98b),
       Word(0x21078b22), Word(0xb193e7a3), Word(0xb2f49389), Word(0x6cde6026)]
  }

  function State10(): State
  {
      [Word(0x837778ab), Word(0xe238d763), Word(0xa67ae21e), Word(0x5950bb2f),
       Word(0xc4f2d0c7), Word(0xfc62bb2f), Word(0x8fa018fc), Word(0x3f5ec7b7),
       Word(0x335271c2), Word(0xf29489f3), Word(0xeabda8fc), Word(0x82e46ebd),
       Word(0xd19c12b4), Word(0xb04e16de), Word(0x9e83d0cb), Word(0x4e3c50a2)]
  }

  function Half1(): State
  {
      [Word(0xabbaa25c), Word(0x1efa51ea), Word(0x7354fbdf), Word(0x83d2dc69),
       Word(0x3a465196), Word(0x1c7e64f6), Word(0xb12fb628), Word(0xf05b6976),
       Word(0x6b3ca454), Word(0x08eb14b1), Word(0xbf8a9ac9), Word(0xe444df3b),
       Word(0xdec62ed2), Word(0x8862cc77), Word(0x6e35b345), Word(0x52a647f1)]
  }

  function Half2(): State
  {
      [Word(0xe3e1111b), Word(0xa6291491), Word(0x5a82b80c), Word(0x4500fd45),
       Word(0xd65b5b5b), Word(0xf56af099), Word(0x4ccc8103), Word(0xc94d29e2),
       Word(0xe67aec54), Word(0xf7a52d82), Word(0xdb470914), Word(0xdfb40f1d),
       Word(0x7be81c0d), Word(0x1d92d0fd), Word(0x13139f8c), Word(0x7a26ecaa)]
  }

  function Half3(): State
  {
      [Word(0xa22695f2), Word(0xa908cf6c), Word(0xe6ae05b2), Word(0xfe0ff04b),
       Word(0x1ece4458), Word(0xe82b726f), Word(0x5a21ab90), Word(0x87698c64),
       Word(0xf2d36da6), Word(0xf4dab980), Word(0x7baf5573), Word(0xa78c270d),
       Word(0x6fda6bf7), Word(0x65a4b0ce), Word(0x25e6d76e), Word(0x1b7b11ec)]
  }

  function Half4(): State
  {
      [Word(0xfecd0838), Word(0x160ab468), Word(0x9a0ddf4e), Word(0xbac7154a),
       Word(0xcedf6624), Word(0xb11de6c4), Word(0xbd7810ef), Word(0xd22b5643),
       Word(0x1d8a33ea), Word(0x87dc1ca9), Word(0x89bd34a5), Word(0x5505ef62),
       Word(0xa818b852), Word(0xb100446a), Word(0x9c1d70b1), Word(0xa1d1befa)]
  }

  function Half5(): State
  {
      [Word(0x85e7824a), Word(0x4940cd9e), Word(0xfbe7684b), Word(0x7335d03d),
       Word(0x1c133ea1), Word(0xbba40b0f), Word(0x9413992a), Word(0xa4ab2040),
       Word(0xa3a66a86), Word(0xc0b4754f), Word(0x771b4ecb), Word(0x165151a1),
       Word(0xde008464), Word(0x34f0058b), Word(0x70846cfa), Word(0xa3271b09)]
  }

  function Half6(): State
  {
      [Word(0x9950b826), Word(0xcac7ccc6), Word(0x84a67673), Word(0xdb3109a6),
       Word(0x2121065a), Word(0xc12bdadb), Word(0xcae3acd1), Word(0x594616cb),
       Word(0x19078de2), Word(0x178ecc02), Word(0xe6adbdb2), Word(0x52a9d50e),
       Word(0x40ca72b3), Word(0x3b9bf852), Word(0x78690378), Word(0xe17d4902)]
  }

  function Half7(): State
  {
      [Word(0x57c5e6da), Word(0x35ce46a8), Word(0x0c041bb9), Word(0xfa91df79),
       Word(0x8e85d82f), Word(0xb4819d06), Word(0xb63be200), Word(0xacd221e4),
       Word(0x434b4749), Word(0x1d459c00), Word(0x111cfe2c), Word(0x55942604),
       Word(0x49ee03a6), Word(0xd11a5554), Word(0xa7202e04), Word(0x7d2215bc)]
  }

  function Half8(): State
  {
      [Word(0xc0b18aee), Word(0x087445ba), Word(0x36e52ad9), Word(0xa777426a),
       Word(0xdeb54e9c), Word(0x802c883b), Word(0x06e86889), Word(0x3c002680),
       Word(0xa82d65d4), Word(0x687f11eb), Word(0xe9d36207), Word(0x4242ddae),
       Word(0x4103c64e), Word(0x82816a91), Word(0xb584ca56), Word(0xfd0bd2b9)]
  }

  function Half9(): State
  {
      [Word(0x765c6e9c), Word(0x5ab09b11), Word(0x3ee7da04), Word(0x37c31203),
       Word(0x9046ecaa), Word(0x7b88d882), Word(0xb9b577dd), Word(0x156de7ed),
       Word(0x46fa091e), Word(0x5117e9b5), Word(0x862ff22b), Word(0xa3fcc7a6),
       Word(0x72a5aace), Word(0x5fa7f1c5), Word(0xda563e0a), Word(0x5263d7ca)]
  }

  function Half10(): State
  {
      [Word(0x8a07ff15), Word(0x0cadc51c), Word(0x017c8da9), Word(0x4afbe5df),
       Word(0x913768fe), Word(0x442a0c0c), Word(0x598fe3bb), Word(0x47d18828),
       Word(0x0a39aedc), Word(0xc1428029), Word(0x7b48135f), Word(0x5a5f1098),
       Word(0x2d4cfe3e), Word(0xe5466d1b), Word(0xe4ccdc13), Word(0x8ac92a18)]
  }

  lemma Columns1()
    ensures Columns(State0()) == Half1()
  {
    assert Quarter(Quad(Word(0x61707865), Word(0x03020100), Word(0x13121110), Word(0x00000001)))
        == Quad(Word(0xabbaa25c), Word(0x3a465196), Word(0x6b3ca454), Word(0xdec62ed2));
    assert Quarter(Quad(Word(0x3320646e), Word(0x07060504), Word(0x17161514), Word(0x09000000)))
        == Quad(Word(0x1efa51ea), Word(0x1c7e64f6), Word(0x08eb14b1), Word(0x8862cc77));
    assert Quarter(Quad(Word(0x79622d32), Word(0x0b0a0908), Word(0x1b1a1918), Word(0x4a000000)))
        == Quad(Word(0x7354fbdf), Word(0xb12fb628), Word(0xbf8a9ac9), Word(0x6e35b345));
    assert Quarter(Quad(Word(0x6b206574), Word(0x0f0e0d0c), Word(0x1f1e1d1c), Word(0x00000000)))
        == Quad(Word(0x83d2dc69), Word(0xf05b6976), Word(0xe444df3b), Word(0x52a647f1));
    hide Quarter, Columns;
    ColumnsOf(State0());
  }

  lemma Diagonals1()
    ensures Diagonals(Half1()) == State1()
  {
    assert Quarter(Quad(Word(0xabbaa25c), Word(0x1c7e64f6), Word(0xbf8a9ac9), Word(0x52a647f1)))
        == Quad(Word(0xcd52e917), Word(0x5c2e187a), Word(0xf1a1bdf5), Word(0xf173888d));
    assert Quarter(Quad(Word(0x1efa51ea), Word(0xb12fb628), Word(0xe444df3b), Word(0xdec62ed2)))
        == Quad(Word(0x85ab03b4), Word(0xc95eb461), Word(0x761246ca), Word(0x6b0d58a3));
    assert Quarter(Quad(Word(0x7354fbdf), Word(0xf05b6976), Word(0x6b3ca454), Word(0x8862cc77)))
        == Quad(Word(0xb3457395), Word(0x316c801a), Word(0x7bf7d740), Word(0x6798471a));
    assert Quarter(Quad(Word(0x83d2dc69), Word(0x3a465196), Word(0x08eb14b1), Word(0x6e35b345)))
        == Quad(Word(0xf96de7dd), Word(0xc4b7cd22), Word(0x7eddd644), Word(0xd737f167));
    hide Quarter, Diagonals;
    DiagonalsOf(Half1());
  }

  lemma Columns2()
    ensures Columns(State1()) == Half2()
  {
    assert Quarter(Quad(Word(0xcd52e917), Word(0xc4b7cd22), Word(0x7bf7d740), Word(0x6b0d58a3)))
        == Quad(Word(0xe3e1111b), Word(0xd65b5b5b), Word(0xe67aec54), Word(0x7be81c0d));
    assert Quarter(Quad(Word(0x85ab03b4), Word(0x5c2e187a), Word(0x7eddd644), Word(0x6798471a)))
        == Quad(Word(0xa6291491), Word(0xf56af099), Word(0xf7a52d82), Word(0x1d92d0fd));
    assert Quarter(Quad(Word(0xb3457395), Word(0xc95eb461), Word(0xf1a1bdf5), Word(0xd737f167)))
        == Quad(Word(0x5a82b80c), Word(0x4ccc8103), Word(0xdb470914), Word(0x13139f8c));
    assert Quarter(Quad(Word(0xf96de7dd), Word(0x316c801a), Word(0x761246ca), Word(0xf173888d)))
        == Quad(Word(0x4500fd45), Word(0xc94d29e2), Word(0xdfb40f1d), Word(0x7a26ecaa));
    hide Quarter, Columns;
    ColumnsOf(State1());
  }

  lemma Diagonals2()
    ensures Diagonals(Half2()) == State2()
  {
    assert Quarter(Quad(Word(0xe3e1111b), Word(0xf56af099), Word(0xdb470914), Word(0x7a26ecaa)))
        == Quad(Word(0xcf1a7584), Word(0x7974b81c), Word(0xcd3c9aa0), Word(0x04d6ee22));
    assert Quarter(Quad(Word(0xa6291491), Word(0x4ccc8103), Word(0xdfb40f1d), Word(0x7be81c0d)))
        == Quad(Word(0x048927ec), Word(0x378dcfb4), Word(0x79fc89c7), Word(0x10aef18d));
    assert Quarter(Quad(Word(0x5a82b80c), Word(0xc94d29e2), Word(0xe67aec54), Word(0x1d92d0fd)))
        == Quad(Word(0x54051fda), Word(0xcd47fd0e), Word(0x2dafb216), Word(0x16218765));
    assert Quarter(Quad(Word(0x4500fd45), Word(0xd65b5b5b), Word(0xf7a52d82), Word(0x13139f8c)))
        == Quad(Word(0xc244ff28), Word(0x901d2f40), Word(0x27c89cd6), Word(0x68f76705));
    hide Quarter, Diagonals;
    DiagonalsOf(Half2());
  }

  lemma Columns3()
    ensures Columns(State2()) == Half3()
  {
    assert Quarter(Quad(Word(0xcf1a7584), Word(0x901d2f40), Word(0x2dafb216), Word(0x10aef18d)))
        == Quad(Word(0xa22695f2), Word(0x1ece4458), Word(0xf2d36da6), Word(0x6fda6bf7));
    assert Quarter(Quad(Word(0x048927ec), Word(0x7974b81c), Word(0x27c89cd6), Word(0x16218765)))
        == Quad(Word(0xa908cf6c), Word(0xe82b726f), Word(0xf4dab980), Word(0x65a4b0ce));
    assert Quarter(Quad(Word(0x54051fda), Word(0x378dcfb4), Word(0xcd3c9aa0), Word(0x68f76705)))
        == Quad(Word(0xe6ae05b2), Word(0x5a21ab90), Word(0x7baf5573), Word(0x25e6d76e));
    assert Quarter(Quad(Word(0xc244ff28), Word(0xcd47fd0e), Word(0x79fc89c7), Word(0x04d6ee22)))
        == Quad(Word(0xfe0ff04b), Word(0x87698c64), Word(0xa78c270d), Word(0x1b7b11ec));
    hide Quarter, Columns;
    ColumnsOf(State2());
  }

  lemma Diagonals3()
    ensures Diagonals(Half3()) == State3()
  {
    assert Quarter(Quad(Word(0xa22695f2), Word(0xe82b726f), Word(0x7baf5573), Word(0x1b7b11ec)))
        == Quad(Word(0x03a14032), Word(0xa09b33dd), Word(0xc20e01b6), Word(0x2cd11b1a));
    assert Quarter(Quad(Word(0xa908cf6c), Word(0x5a21ab90), Word(0xa78c270d), Word(0x6fda6bf7)))
        == Quad(Word(0x66b15927), Word(0xa5daaf88), Word(0x72cd6b74), Word(0xba35d777));
    assert Quarter(Quad(Word(0xe6ae05b2), Word(0x87698c64), Word(0xf2d36da6), Word(0x65a4b0ce)))
        == Quad(Word(0x9d6b6b42), Word(0x2fd91a73), Word(0xc90c6b18), Word(0xb360f1bf));
    assert Quarter(Quad(Word(0xfe0ff04b), Word(0x1ece4458), Word(0xf4dab980), Word(0x25e6d76e)))
        == Quad(Word(0xb84c4109), Word(0xa7143ae0), Word(0x5a202413), Word(0x8178315b));
    hide Quarter, Diagonals;
    DiagonalsOf(Half3());
  }

  lemma Columns4()
    ensures Columns(State3()) == Half4()
  {
    assert Quarter(Quad(Word(0x03a14032), Word(0xa7143ae0), Word(0xc90c6b18), Word(0xba35d777)))
        == Quad(Word(0xfecd0838), Word(0xcedf6624), Word(0x1d8a33ea), Word(0xa818b852));
    assert Quarter(Quad(Word(0x66b15927), Word(0xa09b33dd), Word(0x5a202413), Word(0xb360f1bf)))
        == Quad(Word(0x160ab468), Word(0xb11de6c4), Word(0x87dc1ca9), Word(0xb100446a));
    assert Quarter(Quad(Word(0x9d6b6b42), Word(0xa5daaf88), Word(0xc20e01b6), Word(0x8178315b)))
        == Quad(Word(0x9a0ddf4e), Word(0xbd7810ef), Word(0x89bd34a5), Word(0x9c1d70b1));
    assert Quarter(Quad(Word(0xb84c4109), Word(0x2fd91a73), Word(0x72cd6b74), Word(0x2cd11b1a)))
        == Quad(Word(0xbac7154a), Word(0xd22b5643), Word(0x5505ef62), Word(0xa1d1befa));
    hide Quarter, Columns;
    ColumnsOf(State3());
  }

  lemma Diagonals4()
    ensures Diagonals(Half4()) == State4()
  {
    assert Quarter(Quad(Word(0xfecd0838), Word(0xb11de6c4), Word(0x89bd34a5), Word(0xa1d1befa)))
        == Quad(Word(0x9a2d3589), Word(0x5e5993f7), Word(0x04fef5aa), Word(0x2b3bb2ca));
    assert Quarter(Quad(Word(0x160ab468), Word(0xbd7810ef), Word(0x5505ef62), Word(0xa818b852)))
        == Quad(Word(0x0b23fc4e), Word(0x9904c2e7), Word(0xf8933f72), Word(0x2687d476));
    assert Quarter(Quad(Word(0x9a0ddf4e), Word(0xd22b5643), Word(0x1d8a33ea), Word(0xb100446a)))
        == Quad(Word(0x40af3b6b), Word(0x0d334718), Word(0xe46c6354), Word(0x54e65231));
    assert Quarter(Quad(Word(0xbac7154a), Word(0xcedf6624), Word(0x87dc1ca9), Word(0x9c1d70b1)))
        == Quad(Word(0xceea8144), Word(0x0a1bffc6), Word(0xc9503229), Word(0x3594ffc5));
    hide Quarter, Diagonals;
    DiagonalsOf(Half4());
  }

  lemma Columns5()
    ensures Columns(State4()) == Half5()
  {
    assert Quarter(Quad(Word(0x9a2d3589), Word(0x0a1bffc6), Word(0xe46c6354), Word(0x2687d476)))
        == Quad(Word(0x85e7824a), Word(0x1c133ea1), Word(0xa3a66a86), Word(0xde008464));
    assert Quarter(Quad(Word(0x0b23fc4e), Word(0x5e5993f7), Word(0xc9503229), Word(0x54e65231)))
        == Quad(Word(0x4940cd9e), Word(0xbba40b0f), Word(0xc0b4754f), Word(0x34f0058b));
    assert Quarter(Quad(Word(0x40af3b6b), Word(0x9904c2e7), Word(0x04fef5aa), Word(0x3594ffc5)))
        == Quad(Word(0xfbe7684b), Word(0x9413992a), Word(0x771b4ecb), Word(0x70846cfa));
    assert Quarter(Quad(Word(0xceea8144), Word(0x0d334718), Word(0xf8933f72), Word(0x2b3bb2ca)))
        == Quad(Word(0x7335d03d), Word(0xa4ab2040), Word(0x165151a1), Word(0xa3271b09));
    hide Quarter, Columns;
    ColumnsOf(State4());
  }

  lemma Diagonals5()
    ensures Diagonals(Half5()) == State5()
  {
    assert Quarter(Quad(Word(0x85e7824a), Word(0xbba40b0f), Word(0x771b4ecb), Word(0xa3271b09)))
        == Quad(Word(0xc53318c5), Word(0x6088d379), Word(0x71669aca), Word(0x63fa6953));
    assert Quarter(Quad(Word(0x4940cd9e), Word(0x9413992a), Word(0x165151a1), Word(0xde008464)))
        == Quad(Word(0xca325d96), Word(0xc0f0e9bd), Word(0x975c171d), Word(0x9e5ec228));
    assert Quarter(Quad(Word(0xfbe7684b), Word(0xa4ab2040), Word(0xa3a66a86), Word(0x34f0058b)))
        == Quad(Word(0x7e7d11cb), Word(0xe310cdb9), Word(0xae2ca8db), Word(0x7d85a9f3));
    assert Quarter(Quad(Word(0x7335d03d), Word(0x1c133ea1), Word(0xc0b4754f), Word(0x70846cfa)))
        == Quad(Word(0x3404e2ca), Word(0x26d7cf73), Word(0x42f67c72), Word(0x201d0756));
    hide Quarter, Diagonals;
    DiagonalsOf(Half5());
  }

  lemma Columns6()
    ensures Columns(State5()) == Half6()
  {
    assert Quarter(Quad(Word(0xc53318c5), Word(0x26d7cf73), Word(0xae2ca8db), Word(0x9e5ec228)))
        == Quad(Word(0x9950b826), Word(0x2121065a), Word(0x19078de2), Word(0x40ca72b3));
    assert Quarter(Quad(Word(0xca325d96), Word(0x6088d379), Word(0x42f67c72), Word(0x7d85a9f3)))
        == Quad(Word(0xcac7ccc6), Word(0xc12bdadb), Word(0x178ecc02), Word(0x3b9bf852));
    assert Quarter(Quad(Word(0x7e7d11cb), Word(0xc0f0e9bd), Word(0x71669aca), Word(0x201d0756)))
        == Quad(Word(0x84a67673), Word(0xcae3acd1), Word(0xe6adbdb2), Word(0x78690378));
    assert Quarter(Quad(Word(0x3404e2ca), Word(0xe310cdb9), Word(0x975c171d), Word(0x63fa6953)))
        == Quad(Word(0xdb3109a6), Word(0x594616cb), Word(0x52a9d50e), Word(0xe17d4902));
    hide Quarter, Columns;
    ColumnsOf(State5());
  }

  lemma Diagonals6()
    ensures Diagonals(Half6()) == State6()
  {
    assert Quarter(Quad(Word(0x9950b826), Word(0xc12bdadb), Word(0xe6adbdb2), Word(0xe17d4902)))
        == Quad(Word(0x04a3131a), Word(0xbf8a4465), Word(0x61599491), Word(0xa0a81bde));
    assert Quarter(Quad(Word(0xcac7ccc6), Word(0xcae3acd1), Word(0x52a9d50e), Word(0x40ca72b3)))
        == Quad(Word(0x66176309), Word(0xf77dd720), Word(0x918512dc), Word(0x33b6686d));
    assert Quarter(Quad(Word(0x84a67673), Word(0x594616cb), Word(0x19078de2), Word(0x3b9bf852)))
        == Quad(Word(0x0415bab1), Word(0xfc0bdc90), Word(0x07d13aca), Word(0x795cc671));
    assert Quarter(Quad(Word(0xdb3109a6), Word(0x2121065a), Word(0x178ecc02), Word(0x78690378)))
        == Quad(Word(0x61b880a2), Word(0x36cc86c7), Word(0xeb0be9af), Word(0xc0049972));
    hide Quarter, Diagonals;
    DiagonalsOf(Half6());
  }

  lemma Columns7()
    ensures Columns(State6()) == Half7()
  {
    assert Quarter(Quad(Word(0x04a3131a), Word(0x36cc86c7), Word(0x07d13aca), Word(0x33b6686d)))
        == Quad(Word(0x57c5e6da), Word(0x8e85d82f), Word(0x434b4749), Word(0x49ee03a6));
    assert Quarter(Quad(Word(0x66176309), Word(0xbf8a4465), Word(0xeb0be9af), Word(0x795cc671)))
        == Quad(Word(0x35ce46a8), Word(0xb4819d06), Word(0x1d459c00), Word(0xd11a5554));
    assert Quarter(Quad(Word(0x0415bab1), Word(0xf77dd720), Word(0x61599491), Word(0xc0049972)))
        == Quad(Word(0x0c041bb9), Word(0xb63be200), Word(0x111cfe2c), Word(0xa7202e04));
    assert Quarter(Quad(Word(0x61b880a2), Word(0xfc0bdc90), Word(0x918512dc), Word(0xa0a81bde)))
        == Quad(Word(0xfa91df79), Word(0xacd221e4), Word(0x55942604), Word(0x7d2215bc));
    hide Quarter, Columns;
    ColumnsOf(State6());
  }

  lemma Diagonals7()
    ensures Diagonals(Half7()) == State7()
  {
    assert Quarter(Quad(Word(0x57c5e6da), Word(0xb4819d06), Word(0x111cfe2c), Word(0x7d2215bc)))
        == Quad(Word(0x9b70f51f), Word(0x6a4c50ae), Word(0xd3fde99e), Word(0x2c847a0d));
    assert Quarter(Quad(Word(0x35ce46a8), Word(0xb63be200), Word(0x55942604), Word(0x49ee03a6)))
        == Quad(Word(0x7ea8ac11), Word(0x19212a5a), Word(0x26acc13d), Word(0xa609f555));
    assert Quarter(Quad(Word(0x0c041bb9), Word(0xacd221e4), Word(0x434b4749), Word(0xd11a5554)))
        == Quad(Word(0x21e54da9), Word(0x9b032958), Word(0xd839165e), Word(0x2c246549));
    assert Quarter(Quad(Word(0xfa91df79), Word(0x8e85d82f), Word(0x1d459c00), Word(0xa7202e04)))
        == Quad(Word(0xca393b2f), Word(0x93b08686), Word(0x4c06e28a), Word(0x95151853));
    hide Quarter, Diagonals;
    DiagonalsOf(Half7());
  }

  lemma Columns8()
    ensures Columns(State7()) == Half8()
  {
    assert Quarter(Quad(Word(0x9b70f51f), Word(0x93b08686), Word(0xd839165e), Word(0xa609f555)))
        == Quad(Word(0xc0b18aee), Word(0xdeb54e9c), Word(0xa82d65d4), Word(0x4103c64e));
    assert Quarter(Quad(Word(0x7ea8ac11), Word(0x6a4c50ae), Word(0x4c06e28a), Word(0x2c246549)))
        == Quad(Word(0x087445ba), Word(0x802c883b), Word(0x687f11eb), Word(0x82816a91));
    assert Quarter(Quad(Word(0x21e54da9), Word(0x19212a5a), Word(0xd3fde99e), Word(0x95151853)))
        == Quad(Word(0x36e52ad9), Word(0x06e86889), Word(0xe9d36207), Word(0xb584ca56));
    assert Quarter(Quad(Word(0xca393b2f), Word(0x9b032958), Word(0x26acc13d), Word(0x2c847a0d)))
        == Quad(Word(0xa777426a), Word(0x3c002680), Word(0x4242ddae), Word(0xfd0bd2b9));
    hide Quarter, Columns;
    ColumnsOf(State7());
  }

  lemma Diagonals8()
    ensures Diagonals(Half8()) == State8()
  {
    assert Quarter(Quad(Word(0xc0b18aee), Word(0x802c883b), Word(0xe9d36207), Word(0xfd0bd2b9)))
        == Quad(Word(0xca5c85dd), Word(0x712aa9ff), Word(0x779c27e7), Word(0xcc38080b));
    assert Quarter(Quad(Word(0x087445ba), Word(0x06e86889), Word(0x4242ddae), Word(0x4103c64e)))
        == Quad(Word(0x93a4f90e), Word(0x279a61e8), Word(0x54077e08), Word(0xa9b751fb));
    assert Quarter(Quad(Word(0x36e52ad9), Word(0x3c002680), Word(0xa82d65d4), Word(0x82816a91)))
        == Quad(Word(0xd9f0df58), Word(0x970f72bd), Word(0x1c25931a), Word(0x382f3ce2));
    assert Quarter(Quad(Word(0xa777426a), Word(0xdeb54e9c), Word(0x687f11eb), Word(0xb584ca56)))
        == Quad(Word(0x26dd82dd), Word(0x982563f8), Word(0x5180bb10), Word(0x8db1757d));
    hide Quarter, Diagonals;
    DiagonalsOf(Half8());
  }

  lemma Columns9()
    ensures Columns(State8()) == Half9()
  {
    assert Quarter(Quad(Word(0xca5c85dd), Word(0x982563f8), Word(0x1c25931a), Word(0xa9b751fb)))
        == Quad(Word(0x765c6e9c), Word(0x9046ecaa), Word(0x46fa091e), Word(0x72a5aace));
    assert Quarter(Quad(Word(0x93a4f90e), Word(0x712aa9ff), Word(0x5180bb10), Word(0x382f3ce2)))
        == Quad(Word(0x5ab09b11), Word(0x7b88d882), Word(0x5117e9b5), Word(0x5fa7f1c5));
    assert Quarter(Quad(Word(0xd9f0df58), Word(0x279a61e8), Word(0x779c27e7), Word(0x8db1757d)))
        == Quad(Word(0x3ee7da04), Word(0xb9b577dd), Word(0x862ff22b), Word(0xda563e0a));
    assert Quarter(Quad(Word(0x26dd82dd), Word(0x970f72bd), Word(0x54077e08), Word(0xcc38080b)))
        == Quad(Word(0x37c31203), Word(0x156de7ed), Word(0xa3fcc7a6), Word(0x5263d7ca));
    hide Quarter, Columns;
    ColumnsOf(State8());
  }

  lemma Diagonals9()
    ensures Diagonals(Half9()) == State9()
  {
    assert Quarter(Quad(Word(0x765c6e9c), Word(0x7b88d882), Word(0x862ff22b), Word(0x5263d7ca)))
        == Quad(Word(0xb6b87de6), Word(0x98e18fa3), Word(0x83e2f5d7), Word(0x6cde6026));
    assert Quarter(Quad(Word(0x5ab09b11), Word(0xb9b577dd), Word(0xa3fcc7a6), Word(0x72a5aace)))
        == Quad(Word(0x9a016148), Word(0x5ffbe8fc), Word(0x7d24b98b), Word(0x21078b22));
    assert Quarter(Quad(Word(0x3ee7da04), Word(0x156de7ed), Word(0x46fa091e), Word(0x5fa7f1c5)))
        == Quad(Word(0x93859815), Word(0xf7154b8b), Word(0x28c1fcb3), Word(0xb193e7a3));
    assert Quarter(Quad(Word(0x37c31203), Word(0x9046ecaa), Word(0x5117e9b5), Word(0xda563e0a)))
        == Quad(Word(0x4915e6cc), Word(0xdc33c122), Word(0xc4b38f9d), Word(0xb2f49389));
    hide Quarter, Diagonals;
    DiagonalsOf(Half9());
  }

  lemma Columns10()
    ensures Columns(State9()) == Half10()
  {
    assert Quarter(Quad(Word(0xb6b87de6), Word(0xdc33c122), Word(0x28c1fcb3), Word(0x21078b22)))
        == Quad(Word(0x8a07ff15), Word(0x913768fe), Word(0x0a39aedc), Word(0x2d4cfe3e));
    assert Quarter(Quad(Word(0x9a016148), Word(0x98e18fa3), Word(0xc4b38f9d), Word(0xb193e7a3)))
        == Quad(Word(0x0cadc51c), Word(0x442a0c0c), Word(0xc1428029), Word(0xe5466d1b));
    assert Quarter(Quad(Word(0x93859815), Word(0x5ffbe8fc), Word(0x83e2f5d7), Word(0xb2f49389)))
        == Quad(Word(0x017c8da9), Word(0x598fe3bb), Word(0x7b48135f), Word(0xe4ccdc13));
    assert Quarter(Quad(Word(0x4915e6cc), Word(0xf7154b8b), Word(0x7d24b98b), Word(0x6cde6026)))
        == Quad(Word(0x4afbe5df), Word(0x47d18828), Word(0x5a5f1098), Word(0x8ac92a18));
    hide Quarter, Columns;
    ColumnsOf(State9());
  }

  lemma Diagonals10()
    ensures Diagonals(Half10()) == State10()
  {
    assert Quarter(Quad(Word(0x8a07ff15), Word(0x442a0c0c), Word(0x7b48135f), Word(0x8ac92a18)))
        == Quad(Word(0x837778ab), Word(0xfc62bb2f), Word(0xeabda8fc), Word(0x4e3c50a2));
    assert Quarter(Quad(Word(0x0cadc51c), Word(0x598fe3bb), Word(0x5a5f1098), Word(0x2d4cfe3e)))
        == Quad(Word(0xe238d763), Word(0x8fa018fc), Word(0x82e46ebd), Word(0xd19c12b4));
    assert Quarter(Quad(Word(0x017c8da9), Word(0x47d18828), Word(0x0a39aedc), Word(0xe5466d1b)))
        == Quad(Word(0xa67ae21e), Word(0x3f5ec7b7), Word(0x335271c2), Word(0xb04e16de));
    assert Quarter(Quad(Word(0x4afbe5df), Word(0x913768fe), Word(0xc1428029), Word(0xe4ccdc13)))
        == Quad(Word(0x5950bb2f), Word(0xc4f2d0c7), Word(0xf29489f3), Word(0x9e83d0cb));
    hide Quarter, Diagonals;
    DiagonalsOf(Half10());
  }

  lemma TenRounds()
    ensures Rounds(State0(), 10) == State10()
  {
    hide Columns, Diagonals;
    Columns1(); Diagonals1();
    assert Rounds(State0(), 1) == State1();
    Columns2(); Diagonals2();
    assert Rounds(State0(), 2) == State2();
    Columns3(); Diagonals3();
    assert Rounds(State0(), 3) == State3();
    Columns4(); Diagonals4();
    assert Rounds(State0(), 4) == State4();
    Columns5(); Diagonals5();
    assert Rounds(State0(), 5) == State5();
    Columns6(); Diagonals6();
    assert Rounds(State0(), 6) == State6();
    Columns7(); Diagonals7();
    assert Rounds(State0(), 7) == State7();
    Columns8(); Diagonals8();
    assert Rounds(State0(), 8) == State8();
    Columns9(); Diagonals9();
    assert Rounds(State0(), 9) == State9();
    Columns10(); Diagonals10();
    assert Rounds(State0(), 10) == State10();
  }

  lemma InitialState()
    ensures Initial(Key(), Nonce(), Word(1)) == State0()
  {
  }

  function Summed(): State
  {
      [Word(0xe4e7f110), Word(0x15593bd1), Word(0x1fdd0f50), Word(0xc47120a3),
       Word(0xc7f4d1c7), Word(0x0368c033), Word(0x9aaa2204), Word(0x4e6cd4c3),
       Word(0x466482d2), Word(0x09aa9f07), Word(0x05d7c214), Word(0xa2028bd9),
       Word(0xd19c12b5), Word(0xb94e16de), Word(0xe883d0cb), Word(0x4e3c50a2)]
  }

  lemma SummedIs()
    ensures AddState(State10(), State0()) == Summed()
  {
    var z, w := AddState(State10(), State0()), Summed();
    forall i | 0 <= i < 16 ensures z[i] == w[i] {}
  }

  function Row0(): (b: seq<byte>)
    ensures |b| == 16
  {
    [0x10, 0xf1, 0xe7, 0xe4, 0xd1, 0x3b, 0x59, 0x15, 0x50, 0x0f, 0xdd, 0x1f, 0xa3, 0x20, 0x71, 0xc4]
  }

  lemma Row0Is(j: nat)
    requires j < 16
    ensures ByteAt(Summed()[0 + j / 4], j % 4) == Row0()[j]
  {
    match j
    case 0 => assert ByteAt(Word(0xe4e7f110), 0) == 0x10;
    case 1 => assert ByteAt(Word(0xe4e7f110), 1) == 0xf1;
    case 2 => assert ByteAt(Word(0xe4e7f110), 2) == 0xe7;
    case 3 => assert ByteAt(Word(0xe4e7f110), 3) == 0xe4;
    case 4 => assert ByteAt(Word(0x15593bd1), 0) == 0xd1;
    case 5 => assert ByteAt(Word(0x15593bd1), 1) == 0x3b;
    case 6 => assert ByteAt(Word(0x15593bd1), 2) == 0x59;
    case 7 => assert ByteAt(Word(0x15593bd1), 3) == 0x15;
    case 8 => assert ByteAt(Word(0x1fdd0f50), 0) == 0x50;
    case 9 => assert ByteAt(Word(0x1fdd0f50), 1) == 0x0f;
    case 10 => assert ByteAt(Word(0x1fdd0f50), 2) == 0xdd;
    case 11 => assert ByteAt(Word(0x1fdd0f50), 3) == 0x1f;
    case 12 => assert ByteAt(Word(0xc47120a3), 0) == 0xa3;
    case 13 => assert ByteAt(Word(0xc47120a3), 1) == 0x20;
    case 14 => assert ByteAt(Word(0xc47120a3), 2) == 0x71;
    case 15 => assert ByteAt(Word(0xc47120a3), 3) == 0xc4;
  }

  function Row1(): (b: seq<byte>)
    ensures |b| == 16
  {
    [0xc7, 0xd1, 0xf4, 0xc7, 0x33, 0xc0, 0x68, 0x03, 0x04, 0x22, 0xaa, 0x9a, 0xc3, 0xd4, 0x6c, 0x4e]
  }

  lemma Row1Is(j: nat)
    requires j < 16
    ensures ByteAt(Summed()[4 + j / 4], j % 4) == Row1()[j]
  {
    match j
    case 0 => assert ByteAt(Word(0xc7f4d1c7), 0) == 0xc7;
    case 1 => assert ByteAt(Word(0xc7f4d1c7), 1) == 0xd1;
    case 2 => assert ByteAt(Word(0xc7f4d1c7), 2) == 0xf4;
    case 3 => assert ByteAt(Word(0xc7f4d1c7), 3) == 0xc7;
    case 4 => assert ByteAt(Word(0x0368c033), 0) == 0x33;
    case 5 => assert ByteAt(Word(0x0368c033), 1) == 0xc0;
    case 6 => assert ByteAt(Word(0x0368c033), 2) == 0x68;
    case 7 => assert ByteAt(Word(0x0368c033), 3) == 0x03;
    case 8 => assert ByteAt(Word(0x9aaa2204), 0) == 0x04;
    case 9 => assert ByteAt(Word(0x9aaa2204), 1) == 0x22;
    case 10 => assert ByteAt(Word(0x9aaa2204), 2) == 0xaa;
    case 11 => assert ByteAt(Word(0x9aaa2204), 3) == 0x9a;
    case 12 => assert ByteAt(Word(0x4e6cd4c3), 0) == 0xc3;
    case 13 => assert ByteAt(Word(0x4e6cd4c3), 1) == 0xd4;
    case 14 => assert ByteAt(Word(0x4e6cd4c3), 2) == 0x6c;
    case 15 => assert ByteAt(Word(0x4e6cd4c3), 3) == 0x4e;
  }

  function Row2(): (b: seq<byte>)
    ensures |b| == 16
  {
    [0xd2, 0x82, 0x64, 0x46, 0x07, 0x9f, 0xaa, 0x09, 0x14, 0xc2, 0xd7, 0x05, 0xd9, 0x8b, 0x02, 0xa2]
  }

  lemma Row2Is(j: nat)
    requires j < 16
    ensures ByteAt(Summed()[8 + j / 4], j % 4) == Row2()[j]
  {
    match j
    case 0 => assert ByteAt(Word(0x466482d2), 0) == 0xd2;
    case 1 => assert ByteAt(Word(0x466482d2), 1) == 0x82;
    case 2 => assert ByteAt(Word(0x466482d2), 2) == 0x64;
    case 3 => assert ByteAt(Word(0x466482d2), 3) == 0x46;
    case 4 => assert ByteAt(Word(0x09aa9f07), 0) == 0x07;
    case 5 => assert ByteAt(Word(0x09aa9f07), 1) == 0x9f;
    case 6 => assert ByteAt(Word(0x09aa9f07), 2) == 0xaa;
    case 7 => assert ByteAt(Word(0x09aa9f07), 3) == 0x09;
    case 8 => assert ByteAt(Word(0x05d7c214), 0) == 0x14;
    case 9 => assert ByteAt(Word(0x05d7c214), 1) == 0xc2;
    case 10 => assert ByteAt(Word(0x05d7c214), 2) == 0xd7;
    case 11 => assert ByteAt(Word(0x05d7c214), 3) == 0x05;
    case 12 => assert ByteAt(Word(0xa2028bd9), 0) == 0xd9;
    case 13 => assert ByteAt(Word(0xa2028bd9), 1) == 0x8b;
    case 14 => assert ByteAt(Word(0xa2028bd9), 2) == 0x02;
    case 15 => assert ByteAt(Word(0xa2028bd9), 3) == 0xa2;
  }

  function Row3(): (b: seq<byte>)
    ensures |b| == 16
  {
    [0xb5, 0x12, 0x9c, 0xd1, 0xde, 0x16, 0x4e, 0xb9, 0xcb, 0xd0, 0x83, 0xe8, 0xa2, 0x50, 0x3c, 0x4e]
  }

  lemma Row3Is(j: nat)
    requires j < 16
    ensures ByteAt(Summed()[12 + j / 4], j % 4) == Row3()[j]
  {
    match j
    case 0 => assert ByteAt(Word(0xd19c12b5), 0) == 0xb5;
    case 1 => assert ByteAt(Word(0xd19c12b5), 1) == 0x12;
    case 2 => assert ByteAt(Word(0xd19c12b5), 2) == 0x9c;
    case 3 => assert ByteAt(Word(0xd19c12b5), 3) == 0xd1;
    case 4 => assert ByteAt(Word(0xb94e16de), 0) == 0xde;
    case 5 => assert ByteAt(Word(0xb94e16de), 1) == 0x16;
    case 6 => assert ByteAt(Word(0xb94e16de), 2) == 0x4e;
    case 7 => assert ByteAt(Word(0xb94e16de), 3) == 0xb9;
    case 8 => assert ByteAt(Word(0xe883d0cb), 0) == 0xcb;
    case 9 => assert ByteAt(Word(0xe883d0cb), 1) == 0xd0;
    case 10 => assert ByteAt(Word(0xe883d0cb), 2) == 0x83;
    case 11 => assert ByteAt(Word(0xe883d0cb), 3) == 0xe8;
    case 12 => assert ByteAt(Word(0x4e3c50a2), 0) == 0xa2;
    case 13 => assert ByteAt(Word(0x4e3c50a2), 1) == 0x50;
    case 14 => assert ByteAt(Word(0x4e3c50a2), 2) == 0x3c;
    case 15 => assert ByteAt(Word(0x4e3c50a2), 3) == 0x4e;
  }

  function Block1(): (b: seq<byte>)
    ensures |b| == 64
  {
    Row0() + Row1() + Row2() + Row3()
  }

  lemma SerialIs()
    ensures Serial(Summed()) == Block1()
  {
    hide ByteAt, Serial, Summed, Row0, Row1, Row2, Row3;
    var t, w := Summed(), Block1();
    forall j | 0 <= j < 64 ensures Serial(t)[j] == w[j] {
      SerialAt(t, j / 4, j % 4);
      assert j == 4 * (j / 4) + j % 4;
      if j < 16 {
        Row0Is(j);
      } else if j < 32 {
        Row1Is(j - 16);
      } else if j < 48 {
        Row2Is(j - 32);
      } else {
        Row3Is(j - 48);
      }
    }
  }

  /** The 64 bytes printed in section 2.3.2 */
  lemma BlockVector()
    ensures KeyBlock(Initial(Key(), Nonce(), Word(1))) == Block1()
  {
    hide Initial, Rounds, AddState, Serial;
    InitialState();
    TenRounds();
    SummedIs();
    SerialIs();
  }
}
