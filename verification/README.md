# linerate in Dafny

`linerate` is an encrypted UDP data plane: a shard receives datagrams, checks a
replay window, decrypts, re-encrypts under its own sequence number and sends on.
This project models its hand-written cryptography, its replay window and key
schedule, the shard, the GPU kernel, and the arithmetic and text around its
measurements, and proves what they promise. `dafny verify dfyconfig.toml` checks
all of it.

## How it is built

| layer | files | what is established |
|---|---|---|
| GHASH | `Gf128`, `Ghash`, `GhashClmul` | the 4-bit table form and the aggregated carry-less form both equal the bit-by-bit product of NIST SP 800-38D |
| AES-GCM | `Ctr`, `CtrMode`, `Gcm` | the stitched one-pass form equals counter mode plus hash; seal and open are inverse |
| ChaCha20 | `ChaCha`, `Vectors` | the lane-permuted vector form equals the scalar one; the blocks are those of RFC 8439 |
| Poly1305 | `NatBits`, `PolyLimbs`, `PolyLoad`, `PolyFinish`, `Poly1305`, `PolyVector` | 26-bit limbs with delayed carries equal arithmetic modulo 2^130 - 5, without overflow |
| ChaCha20-Poly1305 | `AeadCommon`, `Chap`, `Aead` | seal and open are inverse; what a shard may rely on |
| window and keys | `ReplayWindow`, `KeySchedule` | bitmap against accepted set; two-slot ratchet against the epochs visited |
| shard | `Wire`, `ShardSpec`, `Loopback`, `Unverified`, `Peers`, `Shard`, `SelfTest` | a state machine over arbitrary interleavings, what datagrams that do not verify change, two shards with one secret, and the object that refines the machine |
| GPU | `Gpu` | any order of byte stores equals sequential counter mode |
| analysis | `CostFit`, `CostModel`, `Histogram` | least squares over the reals, quantiles |
| JSON | `Json`, `JsonRoundTrip`, `JsonWriter`, `JsonDocument` | what the writer emits parses back |

The layers meet: `Aead.GcmLawful` and `Aead.ChapLawful` give the shard theorems
for the local ciphers, with the AES block function as a parameter. Code that
works by changing buffers and fields is a class or a method with loops; each is
proved against a function, and the properties are proved of that function.
Machine integers are explicit: 32- and 64-bit newtypes in Poly1305, 32-bit words
in ChaCha20, counters modulo 2^32 and 2^64.

The block cipher, the key derivation and the transport are parameters: any
function from blocks to blocks, any pair of derivation functions that may fail,
any datagrams that fit their slots.

## Where the code differs from its comments

The model follows the code.

- `src/core/proto.cpp:105-108`: the comment points the spare slot at the same key; the code empties it.
- `src/core/proto.cpp:148-156`: a jump over several epochs ratchets once, so it does not reach the state of a schedule that visited them (`KeySchedule.SameChainIff`, `KeySchedule.JumpDiverges`).
- `src/core/worker.cpp:180-187`: the window records a number before the tag is checked, unlike section 3.4.3 of RFC 4303, so the number of a datagram that does not verify is used up (`ShardSpec.RefusedIff`, `Unverified.LastNumberShuts`, `Unverified.ForgedFails`).
- `src/core/simd_crypto.c:873-882`: opening AES-GCM writes the decryption even when the tag does not verify; the shard's plain buffer is modelled with that (`Unverified.GcmSpills`, `Unverified.SpillChanges`, `ShardSpec.IntactIff`).
- `python/lr/model.py:161-163`: the comment says that leaving the covariance out inflates the interval. For positive sizes and coefficients it understates it (`CostModel.CovarianceWidensFit`, `CostModel.CovarianceExample`).

## Model

| member | source | states |
|---|---|---|
| `Gf128.ReductionLaw` | src/core/simd_crypto.c:380-412 | multiplying by the reduction polynomial's tail is the same as shifting 128 places: the law that lets the high half of a product be folded back |
| `Gf128.MulXorLeft` | src/core/simd_crypto.c:369-378 | the field product of section 6.3 of NIST SP 800-38D is linear in its left factor |
| `Gf128.MulXorRight` | src/core/simd_crypto.c:369-378 | and in its right factor |
| `Gf128.MulAssoc` | src/core/simd_crypto.c:420-451 | the bit-by-bit field product is associative, for all three operands; needed to trade powers of H for nested products |
| `Gf128.MulXt` | src/core/simd_crypto.c:260-283 | multiplying after a one-bit shift is shifting the product |
| `Gf128.UnitProducts` | src/core/simd_crypto.c:380-412 | the product of the i-th and the j-th power of x is the (i + j)-th below degree 128, and x^128 is 1 + x + x^2 + x^7: which coefficient each bit is, and which polynomial reduces |
| `Ghash.HashConcat` | src/core/simd_crypto.c:285-296 | GHASH of a whole number of blocks followed by anything continues from the hash of the blocks |
| `GhashTable.WordXt` | src/core/simd_crypto.c:245-248 | the two-word right shift with the 0xe1000000 term is multiplication by x in the field |
| `GhashTable.Last4Derived` | src/core/simd_crypto.c:256-258 | each of the sixteen kLast4 constants is the reduction of its four shifted-out bits |
| `GhashTable.WordXt4` | src/core/simd_crypto.c:270-274 | the four-bit shift with the kLast4 term is multiplication by x^4, for all words |
| `GhashTable.HornerIsProduct` | src/core/simd_crypto.c:260-280 | walking the bits of a block from the far end gives the field product |
| `GhashTable.HornerNibble` | src/core/simd_crypto.c:264-280 | one nibble of that walk is a shift by four places and one table entry |
| `GhashTable.Tables.constructor` | src/core/simd_crypto.c:237-254 | the sixteen table entries are the multiples of H by every four-bit polynomial |
| `GhashTable.Tables.Powers` | src/core/simd_crypto.c:237-249 | entries 8, 4, 2 and 1 are H times 1, x, x^2 and x^3 |
| `GhashTable.Tables.Sums` | src/core/simd_crypto.c:250-254 | the remaining entries are the sums of those four |
| `GhashTable.Tables.BlockStep` | src/core/simd_crypto.c:260-283 | the table-driven step replaces a block by its field product with H, for every block and every H |
| `GhashTable.Update` | src/core/simd_crypto.c:285-297 | the portable pass computes GHASH of any data, the last block zero-padded |
| `GhashClmul.ReduceIsFold` | src/core/simd_crypto.c:383-412 | the shift-and-xor reduction of a 256-bit product is the mathematical folding of its high half |
| `GhashClmul.FinishXor` | src/core/simd_crypto.c:383-412 | the finishing step is linear, so one reduction serves a sum of products |
| `GhashClmul.ProductsFinish` | src/core/simd_crypto.c:369-412 | four carry-less partial products, finished once, give the field product |
| `GhashClmul.GfMulIsProduct` | src/core/simd_crypto.c:414-418 | gf_mul_x86 is the field product of section 6.3 of NIST SP 800-38D |
| `GhashClmul.FourBlocks` | src/core/simd_crypto.c:446-451 | four products with H^4 .. H^1 and one reduction equal four Horner steps |
| `GhashClmul.HashFour` | src/core/simd_crypto.c:440-453 | four aggregated blocks are four GHASH steps |
| `GhashClmul.InitPowers` | src/core/simd_crypto.c:420-429 | the four stored powers are H^1 .. H^4 |
| `GhashClmul.Update` | src/core/simd_crypto.c:431-466 | the aggregated pass computes GHASH for every length, partial tails included |
| `GhashClmul.HashIsPolynomial` | src/core/simd_crypto.c:285-297 | GHASH of n blocks is y H^n plus the k-th block times H^(n - k), summed: a form that does not iterate over the hash |
| `Ctr.XcryptInverse` | src/core/simd_crypto.c:751-765 | counter mode applied twice is the identity, for every length and counter, wrap included |
| `Ctr.XcryptConcat` | src/core/simd_crypto.c:751-765 | whole blocks may be processed first, the 32-bit counter moving on |
| `Ctr.Increment` | src/core/simd_crypto.c:756-760 | the counter bytes are read, incremented modulo 2^32 and written back |
| `Ctr.XcryptAt` | src/core/simd_crypto.c:751-765 | byte k is xored with byte k mod 16 of the block cipher at prefix and counter c + k / 16, modulo 2^32 |
| `Ctr.Be64Value` | src/core/proto.cpp:142-146 | the eight bytes written for a number, read most significant first, are that number |
| `CtrMode.Portable` | src/core/simd_crypto.c:751-765 | the portable loop is GCTR of section 6.5 of NIST SP 800-38D and leaves the right counter, in place or not |
| `CtrMode.X86` | src/core/simd_crypto.c:469-501 | the four-blocks-at-a-time loop computes the same bytes and counter |
| `Gcm.Stitch` | src/core/simd_crypto.c:513-572 | the one-pass form gives the bytes of counter mode, the GHASH of the ciphertext and the final counter, both directions, every length, input and output possibly one buffer |
| `Gcm.StitchFour` | src/core/simd_crypto.c:527-552 | one four-block turn of it |
| `Gcm.StitchTail` | src/core/simd_crypto.c:553-569 | its tail of single and partial blocks |
| `Gcm.HashPadded` | src/core/simd_crypto.c:834-862 | hashing a part with implicit zero padding is hashing the padded part |
| `Gcm.HashInParts` | src/core/simd_crypto.c:834-862 | associated data, ciphertext and lengths hashed in turn are the one GHASH input of section 7.1 of NIST SP 800-38D |
| `Gcm.HashInputIs` | src/core/simd_crypto.c:823-862 | where everything in the GHASH input lies: the data, zeros to a multiple of sixteen, the ciphertext, zeros, then 8 times the length of the data and 8 times that of the ciphertext, read big-endian |
| `Gcm.CounterBlockIs` | src/core/simd_crypto.c:834-862 | a counter block is the nonce and then the big-endian counter |
| `Gcm.SealedBytes` | src/core/simd_crypto.c:834-871 | each byte sealed, by the block cipher alone: text under counters from 2, tag the GHASH under E(0) xored with the cipher at counter 1 |
| `Gcm.Context.constructor` | src/core/simd_crypto.c:793-819 | the context holds E(0), its tables and its powers, and satisfies the invariant the passes rely on |
| `Gcm.Context.Core` | src/core/simd_crypto.c:834-862 | gcm_core encrypts from counter 2 and returns the tag of the associated data and ciphertext, on either path |
| `Gcm.Context.Seal` | src/core/simd_crypto.c:864-871 | the buffer receives exactly the sealed string and nothing past it changes |
| `Gcm.Context.Open` | src/core/simd_crypto.c:873-882 | success exactly when the trailing tag is the recomputed one; the decryption is written either way |
| `Gcm.OpenSeal` | src/core/simd_crypto.c:864-882 | opening what was sealed returns the plaintext, for all nonces, data and texts |
| `Gcm.OpenedWasSealed` | src/core/simd_crypto.c:873-882 | whatever opens is the sealing of what it opened to |
| `AeadCommon.TagsEqual` | src/core/simd_crypto.c:44-48 | the accumulating comparison is equality of the sixteen bytes |
| `ChaCha.QuarterRound` | src/core/simd_crypto.c:907-911 | the in-place quarter round of section 2.1 of RFC 8439 |
| `ChaCha.BlockPortable` | src/core/simd_crypto.c:913-927 | the scalar block function of section 2.3 of RFC 8439 |
| `ChaCha.XorPortable` | src/core/simd_crypto.c:937-950 | the scalar stream, every length and counter |
| `ChaCha.VQuarterIsQuarter` | src/core/simd_crypto.c:1042-1049 | a vector quarter round, with byte shuffles for two of its rotations, is a scalar one in each lane |
| `ChaCha.VDoubleLane` | src/core/simd_crypto.c:1041-1065 | column round, lane rotations, diagonal round, rotations back: a double round of each lane |
| `ChaCha.VRoundsLane` | src/core/simd_crypto.c:1041-1065 | hence any number of them |
| `ChaCha.PermutedBlock` | src/core/simd_crypto.c:1066-1081 | the lane permutes put the bytes of consecutive blocks in order |
| `ChaCha.FourBlocksAvx2` | src/core/simd_crypto.c:1025-1085 | the vector form xors in exactly four consecutive key-stream blocks, counter wrap included |
| `ChaCha.XorAvx2` | src/core/simd_crypto.c:1087-1104 | the vector stream equals the scalar stream for every length, the padded last chunk included |
| `ChaCha.LastChunk` | src/core/simd_crypto.c:1097-1103 | the padded last chunk writes only its own bytes |
| `ChaCha.XorStream` | src/core/simd_crypto.c:1150-1160 | whichever path is taken, the bytes are those of section 2.4 of RFC 8439 |
| `ChaCha.StreamInverse` | src/core/simd_crypto.c:937-950 | the stream applied twice is the identity |
| `ChaCha.StreamConcat` | src/core/simd_crypto.c:1087-1096 | whole blocks may be processed first |
| `ChaCha.StreamAt` | src/core/simd_crypto.c:937-950 | byte k is xored with byte k mod 64 of the block whose counter is k / 64 further on |
| `ChaCha.BumpInitial` | src/core/simd_crypto.c:937-950 | moving a state on adds one to the counter modulo 2^32, key and nonce as they were |
| `Vectors.QuarterVector` | src/core/simd_crypto.c:907-911 | the quarter round gives the four words printed in section 2.1.1 of RFC 8439 |
| `Vectors.RotationsTurn` | src/core/simd_crypto.c:907-911 | each rotation is undone by the shift pair the other way, for every word |
| `Vectors.BlockVector` | src/core/simd_crypto.c:903-935 | the state set up from key, nonce and counter serialises to the 64 bytes printed in section 2.3.2 of RFC 8439: constants, rounds, final addition and byte order |
| `PolyLimbs.Product` | src/core/simd_crypto.c:1192-1216 | the five column sums of a loaded accumulator and a clamped key fit 64 bits and represent the product modulo 2^130 - 5 |
| `PolyLimbs.ProductValue` | src/core/simd_crypto.c:1192-1216 | the column sums represent the product modulo 2^130 - 5 |
| `PolyLimbs.Carry` | src/core/simd_crypto.c:1218-1226 | one delayed carry pass keeps the value modulo 2^130 - 5 and restores the limb bounds |
| `PolyLoad.CutValue` | src/core/simd_crypto.c:1196-1200 | four overlapping loads cut sixteen bytes into limbs of the same value |
| `PolyLoad.MaskedIsClamped` | src/core/simd_crypto.c:1177-1182 | the five masks are the clamping of section 2.5 of RFC 8439 |
| `PolyFinish.FullCarry` | src/core/simd_crypto.c:1258-1265 | the closing carry keeps the value modulo the prime and leaves every limb below 2^26 |
| `PolyFinish.Reduce` | src/core/simd_crypto.c:1267-1277 | the masked selection yields the residue below 2^130 - 5 |
| `PolyFinish.Pack` | src/core/simd_crypto.c:1279-1282 | OR-packing limbs into four words loses nothing |
| `PolyFinish.AddPad` | src/core/simd_crypto.c:1284-1288 | the carried addition of the pad is addition modulo 2^128 |
| `Poly1305.BlockStepValue` | src/core/simd_crypto.c:1195-1228 | one block step is one Horner step modulo the prime |
| `Poly1305.EvalConcat` | src/core/simd_crypto.c:1232-1248 | the polynomial of a concatenation of whole blocks and a rest |
| `Poly1305.FinishValue` | src/core/simd_crypto.c:1258-1294 | the closing arithmetic gives (polynomial mod 2^130 - 5 + s) mod 2^128 |
| `Poly1305.State.constructor` | src/core/simd_crypto.c:1177-1187 | a new state has clamped r, the pad, and an empty message |
| `Poly1305.State.Blocks` | src/core/simd_crypto.c:1189-1230 | the limb loop keeps its bounds and evaluates the polynomial of the padded blocks |
| `Poly1305.State.Update` | src/core/simd_crypto.c:1232-1248 | the state represents everything fed so far; fewer than sixteen bytes stay in the buffer |
| `Poly1305.State.LeftoverIs` | src/core/simd_crypto.c:1232-1248 | what is buffered is exactly the part of the message past its whole blocks: how many bytes, and which |
| `Poly1305.State.Finish` | src/core/simd_crypto.c:1250-1294 | the tag is that of section 2.5 of RFC 8439 for everything fed |
| `Poly1305.MacOfPieces` | src/core/simd_crypto.c:1232-1294 | feeding a message in any pieces, empty ones included, gives its tag |
| `PolyVector.TagVector` | src/core/simd_crypto.c:1177-1294 | the tag of the message of section 2.5.2 of RFC 8439 is the one printed there |
| `Chap.FeedPadded` | src/core/simd_crypto.c:1303-1310 | a part and its padding leave nothing in the buffer |
| `Chap.FeedAll` | src/core/simd_crypto.c:1302-1313 | everything the tag covers is fed, and nothing is left over when the finish begins |
| `Chap.ChapTag` | src/core/simd_crypto.c:1298-1315 | the tag of padded data, padded ciphertext and lengths |
| `Chap.MacInputIs` | src/core/simd_crypto.c:1302-1313 | where everything the tag covers lies: the data, zeros to a multiple of sixteen, the ciphertext, zeros, then the two lengths, read little-endian |
| `Chap.CryptAt` | src/core/simd_crypto.c:1331-1331 | byte k of the text meets byte k mod 64 of the block at counter 1 + k / 64 |
| `Chap.Context.OneTimeKey` | src/core/simd_crypto.c:1329-1330 | the Poly1305 key is the first half of key-stream block 0 |
| `Chap.Context.Seal` | src/core/simd_crypto.c:1326-1334 | the buffer receives exactly the sealed string |
| `Chap.Context.Open` | src/core/simd_crypto.c:1336-1347 | success exactly when the tag is the recomputed one, and nothing is written otherwise |
| `Chap.OpenSeal` | src/core/simd_crypto.c:1326-1347 | opening what was sealed returns the plaintext |
| `Chap.OpenedWasSealed` | src/core/simd_crypto.c:1336-1347 | whatever opens is the sealing of what it opened to |
| `Aead.GcmLawful` | src/core/simd_crypto.c:864-882 | the local AES-256-GCM, for any block function, satisfies the laws and bounds a shard needs |
| `Aead.ChapLawful` | src/core/simd_crypto.c:1326-1347 | so does the local ChaCha20-Poly1305 |
| `Aead.NullLawful` | src/core/aead_factory.cpp:24-44 | so does the null control |
| `Aead.NullSeals` | src/core/aead_factory.cpp:26-35 | the null control copies the text and makes its tag from the nonce and the first four bytes of it again |
| `Aead.PeerOpens` | src/core/proto.cpp:101-156 | a text sealed at quotient q opens at a peer with the same secret at q or q + 1, whatever steady path either took |
| `Peers.PeerSendsOn` | src/core/worker.cpp:120-210 | through the wire: a packet one shard makes at quotient q is opened and sent on by a peer shard at q or q + 1 whenever its window admits the number, and the peer holds the text that was sealed |
| `Peers.PeerTooFar` | src/core/worker.cpp:182-183 | a peer shard at q + 2 to q + 255 counts it as unauthentic |
| `Peers.OpenedIsEmitted` | src/core/worker.cpp:182-208 | a datagram that the cipher of its epoch opens is sent on, if the window admits it |
| `ReplayWindow.AcceptedOnce` | src/core/proto.cpp:57-96 | over every sequence of calls each number is accepted at most once |
| `ReplayWindow.RunGrows` | src/core/proto.cpp:57-96 | the highest number never decreases, and what is accepted stays accepted |
| `ReplayWindow.CallsBalance` | src/core/proto.cpp:62-96 | calls = accepts + duplicates + too old |
| `ReplayWindow.AcceptedAre` | src/core/proto.cpp:62-96 | the accepted set is exactly the numbers with a positive verdict |
| `ReplayWindow.RunCoherent` | src/core/proto.cpp:62-96 | highest() is the maximum of the accepted numbers in every reachable state |
| `ReplayWindow.NoRefusals` | src/core/proto.cpp:62-96 | no call was refused if and only if every verdict is positive |
| `ReplayWindow.RefusalCounts` | src/core/proto.cpp:62-96 | over every run from a new window, too_old() counts the calls at least a width behind the highest number accepted before, duplicates() those nearer whose number was accepted before, and a call is accepted if and only if it is neither; counted over the calls, without the window |
| `ReplayWindow.RisingAccepted` | src/core/proto.cpp:62-96 | numbers that only rise are all accepted |
| `ReplayWindow.ShiftedWordBit` | src/core/proto.cpp:72-83 | a word of the shifted map holds the bits of two old words, both shift forms |
| `ReplayWindow.MovedAhead` | src/core/proto.cpp:64-87 | moving the window ahead keeps bit i set exactly when high - i was accepted |
| `ReplayWindow.Marked` | src/core/proto.cpp:89-95 | so does marking a number inside the window |
| `ReplayWindow.Window.constructor` | src/core/proto.cpp:51-55 | at least 64 bits, rounded up to words, nothing seen |
| `ReplayWindow.Window.Reset` | src/core/proto.cpp:57-60 | back to nothing seen |
| `ReplayWindow.Window.Shift` | src/core/proto.cpp:69-83 | the in-place loops move every bit by the distance, a multiple of 64 included |
| `ReplayWindow.Window.Accept` | src/core/proto.cpp:62-96 | the verdict and the new state are those of the set-based window, for every number |
| `KeySchedule.Reachable` | src/core/proto.cpp:101-156 | in every reachable state slot 0 carries the current epoch and a live slot 1 another |
| `KeySchedule.SameSlot` | src/core/proto.cpp:136-146 | so cipher and salt, looked up in opposite orders, come from one slot |
| `KeySchedule.NoncesDiffer` | src/core/proto.cpp:142-146 | different numbers give different nonces under any salts |
| `KeySchedule.NonceIs` | src/core/proto.cpp:142-146 | a nonce is the four bytes of salt and then the number, read big-endian |
| `KeySchedule.RunIsVisit` | src/core/proto.cpp:111-156 | the whole state is a function of the epochs switched to |
| `KeySchedule.SameChainIff` | src/core/proto.cpp:148-156 | under a derivation that forgets nothing, two chains agree if and only if the same epochs were switched to: a jump is one ratchet |
| `KeySchedule.JumpDiverges` | src/core/proto.cpp:148-156 | a concrete jump after which two schedules at one number disagree |
| `KeySchedule.SteadyState` | src/core/proto.cpp:101-156 | if the quotient stays or rises by one, the whole state depends only on it |
| `KeySchedule.AtSlots` | src/core/proto.cpp:111-134 | what the two slots hold at quotient q, across the 8-bit wrap |
| `KeySchedule.AtMaterial` | src/core/proto.cpp:111-127 | at quotient q slot 0 holds the key and salt derived from the chain under epoch byte q mod 256; a failed derivation gives 32 and 4 zero bytes, an unknown cipher none |
| `KeySchedule.ChainIs` | src/core/proto.cpp:129-134 | the chain starts at the secret and is ratcheted under the byte of each epoch derived, and kept where the derivation fails |
| `KeySchedule.PeerCipher` | src/core/proto.cpp:136-140 | which cipher a schedule at q' has for the epoch byte of q, for all q and q' |
| `KeySchedule.PeerWindow` | src/core/proto.cpp:136-156 | the same cipher and salt at q and q + 1, and none at q + 2 .. q + 255 |
| `KeySchedule.Schedule.constructor` | src/core/proto.cpp:101-109 | epoch 0 in slot 0 and nothing in slot 1 |
| `KeySchedule.Schedule.Ratchet` | src/core/proto.cpp:111-134 | slots move, a new slot is derived, the chain is ratcheted |
| `KeySchedule.Schedule.MaybeRekey` | src/core/proto.cpp:148-156 | one ratchet exactly when the wanted epoch byte differs |
| `KeySchedule.Schedule.ForEpoch` | src/core/proto.cpp:136-140 | the cipher lookup, slot 0 first |
| `KeySchedule.Schedule.Nonce` | src/core/proto.cpp:142-146 | salt and big-endian number, slot 1 first |
| `Wire.DecodeEncode` | include/lr/worker.hpp:40-47 | a header written is read back, whatever follows it |
| `Wire.EncodeDecode` | include/lr/worker.hpp:40-47 | any 24 bytes are written back as they were read |
| `Wire.FieldsAt` | include/lr/worker.hpp:40-47 | which bytes hold which field: magic at 0, kind at 4, epoch at 5, flags at 6, number at 8, timestamp at 16, little-endian |
| `ShardSpec.WellFormedIff` | src/core/worker.cpp:171-175 | a datagram is examined further if and only if it has 40 bytes and its first four, read little-endian, are 0x4C525032 |
| `ShardSpec.MalformedIff` | src/core/worker.cpp:168-175 | any other is skipped with nothing changed, and only such are |
| `ShardSpec.RunConcat` | src/core/worker.cpp:155-217 | runs of steps compose |
| `ShardSpec.StepTally` | src/core/worker.cpp:168-210 | which counter each verdict moves, and by how much |
| `ShardSpec.Accounts` | src/core/worker.cpp:155-217 | over every run: received = packets + auth_fail + replay_drop + dropped in silence, and bytes are those of the packets sent on |
| `ShardSpec.ExactAccounts` | src/core/worker.cpp:168-210 | with a known cipher the silent drops are exactly the datagrams of fewer than 40 bytes or whose first four bytes are not the magic |
| `ShardSpec.NeverUnsealed` | src/core/worker.cpp:193-203 | a sound schedule with a lawful cipher never fails to seal |
| `ShardSpec.NumberTaken` | src/core/worker.cpp:148-203 | a packet made takes one number; a datagram takes one, and rekeys by it, if and only if it is well-formed, admitted and opens |
| `ShardSpec.SealedHeader` | src/core/worker.cpp:193-203 | a sealed packet carries the header given with the current epoch and the number taken |
| `ShardSpec.MadeHeader` | src/core/worker.cpp:120-131 | a packet made has the magic, kind 1, the current epoch, no flags, the number taken and the timestamp |
| `ShardSpec.ForwardedHeader` | src/core/worker.cpp:189-199 | a packet sent on keeps magic, kind, flags and timestamp; its epoch and number are the shard's own |
| `ShardSpec.PatternAt` | src/core/worker.cpp:101-103 | byte i of the plaintext pattern is 31 i + 7 modulo 256 |
| `ShardSpec.OpenedOnce` | src/core/worker.cpp:177-187 | with the window on, no number reaches the cipher twice, over every run of arbitrary datagrams and packets made |
| `ShardSpec.WindowIsRun` | src/core/worker.cpp:177-187 | the window depends on the numbers in the headers of well-formed datagrams alone, whether or not they verify |
| `ShardSpec.RefusedIff` | src/core/worker.cpp:180-180 | a well-formed datagram is refused as a replay if and only if the set-based window over those numbers does not admit its own |
| `ShardSpec.HandlePlain` | src/core/worker.cpp:182-187 | what a datagram leaves in plain: what open wrote, verified or not, over what was there |
| `ShardSpec.StepKeepsIff` | src/core/worker.cpp:182-187 | the payload bytes of plain survive a step if and only if what open writes agrees with them |
| `ShardSpec.RunKeepsIff` | src/core/worker.cpp:120-187 | they survive throughout a run of arbitrary datagrams if and only if every step is harmless in that sense |
| `ShardSpec.IntactIff` | src/core/worker.cpp:120-187 | without rekeying that is a condition on the datagrams and the starting state alone: each would write what agrees with the starting bytes, under the window the headers before it leave |
| `ShardSpec.UnauthenticIff` | src/core/worker.cpp:171-187 | exactly which datagrams count as unauthentic: well formed, admitted, and not opened by the cipher of their epoch, or without one |
| `Unverified.LastNumberShuts` | src/core/worker.cpp:177-187 | after one datagram numbered 2^64 - 1, verified or not, the packets refused are those numbered below 2^64 - 1024 |
| `Unverified.StrayFails` | src/core/worker.cpp:180-183 | a concrete datagram with that number that does not verify: its epoch has no cipher |
| `Unverified.StrayRefusesGenuine` | src/core/worker.cpp:180-187 | a genuine packet that a new shard sends on is refused once that datagram has arrived |
| `Unverified.ForgedFails` | src/core/worker.cpp:180-187 | for either local cipher, a datagram of the current epoch with an altered tag reaches open, fails there, and has that number |
| `Unverified.ForgedShuts` | src/core/worker.cpp:180-187 | and after it every packet numbered below 2^64 - 1024 is refused |
| `Unverified.GcmSpills` | src/core/simd_crypto.c:873-882 | a datagram that fails under the local AES-GCM leaves its decryption in plain, and the next packet made seals those bytes |
| `Unverified.SpillChanges` | src/core/simd_crypto.c:873-882 | a concrete datagram that a new shard refuses by its tag and that changes the first payload byte |
| `Unverified.ChapKeeps` | src/core/simd_crypto.c:1336-1347 | one that fails under ChaCha20-Poly1305 leaves plain as it was |
| `ShardSpec.StaysSound` | src/core/worker.cpp:120-202 | the slot invariant holds in every state a shard reaches |
| `ShardSpec.CounterIs` | src/core/worker.cpp:148-191 | over every run the counter is its start plus the numbers taken, modulo 2^64 |
| `ShardSpec.SealNumbers` | src/core/worker.cpp:140-202 | while the numbers taken have not wrapped, each seal has a number of its own, in order, and that number is in its nonce; datagrams that are not sent on take none |
| `ShardSpec.NoncesUnique` | src/core/worker.cpp:120-202 | no two seals of any interleaving share a nonce until the numbers taken wrap, across rekeys |
| `ShardSpec.OneKey` | src/core/worker.cpp:189-202 | without rekeying every seal of a run of any length is under one key and salt |
| `ShardSpec.NonceRepeatsIff` | src/core/worker.cpp:189-202 | there, two seals share a nonce if and only if they have the same number |
| `Loopback.HandleOwn` | src/core/worker.cpp:168-210 | an own packet is sent on or refused by the window, exactly as the set-based window decides, and plain keeps its bytes |
| `Loopback.PlanIs` | src/core/worker.cpp:140-180 | the numbers of a loop, computed from its hops alone: those delivered rise before they wrap, and the window is that of their low 64 bits |
| `Loopback.StaysKept` | src/core/worker.cpp:120-217 | every loop of any length follows its plan, keeps its pattern, and queues only own packets |
| `Loopback.LoopbackAlways` | src/core/worker.cpp:120-217 | for every in-order, lossy loop of any length: pattern kept, auth_fail = rekeys = 0, bytes = packets x payload, packets + replay_drop = delivered, every packet sent on opens to the pattern; and replay_drop = 0 if and only if the set-based window admits each delivered number modulo 2^64 |
| `Loopback.LoopbackClean` | src/apps/lr_selftest.cpp:215-220 | the promise of the self-test, for every loop that takes at most 2^64 numbers: auth_fail = replay_drop = 0 and bytes = packets x payload |
| `Loopback.WrapRefuses` | src/core/worker.cpp:148-180 | an in-order run past 2^64 numbers in which a fresh packet is refused as a replay |
| `Shard.Shard.constructor` | src/core/worker.cpp:41-104 | payload clamped, every buffer sized for it, the pattern in place; usable exactly when the cipher is known and the sockets its source needs are open |
| `Shard.Shard.ResetStats` | src/core/worker.cpp:111-114 | the counters return to zero and nothing else changes |
| `Shard.Shard.SealInto` | src/core/worker.cpp:120-138 | the next number, a rekey if due, header and sealed text at the given place, nothing outside it written |
| `Shard.Shard.WriteSealed` | src/core/worker.cpp:199-202 | header and sealed text are written, or nothing is to be sent, and plain is not touched |
| `Shard.Shard.OpenInto` | src/core/worker.cpp:186-186 | plain holds what open leaves there, within its size |
| `Shard.Shard.OpenSlot` | src/core/worker.cpp:182-187 | open into plain, within its size for every datagram that fits a slot, then send on |
| `Shard.Shard.ForwardSlot` | src/core/worker.cpp:189-208 | the re-sealed packet fills its send slot and no other before it |
| `Shard.Shard.HandleSlot` | src/core/worker.cpp:168-210 | one turn of the inner loop is one step of the state machine |
| `Shard.Shard.Batch` | src/core/worker.cpp:167-210 | a batch is a run; send slot k holds the k-th packet put out; no more slots filled than datagrams received |
| `Shard.Shard.RecvBatch` | include/lr/transport.hpp:42-45 | any number of datagrams up to the maximum, any bytes, each no longer than its slot |
| `Shard.Shard.Drain` | src/core/worker.cpp:155-217 | any arrivals within the budget: the final state and the packets sent are those of the run, and processed = packets + auth_fail + replay_drop + dropped in silence |
| `Shard.Shard.Preload` | src/core/worker.cpp:140-153 | packets made with the shard's own counter, stopping early only when one cannot be sealed; what the socket took is some of them, in order |
| `SelfTest.StageRun` | src/core/worker.cpp:140-153 | staging is a run of packets made, queued in order |
| `SelfTest.DrainRun` | src/core/worker.cpp:155-217 | draining is a run of the packets that arrive |
| `SelfTest.StagedThenDrained` | src/apps/lr_selftest.cpp:215-220 | for every number of packets and every loss, what arrives in order is all sent on, auth_fail = replay_drop = 0, bytes = packets x payload, and the pattern stays |
| `SelfTest.RoundTrip` | src/apps/lr_selftest.cpp:201-229 | the same on the object: construct, preload, drain, and the counters are as the self-test demands whenever what arrived is part of what was staged, in order |
| `Gpu.GridCovers` | src/cuda/lr_gpu_aead.cu:278-280 | the grid has a thread for every block and fewer than 256 to spare |
| `Gpu.Disjoint` | src/cuda/lr_gpu_aead.cu:153-170 | no two byte stores of a launch go to the same address |
| `Gpu.Covers` | src/cuda/lr_gpu_aead.cu:153-170 | every payload byte has a store |
| `Gpu.InBounds` | src/cuda/lr_gpu_aead.cu:168-170 | every store is inside the batch |
| `Gpu.NonceIndexFits` | src/cuda/lr_gpu_aead.cu:147-158 | every nonce index fits an int if and only if the batch has at most 2^31 nonce bytes |
| `Gpu.GridFits` | src/cuda/lr_gpu_aead.cu:278-280 | the launch's int grid does not overflow if and only if the blocks fit 2^31 - 1 thread blocks |
| `Gpu.IntsFit` | src/cuda/lr_gpu_aead.cu:148-169 | for a payload whose rounding up fits an int, no other int of a thread overflows, its counter does not wrap, and its addresses fit 64 bits |
| `Gpu.ExecAt` | src/cuda/lr_gpu_aead.cu:170-170 | after any stores, a byte holds the value of its one store or what it held before |
| `Gpu.StoredIsSequential` | src/cuda/lr_gpu_aead.cu:156-170 | what a thread stores is what sequential counter mode from nonce and 1 puts there |
| `Gpu.SequentialByte` | src/cuda/lr_gpu_aead.cu:153-170 | byte r of packet p of the sequential result is the input xored with byte r mod 16 of the cipher at the packet's nonce and counter 1 + r / 16 |
| `Gpu.AnyOrder` | src/cuda/lr_gpu_aead.cu:144-171 | every interleaving of all byte stores leaves the packets encrypted one by one, and bytes past the batch untouched |
| `Gpu.Thread` | src/cuda/lr_gpu_aead.cu:144-171 | a thread makes exactly its stores; one past the end makes none |
| `Gpu.Launch` | src/cuda/lr_gpu_aead.cu:278-286 | threads in any order give the sequential result |
| `CostFit.DetZero` | python/lr/model.py:121-129 | det >= 0, and det = 0 exactly when all points with weight share one size |
| `CostFit.NormalEquations` | python/lr/model.py:131-132 | the closed form solves the normal equations |
| `CostFit.Minimises` | python/lr/model.py:118-133 | the closed form is the one minimiser of the weighted squared residuals |
| `CostFit.Recovers` | python/lr/model.py:131-133 | points on a line give back that line |
| `CostFit.RSquared` | python/lr/model.py:155-158 | the residual sum never exceeds the total, so r squared is in [0, 1] |
| `CostFit.ScaledFit` | python/lr/model.py:131-133 | scaling all cycles scales both coefficients |
| `CostFit.CrossoverInvariant` | python/lr/model.py:164-165 | and leaves the crossover, and whether there is one, unchanged |
| `CostFit.RelativeIs` | python/lr/model.py:142-168 | the propagated relative variance is s2 times the weighted squares of a + b x over det a^2 b^2, so it is never clipped |
| `CostFit.CovarianceWidens` | python/lr/model.py:161-167 | for any coefficients the covariance term widens the interval if and only if the weighted size sum, a and b have a positive product |
| `CostModel.UsableShape` | python/lr/model.py:100-109 | the points kept have positive cycles, weights that are not negative, and some weight |
| `CostModel.KeptAre` | python/lr/model.py:100-105 | exactly the points with positive cycles are kept, in order, with weight 1 or the weight given, a negative one taken as 0 |
| `CostModel.UsableAre` | python/lr/model.py:106-109 | those weights are used if any is positive, and all are 1 otherwise |
| `CostModel.FitVerdict` | python/lr/model.py:111-129 | there is no fit exactly with fewer than three points or one size among those with weight, and which of the three reasons is given when |
| `CostModel.FitBest` | python/lr/model.py:131-172 | the fit is the minimiser, its residual variance is not negative, and the crossover solves a = b s |
| `CostModel.FitInterval` | python/lr/model.py:161-169 | the interval of a reported crossover |
| `CostModel.CovarianceWidensFit` | python/lr/model.py:118-168 | for the fit itself: the term widens the interval of a reported crossover if and only if sx (sxx sy - sx sxy) > 0, a condition on the data |
| `CostModel.CovarianceExample` | python/lr/model.py:161-167 | three measurements where leaving the covariance out understates the interval: a = 1/3, b = 3/2, s2 = 1/6, det = 6 |
| `CostModel.NeverSingular` | python/lr/model.py:126-129 | points that all carry weight are never singular |
| `CostModel.SingularExample` | python/lr/model.py:126-129 | sizes that differ and are singular all the same |
| `CostModel.FitFromPoints` | python/lr/model.py:262-297 | the loop selects the cell's points, counts what it drops, and never meets the singular case |
| `CostModel.Half` | python/lr/model.py:283-285 | half the width of the interval, and never less than a billionth |
| `CostModel.Weight` | python/lr/model.py:285-291 | a weight is positive and times the squared half width it is 1 |
| `CostModel.NothingToFit` | python/lr/model.py:314-318 | the denominator vanishes exactly when every abscissa does |
| `CostModel.SerialFractionBest` | python/lr/model.py:300-319 | the clipped fraction is the one in [0, 1] with the least squared error |
| `CostModel.SerialFractionRecovers` | python/lr/model.py:300-319 | a curve that obeys the law with fraction f gives back f |
| `CostModel.SerialFractionDefault` | python/lr/model.py:309-318 | 0 with fewer than two usable points or with nothing but single shards |
| `CostModel.LossIsLawError` | python/lr/model.py:312-319 | what is minimised is the squared error of the law, 1/S against f + (1 - f)/n, over the usable points |
| `JsonRoundTrip.StringBack` | src/core/json.cpp:11-32 | escaping and reading a string give it back, whatever it holds |
| `JsonRoundTrip.NumberBack` | src/core/json.cpp:34-56 | a number as written is read whole |
| `JsonRoundTrip.ValueBack` | src/core/json.cpp:58-102 | a rendered value is read back, whatever follows it |
| `JsonRoundTrip.DocumentBack` | src/core/json.cpp:116-127 | a whole document reads back as its value |
| `JsonWriter.EscapeText` | src/core/json.cpp:11-32 | the escaping loop |
| `JsonWriter.TrimIs` | src/core/json.cpp:47-54 | trimming the text trims the fraction to its shortest non-empty form |
| `JsonWriter.TrimKeepsWorth` | src/core/json.cpp:47-54 | and keeps the value |
| `JsonWriter.PrecisionIs` | src/core/json.cpp:34-46 | the precision asked for is used, brought into 0 to 12 |
| `JsonWriter.NumTextIs` | src/core/json.cpp:34-56 | a finite value is its digits at that precision, trimmed; any other is null |
| `JsonWriter.IntWorth` | src/core/json.cpp:99-99 | an integer is written as a well-formed number of its value |
| `JsonWriter.Writer.Sep` | src/core/json.cpp:58-67 | comma and line break exactly where the state calls for them |
| `JsonWriter.Writer.ObjOpen` | src/core/json.cpp:69-69 | a nested object begins, its first member without a comma |
| `JsonWriter.Writer.ArrOpen` | src/core/json.cpp:70-70 | a nested array begins |
| `JsonWriter.Writer.ObjClose` | src/core/json.cpp:72-79 | the outer level is restored, its next value after a comma |
| `JsonWriter.Writer.ArrClose` | src/core/json.cpp:81-88 | the same for an array |
| `JsonWriter.Writer.Key` | src/core/json.cpp:90-95 | a key, after which the next value gets no separator |
| `JsonWriter.Writer.KeyStrings` | src/core/json.cpp:104-108 | the loop writes one array member |
| `JsonDocument.Write` | src/core/json.cpp:58-102 | calls in tree order append exactly the rendering of the tree |
| `JsonDocument.Document` | src/core/json.cpp:58-127 | for every tree the text produced parses to the same structure, strings and numbers |
| `JsonDocument.MeaningsAre` | src/core/json.cpp:58-102 | the i-th element of an array means what the i-th tree means |
| `JsonDocument.MembersAre` | src/core/json.cpp:58-102 | the i-th member of an object has the i-th key and the meaning of its tree |
| `Histogram.LatencyHist.Add` | src/core/stats.cpp:89-97 | bucket counts are those of the samples so far, none lost |
| `Histogram.LatencyHist.Quantile` | src/core/stats.cpp:99-116 | the cumulative loop stops at the bucket of the target-th smallest sample and reports an outer edge or the root of the product of the bucket's edges |
| `Histogram.TargetIs` | src/core/stats.cpp:102-103 | the target is the least whole number from q n on, and 1 for q = 0 |
| `Histogram.OuterQuantile` | src/core/stats.cpp:108-109 | the outer edges are reported exactly for samples below 100 ns and from 1 s on |
| `Histogram.EdgesRise` | src/core/stats.cpp:73-85 | edges at 24 to a decade from 100 ns rise strictly, as the search needs |
| `Histogram.EdgesEnd` | src/core/stats.cpp:70-85 | the first edge is 100 ns and the last 1 s |
| `Histogram.EdgeRatio` | src/core/stats.cpp:70-72 | neighbouring edges differ by less than eleven per cent |
| `Histogram.QuantileError` | src/core/stats.cpp:70-116 | a reported quantile between the outer edges is within 5.4 per cent of the sample it stands for |
| `Histogram.FirstAreBelow` | src/core/stats.cpp:89-109 | the buckets up to an edge hold exactly the samples below it |
| `Histogram.LocatesSample` | src/core/stats.cpp:99-116 | in any sorted arrangement that sample is between the bucket's edges |
| `Histogram.MidpointError` | src/core/stats.cpp:110-112 | the root of the product lies in the bucket, its square within the ratio of the edges of the square of any sample there |

## Left out

- AES rounds, key expansion and the S-box, on the CPU and on the GPU: the block cipher is a parameter, and agreement with FIPS 197 is a matter of table transcription.
- The ARM and NEON forms of GHASH, counter mode and ChaCha20: they mirror the x86 forms modelled here. `chacha_2blocks_avx2` likewise.
- OpenSSL ciphers, HKDF, X25519 and the handshake: foreign code, or one assumed commutation law.
- What sockets do, io_uring, the control client and the daemon's threads. Reception is any batch that fits; what the socket takes is arbitrary.
- `Generator::emit`: it brings a sequence counter of its own, so nonce claims are about packets made and sent on by one shard.
- The clock, latency recording in `drain`, `ticks_busy` and `syscalls`: timestamps are arbitrary values.
- Timing, constant time and performance.
- Lengths of 2^64 and more: lengths are unbounded naturals, except where the code stores them in 64 bits.
- ShardSpec.NoncesUnique: stated until the numbers taken wrap at 2^64; `ShardSpec.NonceRepeatsIff` says what happens beyond, without rekeying. With rekeying, whether a nonce repeats after the wrap depends on the salts derived.
- Loopback.LoopbackClean: stated while at most 2^64 numbers are taken; `Loopback.LoopbackAlways` has the exact condition for every run.
- ShardSpec.IntactIff: stated without rekeying; with it, which key a datagram meets depends on how many before it were sent on, and `ShardSpec.RunKeepsIff` is stated on the run's own states.
- Gpu.IntsFit: a payload above 2^31 - 16, whose rounding up overflows, is a condition here; the other GPU results are over unbounded integers.
- Histogram.LatencyHist.Quantile: the square root is a parameter and the edges are characterised by their 24th powers, not computed. Bucket counts do not wrap.
- Floating-point rounding, square roots, the t table, the curvature F test, bootstrap intervals and the plain percentile: the fit is over the reals and its variances are compared before the root.
- Infinities and NaN do not occur among reals, so the finiteness filters of the fit are empty.
- printf itself: a double is given by its digits at each precision. JsonWriter.Writer.ValInt takes any integer; the cast of an unsigned 64-bit value to a signed one is the caller's.
- The parser reads `\u` escapes of single code units only; surrogate pairs, which the writer never emits, are refused.
- `kv_nums`, which differs from `kv_strs` only in the value call; `write_file`'s rename.
