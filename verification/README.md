# Verified models of the streaming engines

The Moonlight client carries several small engines that have no user interface and no sockets in them: an erasure coder, a
packet compressor, a reliable transport, a bitstream codec, a blocking queue and a batching input thread. This project
models them in Dafny and proves what they are for. The folder belongs beside the repository; `dafny verify dfyconfig.toml`
checks all of it.

**Reed–Solomon erasure coder** (`moonlight-common-c/reedsolomon/rs.c`). GF(2^8) is defined from scratch, as carry-less
multiplication modulo x^8+x^4+x^3+x^2+1 (`Xor`, `GaloisField`); the tables are proved to represent it (`GfTables`).
`LinearAlgebra` says what an in-place Gauss–Jordan step preserves: the half-exchanged matrix and the original relate the same
pairs of vectors. `MatrixInversion` proves the in-place inverter with its pivoting, identity-row shortcut and column swaps,
`Cauchy` and `ErasureCode` the nonsingularity of everything decode inverts, `ReedSolomon`, `ErasedOrder`, `Reconstruction` and
`ErasureRecovery` the coder, up to the theorem that every tolerable loss is repaired.

**Range coder with adaptive contexts** (`moonlight-common-c/enet/compress.c`). `RangeCoder` is the carry-less 32-bit interval
arithmetic, `PpmModel` the abstract statistics, `SymbolPool`, `SymbolTree`, `PpmPool`, `PpmLayout`, `PpmVisit` the pool of
symbols that represents them. A pool represents a model for *some* placement of the symbols, so the two sides may place them
differently; visits to different contexts commute, so the decoder may count the lowest context first and patch the others
later (`PpmChain`, `PpmDecoder`). `CompressThenDecompress` is the round trip; `PpmCounts` says what the contexts contain in terms
of the message alone, so that the code itself is fixed and not only that it can be read back.

**Reliable transport** (`moonlight-common-c/enet`). Commands have a true number, of which only 16 bits are sent. `EnetWindows`
says what the window arithmetic sees of true numbers, `EnetMessages` how packets are split, `EnetSender`, `EnetReceiver` and
`EnetOrder` what the two ends do, `EnetDelivery` that they deliver exactly once and in order over a network that loses, repeats
and reorders, `EnetProgress` which messages can get through at all, `EnetRetries` when a
retry is taken for a new message, `EnetOwnRuns`, `EnetStuck` and `EnetLoss` what comes of that, `EnetCounters` that the 16-bit
window counters suffice, `EnetChannel` that the step-by-step code does just this.
`EnetTransit` says how much is sent and what waits, `EnetRefusals` what is refused. `EnetPeers`, `EnetHost` and `EnetBandwidth` are
the accounts of peers and the division of bandwidth, `EnetConnections` when a peer is connected and what the application hears of
it, `EnetList` the rings behind the queues.

**H.264 bitstream codec** (`h264bitstream`). `NalBytes` is emulation prevention (sections 7.3.1 and 7.4.1.1 of ITU-T H.264),
`BitCodes` and `BitStream` bit fields and Exp-Golomb codes (section 9.1), `SpsSyntax`, `Sps`, `SpsWriter` and `SpsReader` the
sequence parameter set with VUI and HRD (section 7.3.2.1.1 and Annex E.1), `ZeroRuns` and `SpsRuns` how much packing can lengthen
such a set, `NalUnit` the whole unit and the change the player makes to it, `LongSet` a set that this change fails for;
`Spelling`, `SpsLiterals` and `FullSets` compare the coded form with literal bits.

**Blocking queue and mouse batching** (`moonlight-common-c/src`). `BlockingQueue` is the linked chain on the heap, `QueueRuns`
the threads sharing it, `QueueAnswers` what they are told; `MouseMotion` cuts motion into 16-bit packets, `MouseRuns` is the input thread among the threads that
submit motion.

Methods that change state are proved equal to functions on the state they represent; the theorems about runs are about those
functions. Where the code does not keep what its comments or its callers expect, the project proves when exactly it does:

- the sort of lost blocks is no general sort (`ErasedOrder.SortedExactly`);
- four thirds of the payload are not always enough for a packed unit, contrary to the comment at
  `h264bitstream/h264_nal.c:135` (`NalBytes.FourThirdsTooSmall`);
- a unit that ends in 0, 0, 3 is not re-encoded to itself (`NalBytes.Reencode`);
- packing writes one byte behind the size it is given when a pair of bytes meets the last place (`NalBytes.OverrunIs`), but
  never for a well-formed parameter set (`NalUnit.CapIsEnough`);
- a message whose last command lies more than seven windows after the number before it is accepted, is never delivered, and
  blocks its channel; every other message can be delivered (`EnetProgress.AllGetThrough`);
- a message that is not compact, whose commands reach beyond the fourth window from the one its first number lies in, can be
  taken for a new one after its delivery, when one of its fragments is sent again (`EnetRetries.RetriesTakenAgain`); a later
  message with the same number is then acknowledged and never delivered (`EnetLoss.LosesAnother`);
- a parameter set that is too long for the room the decoder leaves makes the decoder's offset go back by one
  (`NalUnit.WriteSpsNalu`, `NalUnit.DecoderRoom`, `LongSet.TooLongForDecoder`);
- a host with less bandwidth than limited peers tells them that there is no limit (`EnetBandwidth.NoLimitTold`);
- a queue with two waiting threads can leave one asleep, when items arrive and also when it is told to stop
  (`QueueRuns.WakeupsSafe`, `QueueRuns.StopForgotten`);
- mouse motion is reported as accepted after the input thread has ended, and then never goes out
  (`MouseRuns.AcceptedGoesOut`).

## Model

| member | source | states |
|---|---|---|
| `ErasureRecovery.EncodeLoseReconstruct` | moonlight-common-c/reedsolomon/rs.c:570-639 | erasure recovery end to end: encode, overwrite every marked block with anything, reconstruct; the result is 0 exactly if every group keeps as many parity blocks as it lost data blocks, and then every data block has its old bytes |
| `ErasureRecovery.ReedSolomonReconstruct` | moonlight-common-c/reedsolomon/rs.c:594-639 | -1 exactly if some group is beyond repair; every other group whose surviving blocks agree with an original is repaired to it, parity blocks and hopeless groups are left alone |
| `ErasureRecovery.ReconstructGroup` | moonlight-common-c/reedsolomon/rs.c:609-631 | one group: repaired if and only if enough parity blocks survive, blocks not marked are never written |
| `ErasureRecovery.Collect` | moonlight-common-c/reedsolomon/rs.c:610-625 | the lost data blocks in ascending order, and as many distinct unmarked parity blocks as there are up to that number |
| `ErasureRecovery.AllRepaired` | moonlight-common-c/reedsolomon/rs.c:594-639 | if all groups were encoded and damaged only where marked, group-wise repair restores all data |
| `Reconstruction.ReedSolomonDecode` | moonlight-common-c/reedsolomon/rs.c:496-561 | given surviving blocks and as many parity blocks as were lost, all of an agreeing original, and the lost indices in any order that the sort sorts: every data block equals the original and surviving ones are not written |
| `Reconstruction.InvertDecode` | moonlight-common-c/reedsolomon/rs.c:524-552 | the gathered generator rows are those of the blocks at hand, and the unchecked inversion always yields their inverse |
| `Reconstruction.TakeKept` | moonlight-common-c/reedsolomon/rs.c:524-538 | generator rows and blocks of the data shards not lost, in order |
| `Reconstruction.TakeParity` | moonlight-common-c/reedsolomon/rs.c:540-547 | rows and blocks of the chosen parity shards behind them |
| `Reconstruction.GatherRows` | moonlight-common-c/reedsolomon/rs.c:554-558 | the in-place moves bring the rows of all lost shards to the front without overwriting one still needed |
| `ErasedOrder.SortErased` | moonlight-common-c/reedsolomon/rs.c:504-522 | a permutation of any list; of distinct entries, those up to the first cut come out in order, the rest as it was |
| `ErasedOrder.SortedExactly` | moonlight-common-c/reedsolomon/rs.c:504-522 | the sort sorts exactly if what follows the first cut was ascending already |
| `ErasedOrder.NotAGeneralSort` | moonlight-common-c/reedsolomon/rs.c:504-522 | 0, 2, 1 is left unsorted |
| `ErasedOrder.AscendingKept` | moonlight-common-c/reedsolomon/rs.c:504-522 | an ascending list, as the caller passes, is left alone |
| `ErasedOrder.SortLost` | moonlight-common-c/reedsolomon/rs.c:504-522 | a list that it sorts becomes the ascending list of its entries |
| `ErasedOrder.FirstCut` | moonlight-common-c/reedsolomon/rs.c:504-522 | the shortest non-empty start all of whose entries are below the rest |
| `ErasureCode.ParitySubmatrix` | moonlight-common-c/reedsolomon/rs.c:435-438 | every square submatrix of the parity rows is nonsingular |
| `ErasureCode.DecodeNotSingular` | moonlight-common-c/reedsolomon/rs.c:524-552 | kept rows plus as many parity rows as rows lost form a nonsingular matrix |
| `ErasureCode.FirstCoefficient` | moonlight-common-c/reedsolomon/rs.c:554-560 | no first-column coefficient handed to the overwriting product by decode is zero |
| `ErasureCode.DecodeRow` | moonlight-common-c/reedsolomon/rs.c:552-560 | the row of the inverse for a lost shard, applied to the blocks at hand, gives that shard |
| `ErasureCode.ParityRow` | moonlight-common-c/reedsolomon/rs.c:435-438 | entries inverse[(ps + i) ^ j] |
| `ErasureCode.CoefficientIs` | moonlight-common-c/reedsolomon/rs.c:435-438 | a coefficient is the only factor that the exclusive or of ps + i and j turns into one |
| `ErasureCode.FourAndTwo` | moonlight-common-c/reedsolomon/rs.c:435-438 | four data and two parity shards: 142, 244, 71, 167 and 244, 142, 167, 71 |
| `ReedSolomon.ParityFirstNonzero` | moonlight-common-c/reedsolomon/rs.c:364-378 | no first-column coefficient used by encode is zero |
| `Cauchy.Independent` | moonlight-common-c/reedsolomon/rs.c:435-438 | a square Cauchy matrix over distinct, disjoint points has only the zero vector in its kernel |
| `ReedSolomon.ReedSolomonEncode` | moonlight-common-c/reedsolomon/rs.c:570-584 | every parity block is the product of the parity row with its group; data blocks unchanged |
| `ReedSolomon.CodeSomeShards` | moonlight-common-c/reedsolomon/rs.c:364-378 | each output is the sum of coefficient times input; an output whose first coefficient is zero keeps its old bytes as a summand |
| `ReedSolomon.MulInto` | moonlight-common-c/reedsolomon/rs.c:108-118 | c times src over dst, but nothing is cleared when c is 0 |
| `ReedSolomon.ReedSolomonNew` | moonlight-common-c/reedsolomon/rs.c:385-472 | fails exactly for out-of-range shard numbers; otherwise identity rows over Cauchy rows, by way of an inversion and a product |
| `ReedSolomon.FillParity` | moonlight-common-c/reedsolomon/rs.c:435-438 | lower rows are the parity rows, upper rows kept |
| `ReedSolomon.TimesInverseOfIdentity` | moonlight-common-c/reedsolomon/rs.c:410-433 | the product with the inverse of the upper square leaves the identity rows as they are |
| `ReedSolomon.Multiply` | moonlight-common-c/reedsolomon/rs.c:121-142 | matrix product, row by row |
| `ReedSolomon.SubMatrix` | moonlight-common-c/reedsolomon/rs.c:349-361 | the rows from rmin to rmax |
| `MatrixInversion.InvertMat` | moonlight-common-c/reedsolomon/rs.c:224-344 | for every k x k matrix: 1 exactly if it is singular, else 0 and the two-sided inverse in place |
| `MatrixInversion.FindPivot` | moonlight-common-c/reedsolomon/rs.c:250-279 | a non-zero entry in an unused row and column, or none exists |
| `MatrixInversion.SwapRows` | moonlight-common-c/reedsolomon/rs.c:288-292 | two rows exchanged in the flat array |
| `MatrixInversion.ScalePivotRow` | moonlight-common-c/reedsolomon/rs.c:295-309 | the pivot row divided by its pivot, whose place first receives 1 |
| `MatrixInversion.ClearColumn` | moonlight-common-c/reedsolomon/rs.c:310-327 | all other rows cleared in the pivot column, also when the identity-row shortcut skips the loop |
| `MatrixInversion.Eliminate` | moonlight-common-c/reedsolomon/rs.c:281-328 | one pivot step: swap, scale, clear |
| `MatrixInversion.Unscramble` | moonlight-common-c/reedsolomon/rs.c:329-340 | undoing the recorded swaps on the columns, last first, yields the inverse |
| `LinearAlgebra.RepresentsPivot` | moonlight-common-c/reedsolomon/rs.c:281-328 | a pivot step keeps the relation between the matrix at work and the original |
| `LinearAlgebra.StuckIsSingular` | moonlight-common-c/reedsolomon/rs.c:259-279 | when no pivot is left to find, the original matrix is singular |
| `LinearAlgebra.RepresentsColumnSwap` | moonlight-common-c/reedsolomon/rs.c:329-340 | a final column swap keeps that relation |
| `LinearAlgebra.InverseNotSingular` | moonlight-common-c/reedsolomon/rs.c:224-344 | a matrix with an inverse is not singular |
| `FlatMatrix.AddMul` | moonlight-common-c/reedsolomon/rs.c:96-106 | adds c times one stretch to another, and touches nothing else |
| `GfTables.ReedSolomonInit` | moonlight-common-c/reedsolomon/rs.c:380-383 | exponent, logarithm, inverse and product tables represent GF(2^8) modulo x^8+x^4+x^3+x^2+1 |
| `GfTables.GenerateGf` | moonlight-common-c/reedsolomon/rs.c:157-216 | exp[i] = x^i for both copies, log its inverse, inverse[a] the multiplicative inverse |
| `GfTables.InitMulTable` | moonlight-common-c/reedsolomon/rs.c:144-152 | the product table is field multiplication, including the zero row and column |
| `GfTables.Inverses` | moonlight-common-c/reedsolomon/rs.c:207-215 | inverse[a] = exp[255 - log a] is the inverse of a |
| `GfTables.Modnn` | moonlight-common-c/reedsolomon/rs.c:88-94 | x mod 255, and the loop ends |
| `GaloisField.MulComm` | moonlight-common-c/reedsolomon/rs.c:144-216 | field multiplication is commutative |
| `GaloisField.MulAssoc` | moonlight-common-c/reedsolomon/rs.c:144-216 | and associative |
| `GaloisField.MulAdd` | moonlight-common-c/reedsolomon/rs.c:144-216 | and distributes over exclusive or |
| `GaloisField.MulInv` | moonlight-common-c/reedsolomon/rs.c:207-215 | every non-zero element times its inverse is 1 |
| `GaloisField.Order` | moonlight-common-c/reedsolomon/rs.c:157-216 | x has order exactly 255: the reducing polynomial is primitive |
| `GaloisField.PowInjective` | moonlight-common-c/reedsolomon/rs.c:157-216 | the powers of x below 255 are distinct |
| `GaloisField.PowSurjective` | moonlight-common-c/reedsolomon/rs.c:157-216 | and reach every non-zero element |
| `GaloisField.LogPow` | moonlight-common-c/reedsolomon/rs.c:157-216 | the logarithm undoes the power |
| `PpmDecoder.CompressThenDecompress` | moonlight-common-c/enet/compress.c:246-342 | compression round trip, across pool resets: if compress returns n > 0, decompressing those bytes gives the concatenated input and stops there, or 0 if there is no room; n > 0 exactly if there is input and the code fits |
| `PpmEncoder.RangeCoderCompress` | moonlight-common-c/enet/compress.c:246-342 | the output is the code of the concatenated input if it fits, and the result is 0 otherwise |
| `PpmDecoder.RangeCoderDecompress` | moonlight-common-c/enet/compress.c:498-627 | on the code of a message: the message and its length, or 0 if the output is too small |
| `PpmDecoder.EmptyMessage` | moonlight-common-c/enet/compress.c:246-342 | only the empty message has an empty code |
| `PpmCounts.TwoByteContexts` | moonlight-common-c/enet/compress.c:284-318 | after any message of up to 126 bytes: in the context of two bytes the count of a byte is 2 times the number of places at which it follows them, escapes are 5 times the number of bytes that do, and the total is their sum |
| `PpmCounts.OneByteContexts` | moonlight-common-c/enet/compress.c:284-318 | in the context of one byte only the places count at which the byte has not followed the two bytes before already |
| `PpmCounts.RootContext` | moonlight-common-c/enet/compress.c:320-332 | in the root, after up to 84 bytes, 3 times the places at which it has not followed the byte before, with one escape and 256 more in the total |
| `PpmCounts.SeenAllReflects` | moonlight-common-c/enet/compress.c:284-342 | the invariant behind these: history, pool and all contexts, byte by byte |
| `PpmCounts.ComesToCounted` | moonlight-common-c/enet/compress.c:284-318 | the walk from longer to shorter contexts comes to a context exactly if the byte has not followed the longer ones |
| `PpmCounts.SubHalved` | moonlight-common-c/enet/compress.c:309-316 | a context below the root is halved exactly if the count was above 251 or the total passes 65280, with all values before and after |
| `PpmCounts.RootHalved` | moonlight-common-c/enet/compress.c:329-331 | the root is halved exactly if the count, without its minimum, was above 249 or the total passes 65280 |
| `PpmCounts.PoolCleared` | moonlight-common-c/enet/compress.c:333-338 | the model starts anew exactly when 4094 symbols are in use |
| `PpmCounts.ThreeSteps` | moonlight-common-c/enet/compress.c:284-342 | the byte 97 three times: under 98, count 1 of 257; 98, 4 of 260; 5, 2 of 7 |
| `PpmCounts.ThreeBytes` | moonlight-common-c/enet/compress.c:246-342 | and its code, the bytes 62, 01, 4C, A3 |
| `PpmDecoder.DecodeByte` | moonlight-common-c/enet/compress.c:520-624 | the next byte of the message, or the end exactly when all bytes are out |
| `PpmDecoder.FindByte` | moonlight-common-c/enet/compress.c:529-596 | down the chain of contexts the byte is found in the context the encoder found it in |
| `PpmDecoder.DecodeSubcontext` | moonlight-common-c/enet/compress.c:529-568 | a context below the root: byte found exactly if it is counted there; otherwise an escape or nothing is read and the pool is unchanged |
| `PpmDecoder.DecodeAtRoot` | moonlight-common-c/enet/compress.c:570-596 | the root: byte or end of message; a byte never seen is created with the value the code implies |
| `PpmDecoder.PatchContexts` | moonlight-common-c/enet/compress.c:598-615 | counting the byte in the contexts above afterwards leaves the same model as the encoder, with the chain of links complete |
| `PpmDecoder.WalkAfterVisit` | moonlight-common-c/enet/compress.c:598-615 | visits of contexts commute: lowest-first decoding and highest-first encoding give one model |
| `PpmDecoder.CloseChain` | moonlight-common-c/enet/compress.c:615-615 | the last open link is set to the symbol found first |
| `PpmDecoder.ReadEscape` | moonlight-common-c/enet/compress.c:576-580 | past the end the code value stays at the low end of the interval, so that an escape is read at the root |
| `PpmEncoder.EncodeByte` | moonlight-common-c/enet/compress.c:286-329 | counts the byte along the chain, emits exactly the steps of the model, reports a full output |
| `PpmEncoder.EncodeSubcontext` | moonlight-common-c/enet/compress.c:286-316 | one context: coded steps, new counts, link of the symbol above |
| `PpmEncoder.EncodeAtRoot` | moonlight-common-c/enet/compress.c:318-329 | the root: coded step, new counts, last link |
| `PpmEncoder.CompressByte` | moonlight-common-c/enet/compress.c:275-336 | one byte of input, then the next prediction and the pool reset |
| `PpmChain.LinkChain` | moonlight-common-c/enet/compress.c:294-295 | the symbol just counted becomes the parent of the one above it, or the prediction |
| `PpmChain.NextPrediction` | moonlight-common-c/enet/compress.c:331-336 | the prediction is the context of the last two bytes; a full pool is cleared to a fresh root |
| `PpmVisit.VisitSub` | moonlight-common-c/enet/compress.c:293-314 | counting in a context below the root: cumulative count and count of the byte before, pool represents the model after |
| `PpmVisit.VisitRoot` | moonlight-common-c/enet/compress.c:318-329 | the same for the root |
| `PpmVisit.DecodeSub` | moonlight-common-c/enet/compress.c:558-567 | decoding in a context below the root finds the byte the code value selects, with the same effect as encoding it |
| `PpmVisit.DecodeRoot` | moonlight-common-c/enet/compress.c:588-596 | the same for the root |
| `PpmLayout.VisitRepresents` | moonlight-common-c/enet/compress.c:159-199 | a visit keeps the representation of all contexts by disjoint trees in one pool, for any placement of the symbols |
| `PpmLayout.LinkRepresents` | moonlight-common-c/enet/compress.c:294-295 | setting a parent field settles one pending link and harms nothing |
| `SymbolTree.ContextEncode` | moonlight-common-c/enet/compress.c:159-199 | the tree walk returns the counts of the smaller bytes and of the byte itself, adds to counts and left sums, or creates the byte as a leaf |
| `SymbolTree.ContextDecode` | moonlight-common-c/enet/compress.c:373-445 | the walk by code value arrives at the byte it selects, with the same tree afterwards |
| `SymbolTree.DecodeCompare` | moonlight-common-c/enet/compress.c:385-400 | comparing the code with the boundaries of a node compares the bytes |
| `SymbolTree.SymbolRescale` | moonlight-common-c/enet/compress.c:90-105 | recursive halving: every count of the subtree halved upwards, left sums recomputed, the new sum returned |
| `SymbolTree.CreateRoot` | moonlight-common-c/enet/compress.c:164-168 | the first symbol of a context |
| `SymbolTree.CreateLeaf` | moonlight-common-c/enet/compress.c:68-80 | a new leaf beside a node |
| `PpmPool.ContextRescale` | moonlight-common-c/enet/compress.c:107-112 | total = escapes + 256 minimum + counts again after halving |
| `PpmPool.FinishSub` | moonlight-common-c/enet/compress.c:301-314 | escapes and total of a context below the root after a byte, rescaled in time |
| `PpmPool.FinishRoot` | moonlight-common-c/enet/compress.c:327-329 | total of the root after a byte |
| `PpmModel.SubUpdatedOk` | moonlight-common-c/enet/compress.c:301-314 | in a context below the root: total is escapes plus counts, at most 65535, counts at most 255, escapes zero exactly if empty |
| `PpmModel.RootUpdatedOk` | moonlight-common-c/enet/compress.c:327-329 | in the root: total is escapes plus 256 plus counts, within the same bounds |
| `PpmModel.RescaledOk` | moonlight-common-c/enet/compress.c:107-112 | rescaling brings an overfull context back within bounds |
| `PpmModel.VisitedOk` | moonlight-common-c/enet/compress.c:286-329 | every step coded is a proper part of its total |
| `PpmModel.VisitsCommute` | moonlight-common-c/enet/compress.c:598-615 | counting a byte in two contexts can be done in either order |
| `PpmModel.StepsAreOk` | moonlight-common-c/enet/compress.c:246-342 | all steps of every message are proper |
| `RangeCoder.EncodeStep` | moonlight-common-c/enet/compress.c:121-137 | narrowing and renormalising emits exactly the settled top bytes, or reports a full output |
| `RangeCoder.DecodeStep` | moonlight-common-c/enet/compress.c:354-371 | the decoder narrows alike and shifts in as many bytes as the encoder emitted |
| `RangeCoder.Flush` | moonlight-common-c/enet/compress.c:139-146 | the final bytes, without trailing zeros |
| `RangeCoder.Seed` | moonlight-common-c/enet/compress.c:344-350 | the first four bytes, missing ones read as zero |
| `RangeCoder.Trim` | moonlight-common-c/enet/compress.c:126-132 | the two tests of the renormalisation loop |
| `RangeCoder.XorOfEnds` | moonlight-common-c/enet/compress.c:128-128 | the exclusive-or test tells whether the ends differ in their top byte |
| `RangeCoder.NarrowedProper` | moonlight-common-c/enet/compress.c:121-125 | low + range never passes 2^32, and range / total is positive |
| `RangeCoder.RenormalisedSettled` | moonlight-common-c/enet/compress.c:126-137 | renormalisation ends with range at least 2^16 and ends that differ, so no carry reaches an emitted byte |
| `RangeCoder.ShiftTrimmed` | moonlight-common-c/enet/compress.c:131-135 | a short straddling interval is cut at the next multiple of 2^24 and loses nothing below |
| `RangeCoder.NarrowedHolds` | moonlight-common-c/enet/compress.c:352-358 | the quotient of the code value lies in the coded part |
| `RangeCoder.CodedHolds` | moonlight-common-c/enet/compress.c:498-627 | while steps remain, the code value lies in the current interval |
| `EnetDelivery.ExactlyOnceInOrder` | moonlight-common-c/enet/peer.c:636-1013 | in every run over a network that loses, repeats and reorders, with messages of any length that can be sent, the packets dispatched are a prefix of those submitted, across wrap-around |
| `EnetDelivery.EventOk` | moonlight-common-c/enet/peer.c:636-1013 | every event keeps the invariant: the list stands for messages, nothing undelivered is forgotten, nothing missing is acknowledged |
| `EnetDelivery.RunOk` | moonlight-common-c/enet/peer.c:636-1013 | and so does every run |
| `EnetDelivery.SevenWindows` | moonlight-common-c/enet/protocol.c:1454-1466 | in every reachable state the unacknowledged commands lie in the seven windows that end with the newest |
| `EnetDelivery.WithinReach` | moonlight-common-c/enet/protocol.c:1454-1466 | for messages of any length the newest command sent is at most seven windows ahead of the receiver |
| `EnetDelivery.OldIsNotTakenForNew` | moonlight-common-c/enet/peer.c:861-872 | a copy of a command already dispatched changes nothing |
| `EnetDelivery.AcknowledgedIsThere` | moonlight-common-c/enet/peer.c:605-634 | an acknowledged command is one the receiver has, not one turned down as too far ahead |
| `EnetProgress.AllGetThrough` | moonlight-common-c/enet/peer.c:636-1013 | some run submits just these messages and delivers them all, exactly if every one fits: its number of commands plus the place in its window of the number before it is less than eight windows |
| `EnetProgress.NextGetsThrough` | moonlight-common-c/enet/peer.c:861-872 | in a reachable state whose retries are recent, some continuation dispatches more exactly if the next message fits; one that does not fit blocks the channel |
| `EnetProgress.DispatchedFit` | moonlight-common-c/enet/peer.c:605-634 | in every run every message dispatched fits, so nothing from the first misfit on ever arrives |
| `EnetProgress.DeliverNext` | moonlight-common-c/enet/protocol.c:1412-1601 | the continuation: what is missing arrives, what is old is acknowledged, what is new is sent |
| `EnetProgress.SurelyFits` | moonlight-common-c/enet/peer.c:121-197 | seven windows of fragments always fit, eight never do, though enet_peer_send itself stops only at 1048576 fragments or the limit on the size of packets |
| `EnetProgress.BlocksFreshChannel` | moonlight-common-c/enet/peer.c:113-135 | at the default MTU a packet of 28.6 megabytes, which the default limit of 32 admits, makes 32768 fragments; on a fresh channel it is never delivered, and every packet of fewer fragments can be |
| `EnetProgress.RetriesRecent` | moonlight-common-c/enet/protocol.c:1348-1409 | if all messages are compact, that is if the place in its window of the first number plus the number of commands is at most four windows, everything the sender may still send is recent |
| `EnetProgress.NeverStuck` | moonlight-common-c/enet/peer.c:636-1013 | then in every reachable state everything submitted can still be delivered |
| `EnetRetries.RetriesTakenAgain` | moonlight-common-c/enet/protocol.c:567-640 | for a message at any place of a stream that can be delivered: in some run one of its fragments, still unacknowledged, is taken for a new one after the message was dispatched, exactly if (outgoing + 1) % 4096 + fragments > 16384 |
| `EnetRetries.NotTakenAgain` | moonlight-common-c/enet/peer.c:861-872 | of a compact message no arrival of an unacknowledged command changes the receiver once the message is dispatched, in no run |
| `EnetRetries.GoTenOn` | moonlight-common-c/enet/protocol.c:1348-1409 | the run: the last acknowledgement of the message stays out while the receiver goes on to the tenth window after its start |
| `EnetRetries.PhantomEntry` | moonlight-common-c/enet/protocol.c:567-612 | ten windows on, from whatever number, a fragment makes the receiver wait once more for the message it has dispatched |
| `EnetOwnRuns.CompactExactlyOnce` | moonlight-common-c/enet/peer.c:636-1013 | exactly once and in order for compact messages, also when every unacknowledged copy may arrive, however old its message |
| `EnetOwnRuns.OwnIsPossible` | moonlight-common-c/enet/protocol.c:1348-1409 | for compact messages these runs are just those in which nothing comes late |
| `EnetOwnRuns.NothingLost` | moonlight-common-c/enet/peer.c:605-634 | as long as nothing comes late, the sender forgets no message that the receiver does not have |
| `EnetLoss.LosesAnother` | moonlight-common-c/enet/peer.c:887-909 | after compact messages, for one that can be delivered: in some run in which only short messages follow, one of them is acknowledged, forgotten and in no continuation delivered, exactly if the message is not compact |
| `EnetLoss.LongLoses` | moonlight-common-c/enet/protocol.c:1412-1601 | the run, a full turn of numbers long |
| `EnetLoss.RetryArrives` | moonlight-common-c/enet/protocol.c:567-640 | a retry ten windows late starts a second entry for the message, and its acknowledgement empties the sender |
| `EnetLoss.ShortDispatched` | moonlight-common-c/enet/peer.c:915-952 | until the full turn, short messages are dispatched past that entry |
| `EnetLoss.ShortDropped` | moonlight-common-c/enet/peer.c:887-909 | after the full turn, the message with the same number is taken for the entry: no failure is reported, and nothing is queued |
| `EnetStuck.StuckForever` | moonlight-common-c/enet/peer.c:861-1013 | a channel whose next number is borne by an entry that nobody completes stays as it is in every continuation |
| `EnetStuck.NotContinued` | moonlight-common-c/enet/protocol.c:567-640 | no fragment that can still arrive completes that entry |
| `EnetStuck.FrontKept` | moonlight-common-c/enet/peer.c:861-1013 | whatever else arrives is queued behind that entry, in order, and dispatches nothing |
| `EnetWindows.OldTakenForNew` | moonlight-common-c/enet/peer.c:861-872 | an old number passes the window test exactly if it is ten windows old or more |
| `EnetWindows.NewTurnedDown` | moonlight-common-c/enet/peer.c:609-620 | a new number is turned down exactly from seven windows ahead, and then not acknowledged |
| `EnetWindows.AheadDistance` | moonlight-common-c/enet/peer.c:861-872 | the window distance of a number ahead, across wrap-around |
| `EnetWindows.BehindDistance` | moonlight-common-c/enet/peer.c:861-872 | the window distance of a number behind |
| `EnetOrder.ArriveReliable` | moonlight-common-c/enet/protocol.c:447-466 | an unfragmented message arrives: the list still stands for messages, and unless it is turned down unacknowledged it is there |
| `EnetOrder.ArriveFragment` | moonlight-common-c/enet/protocol.c:537-645 | the same for a fragment, in any order and repeated |
| `EnetOrder.AcceptsIs` | moonlight-common-c/enet/peer.c:861-872 | what passes the window test is within reach; what does not is old or at seven windows |
| `EnetOrder.TurnedDown` | moonlight-common-c/enet/peer.c:605-620 | a command turned down is had already, or is not acknowledged |
| `EnetOrder.PlaceIs` | moonlight-common-c/enet/peer.c:876-906 | the place in the list is the place by true number, and an equal number is the same message |
| `EnetOrder.DispatchOk` | moonlight-common-c/enet/peer.c:808-843 | dispatching takes complete messages from the front, in order, and keeps the meaning of the rest |
| `EnetOrder.GotDispatched` | moonlight-common-c/enet/peer.c:808-843 | dispatching loses nothing the receiver has |
| `EnetOrder.CompleteStands` | moonlight-common-c/enet/protocol.c:630-642 | a command with no fragments remaining carries its whole message |
| `EnetReceiver.Complete` | moonlight-common-c/enet/protocol.c:630-642 | a packet with all its parts in place is the message that was split |
| `EnetReceiver.StandsPatched` | moonlight-common-c/enet/protocol.c:630-642 | putting in a fragment keeps fragmentsRemaining = fragmentCount - set bits and the parts already there |
| `EnetReceiver.SetBitsAll` | moonlight-common-c/enet/protocol.c:630-642 | no fragment remains exactly if every bit is set |
| `EnetMessages.PeerSend` | moonlight-common-c/enet/peer.c:107-227 | a packet is refused exactly if the peer is not connected, the channel does not exist, it is longer than the host admits, or it needs more than 1048576 fragments; otherwise its commands are the fragments, consecutively numbered |
| `EnetMessages.SendFragments` | moonlight-common-c/enet/peer.c:158-196 | the splitting loop |
| `EnetMessages.Tiles` | moonlight-common-c/enet/peer.c:123-197 | the fragments tile the packet without gap, each non-empty and at most the fragment length |
| `EnetSender.WindowOpens` | moonlight-common-c/enet/protocol.c:1454-1466 | a command that may open a new window leaves all unacknowledged ones within seven windows |
| `EnetSender.OpensLater` | moonlight-common-c/enet/protocol.c:1454-1466 | because a window is not opened behind a full one, a sender that keeps pace stays within seven windows of the receiver |
| `EnetSender.FullWindow` | moonlight-common-c/enet/protocol.c:1454-1466 | a window all of whose commands are unacknowledged has a counter of 4096 |
| `EnetSender.SendOk` | moonlight-common-c/enet/protocol.c:1497-1523 | sending keeps counters, used bits, data in transit and the order of retries before new commands |
| `EnetSender.SendSomeOk` | moonlight-common-c/enet/protocol.c:1412-1601 | so does filling a datagram; nothing held is forgotten, and only held commands go out |
| `EnetSender.ExpireOk` | moonlight-common-c/enet/protocol.c:1348-1409 | so do timeouts |
| `EnetSender.AcknowledgeOk` | moonlight-common-c/enet/protocol.c:220-292 | so do acknowledgements, wanted or stray |
| `EnetSender.SameCommand` | moonlight-common-c/enet/protocol.c:220-292 | an acknowledged number means the command it was given to |
| `EnetSender.AcknowledgeHolds` | moonlight-common-c/enet/protocol.c:220-292 | an acknowledgement takes away that command and no other |
| `EnetTransit.SentWithinLimit` | moonlight-common-c/enet/protocol.c:1454-1495 | what goes out are the first commands of the queue; with each of them the data in transit stay within the limit; and sending stops only for want of room or commands, for the window, or because the next length would pass the limit |
| `EnetTransit.TransitBounded` | moonlight-common-c/enet/protocol.c:1470-1476 | in every run with one limit the data in transit, which are those of the unacknowledged sent commands, never pass it |
| `EnetTransit.MustWaitExactly` | moonlight-common-c/enet/protocol.c:1454-1466 | a command waits for its window exactly if it is new, the first of its window, and a command of the seventh window before or all 4096 of the one before are unacknowledged |
| `EnetTransit.ExpireMoves` | moonlight-common-c/enet/protocol.c:1348-1409 | a timeout moves just the expired commands to the front of the queue and leaves just the others, both in their order |
| `EnetRefusals.FragmentRefused` | moonlight-common-c/enet/protocol.c:549-612 | exactly which fragments are refused, by their header, by what waits, or for want of room, and that they change nothing |
| `EnetRefusals.ReliableRefused` | moonlight-common-c/enet/protocol.c:447-466 | exactly which unfragmented commands are refused, and which are dropped without an error |
| `EnetCounters.CountersFit` | moonlight-common-c/enet/protocol.c:1497-1509 | in every run no window counter exceeds the window size, so 16 bits never overflow |
| `EnetCounters.RunOnce` | moonlight-common-c/enet/protocol.c:1497-1523 | in every run no command is held twice |
| `EnetChannel.OutgoingChannel.SetupOutgoingCommand` | moonlight-common-c/enet/peer.c:637-703 | numbers a command and queues it |
| `EnetChannel.OutgoingChannel.SendPacket` | moonlight-common-c/enet/peer.c:107-227 | queues the commands of a packet, or refuses it for the same reasons and leaves the channel alone |
| `EnetChannel.OutgoingChannel.CheckOutgoingCommands` | moonlight-common-c/enet/protocol.c:1412-1601 | sends from the front until a window, the data limit or the room stops it |
| `EnetChannel.OutgoingChannel.MustWait` | moonlight-common-c/enet/protocol.c:1454-1466 | the window test with the bit mask and its wrap-around |
| `EnetChannel.OutgoingChannel.SendFirst` | moonlight-common-c/enet/protocol.c:1497-1523 | counter, bit, attempts and transit of one sent command |
| `EnetChannel.OutgoingChannel.CheckTimeouts` | moonlight-common-c/enet/protocol.c:1348-1409 | expired commands go to the front of the queue in their order |
| `EnetChannel.OutgoingChannel.RemoveSentReliableCommand` | moonlight-common-c/enet/protocol.c:220-292 | looks among sent commands, then among tried queued ones, and uncounts |
| `EnetChannel.OutgoingChannel.FindSentReliableCommand` | moonlight-common-c/enet/protocol.c:195-218 | the first sent command with the number |
| `EnetChannel.IncomingChannel.QueueIncomingCommand` | moonlight-common-c/enet/peer.c:847-1013 | window test, place, duplicate test, insertion, dispatch |
| `EnetChannel.IncomingChannel.Find` | moonlight-common-c/enet/peer.c:876-906 | the backward search over numbers on both sides of the wrap-around |
| `EnetChannel.ListedInOrder` | moonlight-common-c/enet/peer.c:876-906 | a list that stands for messages is in the order the search relies on |
| `EnetChannel.IncomingChannel.DispatchIncomingReliableCommands` | moonlight-common-c/enet/peer.c:808-843 | moves the complete, consecutive front of the list |
| `EnetChannel.IncomingChannel.HandleSendReliable` | moonlight-common-c/enet/protocol.c:447-466 | size test, then queueing |
| `EnetChannel.IncomingChannel.HandleSendFragment` | moonlight-common-c/enet/protocol.c:537-645 | all sanity tests, creation of the packet by the first fragment to come, copying |
| `EnetChannel.IncomingChannel.PutFragment` | moonlight-common-c/enet/protocol.c:630-642 | copies a fragment not seen before, and dispatches when it was the last |
| `EnetChannel.IncomingChannel.QueueAcknowledgement` | moonlight-common-c/enet/peer.c:605-634 | an acknowledgement for everything but numbers in the seventh and eighth window ahead |
| `EnetChannel.IncomingChannel.Receive` | moonlight-common-c/enet/peer.c:230-255 | the first dispatched packet |
| `EnetPeers.AccountsKept` | moonlight-common-c/enet/peer.c:352-374 | in every run connectedPeers and bandwidthLimitedPeers are the true counts, and never fall below zero |
| `EnetPeers.EventKeepsAccounts` | moonlight-common-c/enet/protocol.c:35-57 | every event for one peer keeps them |
| `EnetConnections.ConnectedExactly` | moonlight-common-c/enet/peer.c:537-602 | in every run a peer is connected exactly if, since the last event that parts it, its connect has been reported at once or by a dispatch; it sends nothing more exactly if it was then asked to part while something was unsent; it is pending exactly if it has answered a connect that nothing ended |
| `EnetConnections.ConnectedPeersMove` | moonlight-common-c/enet/peer.c:352-374 | for every event, exactly when the number of connected peers rises, falls, or stays |
| `EnetConnections.StateAfter` | moonlight-common-c/enet/peer.c:537-602 | how each of the states of a connected or parting peer is entered, and which events do not leave it |
| `EnetConnections.WaitingStateAfter` | moonlight-common-c/enet/protocol.c:119-159 | the same for the states before a connect is reported, and for a lost peer |
| `EnetConnections.RatesAfter` | moonlight-common-c/enet/protocol.c:774-787 | the rates of a peer after every event |
| `EnetConnections.RecalculatedAfter` | moonlight-common-c/enet/protocol.c:119-159 | exactly when the bandwidth limits are to be worked out again |
| `EnetConnections.HeardInTurn` | moonlight-common-c/enet/protocol.c:59-159 | in every run the application hears of a connect only of a peer it does not think connected, and of a loss only of one it was told of or asked for; none that it thinks connected is given up silently |
| `EnetHost.Host.PeerOnConnect` | moonlight-common-c/enet/peer.c:352-362 | counts a peer that was not counted |
| `EnetHost.Host.PeerOnDisconnect` | moonlight-common-c/enet/peer.c:364-374 | uncounts a peer that was |
| `EnetHost.Host.ChangePeerState` | moonlight-common-c/enet/protocol.c:35-44 | counts or uncounts, then sets the state |
| `EnetHost.Host.PeerReset` | moonlight-common-c/enet/peer.c:381-444 | uncounts and clears state, rates and epoch |
| `EnetHost.Host.NotifyConnect` | moonlight-common-c/enet/protocol.c:119-134 | connected at once with an event, or succeeded or pending until dispatch |
| `EnetHost.Host.NotifyDisconnect` | moonlight-common-c/enet/protocol.c:136-159 | reset or zombie, by the order of the states |
| `EnetHost.Host.DispatchPeer` | moonlight-common-c/enet/protocol.c:59-90 | connects pending peers and resets zombies |
| `EnetHost.Host.HandleBandwidthLimit` | moonlight-common-c/enet/protocol.c:774-787 | new rates of a counted peer, with the counter following |
| `EnetHost.Host.HandlePeerDisconnect` | moonlight-common-c/enet/protocol.c:821-848 | the transition for every state |
| `EnetHost.Host.PeerDisconnect` | moonlight-common-c/enet/peer.c:537-572 | the transition for every state |
| `EnetHost.Host.PeerDisconnectLater` | moonlight-common-c/enet/peer.c:591-602 | waits while something is unsent |
| `EnetHost.Host.RedistributeIncoming` | moonlight-common-c/enet/host.c:422-456 | the loop ends without underflow in a fair division: exactly the peers that ask for less than the share keep their own rate, and the share uses up the rest to within rounding |
| `EnetHost.Host.Pass` | moonlight-common-c/enet/host.c:436-455 | one pass: no underflow, the share can only grow |
| `EnetHost.Host.TellPeers` | moonlight-common-c/enet/host.c:458-474 | each connected peer is told its own rate or the share |
| `EnetBandwidth.SumFits` | moonlight-common-c/enet/host.c:422-474 | the limits told add up to at most the host limit |
| `EnetBandwidth.NoLimitTold` | moonlight-common-c/enet/host.c:433-434 | the share is 0, which peers take for no limit, exactly if the host has fewer bytes than limited peers |
| `EnetBandwidth.WhoIsToldNoLimit` | moonlight-common-c/enet/host.c:458-474 | a peer is told no limit exactly if it gave none itself or that happens |
| `EnetBandwidth.TwoPeersOneByte` | moonlight-common-c/enet/host.c:433-434 | two sending peers and a host limit of one byte: both are told no limit |
| `EnetList.Insert` | moonlight-common-c/enet/list.c:20-32 | a node put in front of a position of a ring |
| `EnetList.Remove` | moonlight-common-c/enet/list.c:34-41 | a member taken out, its own links kept |
| `EnetList.Move` | moonlight-common-c/enet/list.c:43-59 | a run of members taken from one ring into another, both rings whole afterwards |
| `EnetList.Size` | moonlight-common-c/enet/list.c:61-73 | the number of members |
| `NalUnit.WriteThenRead` | h264bitstream/h264_stream.c:1039-1123 | SPS round trip through VUI, HRD, trailing bits and emulation prevention, for every well-formed set, exactly if its payload fits into three quarters of the size; the unit lies within the size and is free of forbidden sequences |
| `NalUnit.CapIsEnough` | h264bitstream/h264_stream.c:1054-1057 | for every set that can be written and whose id is in the table, if the payload is within the three-quarter cap then the packed unit is within the size, and nothing is written behind it |
| `NalUnit.PayloadRuns` | h264bitstream/h264_stream.c:1128-1229 | the runs of zero bits in a coded parameter set: only the timing, the aspect ratio and the end of the HRD have long ones, and together they gain at most one byte |
| `SpsRuns.ElementsRuns` | h264bitstream/h264_stream.c:1128-1229 | a bound on the runs of zero bits through all syntax elements of a set |
| `ZeroRuns.PackedInFourThirds` | h264bitstream/h264_nal.c:146-180 | a payload whose runs of zero bits gain little is packed in four thirds of its length, rounded up, and so is every beginning of it |
| `LongSet.TooLongForDecoder` | viddec.cpp:267-267 | a Main profile set with 254 picture order offsets: its unit of 104 bytes is changed in nothing and yet refused |
| `LongSet.ManyOffsetsUnit` | h264bitstream/h264_nal.c:146-180 | the payload of that set has 104 bytes, and packing leaves it as it is |
| `NalUnit.PatchUnit` | viddec.cpp:249-270 | reading, setting the two fields and writing again yields the unit of exactly the changed set, within the size, or -1 exactly if its payload is longer than three quarters of the size |
| `NalUnit.WriteSpsNalu` | viddec.cpp:249-270 | start code and patched unit behind what is there, with the new offset; if the writer refuses, its -1 is added to the offset |
| `NalUnit.DecoderRoom` | viddec.cpp:267-267 | with the room of 32 bytes a patched payload of up to 93 bytes is always taken; one as long as the old unit exactly up to 96 |
| `NalUnit.PatchedLength` | viddec.cpp:259-261 | the changed set takes at most one byte more |
| `NalUnit.PatchedFields` | viddec.cpp:259-261 | field by field: one reference frame, one frame of buffering where it is coded, and nothing else changed |
| `NalUnit.PatchedWellFormed` | viddec.cpp:259-261 | the change keeps a set well-formed |
| `NalUnit.WriteNalUnit` | h264bitstream/h264_stream.c:1039-1123 | the packed payload, or -1 exactly if payload or packed form is too long |
| `NalUnit.ReadNalUnit` | h264bitstream/h264_stream.c:152-236 | a unit holding a well-formed set is read completely, with header and set; a unit with forbidden sequences or of another type gives -1 |
| `NalUnit.WriteTrailingBits` | h264bitstream/h264_stream.c:1626-1634 | stop bit and zeros up to the byte end |
| `SpsWriter.WriteSeqParameterSet` | h264bitstream/h264_stream.c:1128-1229 | exactly the elements of the set, in order, at any bit offset |
| `SpsWriter.WriteVui` | h264bitstream/h264_stream.c:1267-1338 | the elements of the VUI |
| `SpsWriter.WriteHrd` | h264bitstream/h264_stream.c:1342-1359 | the elements of the HRD |
| `SpsLiterals.PlainBits` | h264bitstream/h264_stream.c:1187-1213 | the bits of a Baseline set of any width and height, with literal bits before, between and after |
| `SpsLiterals.PlainUnit` | h264bitstream/h264_stream.c:1039-1123 | the unit of 1280 times 720 points: 67 42 00 1F DA 01 40 16 E4 |
| `SpsLiterals.FirstBytes` | h264bitstream/h264_stream.c:1138-1147 | the first four bytes of every set: header, profile, constraint flags and level |
| `SpsLiterals.FirstCodes` | h264bitstream/bs.h:261-335 | the codes of 0, 1, 2 and 3, and of 0, 1, -1, 2 and -2 |
| `SpsLiterals.HighProfiles` | h264bitstream/h264_stream.c:1151-1152 | chroma and depths are coded for the profiles 100, 110, 122 and 144, and for no others |
| `FullSets.FullBits` | h264bitstream/h264_stream.c:1128-1359 | a High set with everything, with fields that differ from each other, bit by bit |
| `FullSets.OtherBits` | h264bitstream/h264_stream.c:1128-1359 | a High 10 set that takes the other branches, bit by bit |
| `SpsReader.ReadSeqParameterSet` | h264bitstream/h264_stream.c:241-342 | where the elements of a set with defaulted absent fields lie ahead, that set is read and exactly its elements consumed |
| `SpsReader.ReadVui` | h264bitstream/h264_stream.c:380-451 | the same for the VUI and the HRD shared by its two uses |
| `SpsReader.ReadHrd` | h264bitstream/h264_stream.c:455-472 | the same for the HRD |
| `Sps.WellFormedWritable` | h264bitstream/h264_stream.c:1128-1229 | a well-formed set can be written |
| `NalBytes.UnpackPacked` | h264bitstream/h264_nal.c:146-248 | unpacking undoes packing for every payload and reads all of it |
| `NalBytes.Reencode` | h264bitstream/h264_nal.c:146-248 | packing an accepted unit unpacked gives it back exactly if it does not end in 0, 0, 3 |
| `NalBytes.ZeroWordLost` | h264bitstream/h264_nal.c:146-248 | 0, 0, 3 comes back as 0, 0 |
| `NalBytes.PackedClean` | h264bitstream/h264_nal.c:146-180 | no 0, 0 followed by 0, 1 or 2 in a packed payload |
| `NalBytes.PackedLength` | h264bitstream/h264_nal.c:146-180 | at most n + (n - 1) / 2 bytes for n bytes |
| `NalBytes.PackedZeros` | h264bitstream/h264_nal.c:146-180 | zeros reach that bound |
| `NalBytes.FourThirdsTooSmall` | h264bitstream/h264_nal.c:133-142 | the documented bound of four thirds holds for all payloads of n bytes exactly if n is neither 9 nor 11 or more |
| `NalBytes.RbspToNal` | h264bitstream/h264_nal.c:146-180 | the loop writes the packed payload, or fails when it does not fit; it writes only within the size, and one byte behind it exactly if the size is overrun |
| `NalBytes.OverrunIs` | h264bitstream/h264_nal.c:154-175 | the size is overrun exactly if the packed beginnings of the payload step over it |
| `NalBytes.OverrunResult` | h264bitstream/h264_nal.c:154-175 | a successful result is longer than the size exactly if it was overrun |
| `NalBytes.NineZeros` | h264bitstream/h264_nal.c:133-142 | nine zeros and the documented size 12: accepted, with 13 bytes |
| `NalBytes.TenZeros` | h264bitstream/h264_nal.c:154-175 | ten zeros and that size: refused after the overrun |
| `NalBytes.CapPreventsOverrun` | h264bitstream/h264_stream.c:1054-1057 | the three-quarter cap of the writer rules out an overrun for all payloads of n bytes exactly if n is neither 9 nor 11 or more |
| `NalBytes.NalToRbsp` | h264bitstream/h264_nal.c:195-248 | the loop writes the unpacked payload and counts what it read; fails exactly on forbidden sequences and lack of room |
| `BitStream.Bs.ReadU1` | h264bitstream/bs.h:124-138 | one bit, zero past the end |
| `BitStream.Bs.ReadU` | h264bitstream/bs.h:158-167 | the number the next n bits form |
| `BitStream.Bs.ReadU8` | h264bitstream/bs.h:180-191 | the byte fast path agrees with the bit loop |
| `BitStream.Bs.ReadUe` | h264bitstream/bs.h:193-205 | an Exp-Golomb code ahead is read as its value and exactly consumed |
| `BitStream.Bs.ReadSe` | h264bitstream/bs.h:207-220 | the same for signed codes |
| `BitStream.Bs.WriteU1` | h264bitstream/bs.h:222-236 | one bit changed, all other bits kept |
| `BitStream.Bs.WriteU` | h264bitstream/bs.h:238-245 | the low n bits of v, all other bits kept |
| `BitStream.Bs.WriteU8` | h264bitstream/bs.h:249-260 | the byte fast path agrees with the bit loop |
| `BitStream.Bs.WriteUe` | h264bitstream/bs.h:262-317 | the Exp-Golomb code of v, with the table-driven length, for v up to 65534 |
| `BitStream.Bs.WriteSe` | h264bitstream/bs.h:319-329 | the code of the mapped signed value |
| `BitStream.UeRest` | h264bitstream/bs.h:193-205 | the part after the leading zeros and the one determines the value |
| `BitCodes.LengthIs` | h264bitstream/bs.h:264-312 | the length found by the table is the number of binary digits |
| `QueueRuns.FirstInFirstOut` | moonlight-common-c/src/LinkedBlockingQueue.c:85-249 | in every run accepted items come out once and in order, and the bound is kept |
| `QueueRuns.DrainDeliversAll` | moonlight-common-c/src/LinkedBlockingQueue.c:200-249 | a draining queue delivers all it has before it says stop |
| `QueueRuns.StopMeansEmpty` | moonlight-common-c/src/LinkedBlockingQueue.c:160-249 | a draining queue says stop exactly if every accepted item is out |
| `QueueAnswers.PollAnswers` | moonlight-common-c/src/LinkedBlockingQueue.c:160-198 | after every run, poll gives the earliest accepted item not yet out exactly if there is one and nobody has shut the queue down, and says so exactly otherwise |
| `QueueAnswers.WaitAnswers` | moonlight-common-c/src/LinkedBlockingQueue.c:200-249 | after every run, what a waiting thread is told: a wake-up by the user first, then items, then stop; it sleeps exactly if there is none of these |
| `QueueAnswers.OfferAnswers` | moonlight-common-c/src/LinkedBlockingQueue.c:85-131 | after every run, an item is taken exactly if nobody has said stop and the number of items accepted and not yet out is not the bound |
| `QueueAnswers.WakeToldOnce` | moonlight-common-c/src/LinkedBlockingQueue.c:214-220 | a wake-up is told to one wait only, until the next one |
| `QueueRuns.WakeupsSafe` | moonlight-common-c/src/LinkedBlockingQueue.c:85-131 | over all runs, for every bound, no wake-up is lost exactly if at most one thread waits |
| `QueueRuns.NoLostWakeup` | moonlight-common-c/src/LinkedBlockingQueue.c:85-131 | with one waiter, signalling only on empty to non-empty is enough |
| `QueueRuns.SecondWaiterForgotten` | moonlight-common-c/src/LinkedBlockingQueue.c:85-131 | two waiters, two offers, one signal: a thread sleeps although there is an item |
| `QueueRuns.StopForgotten` | moonlight-common-c/src/LinkedBlockingQueue.c:60-72 | drain or shutdown wakes only one of several waiters; another stays asleep although it should be told to stop |
| `BlockingQueue.LinkedBlockingQueue.OfferQueueItem` | moonlight-common-c/src/LinkedBlockingQueue.c:85-131 | the chain with the entry behind, or the status; the signal exactly on empty to non-empty |
| `BlockingQueue.LinkedBlockingQueue.PollQueueElement` | moonlight-common-c/src/LinkedBlockingQueue.c:160-198 | the first item and the chain without it, or the status |
| `BlockingQueue.LinkedBlockingQueue.PeekQueueElement` | moonlight-common-c/src/LinkedBlockingQueue.c:134-158 | the first item, chain unchanged |
| `BlockingQueue.LinkedBlockingQueue.WaitForQueueElement` | moonlight-common-c/src/LinkedBlockingQueue.c:200-249 | the order of the wait conditions, and the item |
| `BlockingQueue.LinkedBlockingQueue.FlushQueueItems` | moonlight-common-c/src/LinkedBlockingQueue.c:14-36 | an empty queue, and the old chain still linked |
| `BlockingQueue.LinkedBlockingQueue.TakeFirst` | moonlight-common-c/src/LinkedBlockingQueue.c:178-193 | the links after the first entry leaves |
| `BlockingQueue.LinkedBlockingQueue.SignalQueueShutdown` | moonlight-common-c/src/LinkedBlockingQueue.c:60-65 | sets the flag, items kept |
| `BlockingQueue.LinkedBlockingQueue.SignalQueueDrain` | moonlight-common-c/src/LinkedBlockingQueue.c:67-72 | sets the flag, items kept |
| `BlockingQueue.LinkedBlockingQueue.SignalQueueUserWake` | moonlight-common-c/src/LinkedBlockingQueue.c:74-79 | sets the flag, items kept |
| `MouseRuns.MotionConserved` | moonlight-common-c/src/InputStream.c:412-481 | in every interleaving: submitted motion = motion in packets + pending motion, every value fits 16 bits, one holder exactly while dirty, pending motion without holder only after a refused enqueue |
| `MouseRuns.AllMotionGoesOut` | moonlight-common-c/src/InputStream.c:412-481 | the thread left alone with a working network empties the queue, and everything submitted has gone out unless a motion was refused and none followed |
| `MouseRuns.SuccessMeansHolder` | moonlight-common-c/src/InputStream.c:754-814 | a caller is told success exactly if a holder stands for its motion |
| `MouseRuns.RefusedYetSent` | moonlight-common-c/src/InputStream.c:764-808 | a refused motion goes out with the next accepted one |
| `MouseRuns.AcceptedGoesOut` | moonlight-common-c/src/InputStream.c:412-481 | in every reachable state an accepted motion can still go out, with all others, exactly if the input thread has not ended |
| `MouseRuns.EndedForever` | moonlight-common-c/src/InputStream.c:462-465 | a thread that has ended sends nothing more, and dirty stays set |
| `MouseRuns.AcceptedYetNeverSent` | moonlight-common-c/src/InputStream.c:655-657 | a run in which another packet fails to be sent, after which motion is accepted and never goes out |
| `MouseRuns.InputStream.LiSendMouseMoveEvent` | moonlight-common-c/src/InputStream.c:754-814 | result and new shared state of the entry point |
| `MouseRuns.InputStream.QueueHolder` | moonlight-common-c/src/InputStream.c:773-803 | the queueing of a packet holder |
| `MouseMotion.RelativeMouseState.SendPending` | moonlight-common-c/src/InputStream.c:424-471 | the sending loop ends; packets plus what is pending = what was pending plus what arrived; without arrivals just the packets of the delta |
| `MouseMotion.RelativeMouseState.TakePacket` | moonlight-common-c/src/InputStream.c:426-456 | the packet and what is left of the delta |
| `MouseMotion.PacketsAre` | moonlight-common-c/src/InputStream.c:424-472 | a delta goes out in as many packets as its longer axis needs, all but the last saying that more follows, and they add up to it |

## Left out

Reed–Solomon coder:

- The field tables are immutable values once built; the original keeps them in global arrays.
- Allocation failure in `reed_solomon_new`, and the message it prints.
- ReedSolomonEncode, ReedSolomonReconstruct, EncodeLoseReconstruct: the number of blocks is a multiple of the group size, as the
  comment of encode asks (`rs.c:567`). That of reconstruct asks for a multiple of the data blocks (`rs.c:590`), but its code too
  counts whole groups (`rs.c:606`).
- ReedSolomonDecode: lost indices in an order that the sort does not sort; the caller passes them ascending.
- How the video and audio queues choose marks, and the parity override in the audio queue.

Range coder:

- RangeCoderCompress: all input buffers after the first are non-empty; the code reads past an empty one (`compress.c:275-284`).
- RangeCoderDecompress: input that the compressor did not make; its result then depends on the bytes.
- Context exclusion, which the build leaves disabled, and creation and destruction of the coder.
- TwoByteContexts, OneByteContexts, RootContext: messages so short that nothing is halved and the pool is not cleared; what these do
  is stated step by step, by `SubHalved`, `RootHalved` and `PoolCleared`.
- In the encoder, escapes, total and rescaling of a context are brought up to date before its step is coded, with the values
  to be coded taken first; the original codes in between.

Reliable transport:

- Of `enet/include/enet/enet.h` and `protocol.h` only the constants and header sizes that the steps need are here.
- ExactlyOnceInOrder: no copy arrives whose message begins more than nine windows before the newest command, and no
  acknowledgement of a command as old as that; older numbers are ambiguous, as `OldTakenForNew` shows. As long as all messages
  are compact the sender itself sends nothing so old, by `RetriesRecent`, and `CompactExactlyOnce` does without that condition
  for copies of unacknowledged commands. Of other messages it can, by `RetriesTakenAgain`, and then later ones can get lost, by
  `LosesAnother`.
- LosesAnother: the later message is a short one. What becomes of a long one of the same length under the same number, whose
  fragments would be put together with the old fragment, is not stated.
- NextGetsThrough: states in which some retry is no longer recent; there only the half that nothing misfit arrives is stated,
  by `DispatchedFit`.
- HeardInTurn: an acknowledged disconnect is sent only for a peer in the state for it, as `protocol.c:1199-1214` sees to.
- The receiver stays connected; `DISCONNECT_LATER`, in which it drops what arrives, is not part of the runs.
- CheckOutgoingCommands: several channels and the unreliable commands share the send order in the original, merged by queue
  time; here there is one channel with its reliable commands.
- Round-trip times, throttling and the choice of what expires are inputs of the steps.
- Unreliable and unsequenced commands, `totalWaitingData`, the dispatch queue of peers, and data in transit after a disconnect
  empties the queues.
- RedistributeIncoming: no peer already carries the current time as its epoch when the loop starts; such a peer would be
  counted but never served.
- The throttling of outgoing bandwidth (`host.c:329-420`).
- EnetList.Move: within one ring; the code only moves between rings.

H.264 codec:

- WriteUe, WriteSe: values above 65534 need more than 32 bits, which the code shifts out of range (`bs.h:243`, `bs.h:315`).
- ReadUe, ReadSe: the result on bits that no value up to 65534 encodes.
- ReadNalUnit: for a unit that holds no well-formed set, only that the result is -1, or the number of bytes read of an accepted
  unit of the right type; the other types that the original reads give -1 here.
- PatchUnit, WriteSpsNalu: the old unit carries a well-formed set; after a refusal, the bytes behind the start code.
- WriteNalUnit: for a set whose id is 32 or more, which no reader can have stored, the guard against an overrun is required where
  the buffer has no byte to spare.
- ReadTrailingBits: the missing stop bit is not reported, in the original neither.
- RbspToNal: an overrun of a buffer that has just the size, which is undefined in the original, is excluded by its guard.
- Scaling lists, whose storage is a null pointer in the parser; a set that announces one is not well-formed here.
- Sets whose id is 32 or more, or that have more than 256 offsets or 32 schedules: they are not well-formed here. The code has
  room for no more in its tables (`h264bitstream/h264_stream.h:74`, `:130-132`, `:371`), does not check it, and runs past them.
- PPS, slices, SEI, the debug readers, the search for start codes, and the table of parameter sets read so far.

Queue and mouse:

- The condition variable is a count of signals on their way; spurious wake-ups are included.
- Offer, peek and poll by several threads are steps under the lock; memory visibility is not modelled.
- The pending motion is an unbounded integer; the original's 32 bits overflow after two billion counts without a packet.
- The free list of holders, encryption, the delay before batching, and the other kinds of input, of which only the places in the
  queue are kept.
- LiSendMouseMoveEvent: the test of `initialized` is one step with the rest, while the original makes it before locking.
