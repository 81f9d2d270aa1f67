# Verified models of the manycore software

Dafny models of the synchronisation, communication and computation code that runs on the tiles of
the manycore, and proofs of what that code promises. `dafny verify dfyconfig.toml` checks everything.

## What is modelled

**Protocols** are step machines. A state holds the shared memory words and the program counter of
every tile; each shared load, store or swap is one step; a run is any sequence of steps, so the
theorems hold for every interleaving and any number of rounds. Unless said otherwise a step takes
effect at once (sequential consistency). LR sets a reservation, any store to the word clears it, and
LR.AQ does not return while it is set.

- `McsMutex`: the queue lock built from unconditional swaps, with the slow release that lets usurpers in.
- `PodBarrier`: the sense-reversing 16x8 barrier whose waits do not look at the value that woke them;
  `PodBarrierFailure`: a run in which it fails.
- `RowColBarrier`: the two-level tile-group barrier, C and C++ versions. Remote stores are messages in
  flight, delivered in any order.
- `CounterBarrier`: the counter barrier on the swap lock.
- `TokenQueue`: sender and receiver with wrapping 32-bit counters, and the ring buffer on top. Data
  words are in flight and delivered in any order; the successive values of a counter arrive in order;
  `bsg_commit_stores` waits until nothing is in flight.
- `Pipeline`: the chain of tiles with two buffers each and round numbers as flags.
- `FftTiles`, `TiledMatMul`: the parallel kernels. Between barriers the tiles' loads and stores mix
  freely; a tile leaves a barrier when all have come to it. `TiledMatMulGrid` is the launch of the
  tiled multiply on a grid of tile groups that share C, their steps mixed in any order.

That every run gets somewhere is shown in modules of its own: `RowColProgress`, `PodProgress`,
`CounterProgress`, `TokenQueueProgress`, `PipelineProgress`, `FftProgress` and `GridProgress`, with
`Totals`, and for the lock in `McsMutex` itself. Each bounds the steps of a run that do something, and
says what has been achieved when none is left. Where a tile polls several flags in turn, polling while
they are not all set counts as waiting.

**Sequential code** is imperative Dafny against specification functions: `HwBarrierConfig`, `Fft`
(with `Bits`, `Ring`, `Dft`), `Codec`, `Crc32` (with `CrcTable`), `Dram`, `MatMul`, `Printf`
(with `PrintfText`), `Addressing`, `Quicksort`, `GoViral`. `Arithmetic` and `Common` hold shared facts.

Compile-time constants (thread and tile counts, dimensions, ruche factor, buffer sizes, hash lists)
are parameters. Floating-point values are elements of a commutative ring, values under open
operations, or bit patterns.

## Where the code does less than it seems to promise

- **Pod barrier.** The notify word of column 8 has two writers, the center and the next tile of the
  quad. A tile of column 8 can be woken by its neighbour, finish the round, enter the next one and
  fall asleep before the center's store of the *first* round arrives; the blind wait then takes that
  store for the next round's. `PodBarrierFailure.EarlyReleaseHappens` is such a run, ending in an early
  release. `PodBarrier.NoEarlyRelease` holds for the runs without such a stray wake-up. By
  `PodBarrier.StrayIffUnsafe` and `PodBarrier.CleanIffOnlySafeWakes` these are exactly the runs in
  which no step wakes a tile that could then pass too early; a run with a stray wake-up may still end
  well, if the woken tile is slow.
- **Codec.** Lengths wrap at 2^32. The round trip holds exactly below 2^32 words, and the declared
  lengths add up exactly when their sum does not wrap.
- **Codec, memory safety of decode.** A header whose eta and lam lengths add up to 2^32 or more passes
  every check with as few words as the wrapped sum, and the copying loops then read past their end:
  `Codec.ReadsOutOfBounds` is such an input of two words. `Codec.ReadsOutOfBoundsIff` shows that this
  is the only way; dimensions up to 2^31 cannot cause it.
- **skip_atoi.** It adds the character code of a digit before taking off that of '0', so the int
  overflows from 2^31 - 48 on (`Printf.SkipAtoi`).
- **Strider.** The masked addition carries out of a coordinate field that the group fills completely
  (64 columns or 32 rows); `Addressing.StridesMoveIff` gives the exact condition. The parameters S_X
  and S_Y are described as distances, but the code only looks at whether they are zero and always
  moves by one; the model follows the code.

## Model

| member | source | states |
|---|---|---|
| `McsMutex.MutualExclusion` | software/bsg_manycore_lib/bsg_mcs_mutex.hpp:68-140 | in every run of any number of threads at most one is in its critical section, also with several releasers between swapping null in and swapping their victims back, and no null `next` is ever followed |
| `McsMutex.StepKeepsInv` | software/bsg_manycore_lib/bsg_mcs_mutex.hpp:68-140 | every step keeps the queue nodes in disjoint chains, one of which is headed by the lock holder or by the releaser that still has to hand the lock over; the tail is null exactly when the lock is free |
| `McsMutex.SwapOutStep` | software/bsg_manycore_lib/bsg_mcs_mutex.hpp:115-122 | swapping null in either frees the lock or parks the chain of waiters behind the releaser as its victims |
| `McsMutex.SwapBackStep` | software/bsg_manycore_lib/bsg_mcs_mutex.hpp:124-127 | swapping the victims' tail back keeps the chains apart, whether or not usurpers have queued up meanwhile |
| `McsMutex.SpliceStep` | software/bsg_manycore_lib/bsg_mcs_mutex.hpp:129-139 | the last store of the slow release joins the victims to the end of the usurper's chain, or hands them the lock |
| `McsMutex.NoMissedWakeup` | software/bsg_manycore_lib/bsg_mcs_mutex.hpp:77-84 | a thread asleep in LR.AQ with its reservation set has not been unlocked |
| `McsMutex.NoDeadlock` | software/bsg_manycore_lib/bsg_mcs_mutex.hpp:68-140 | in every reachable state either all threads are outside the lock or some thread inside it can make a step that changes the state |
| `McsMutex.EveryWaiterServed` | software/bsg_manycore_lib/bsg_mcs_mutex.hpp:68-140 | once no thread starts a new acquire, every schedule of steps that do something is bounded by a count computed from the program counters, and when nothing can move all threads are outside and each that was acquiring has been in its critical section |
| `PodBarrier.OffsetIsPacking` | software/spmd/pod_barrier/main.c:27-39 | the 16 columns of a row own different bytes of the row flags, four to a word |
| `PodBarrier.NoEarlyRelease` | software/spmd/pod_barrier/main.c:41-129 | in every run without a stray wake-up, any number of rounds, no tile returns from barrier k before all 128 tiles have entered it, though the wait does not look at what woke it |
| `PodBarrier.StepKeepsInv` | software/spmd/pod_barrier/main.c:41-129 | a step that is not a stray wake-up keeps the invariant: every notification under way or stored carries the sense of the round it belongs to, also in column 8, which the center and the next tile of the quad both write |
| `PodBarrier.StrayIffUnsafe` | software/spmd/pod_barrier/main.c:75-97 | at each step of a run that was clean so far, the step is a stray wake-up (the center's store of round k reaches a tile of column 8 asleep in a later round) exactly if letting it wake its target lets a tile pass the barrier too early |
| `PodBarrier.CleanIffOnlySafeWakes` | software/spmd/pod_barrier/main.c:41-129 | over whole runs: no step is a stray wake-up if and only if no step wakes a tile that could then pass too early |
| `PodBarrier.NeverStuck` | software/spmd/pod_barrier/main.c:41-129 | in every run without a stray wake-up some tile gets on within five steps of its own, by more than a poll: if all 128 tiles are inside the barrier, one of those inside |
| `PodProgress.EveryTileReturns` | software/spmd/pod_barrier/main.c:41-129 | in every run without a stray wake-up each entry of a tile costs at most 29 steps that are not waiting, and when only waiting is left every tile has returned from each of the first n barriers as soon as all tiles have entered those |
| `PodBarrierFailure.EarlyReleaseHappens` | software/spmd/pod_barrier/main.c:41-129 | a concrete run in which tile (8,0) has returned from its second barrier while tile (0,1) and the center are still in their first: without the condition the barrier does release early |
| `RowColBarrier.NoEarlyRelease` | software/bsg_manycore_lib/bsg_tile_group_barrier.hpp:257-314 | for all dimensions and rounds, with stores delivered in any order, no tile leaves round k before all tiles have entered it (C++ and C versions) |
| `RowColBarrier.StepKeepsInv` | software/bsg_manycore_lib/bsg_tile_group_barrier.h:174-203 | every instruction and every delivery keeps, between each tile and the head of its row and between each head and the center, the balance of flags and alerts sent, in flight, set and reset |
| `RowColBarrier.OneStoreOutstanding` | software/bsg_manycore_lib/bsg_tile_group_barrier.hpp:81-109 | each flag and alert word is set or has a store in flight at most once |
| `RowColBarrier.RowResetsEraseNothing` | software/bsg_manycore_lib/bsg_tile_group_barrier.hpp:297-306 | when a row flag or row alert is reset no store to it is in flight and it is set by the round under way, so no later round's store is lost |
| `RowColBarrier.ColResetsEraseNothing` | software/bsg_manycore_lib/bsg_tile_group_barrier.hpp:287-299 | the same for the column's flags and alert |
| `RowColBarrier.NeverStuck` | software/bsg_manycore_lib/bsg_tile_group_barrier.hpp:257-314 | in every reachable state a store is in flight or some tile can go on |
| `RowColProgress.EveryTileReturns` | software/bsg_manycore_lib/bsg_tile_group_barrier.hpp:257-314 | in every run, whatever is polled in vain, each entry of a tile costs at most 6 X + 6 Y + 26 working steps and deliveries, and when only waiting is left every tile has returned from each of the first n barriers as soon as all tiles have entered those |
| `RowColProgress.CanReturn` | software/bsg_manycore_lib/bsg_tile_group_barrier.hpp:257-314 | every run after which all tiles have entered n barriers can be carried on, without a new entry, until all have returned from those |
| `TokenQueue.WrappedTestsAreExact` | software/bsg_manycore_lib/bsg_token_queue.h:71-100 | after any number of wrap-arounds the signed 32-bit tests of sender and receiver decide the comparison of the unbounded counts |
| `TokenQueue.CountsStayInBounds` | software/bsg_manycore_lib/bsg_token_queue.h:104-169 | 0 <= sent - received <= max_els for the true counts; each side's copy only lags; the ints are the counts wrapped |
| `TokenQueue.SenderKeepsOutOfReceiverSlots` | software/spmd/bsg_token_queue/main.c:81-95 | no word the sender is about to store, and none in flight, goes to a slot of a frame sent and not yet released |
| `TokenQueue.FrameReadIsFrameWritten` | software/spmd/bsg_token_queue/main.c:74-135 | the n-th frame read is the n-th frame written, word for word |
| `TokenQueue.RefinesBoundedQueue` | software/bsg_manycore_lib/bsg_token_queue.h:104-169 | the buffer between the two counts is a queue of at most max_els frames: a transfer appends the frames written, a release takes off exactly the frames read, every other step and delivery leaves it alone |
| `TokenQueue.StepKeepsInv` | software/bsg_manycore_lib/bsg_token_queue.h:71-169 | every step and delivery keeps the order of all counters and copies, the slot positions, and for each stored word that it is in the buffer or in flight |
| `TokenQueue.RestingMeansWaiting` | software/bsg_manycore_lib/bsg_token_queue.h:95-150 | when nothing can move, each side has no call under way or waits for room or frames that by the true counts are not there |
| `TokenQueue.NeverBothWait` | software/bsg_manycore_lib/bsg_token_queue.h:95-150 | sender and receiver never wait for each other if together they ask for at most max_els + 1 frames |
| `TokenQueueProgress.EveryCallEnds` | software/bsg_manycore_lib/bsg_token_queue.h:95-169 | in every run a write of depth frames costs at most 2 * depth * words + 8 steps and a read depth * words + 7, deliveries and repeated looks included, and when nothing more can happen each side is done or waits for room or frames that are not there |
| `TokenQueue.WrapIsInt32` | software/bsg_manycore_lib/bsg_token_queue.h:71-100 | the ints are those of 32 bits: within -2^31 and 2^31 - 1 and congruent modulo 2^32 |
| `Pipeline.WaitsNeverSkip` | software/spmd/bsg_chained_core/main.c:79-112 | the equality waits never miss their number: what a tile waits on stays at or below its round, and equals it as soon as the neighbour has come that far |
| `Pipeline.BuffersAreNotOverwritten` | software/spmd/bsg_chained_core/main.c:82-96 | while a tile fills a buffer of the next tile that tile is one round behind and works on the other buffer, and what it reads there is the round it waited for |
| `Pipeline.LastTilePrints` | software/spmd/bsg_chained_core/main.c:98-101 | the last tile prints, for every i, value i with the sum of all earlier ids modulo 2^16 |
| `Pipeline.NeverStuck` | software/spmd/bsg_chained_core/main.c:58-115 | as long as a tile is not done some tile can move |
| `PipelineProgress.EveryRunEnds` | software/spmd/bsg_chained_core/main.c:58-115 | in every run at most tiles * (2 words + 28) * (rounds + 1) steps change anything, and none is left exactly when all tiles are done |
| `PipelineProgress.EveryRunPrints` | software/spmd/bsg_chained_core/main.c:58-115 | so every run that is carried on while it can be ends with the last tile having printed all its words, each with the sum of all earlier ids |
| `Pipeline.DataStepsLeft` | software/spmd/bsg_chained_core/proc.c:32-49 | each tagged copy of a word adds the tile's id to what it read and leaves the next tile's buffers right |
| `Pipeline.StepKeepsInv` | software/spmd/bsg_chained_core/main.c:58-115 | every step of every tile keeps what neighbours know of each other: flags are the last rounds announced, credit is at most two rounds |
| `CounterBarrier.NoEarlyRelease` | software/bsg_manycore_lib/bsg_barrier.h:51-86 | no tile returns from a round before every tile has entered it, over all rounds |
| `CounterBarrier.NoIncrementLost` | software/bsg_manycore_lib/bsg_mutex.h:79-90 | the count is always the number of tiles that counted themselves in since the last reset |
| `CounterBarrier.ResetKeeps` | software/bsg_manycore_lib/bsg_barrier.h:74-78 | the reset happens while all have joined and nobody can count in, and starts the next round with nobody joined |
| `CounterBarrier.AlertKeeps` | software/bsg_manycore_lib/bsg_barrier.h:68-74 | each alert finds the tile's previous alert taken |
| `CounterBarrier.NoSleepOnReadyWord` | software/bsg_manycore_lib/bsg_mutex.h:32-42 | a tile asleep in LR.AQ never sits on a word that already has the value it waits for |
| `CounterBarrier.NeverStuck` | software/bsg_manycore_lib/bsg_barrier.h:51-86 | when all tiles are in the barrier some tile can move |
| `CounterProgress.EveryTileReturns` | software/bsg_manycore_lib/bsg_barrier.h:51-86 | in every run each entry of a tile costs at most 4 n + 16 steps that change anything, and when no tile inside can change anything every tile has returned from each of the first m rounds as soon as all tiles have entered those |
| `HwBarrierConfig.TileWord` | software/bsg_manycore_lib/bsg_hw_barrier_config_init.h:30-91 | the word sends along the row by long links while they do not overshoot, then along the center column, has an input bit exactly for the processor and for the neighbours that exist and send this way, and is the number of the output port in bits 16 and up with 2 to the number of each input port |
| `HwBarrierConfig.ConfigInit` | software/bsg_manycore_lib/bsg_hw_barrier_config_init.h:20-98 | every tile's word is stored in its place and nothing beyond the group is written |
| `HwBarrierConfig.WordOfTile` | software/bsg_manycore_lib/bsg_hw_barrier_config_init.h:28-96 | the word of tile (x, y) is word x + y * tx, and has the value that the tile's coordinates give |
| `HwBarrierConfig.WordIsValue` | software/bsg_manycore_lib/bsg_hw_barrier_config_init.h:30-91 | a word that sends where the tile must and waits for whom it must is that value: no bit of it is open |
| `HwBarrierConfig.KnownSingle` | software/bsg_manycore_lib/bsg_hw_barrier_config_init.h:30-49 | the word of a single tile is 0x70001 |
| `HwBarrierConfig.KnownInRow` | software/bsg_manycore_lib/bsg_hw_barrier_config_init.h:35-81 | the words of four tiles of a 16 by 8 group, one for each way out along a row |
| `HwBarrierConfig.KnownInColumn` | software/bsg_manycore_lib/bsg_hw_barrier_config_init.h:41-91 | the words of three tiles of the center column: sending south, north, and the root |
| `HwBarrierConfig.InputIffNeighbourSends` | software/bsg_manycore_lib/bsg_hw_barrier_config_init.h:61-91 | by the words alone, an input bit is set exactly when the neighbour on that side exists and its word sends towards the tile |
| `HwBarrierConfig.OneRoot` | software/bsg_manycore_lib/bsg_hw_barrier_config_init.h:42-52 | exactly the center tile's word is the root's |
| `HwBarrierConfig.OutputGoesNearer` | software/bsg_manycore_lib/bsg_hw_barrier_config_init.h:35-59 | a tile that is not the center sends to a tile of the group strictly nearer to the center, which waits for it |
| `HwBarrierConfig.EveryTileReachesRoot` | software/bsg_manycore_lib/bsg_hw_barrier_config_init.h:35-59 | from every tile the outputs lead to the center in exactly dx / ruche + dx % ruche + dy hops |
| `HwBarrierConfig.BarrierCompletesIffAllArrived` | software/bsg_manycore_lib/bsg_hw_barrier_config_init.h:20-98 | the AND over the tree is true at the center if and only if every tile of the group has arrived |
| `Fft.Swizzler.Swizzle` | software/spmd/fft/main.c:66-81 | the recursion through the global counter writes the samples below (start, stride) to consecutive places in bit-reversed order and nothing else |
| `Bits.RevInvolution` | software/spmd/fft/main.c:66-81 | bit reversal is its own inverse, so the reordering is a permutation |
| `Fft.OwnerIsUnique` | software/spmd/fft/main.c:94-103 | each place belongs to exactly one butterfly of a stage, and a butterfly touches exactly two places |
| `Fft.FftStage` | software/spmd/fft/main.c:94-126 | a tile does exactly the butterflies whose number is its id modulo the group size, and leaves all other places alone |
| `Dft.Interleave` | software/spmd/fft/main.c:102-119 | a transform of length 2m at entry k is the even transform plus the twiddle factor times the odd one |
| `Dft.ButterflyHigh` | software/spmd/fft/main.c:102-119 | and at entry k + m it is the even transform minus that product |
| `Fft.StageAdvances` | software/spmd/fft/main.c:93-129 | if every block of length n/2 holds the transform of its subsequence before a stage, every block of length n does after it |
| `Fft.Kernel` | software/spmd/fft/main.c:138-155 | reordering and all stages on one tile give the discrete Fourier transform of the input |
| `FftTiles.EveryRunTransforms` | software/spmd/fft/main.c:88-130 | from the reordered input, for any number of tiles and any mixing of their loads and stores between barriers, the finished array is the discrete Fourier transform of the input |
| `FftTiles.NeverStuck` | software/spmd/fft/main.c:88-130 | until all tiles have finished some tile can move |
| `FftProgress.EveryRunEnds` | software/spmd/fft/main.c:88-130 | in every run at most tiles * (2 n + 2) * lg n steps change anything, and none is left exactly when all tiles have finished |
| `FftProgress.EveryRunEndsTransformed` | software/spmd/fft/main.c:88-130 | so every run that is carried on while it can be ends with the transform of the input in the array |
| `FftTiles.StepKeeps` | software/spmd/fft/main.c:93-129 | each load and store leaves every place at its value before or after the stage, according to whether its one owner has stored it |
| `Codec.EncodePayload` | nocbp_verilator/tests/common/gbp_message_payload_codec.hpp:260-323 | the loops over the two vectors compute the encoding, or the first error, that `Codec.EncodesIff` and `Codec.EncodeFails` spell out |
| `Codec.EncodesIff` | nocbp_verilator/tests/common/gbp_message_payload_codec.hpp:260-323 | encoding succeeds if and only if version is 1, bank 4 to 7, slot the bank less 4, the direction that of the slot's parity, dim not 0, the lengths dim and half of dim * (dim + 1) in 32 bits, every word below infinity without its sign and some word not 0; the result has one segment with the words of eta and lam |
| `Codec.EncodeFails` | nocbp_verilator/tests/common/gbp_message_payload_codec.hpp:62-120 | which error each bad field gives, the earlier field first |
| `Codec.DecodePayload` | nocbp_verilator/tests/common/gbp_message_payload_codec.hpp:201-258 | the loops compute the decoding, the first error, or the read out of bounds that `Codec.AcceptedIff`, `Codec.DecodedIs` and the lemmas on errors spell out |
| `Codec.AcceptedIff` | nocbp_verilator/tests/common/gbp_message_payload_codec.hpp:201-235 | a message passes every check if and only if header and lengths are good as for encoding, there is a segment, each segment the 32-bit count reaches has its index, the count and the words it declares, the declared lengths add up in 32 bits, and that many of the carried words are finite and not all zero |
| `Codec.DecodedIs` | nocbp_verilator/tests/common/gbp_message_payload_codec.hpp:237-257 | what is decoded has the fields of the message, the first dim carried words as eta and the next ones as lam |
| `Codec.CarriedAt` | nocbp_verilator/tests/common/gbp_message_payload_codec.hpp:138-156 | the words carried are those of the segments, one after the other, each cut to its declared length |
| `Codec.DecodeFailsEarly` | nocbp_verilator/tests/common/gbp_message_payload_codec.hpp:62-120 | which error each bad header field gives, the earlier field first |
| `Codec.DecodeFailsInSegments` | nocbp_verilator/tests/common/gbp_message_payload_codec.hpp:122-169 | after a good header: no segments, the first segment that is out of order or too short, or lengths that do not add up |
| `Codec.DecodeFailsOnWords` | nocbp_verilator/tests/common/gbp_message_payload_codec.hpp:176-199 | after good segments: a word that is not finite, or only zeros |
| `Codec.ReadsOutOfBoundsIff` | nocbp_verilator/tests/common/gbp_message_payload_codec.hpp:223-250 | decoding reads past the extracted words if and only if every check passes and the two lengths add up to 2^32 or more; if every check passes and they do not, it succeeds |
| `Codec.ReadsOutOfBounds` | nocbp_verilator/tests/common/gbp_message_payload_codec.hpp:230-248 | a message with two payload words that passes every check and is read out of bounds |
| `Codec.HalfRangeStaysInBounds` | nocbp_verilator/tests/common/gbp_message_payload_codec.hpp:52-54 | no message of dimension 2^31 or less is read out of bounds |
| `Codec.ExtractPayloadWords` | nocbp_verilator/tests/common/gbp_message_payload_codec.hpp:122-174 | extraction returns the first required words of what the segments carry, if headers and the 32-bit sum of lengths are right, and the first error otherwise; the final length check never fires |
| `Codec.ValidatePayloadWords` | nocbp_verilator/tests/common/gbp_message_payload_codec.hpp:176-199 | an error exactly if some word is 0x7F800000 or more without its sign bit, or else if all words are 0 |
| `Codec.RoundTripIff` | nocbp_verilator/tests/common/gbp_message_payload_codec.hpp:201-323 | what was encoded decodes to the same fields and words if and only if the two vectors have fewer than 2^32 words in all |
| `Codec.RoundTripFails` | nocbp_verilator/tests/common/gbp_message_payload_codec.hpp:230-235 | a payload of 2^32 words that encodes and does not decode |
| `Codec.SegmentationDoesNotMatter` | nocbp_verilator/tests/common/gbp_message_payload_codec.hpp:122-174 | well-formed segments that carry the same words decode to the same, however they are cut |
| `Codec.EncodedThenCut` | nocbp_verilator/tests/common/gbp_message_payload_codec.hpp:201-323 | the words of an encoding, cut anywhere, still decode to what was encoded |
| `Codec.DeclaredSumIff` | nocbp_verilator/tests/common/gbp_message_payload_codec.hpp:52-54 | when decoding succeeds and dim * (dim + 1) fits in 32 bits, the declared lengths add up to dim + dim * (dim + 1) / 2 if and only if their sum fits in 32 bits |
| `Codec.DeclaredLengthsWrap` | nocbp_verilator/tests/common/gbp_message_payload_codec.hpp:153-166 | segments that declare 2^32 words too many and still decode |
| `CrcTable.TableIsShifts` | software/spmd/crc32/main.c:4-69 | every entry of the constant table is eight shifts of its index |
| `Crc32.LookUpIsEight` | software/spmd/crc32/main.c:213-214 | by linearity one table look-up does the work of eight shifts |
| `Crc32.FeedBits` | software/spmd/crc32/main.c:210-215 | feeding the bits of a byte one by one is eight shifts of the register with the byte exclusive-ored in |
| `Crc32.TableCrc` | software/spmd/crc32/main.c:210-216 | for every byte sequence the table loop computes the bit-at-a-time CRC-32 of section 8 of RFC 1952 |
| `Crc32.CheckValue` | software/spmd/crc32/main.c:210-216 | the CRC of the text 123456789 is 0xCBF43926 |
| `Crc32.Residue` | software/spmd/crc32/main.c:210-216 | data followed by the four bytes of its CRC always leaves the register 0xDEBB20E3 |
| `Dram.SelectBits` | software/py/nbf.py:207-215 | the accumulator loop returns the field of bits from start to end |
| `Dram.HashAddrBit` | software/py/nbf.py:222-226 | the loop returns the address bit exclusive-ored with the parity of the listed index bits |
| `Dram.PlaceWord` | software/py/nbf.py:332-413 | column, top or bottom, and address of a word, with and without hashing, are the fields of the address, hashed bit by bit |
| `Dram.PlaceBits` | software/py/nbf.py:332-413 | bit i of the column is address bit i above the block offset, exclusive-ored with the parity that hash list i names; the side likewise; and the bits from there to bit 28 follow the block offset in the bank's address |
| `Dram.FoundAgain` | software/py/nbf.py:358-413 | from its place the address of a word can be computed, for any hash lists, so no two of the 2^29 addresses collide |
| `Dram.EveryPlaceUsed` | software/py/nbf.py:358-413 | every place in range holds the word of some address: the placement is a bijection |
| `Dram.PlaceInRange` | software/py/nbf.py:358-413 | the place lies within the columns, the two sides and the address range |
| `Dram.Dump` | software/py/nbf.py:476-511 | all loads precede the fence, every unfreeze follows it, and the finish is last; each load of each pod, both cache lines of each column of the machine, and the unfreeze of each tile of the tile groups of the pods in use are there exactly once, and nothing else is |
| `MatMul.Naive` | software/spmd/bsg_cuda_lite_runtime/profiler/kernel.cpp:21-35 | C is the product, each entry the products of its row and column added from the left |
| `MatMul.ProductAt` | software/spmd/bsg_cuda_lite_runtime/profiler/kernel.cpp:21-35 | word i * v + j of C is the sum of the w products of words i * w + k of A and k * v + j of B |
| `MatMul.NoMul` | software/spmd/bsg_cuda_lite_runtime/profiler/kernel.cpp:100-120 | the kernel without index multiplications writes the same product from the transposed B |
| `MatMul.NoMulUnrolled` | software/spmd/bsg_cuda_lite_runtime/profiler/kernel.cpp:144-172 | so does the kernel unrolled F ways, for F dividing the width |
| `MatMul.ProductIsUnique` | software/spmd/bsg_cuda_lite_runtime/profiler/kernel.cpp:21-35 | two matrices that are the product are equal, so the kernels write the same C with addition and multiplication left open |
| `TiledMatMulGrid.EveryRunMultiplies` | software/spmd/bsg_cuda_lite_runtime/matrix_mul_shared_mem/kernel_matrix_mul_shared_mem.cpp:93-122 | for any tile-group shape, a grid of groups whose blocks tile C, and any mixing of the steps of all tiles of all groups, once every group has a finished tile every element of C is that of A times B, over any commutative ring |
| `TiledMatMulGrid.BlockIsDone` | software/spmd/bsg_cuda_lite_runtime/matrix_mul_shared_mem/kernel_matrix_mul_shared_mem.cpp:117 | a group's block is complete as soon as one of its tiles has finished, whatever the other groups are doing |
| `TiledMatMulGrid.OnlyOwnBlock` | software/spmd/bsg_cuda_lite_runtime/matrix_mul_shared_mem/kernel_matrix_mul_shared_mem.cpp:43-57 | no step of a group changes C outside the group's block |
| `TiledMatMulGrid.BlocksApart` | software/spmd/bsg_cuda_lite_runtime/matrix_mul_shared_mem/kernel_matrix_mul_shared_mem.cpp:43-57 | the blocks of different groups have no element in common |
| `TiledMatMulGrid.NoRaceOnSharedBlocks` | software/spmd/bsg_cuda_lite_runtime/matrix_mul_shared_mem/kernel_matrix_mul_shared_mem.cpp:60-89 | while a tile multiplies block b every word of its group's shared A and B is that of block b, whatever the others have done |
| `TiledMatMulGrid.NeverStuck` | software/spmd/bsg_cuda_lite_runtime/matrix_mul_shared_mem/kernel_matrix_mul_shared_mem.cpp:93-122 | until all tiles of all groups have finished some tile can move |
| `GridProgress.EveryRunEnds` | software/spmd/bsg_cuda_lite_runtime/matrix_mul_shared_mem/kernel_matrix_mul_shared_mem.cpp:93-122 | in every run of all groups the steps that change anything are bounded by the sizes of the launch, and none is left exactly when all tiles of all groups have finished |
| `GridProgress.EveryRunEndsMultiplied` | software/spmd/bsg_cuda_lite_runtime/matrix_mul_shared_mem/kernel_matrix_mul_shared_mem.cpp:93-122 | so every run that is carried on while it can be ends with C being A times B |
| `TiledMatMul.AccIsSum` | software/spmd/bsg_cuda_lite_runtime/matrix_mul_shared_mem/kernel_matrix_mul_shared_mem.cpp:104-115 | adding the block sums one by one is adding all products from the left |
| `TiledMatMul.StepKeeps` | software/spmd/bsg_cuda_lite_runtime/matrix_mul_shared_mem/kernel_matrix_mul_shared_mem.cpp:14-122 | each step leaves every shared word at its value before or after its one owner's store |
| `Printf.Number` | software/bsg_manycore_lib/bsg_printf.c:58-133 | null exactly for a base outside 2..36; otherwise the text whose reading and layout the rows of `PrintfText` state, with the 66-byte scratch array never exceeded |
| `PrintfText.ReadsBack` | software/bsg_manycore_lib/bsg_printf.c:58-133 | for every width, precision and combination of flags, reading the text (blanks, sign, 0x for base 16, digits) gives the number back if the conversion is signed, and the number modulo 2 to the bits if not |
| `PrintfText.WidthPads` | software/bsg_manycore_lib/bsg_printf.c:113-131 | the width only pads what is printed without it: blanks behind if left-justified, otherwise zeros after sign and prefix if zero-padded, otherwise blanks in front |
| `PrintfText.HeadStands` | software/bsg_manycore_lib/bsg_printf.c:70-96 | a minus sign exactly for negative numbers of signed conversions, a plus sign or a blank exactly for the others if asked for, then 0x or 0 if asked for |
| `PrintfText.BodyStands` | software/bsg_manycore_lib/bsg_printf.c:98-130 | then only digits of the base, in the letters asked for, at least as many as the precision and no zero in front beyond that |
| `Printf.FormatLength` | software/bsg_manycore_lib/bsg_printf.c:58-133 | exactly max(width, sign + prefix + max(precision, digits)) characters for every combination of flags |
| `Printf.DigitsReadBack` | software/bsg_manycore_lib/bsg_printf.c:98-111 | the digits, with the zeros before them, spell the magnitude in the base |
| `Printf.SkipAtoi` | software/bsg_manycore_lib/bsg_printf.c:51-56 | returns the number the digits at the start spell and skips exactly them, unless that number is above 2^31 - 49, where the int overflows |
| `Printf.AtoiReadsNumber` | software/bsg_manycore_lib/bsg_printf.c:51-109 | skip_atoi reads back what number prints in base 10 |
| `Addressing.InBounds` | software/bsg_manycore_lib/bsg_striped_array.hpp:35-38 | every index below SIZE falls within the elements each tile has |
| `Addressing.FoundByCell` | software/bsg_manycore_lib/bsg_striped_array.hpp:62-77 | from tile and cell the index can be computed, so different indices have different cells |
| `Addressing.PointersDiffer` | software/bsg_manycore_lib/bsg_striped_array.hpp:79-94 | different indices have different packed pointers |
| `Addressing.StripedArray.Get` | software/bsg_manycore_lib/bsg_striped_array.hpp:45-52 | a read returns the element of the flat array |
| `Addressing.StripedArray.Set` | software/bsg_manycore_lib/bsg_striped_array.hpp:50-52 | a store changes that element of the flat array and no other |
| `Addressing.SharedPointersDiffer` | software/bsg_manycore_lib/bsg_manycore_arch.h:128-131 | different words of a tile-group shared array have different pointers |
| `Addressing.PtrFields` | software/bsg_manycore_lib/bsg_manycore_arch.h:60-64 | the fields of a packed pointer can be read back |
| `Addressing.PtrIs` | software/bsg_manycore_lib/bsg_manycore_arch.h:60-64 | a packed pointer is 2^29 + y * 2^24 + x * 2^18 + the local address |
| `Addressing.ElementPtrIs` | software/bsg_manycore_lib/bsg_striped_array.hpp:62-94 | stripes go round the tiles of the group row by row, and an element lies four bytes a word above the base of its tile's array |
| `Addressing.SharedPtrIs` | software/bsg_manycore_lib/bsg_manycore_arch.h:128-131 | words of a shared array go round the tiles of the group row by row, four bytes a word above the base |
| `Addressing.Strider.Next` | software/bsg_manycore_lib/bsg_group_strider.hpp:73-81 | a stride from a pointer into the group leads one tile on, around the group, in the directions of the mode, if there is room in the fields; always it does the masked additions |
| `Addressing.NextIs` | software/bsg_manycore_lib/bsg_group_strider.hpp:54-81 | for every pointer the masked 32-bit additions are additions on its fields, with carries from one field into the next |
| `Addressing.StridesMoveIff` | software/bsg_manycore_lib/bsg_group_strider.hpp:54-81 | k strides advance the coordinate by k modulo the group dimension, other fields unchanged, for all k, if and only if the dimension leaves room in its field (below 64 columns, below 32 rows; with both, 64 columns also work in one row) |
| `Quicksort.Partition` | software/spmd/quicksort/main.c:87-104 | front and back meet, with the smaller elements before and the others behind them |
| `Quicksort.Sort` | software/spmd/quicksort/main.c:80-127 | the part is sorted, a permutation of what it was, the rest of the array is untouched, and bsg_fail is never reached |
| `GoViral.Spread` | software/spmd/deprecated/go_viral/main.c:24-65 | a tile and the tiles it wakes boot exactly the ids it is in charge of, none twice, each with its own id and a size above it |
| `GoViral.SpreadAll` | software/spmd/deprecated/go_viral/main.c:24-65 | from tile 0 every other tile is booted exactly once |

## Left out

- Weak memory beyond the step models above, and the order of memory accesses within the assembly sequences.
- The assembly MCS lock, `bsg_barrier_amoadd`, the hardware barrier itself and all RTL: only the stated meaning of swap, LR, LR.AQ, fence and configuration words is used.
- Fairness: how long a thread or tile may be kept from its next step is left open. Progress is stated as a bound on the steps that do something, with what holds when none is left.
- The build of the token queue with 16-bit counters; its send half is not sign-extended.
- `dest_process` and `source_process` of the token queue client: frames are given by an arbitrary source function and collected as read.
- The pass, copy and zero variants of the pipeline stage; an odd BUF_LEN.
- Floating-point rounding: the transform and the tiled product are over a commutative ring, and a root of unity replaces `cexp`.
- FFT lengths that are not powers of two, and the striping of the work array over the tiles' memories.
- `Pipeline.LastTilePrints`: the words are kept as printed, not sent through the I/O port.
- Null output pointers of the codec; its error strings are constructors. Sizes of 2^64 and more.
- `Printf.Number`: characters are appended to a sequence, not stored through a moving pointer; the scratch array is an array.
- The other conversions of `ee_vsprintf`, `eaddr`, `cvt` and `parse_float`.
- 32-bit overflow of the index variables of the matrix kernels.
- `Dram.PlaceWord`: origin offsets of the pod and skipped words; one-column machines, for which the loader's logarithm is off by one.
- `Dram.Dump`: the content of the loads, whose number per pod is a parameter; and their order before the fence.
- `GoViral.Spread`: the copying of the memory image and the order in which concurrent tiles boot others.
- `Quicksort.Sort`: an empty list, which the source would read out of bounds and never passes.
- The parsing helpers of the metrics adapter, `bsg_tilegroup.h`, host I/O, the DRAM file system and interrupts.
