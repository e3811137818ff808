# SHA-512 x86 compression core

A Dafny model of the SHA-512 block compression for x86 processors in
`sha2/src/sha512/x86.rs`. The model covers both vectorised paths. It proves that the narrow
path compresses each block as FIPS 180-4 specifies. It proves that the wide path, as written,
in general compresses blocks other than the ones it is given (see "## Findings"), and that with its
loader corrected it too compresses the blocks as FIPS 180-4 chains them.

The narrow path (`sha512_compress_x86_64_avx`) compresses one block at a time:

- The message schedule runs in eight 128-bit registers, two words per register.
- `fn_sha512_update_x` steps the schedule two words at a time.
- The scalar `sha_round` consumes the keyed words, held in a 16-slot circular buffer `ms`.

The wide path (`sha512_compress_x86_64_avx2`) compresses two blocks at a time:

- Each 256-bit register is meant to hold the first block of a pair in its low 128-bit lane
  and the second block in its high lane. The source's "First block" and "Second block"
  name the order of compression: the lane-0 block first, then the lane-1 block.
- As written, the loader fills the low lane from bytes 16..144 of the pair and the high lane
  from the first block again.
- The lane-0 block's keyed words go to `ms`. The lane-1 block's keyed words are saved in `t2`,
  and `process_second_block` runs all eighty of them afterwards.

`compress` picks the wide path when the processor has AVX2, and otherwise uses the portable
compression. With AVX2 it therefore inherits the loader's error; `CompressCorrected` is the
same dispatcher over the corrected wide path.

## Modules

- `Words`: bytes, 64-bit words, byte order and the size constants.
- `Fips`: the reference the core is proved against. It holds the functions of section 4.1.3
  of FIPS 180-4, the schedule of section 6.4.2 step 1, the eighty rounds of steps 2–4 with the
  feed-forward of that section, and the chaining of successive blocks.
- `Intrinsics`: `__m128i`, `__m256i` and the SSE/AVX/AVX2 intrinsics the core calls.
  - They are modelled on 64-bit lanes.
  - `pshufb` is modelled byte by byte.
- `ScheduleUpdate`: `fn_sha512_update_x` for both register widths.
- `Rounds`: `sha_round`, `accumulate_state`, `rounds_64_79` and `process_second_block`.
- `Avx`: `load_data_avx`, `rounds_0_63_avx` and `sha512_compress_x86_64_avx`.
- `Avx2`: `load_data_avx2`, with the chunk offsets of its two lanes as parameters, and
  `rounds_0_63_avx2`.
- `Driver`: the pair loop of `sha512_compress_x86_64_avx2`, as written and corrected, and
  `compress`.

## Model

| member | source | states |
|---|---|---|
| Words.SizeConstants | sha2/src/sha512/x86.rs:350-354 | The chaining value is 8 words, a block is 16 words, and 80 rounds make five passes of 16. |
| Intrinsics.StoreWords128 | sha2/src/sha512/x86.rs:85-85 | A 128-bit store into a `u64` array puts the register's two lanes at `p` and `p + 1` and leaves every other word unchanged. |
| Intrinsics.ByteSwapLoad | sha2/src/sha512/x86.rs:73-78 | Loading 16 message bytes and shuffling them with the byte-reversal mask gives the two big-endian words the bytes encode. |
| Intrinsics.MasksSwapBytes | sha2/src/sha512/x86.rs:99-105 | The wide loader's mask is the narrow loader's byte-reversal control, repeated in each 128-bit lane. |
| Avx.LoadChunk | sha2/src/sha512/x86.rs:77-78 | Chunk `j` of a block, loaded and byte-swapped, is the block's word pair `2j`, `2j + 1`. |
| Avx.LoadDataAvx | sha2/src/sha512/x86.rs:71-90 | After the load, register `p` holds message words `2p` and `2p + 1`, and `ms[t]` is message word `t` plus `K[t]`, for all 16 `t`. |
| ScheduleUpdate.SmallSigma0ByShiftsIsSigma0 | sha2/src/sha512/x86.rs:265-285 | The three right shifts, two left shifts and XORs compute σ0 of FIPS 180-4 (ROTR 1 ⊕ ROTR 8 ⊕ SHR 7). |
| ScheduleUpdate.SmallSigma1ByShiftsIsSigma1 | sha2/src/sha512/x86.rs:287-307 | The shift sequence on `q[15:14]` computes σ1 of FIPS 180-4 (ROTR 19 ⊕ ROTR 61 ⊕ SHR 6). |
| ScheduleUpdate.NextLane | sha2/src/sha512/x86.rs:261-310 | The three `ADD64`s on one lane give the schedule word σ1(W[t−2]) + W[t−7] + σ0(W[t−15]) + W[t−16]. |
| ScheduleUpdate.UpdateXAvx | sha2/src/sha512/x86.rs:259-324 | A step drops the oldest pair, keeps the other seven in order, and appends the next two schedule words. It returns those words plus the loaded round constants. |
| ScheduleUpdate.UpdateXAvx2 | sha2/src/sha512/x86.rs:337-344 | The 256-bit step appends, in each 128-bit lane, the next two schedule words of that lane's block. |
| Avx2.UpdateXAvx2Lane0 | sha2/src/sha512/x86.rs:337-344 | Lane 0 of the 256-bit step, registers and result alike, is the 128-bit step on the low lanes. |
| Avx2.UpdateXAvx2Lane1 | sha2/src/sha512/x86.rs:337-344 | Lane 1 of the 256-bit step is the 128-bit step on the high lanes. |
| Avx.UpdateXAvxStep | sha2/src/sha512/x86.rs:259-324 | If the registers hold schedule words `n .. n+16` as pairs, a step leaves words `n+2 .. n+18` and returns keyed words `n+16` and `n+17`: the sliding-window recurrence. |
| Avx2.UpdateXAvx2Step | sha2/src/sha512/x86.rs:337-344 | The same sliding-window property for both lanes at once: each lane's window of its own block's schedule advances by two. |
| Rounds.ShaBigSigmasAreFips | sha2/src/sha512/x86.rs:195-204 | The rotations of `big_sigma0` (28, 34, 39) and `big_sigma1` (14, 18, 41) are Σ0 and Σ1 of FIPS 180-4. |
| Rounds.Bool3ary232IsMajority | sha2/src/sha512/x86.rs:210-214 | `bool3ary_232` is Maj(a, b, c) of FIPS 180-4. |
| Rounds.Bool3ary202IsChoose | sha2/src/sha512/x86.rs:205-209 | `c ^ (a & (b ^ c))` is Ch(a, b, c) of FIPS 180-4. |
| Rounds.RotateState | sha2/src/sha512/x86.rs:216-228 | Word 7 moves to slot 0 and every other word moves up one slot. |
| Rounds.ShaRound | sha2/src/sha512/x86.rs:194-241 | A round shifts a, b, c into b, c, d and e, f, g into f, g, h. |
| Rounds.ShaRoundIsFipsRound | sha2/src/sha512/x86.rs:230-240 | A round on the pre-added word W[t] + K[t] is round t of FIPS 180-4 (T1, T2 and the eight-word update). |
| Rounds.RunRoundsIsFipsRounds | sha2/src/sha512/x86.rs:194-241 | Rounds on the first `t` keyed words, in order, are the first `t` rounds of FIPS 180-4. |
| Rounds.KeyedRoundsCompress | sha2/src/sha512/x86.rs:63-67 | Eighty rounds on a block's keyed schedule, fed forward into the chaining value, are the block's FIPS 180-4 compression. |
| Rounds.AccumulateState | sha2/src/sha512/x86.rs:244-248 | Each word of the result is `dst[i] + src[i]` modulo 2^64: the feed-forward of FIPS 180-4. |
| Rounds.CircularSlot | sha2/src/sha512/x86.rs:181-183 | In rounds 64 to 79, `i & 0xf` is `i − 64`, so the loop reads slots 0 to 15 in order. |
| Rounds.Rounds64To79 | sha2/src/sha512/x86.rs:180-184 | The state takes one round per slot of `ms`, slot 0 first. |
| Rounds.ProcessSecondBlock | sha2/src/sha512/x86.rs:187-191 | The state takes one round per word of `t2`, all eighty of them in order. |
| Avx.KeyedSlotsStore | sha2/src/sha512/x86.rs:140-143 | The two slots read by the two rounds are the ones the step's result overwrites, with the keyed words sixteen rounds ahead. |
| Avx.AvxIteration | sha2/src/sha512/x86.rs:137-145 | One inner iteration consumes keyed words `n` and `n + 1`, advances the window by two and stores keyed words `n + 16`, `n + 17`. |
| Avx.RoundsPassAvx | sha2/src/sha512/x86.rs:136-146 | One outer pass runs sixteen rounds and refreshes all sixteen slots of `ms`. |
| Avx.Rounds0To63Avx | sha2/src/sha512/x86.rs:133-147 | The state takes rounds 0 to 63 on keyed words 0 to 63. Afterwards `ms` holds keyed words 64 to 79. |
| Avx.Sha512CompressAvx | sha2/src/sha512/x86.rs:58-68 | The narrow path gives exactly the FIPS 180-4 compression of the block. |
| Avx2.K64X4Lanes | sha2/src/sha512/x86.rs:113-116 | The 256-bit load of `K64X4` at `4m` gives each lane round constants `2m` and `2m + 1`. |
| Avx2.LoadLanes | sha2/src/sha512/x86.rs:109-112 | After the two inserts and the shuffle, lane 0 of register `i` holds word pair `i` of the block read at one chunk offset, and lane 1 that of the block read at the other. |
| Avx2.LoadDataAvx2 | sha2/src/sha512/x86.rs:93-130 | Lanes 0 and 1 hold the message words of the two blocks read at the given offsets. `ms` and the first 16 words of `t2` hold those words plus their round constants. |
| Avx2.FilledStore | sha2/src/sha512/x86.rs:169-172 | Storing lane 1 at `16i + 2j` fills `t2` with the lane-1 block's keyed words two further. |
| Avx2.Avx2Iteration | sha2/src/sha512/x86.rs:159-175 | One inner iteration runs two rounds of the lane-0 block, advances both windows, refreshes two `ms` slots and saves two keyed words of the lane-1 block in `t2`. |
| Avx2.RoundsPassAvx2 | sha2/src/sha512/x86.rs:158-176 | One outer pass runs sixteen rounds of the lane-0 block and fills sixteen more words of `t2`. |
| Avx2.Rounds0To63Avx2 | sha2/src/sha512/x86.rs:150-177 | The state takes rounds 0 to 63 of the lane-0 block, `ms` ends with its keyed words 64 to 79, and `t2` with all eighty keyed words of the lane-1 block. |
| Driver.CompressPair | sha2/src/sha512/x86.rs:41-54 | A pair iteration compresses the lane-0 block and then, from the new chaining value, the lane-1 block. |
| Driver.PairBlocksAsWritten | sha2/src/sha512/x86.rs:109-110 | At the source's offsets lane 0 gets bytes 16..144 of the pair, and lane 1 gets the first block again. |
| Driver.AsWrittenIgnoresSecondBlock | sha2/src/sha512/x86.rs:109-110 | At the source's offsets, two pairs whose second blocks agree on their first 16 bytes are compressed identically. |
| Driver.AsWrittenCounterexample | sha2/src/sha512/x86.rs:109-110 | For a zero block followed by a block of ones, the source's offsets do not compress the blocks given. |
| Driver.AsWrittenPairExact | sha2/src/sha512/x86.rs:109-110 | At the source's offsets a pair is loaded as itself if and only if both blocks are equal and the block repeats every 16 bytes. |
| Driver.PairBlocksCorrected | sha2/src/sha512/x86.rs:109-110 | At chunk offsets 0 and 8 the two lanes get exactly the first and the second block. |
| Driver.LaneBlocksCorrected | sha2/src/sha512/x86.rs:32-54 | With the corrected offsets the odd-block-then-pairs driver compresses exactly the given blocks, in order. |
| Driver.Sha512CompressAvx2With | sha2/src/sha512/x86.rs:29-55 | The wide driver chains the compression of the lone first block when the count is odd, then each pair's two loaded blocks in order. An empty input leaves the state unchanged. |
| Driver.Sha512CompressAvx2AsWritten | sha2/src/sha512/x86.rs:29-55 | The driver as written compresses the blocks its loader reads, which are in general not the blocks given. |
| Driver.Sha512CompressAvx2 | sha2/src/sha512/x86.rs:29-55 | With the corrected loader, the wide path is FIPS 180-4 chaining over the blocks in order. |
| Driver.Compress | sha2/src/sha512/x86.rs:16-26 | Without AVX2 the result is the FIPS 180-4 chaining value after the blocks, in order. With AVX2 it is the chaining value after the blocks the as-written loader reads, which are in general not the blocks given. |
| Driver.CompressCorrected | sha2/src/sha512/x86.rs:16-26 | The dispatcher over the corrected wide path: with or without AVX2, the FIPS 180-4 chaining value after the blocks, in order. |

## Left out

- The portable `soft::compress` and the round-constant tables of `consts` are not part of this
  model.
  - The fallback branch of `compress` is the FIPS 180-4 reference itself.
  - The constants `K64` are a parameter `k` of 80 words.
  - `K64X4` is derived from `k` in the layout the wide loops read: `K[2m]`, `K[2m+1]` twice,
    at index `4m`.
  - No statement is made about the numeric values of the constants.
- CPU feature detection (`avx2_cpuid::get()`) is a boolean parameter of `Compress`.
- The 16-byte alignment that `_mm_store_si128` demands of its destination is not modelled.
  The stores into `ms` and `t2` (x86.rs lines 85, 118-125, 143 and 165-172) write to plain
  `[u64; N]` arrays, which Rust aligns to 8 bytes only; the model treats every store as
  succeeding.
- Raw pointers, `unsafe` and `#[target_feature]` are not modelled. Each pointer read becomes a
  slice of the byte sequence at the same offset.
  - The wide loader reads the 256 bytes of the pair.
  - Its as-written offsets never reach past them.
- Registers are modelled as pairs of 64-bit words (and a 256-bit register as two such pairs).
  The shifts, XORs and adds of `fn_sha512_update_x` are written once on a 64-bit word and
  applied to each lane, which is how those instructions act on 64-bit lanes. `alignr` by eight
  bytes is not lane-wise: it moves whole words between its two registers, the high word of one
  and the low word of the other forming the result, once per 128-bit lane in the 256-bit form.
- The odd-count test `blocks.len() & 0b1 != 0` is written `|blocks| % 2 != 0`. The two agree
  for every length.
- Padding, streaming and the digest output belong to the callers of `compress`, not to this
  file.
- The in-place mutation of `state`, `x`, `ms` and `t2` is modelled by value: each operation
  returns the new contents. `x`, `ms` and `t2` are still reused from one pair to the next.

## Findings

| source | as written | input that shows it | evidently intended | confidence | as-written member | corrected member |
|---|---|---|---|---|---|---|
| sha2/src/sha512/x86.rs:109-110 | Register `i` takes chunk `i` of the pair into lane 1 and chunk `i + 1` into lane 0. Lane 0 (the first block) gets bytes 16..144 of the pair; lane 1 (the second block) gets the first block again; the second block beyond its first 16 bytes is never read. | Two blocks, 128 zero bytes then 128 bytes of 1: the blocks compressed are not the two given. A pair is loaded as itself only when both blocks are equal and repeat every 16 bytes | Lane 0 reads chunk `i` (the first block) and lane 1 reads chunk `i + 8` (the second block) | high; not executed | Driver.Sha512CompressAvx2AsWritten, Driver.Compress, Driver.AsWrittenCounterexample, Driver.AsWrittenPairExact, Driver.AsWrittenIgnoresSecondBlock | Driver.Sha512CompressAvx2, Driver.CompressCorrected, Driver.LaneBlocksCorrected |
