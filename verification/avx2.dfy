/**
 * The two-block AVX2 path: `load_data_avx2`, `rounds_0_63_avx2` and the pair loop of
 * `sha512_compress_x86_64_avx2` (sha2/src/sha512/x86.rs). Lane 0 of every 256-bit register
 * carries the schedule of the block read at chunk offset `first` of the pair, lane 1 that of
 * the block read at chunk offset `second`.
 */
module Avx2 {
  import opened Words
  import opened Fips
  import opened Intrinsics
  import opened ScheduleUpdate
  import opened Rounds
  import opened Avx

  /** `K64X4`: the round constants in pairs, each pair twice, once for each 128-bit lane. */
  function K64X4(k: seq<Word>): (r: seq<Word>)
    requires |k| == RoundsNum
    ensures |r| == 2 * RoundsNum
  {
    seq(2 * RoundsNum, i requires 0 <= i < 2 * RoundsNum => k[2 * (i / 4) + i % 2])
  }

  /** A 256-bit load at `4 * m` of `K64X4` gives both lanes round constants `2 * m` and
      `2 * m + 1`. */
  lemma K64X4Lanes(k: seq<Word>, m: nat)
    requires |k| == RoundsNum && m < RoundsNum / 2
    ensures LoadWords256(K64X4(k), 4 * m) == M256(LoadWords128(k, 2 * m), LoadWords128(k, 2 * m))
  {
    var r := K64X4(k);
    assert (4 * m) / 4 == m && (4 * m) % 2 == 0;
    assert (4 * m + 1) / 4 == m && (4 * m + 1) % 2 == 1;
    assert (4 * m + 2) / 4 == m && (4 * m + 2) % 2 == 0;
    assert (4 * m + 3) / 4 == m && (4 * m + 3) % 2 == 1;
  }

  /** The eight registers hold schedule words `n .. n + 16` of `w` in lane 0 and of `v` in
      lane 1, as pairs. */
  ghost predicate Window2(x: seq<M256>, w: seq<Word>, v: seq<Word>, n: nat)
    requires n + 16 <= |w| && n + 16 <= |v|
  {
    && |x| == 8
    && forall p :: 0 <= p < 8 ==>
         x[p] == M256(M128(w[n + 2 * p], w[n + 2 * p + 1]), M128(v[n + 2 * p], v[n + 2 * p + 1]))
  }

  /** The 128 bytes of `data` from chunk `c` on. */
  function BlockAt(data: seq<Byte>, c: nat): Block
    requires 16 * c + BlockByteLen <= |data|
  {
    data[16 * c .. 16 * c + BlockByteLen]
  }

  /** The first `i` registers and the first `2 * i` slots of `ms` and `t2` are loaded: lane 0
      from the words `w` of one block, lane 1 from the words `v` of the other. */
  ghost predicate Loaded2(x: seq<M256>, ms: seq<Word>, t2: seq<Word>, w: seq<Word>, v: seq<Word>,
                          k: seq<Word>, i: nat)
  {
    && |x| == 8 && |ms| == BlockWordsNum && |t2| == RoundsNum && |k| == RoundsNum
    && |w| == BlockWordsNum && |v| == BlockWordsNum && i <= 8
    && (forall p :: 0 <= p < i ==>
          x[p] == M256(M128(w[2 * p], w[2 * p + 1]), M128(v[2 * p], v[2 * p + 1])))
    && (forall q :: 0 <= q < 2 * i ==> ms[q] == WrappingAdd(w[q], k[q]))
    && (forall q :: 0 <= q < 2 * i ==> t2[q] == WrappingAdd(v[q], k[q]))
  }

  /** One pass of the loader's loop keeps `Loaded2`, one register further on. */
  lemma LoadAvx2Iteration(x: seq<M256>, ms: seq<Word>, t2: seq<Word>, data: seq<Byte>, k: seq<Word>,
                          first: nat, second: nat, i: nat, r: M256, y: M256)
    requires 16 * first + BlockByteLen <= |data| && 16 * second + BlockByteLen <= |data| && i < 8
    requires Loaded2(x, ms, t2, BlockWords(BlockAt(data, first)), BlockWords(BlockAt(data, second)), k, i)
    requires r == Mm256ShuffleEpi8(Mm256InsertF128(Mm256InsertF128(x[i], LoadU128(Chunk(data, i + second)), 1),
                                                   LoadU128(Chunk(data, i + first)), 0), MaskAvx2)
    requires y == Mm256AddEpi64(r, LoadWords256(K64X4(k), 4 * i))
    ensures |x| == 8 && |ms| == BlockWordsNum && |t2| == RoundsNum
    ensures Loaded2(x[i := r], StoreWords128(ms, 2 * i, Mm256ExtractI128(y, 0)),
                    StoreWords128(t2, 2 * i, Mm256ExtractI128(y, 1)),
                    BlockWords(BlockAt(data, first)), BlockWords(BlockAt(data, second)), k, i + 1)
  {
    hide ShuffleEpi8, LoadU128, BlockWords, BlockAt, Chunk, K64X4, Mm256ShuffleEpi8, Mm256InsertF128,
         Mm256AddEpi64, LoadWords256, Loaded2, StoreWords128, Mm256ExtractI128;
    var w := BlockWords(BlockAt(data, first));
    var v := BlockWords(BlockAt(data, second));
    LoadedLengths(x, ms, t2, w, v, k, i);
    LoadLanes(data, first, second, i, x[i]);
    K64X4Lanes(k, i);
    LoadedStep(x, ms, t2, w, v, k, i, r, y);
  }

  /** Storing register `i` and its keyed lanes extends `Loaded2` by one register. */
  lemma LoadedStep(x: seq<M256>, ms: seq<Word>, t2: seq<Word>, w: seq<Word>, v: seq<Word>,
                   k: seq<Word>, i: nat, r: M256, y: M256)
    requires Loaded2(x, ms, t2, w, v, k, i) && i < 8
    requires r == M256(M128(w[2 * i], w[2 * i + 1]), M128(v[2 * i], v[2 * i + 1]))
    requires y == Mm256AddEpi64(r, M256(LoadWords128(k, 2 * i), LoadWords128(k, 2 * i)))
    ensures Loaded2(x[i := r], StoreWords128(ms, 2 * i, Mm256ExtractI128(y, 0)),
                    StoreWords128(t2, 2 * i, Mm256ExtractI128(y, 1)), w, v, k, i + 1)
  {
    hide WrappingAdd;
  }

  lemma LoadedNone(x: seq<M256>, ms: seq<Word>, t2: seq<Word>, w: seq<Word>, v: seq<Word>, k: seq<Word>)
    requires |x| == 8 && |ms| == BlockWordsNum && |t2| == RoundsNum && |k| == RoundsNum
    requires |w| == BlockWordsNum && |v| == BlockWordsNum
    ensures Loaded2(x, ms, t2, w, v, k, 0)
  {
  }

  /** `load_data_avx2`, with the chunk offsets of its two lanes as parameters: register `i`
      takes chunk `i + second` into lane 1, then chunk `i + first` into lane 0. The source
      reads `data.add(i)` into lane 1 and `data.add(i + 1)` into lane 0, that is `first = 1`
      and `second = 0`. Lane 0 is keyed into `ms` and lane 1 into the first sixteen words of
      `t2`. */
  method LoadDataAvx2(x: seq<M256>, ms: seq<Word>, t2: seq<Word>, data: seq<Byte>, k: seq<Word>,
                      first: nat, second: nat)
    returns (x': seq<M256>, ms': seq<Word>, t2': seq<Word>)
    requires |x| == 8 && |ms| == BlockWordsNum && |t2| == RoundsNum && |k| == RoundsNum
    requires 16 * first + BlockByteLen <= |data| && 16 * second + BlockByteLen <= |data|
    ensures Window2(x', BlockWords(BlockAt(data, first)), BlockWords(BlockAt(data, second)), 0)
    ensures ms' == AddKeys(BlockWords(BlockAt(data, first)), k)
    ensures |t2'| == RoundsNum
    ensures t2'[..BlockWordsNum] == AddKeys(BlockWords(BlockAt(data, second)), k)
  {
    hide WrappingAdd, ShuffleEpi8, LoadU128, BlockWords, BlockAt, K64X4, Chunk, Mm256ShuffleEpi8,
         Mm256InsertF128, Mm256AddEpi64, Mm256ExtractI128, LoadWords256, StoreWords128, Loaded2;
    ghost var w := BlockWords(BlockAt(data, first));
    ghost var v := BlockWords(BlockAt(data, second));
    var k4 := K64X4(k);
    x', ms', t2' := x, ms, t2;
    LoadedNone(x', ms', t2', w, v, k);
    for i := 0 to 8
      invariant Loaded2(x', ms', t2', w, v, k, i)
    {
      LoadedLengths(x', ms', t2', w, v, k, i);
      var r := Mm256InsertF128(x'[i], LoadU128(Chunk(data, i + second)), 1);
      r := Mm256InsertF128(r, LoadU128(Chunk(data, i + first)), 0);
      r := Mm256ShuffleEpi8(r, MaskAvx2);
      var y := Mm256AddEpi64(r, LoadWords256(k4, 4 * i));
      LoadAvx2Iteration(x', ms', t2', data, k, first, second, i, r, y);
      x' := x'[i := r];
      ms' := StoreWords128(ms', 2 * i, Mm256ExtractI128(y, 0));
      t2' := StoreWords128(t2', 2 * i, Mm256ExtractI128(y, 1));
    }
    LoadedAll(x', ms', t2', w, v, k);
  }

  lemma LoadedLengths(x: seq<M256>, ms: seq<Word>, t2: seq<Word>, w: seq<Word>, v: seq<Word>,
                      k: seq<Word>, i: nat)
    requires Loaded2(x, ms, t2, w, v, k, i)
    ensures |x| == 8 && |ms| == BlockWordsNum && |t2| == RoundsNum && |k| == RoundsNum && i <= 8
  {
  }

  /** All eight registers loaded: the window of both blocks and their keyed first words. */
  lemma LoadedAll(x: seq<M256>, ms: seq<Word>, t2: seq<Word>, w: seq<Word>, v: seq<Word>, k: seq<Word>)
    requires Loaded2(x, ms, t2, w, v, k, 8)
    ensures Window2(x, w, v, 0)
    ensures ms == AddKeys(w, k)
    ensures |t2| == RoundsNum && t2[..BlockWordsNum] == AddKeys(v, k)
  {
    hide WrappingAdd;
  }

  /** Register `i` after the two inserts and the shuffle: word pair `i` of each lane's block. */
  lemma LoadLanes(data: seq<Byte>, first: nat, second: nat, i: nat, r: M256)
    requires 16 * first + BlockByteLen <= |data| && 16 * second + BlockByteLen <= |data| && i < 8
    ensures Mm256ShuffleEpi8(Mm256InsertF128(Mm256InsertF128(r, LoadU128(Chunk(data, i + second)), 1),
                                       LoadU128(Chunk(data, i + first)), 0), MaskAvx2)
      == M256(M128(BlockWords(BlockAt(data, first))[2 * i], BlockWords(BlockAt(data, first))[2 * i + 1]),
              M128(BlockWords(BlockAt(data, second))[2 * i], BlockWords(BlockAt(data, second))[2 * i + 1]))
  {
    hide ShuffleEpi8, LoadU128, BlockWords, Chunk;
    LoadChunk(data, first, i);
    LoadChunk(data, second, i);
    MasksSwapBytes();
  }

  /** The low 128-bit lanes of a sequence of registers. */
  function Lanes0(x: seq<M256>): (r: seq<M128>)
    ensures |r| == |x| && forall p :: 0 <= p < |x| ==> r[p] == x[p].lane0
  {
    seq(|x|, p requires 0 <= p < |x| => x[p].lane0)
  }

  /** The high 128-bit lanes of a sequence of registers. */
  function Lanes1(x: seq<M256>): (r: seq<M128>)
    ensures |r| == |x| && forall p :: 0 <= p < |x| ==> r[p] == x[p].lane1
  {
    seq(|x|, p requires 0 <= p < |x| => x[p].lane1)
  }

  /** The wide window is the narrow window of `w` in lane 0 and of `v` in lane 1. */
  lemma Window2Lanes(x: seq<M256>, w: seq<Word>, v: seq<Word>, n: nat)
    requires n + 16 <= |w| && n + 16 <= |v|
    ensures Window2(x, w, v, n) <==> |x| == 8 && Window(Lanes0(x), w, n) && Window(Lanes1(x), v, n)
  {
  }

  /** Lane 0 of `sha512_update_x_avx2` is `sha512_update_x_avx` on the low lanes. */
  lemma UpdateXAvx2Lane0(x: seq<M256>, k: M256)
    requires |x| == 8
    ensures Lanes0(UpdateXAvx2(x, k).x) == UpdateXAvx(Lanes0(x), k.lane0).x
    ensures UpdateXAvx2(x, k).y.lane0 == UpdateXAvx(Lanes0(x), k.lane0).y
  {
    hide ScheduleWord, WrappingAdd;
    var r := UpdateXAvx2(x, k);
    var a := UpdateXAvx(Lanes0(x), k.lane0);
    forall p | 0 <= p < 7
      ensures Lanes0(r.x)[p] == a.x[p]
    {
      assert r.x[p] == r.x[..7][p] == x[p + 1];
      assert a.x[p] == a.x[..7][p] == Lanes0(x)[p + 1];
    }
  }

  /** Lane 1 of `sha512_update_x_avx2` is `sha512_update_x_avx` on the high lanes. */
  lemma UpdateXAvx2Lane1(x: seq<M256>, k: M256)
    requires |x| == 8
    ensures Lanes1(UpdateXAvx2(x, k).x) == UpdateXAvx(Lanes1(x), k.lane1).x
    ensures UpdateXAvx2(x, k).y.lane1 == UpdateXAvx(Lanes1(x), k.lane1).y
  {
    hide ScheduleWord, WrappingAdd;
    var r := UpdateXAvx2(x, k);
    var b := UpdateXAvx(Lanes1(x), k.lane1);
    forall p | 0 <= p < 7
      ensures Lanes1(r.x)[p] == b.x[p]
    {
      assert r.x[p] == r.x[..7][p] == x[p + 1];
      assert b.x[p] == b.x[..7][p] == Lanes1(x)[p + 1];
    }
  }

  /** One wide schedule step on the window at `n` gives the window at `n + 2` of both
      schedules and, in each lane, that schedule's keyed words `n + 16` and `n + 17`. */
  lemma UpdateXAvx2Step(x: seq<M256>, w: seq<Word>, v: seq<Word>, k: seq<Word>, n: nat)
    requires |w| == RoundsNum && |v| == RoundsNum && |k| == RoundsNum && n + 18 <= RoundsNum
    requires Window2(x, w, v, n)
    requires Recurrence(w, n + 16) && Recurrence(w, n + 17) && Recurrence(v, n + 16) && Recurrence(v, n + 17)
    ensures Window2(UpdateXAvx2(x, M256(LoadWords128(k, n + 16), LoadWords128(k, n + 16))).x, w, v, n + 2)
    ensures UpdateXAvx2(x, M256(LoadWords128(k, n + 16), LoadWords128(k, n + 16))).y
         == M256(LoadWords128(AddKeys(w, k), n + 16), LoadWords128(AddKeys(v, k), n + 16))
  {
    hide ScheduleWord, WrappingAdd, UpdateXAvx, UpdateXAvx2, Window, Window2, Lanes0, Lanes1,
      LoadWords128, AddKeys, Recurrence;
    var kk := M256(LoadWords128(k, n + 16), LoadWords128(k, n + 16));
    Window2Lanes(x, w, v, n);
    UpdateXAvx2Lane0(x, kk);
    UpdateXAvx2Lane1(x, kk);
    UpdateXAvxStep(Lanes0(x), w, k, n);
    UpdateXAvxStep(Lanes1(x), v, k, n);
    Window2Lanes(UpdateXAvx2(x, kk).x, w, v, n + 2);
  }

  /** `_mm256_extracti128_si256::<0>` and `::<1>` give the two lanes. */
  lemma ExtractLanes(y: M256)
    ensures Mm256ExtractI128(y, 0) == y.lane0 && Mm256ExtractI128(y, 1) == y.lane1
  {
  }

  /** The first `n` words of `t2` are the first `n` of the keyed schedule `kv`. */
  ghost predicate Filled(t2: seq<Word>, kv: seq<Word>, n: nat) {
    && |t2| == RoundsNum && |kv| == RoundsNum && n <= RoundsNum
    && forall q :: 0 <= q < n ==> t2[q] == kv[q]
  }

  /** Storing the keyed pair `n` at `n` fills two more words of `t2`. */
  lemma FilledStore(t2: seq<Word>, kv: seq<Word>, n: nat, y: M128)
    requires Filled(t2, kv, n) && n + 2 <= RoundsNum && y == LoadWords128(kv, n)
    ensures Filled(StoreWords128(t2, n, y), kv, n + 2)
  {
    var t2' := StoreWords128(t2, n, y);
    assert t2'[n] == LoadWords128(t2', n).lo && t2'[n + 1] == LoadWords128(t2', n).hi;
  }

  /** What holds after the rounds before `base + renewed` in `rounds_0_63_avx2`: the state
      has taken those rounds of the lane-0 block, `x` holds the next sixteen schedule words of
      both lanes' blocks, `ms` the lane-0 block's keyed words of the next sixteen rounds, and
      `t2` the lane-1 block's keyed words up to sixteen rounds ahead. */
  ghost predicate Avx2Progress(s0: State, w: seq<Word>, v: seq<Word>, ks: seq<Word>, kv: seq<Word>,
                               s: State, x: seq<M256>, ms: seq<Word>, t2: seq<Word>,
                               base: nat, renewed: nat)
  {
    && |w| == RoundsNum && |v| == RoundsNum && |ks| == RoundsNum
    && base + renewed <= 64 && renewed <= BlockWordsNum
    && s == RunRounds(s0, ks[..base + renewed])
    && Window2(x, w, v, base + renewed)
    && KeyedSlots(ms, ks, base, renewed)
    && Filled(t2, kv, base + renewed + 16)
  }

  /** The parts of `Avx2Progress`, for the loop proofs that keep the predicate hidden and
      open it only where an iteration needs its parts. */
  lemma Avx2ProgressParts(s0: State, w: seq<Word>, v: seq<Word>, ks: seq<Word>, kv: seq<Word>,
                          s: State, x: seq<M256>, ms: seq<Word>, t2: seq<Word>,
                          base: nat, renewed: nat)
    ensures Avx2Progress(s0, w, v, ks, kv, s, x, ms, t2, base, renewed) <==>
      && |w| == RoundsNum && |v| == RoundsNum && |ks| == RoundsNum
      && base + renewed <= 64 && renewed <= BlockWordsNum
      && s == RunRounds(s0, ks[..base + renewed])
      && Window2(x, w, v, base + renewed)
      && KeyedSlots(ms, ks, base, renewed)
      && Filled(t2, kv, base + renewed + 16)
  {
  }

  /** The lane-0 block's half of an iteration: two rounds on the slots about to be refreshed,
      then the refreshed pair stored in their place. */
  lemma FirstBlockRounds(s0: State, ks: seq<Word>, s: State, ms: seq<Word>, base: nat, j: nat,
                         renewed: nat, y: M128)
    requires |ks| == RoundsNum && renewed == 2 * j && renewed + 2 <= 16 && base + 16 <= 64
    requires s == RunRounds(s0, ks[..base + renewed]) && KeyedSlots(ms, ks, base, renewed)
    requires y == LoadWords128(ks, base + renewed + 16)
    ensures |ms| == BlockWordsNum
    ensures ShaRound(ShaRound(s, ms[2 * j]), ms[2 * j + 1]) == RunRounds(s0, ks[..base + renewed + 2])
    ensures KeyedSlots(StoreWords128(ms, 2 * j, y), ks, base, renewed + 2)
  {
    hide ShaRound, RunRounds, KeyedSlots, StoreWords128, LoadWords128;
    KeyedSlots0(ms, ks, base, renewed);
    RunRoundsStep(s0, ks, base + renewed);
    RunRoundsStep(s0, ks, base + renewed + 1);
    KeyedSlotsStore(ms, ks, base, renewed, y);
  }

  /** One iteration of the inner loop of `rounds_0_63_avx2`: a wide schedule step, two
      rounds of the lane-0 block, and the lane-1 block's new keyed pair saved in `t2`. The
      constants come from `K64X4` at `4 * m`, where `2 * m` is the schedule word computed. */
  lemma Avx2Iteration(s0: State, w: seq<Word>, v: seq<Word>, k: seq<Word>, s: State, x: seq<M256>,
                      ms: seq<Word>, t2: seq<Word>, base: nat, j: nat, renewed: nat,
                      m: nat, k64x4Idx: nat, t2Idx: nat)
    requires |k| == RoundsNum && |w| == RoundsNum && |v| == RoundsNum
    requires renewed == 2 * j && renewed + 2 <= 16 && base + 16 <= 64
    requires 2 * m == base + renewed + 16 && k64x4Idx == 4 * m && t2Idx == base + renewed + 16
    requires forall t :: 16 <= t < RoundsNum ==> Recurrence(w, t)
    requires forall t :: 16 <= t < RoundsNum ==> Recurrence(v, t)
    requires Avx2Progress(s0, w, v, AddKeys(w, k), AddKeys(v, k), s, x, ms, t2, base, renewed)
    ensures |x| == 8 && |ms| == BlockWordsNum && |t2| == RoundsNum && k64x4Idx + 4 <= 2 * RoundsNum
    ensures Avx2Progress(s0, w, v, AddKeys(w, k), AddKeys(v, k),
                         ShaRound(ShaRound(s, ms[2 * j]), ms[2 * j + 1]),
                         UpdateXAvx2(x, LoadWords256(K64X4(k), k64x4Idx)).x,
                         StoreWords128(ms, 2 * j, Mm256ExtractI128(UpdateXAvx2(x, LoadWords256(K64X4(k), k64x4Idx)).y, 0)),
                         StoreWords128(t2, t2Idx, Mm256ExtractI128(UpdateXAvx2(x, LoadWords256(K64X4(k), k64x4Idx)).y, 1)),
                         base, renewed + 2)
  {
    var ks := AddKeys(w, k);
    var kv := AddKeys(v, k);
    Avx2ProgressParts(s0, w, v, ks, kv, s, x, ms, t2, base, renewed);
    assert |x| == 8 && |ms| == BlockWordsNum && |t2| == RoundsNum;
    hide WrappingAdd, ShaRound, ScheduleWord, UpdateXAvx2, AddKeys, Window2, RunRounds, K64X4,
      LoadWords128, LoadWords256, StoreWords128, KeyedSlots, Filled, Avx2Progress, Mm256ExtractI128;
    K64X4Lanes(k, m);
    var step := UpdateXAvx2(x, LoadWords256(K64X4(k), k64x4Idx));
    var s' := ShaRound(ShaRound(s, ms[2 * j]), ms[2 * j + 1]);
    var ms' := StoreWords128(ms, 2 * j, Mm256ExtractI128(step.y, 0));
    var t2' := StoreWords128(t2, t2Idx, Mm256ExtractI128(step.y, 1));
    UpdateXAvx2Step(x, w, v, k, base + renewed);
    ExtractLanes(step.y);
    FirstBlockRounds(s0, ks, s, ms, base, j, renewed, Mm256ExtractI128(step.y, 0));
    FilledStore(t2, kv, base + renewed + 16, Mm256ExtractI128(step.y, 1));
    Avx2ProgressParts(s0, w, v, ks, kv, s', step.x, ms', t2', base, renewed + 2);
  }

  /** One pass `i` of the outer loop of `rounds_0_63_avx2`: sixteen rounds of the lane-0
      block from `base`, with the wide schedule stepped eight times and the lane-1 block's
      keyed words stored at `16 * i + 2 * j`. */
  method RoundsPassAvx2(ghost s0: State, ghost w: seq<Word>, ghost v: seq<Word>, k: seq<Word>, k4: seq<Word>,
                        ghost base: nat, i: nat, ghost m0: nat, k64x4Idx0: nat,
                        s1: State, x1: seq<M256>, ms1: seq<Word>, t21: seq<Word>)
    returns (s: State, x: seq<M256>, ms: seq<Word>, t2: seq<Word>, k64x4Idx: nat)
    requires |k| == RoundsNum && |w| == RoundsNum && |v| == RoundsNum && k4 == K64X4(k)
    requires base + 16 <= 64 && 16 * i == base + 16 && 2 * m0 == base + 16 && k64x4Idx0 == 4 * m0
    requires forall t :: 16 <= t < RoundsNum ==> Recurrence(w, t)
    requires forall t :: 16 <= t < RoundsNum ==> Recurrence(v, t)
    requires Avx2Progress(s0, w, v, AddKeys(w, k), AddKeys(v, k), s1, x1, ms1, t21, base, 0)
    ensures Avx2Progress(s0, w, v, AddKeys(w, k), AddKeys(v, k), s, x, ms, t2, base, BlockWordsNum)
    ensures k64x4Idx == k64x4Idx0 + 32
  {
    hide ShaRound, UpdateXAvx2, AddKeys, K64X4, LoadWords256, StoreWords128, Mm256ExtractI128,
      Avx2Progress, Recurrence;
    s, x, ms, t2, k64x4Idx := s1, x1, ms1, t21, k64x4Idx0;
    ghost var renewed := 0;
    ghost var m := m0;
    for j := 0 to 8
      invariant renewed == 2 * j && 2 * m == base + renewed + 16 && k64x4Idx == 4 * m
      invariant Avx2Progress(s0, w, v, AddKeys(w, k), AddKeys(v, k), s, x, ms, t2, base, renewed)
    {
      Avx2Iteration(s0, w, v, k, s, x, ms, t2, base, j, renewed, m, k64x4Idx, 16 * i + 2 * j);
      var y := UpdateXAvx2(x, LoadWords256(k4, k64x4Idx));
      s := ShaRound(s, ms[2 * j]);
      s := ShaRound(s, ms[2 * j + 1]);
      ms := StoreWords128(ms, 2 * j, Mm256ExtractI128(y.y, 0));
      t2 := StoreWords128(t2, 16 * i + 2 * j, Mm256ExtractI128(y.y, 1));
      x := y.x;
      k64x4Idx := k64x4Idx + 4;
      renewed := renewed + 2;
      m := m + 1;
    }
  }

  /** `rounds_0_63_avx2`: rounds 0 to 63 of the lane-0 block (read at offset `first`) while
      both schedules are stepped; `ms` ends up holding the lane-0 block's keyed words of
      rounds 64 to 79 and `t2` all eighty keyed words of the lane-1 block (read at offset
      `second`). `w` and `v` are the two schedules. */
  method Rounds0To63Avx2(s0: State, x0: seq<M256>, ms0: seq<Word>, t20: seq<Word>, k: seq<Word>,
                         ghost w: seq<Word>, ghost v: seq<Word>)
    returns (s: State, x: seq<M256>, ms: seq<Word>, t2: seq<Word>)
    requires |k| == RoundsNum && |w| == RoundsNum && |v| == RoundsNum
    requires forall t :: 16 <= t < RoundsNum ==> Recurrence(w, t)
    requires forall t :: 16 <= t < RoundsNum ==> Recurrence(v, t)
    requires Window2(x0, w, v, 0) && ms0 == AddKeys(w, k)[..BlockWordsNum]
    requires |t20| == RoundsNum && t20[..BlockWordsNum] == AddKeys(v, k)[..BlockWordsNum]
    ensures s == RunRounds(s0, AddKeys(w, k)[..64])
    ensures ms == AddKeys(w, k)[64..]
    ensures t2 == AddKeys(v, k)
    ensures |x| == 8
  {
    hide ShaRound, UpdateXAvx2, AddKeys, K64X4, LoadWords256, StoreWords128, Mm256ExtractI128,
      Avx2Progress, Recurrence, Window2, RunRounds;
    ghost var ks := AddKeys(w, k);
    ghost var kv := AddKeys(v, k);
    Avx2Start(s0, w, v, ks, kv, x0, ms0, t20);
    var k4 := K64X4(k);
    s, x, ms, t2 := s0, x0, ms0, t20;
    var k64x4Idx := 2 * BlockWordsNum;
    ghost var base := 0;
    ghost var m := 8;
    for i := 1 to 5
      invariant base == 16 * (i - 1) && 2 * m == base + 16 && k64x4Idx == 4 * m
      invariant Avx2Progress(s0, w, v, ks, kv, s, x, ms, t2, base, 0)
    {
      s, x, ms, t2, k64x4Idx := RoundsPassAvx2(s0, w, v, k, k4, base, i, m, k64x4Idx, s, x, ms, t2);
      Avx2NextPass(s0, w, v, ks, kv, s, x, ms, t2, base);
      base := base + 16;
      m := m + 8;
    }
    Avx2Done(s0, w, v, ks, kv, s, x, ms, t2);
  }

  lemma Avx2Start(s0: State, w: seq<Word>, v: seq<Word>, ks: seq<Word>, kv: seq<Word>,
                  x0: seq<M256>, ms0: seq<Word>, t20: seq<Word>)
    requires |w| == RoundsNum && |v| == RoundsNum && |ks| == RoundsNum && |kv| == RoundsNum
    requires Window2(x0, w, v, 0) && ms0 == ks[..BlockWordsNum]
    requires |t20| == RoundsNum && t20[..BlockWordsNum] == kv[..BlockWordsNum]
    ensures Avx2Progress(s0, w, v, ks, kv, s0, x0, ms0, t20, 0, 0)
  {
    KeyedSlotsWindow(ms0, ks, 0);
    RunRoundsNone(s0, ks);
    assert forall q :: 0 <= q < BlockWordsNum ==> t20[q] == t20[..BlockWordsNum][q];
  }

  lemma Avx2NextPass(s0: State, w: seq<Word>, v: seq<Word>, ks: seq<Word>, kv: seq<Word>,
                     s: State, x: seq<M256>, ms: seq<Word>, t2: seq<Word>, base: nat)
    requires Avx2Progress(s0, w, v, ks, kv, s, x, ms, t2, base, BlockWordsNum)
    ensures Avx2Progress(s0, w, v, ks, kv, s, x, ms, t2, base + BlockWordsNum, 0)
  {
    KeyedSlotsNext(ms, ks, base);
  }

  lemma Avx2Done(s0: State, w: seq<Word>, v: seq<Word>, ks: seq<Word>, kv: seq<Word>,
                 s: State, x: seq<M256>, ms: seq<Word>, t2: seq<Word>)
    requires Avx2Progress(s0, w, v, ks, kv, s, x, ms, t2, 64, 0)
    ensures s == RunRounds(s0, ks[..64]) && ms == ks[64..] && t2 == kv && |x| == 8
  {
    KeyedSlotsWindow(ms, ks, 64);
  }
}
