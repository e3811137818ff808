/**
 * The single-block AVX path: `load_data_avx`, `rounds_0_63_avx` and
 * `sha512_compress_x86_64_avx` (sha2/src/sha512/x86.rs).
 */
module Avx {
  import opened Words
  import opened Fips
  import opened Intrinsics
  import opened ScheduleUpdate
  import opened Rounds

  /** Chunk `j` of the block that starts at chunk `a`, loaded and byte-swapped, is the
      block's word pair `j`. */
  lemma LoadChunk(data: seq<Byte>, a: nat, j: nat)
    requires 16 * a + BlockByteLen <= |data| && j < 8
    ensures ShuffleEpi8(LoadU128(Chunk(data, j + a)), ByteSwapMask)
         == M128(BlockWords(data[16 * a .. 16 * a + BlockByteLen])[2 * j],
                 BlockWords(data[16 * a .. 16 * a + BlockByteLen])[2 * j + 1])
  {
    hide ShuffleEpi8, LoadU128, BigEndian64;
    var c := data[16 * a + 16 * j .. 16 * a + 16 * j + 16];
    assert Chunk(data, j + a) == c;
    ByteSwapLoad(c);
    ChunkHalves(data, 16 * a, j);
  }

  lemma ChunkHalves(data: seq<Byte>, base: nat, j: nat)
    requires base + BlockByteLen <= |data| && j < 8
    ensures data[base + 16 * j .. base + 16 * j + 16][..8] == data[base .. base + BlockByteLen][8 * (2 * j) .. 8 * (2 * j) + 8]
    ensures data[base + 16 * j .. base + 16 * j + 16][8..] == data[base .. base + BlockByteLen][8 * (2 * j + 1) .. 8 * (2 * j + 1) + 8]
  {
    var c := data[base + 16 * j .. base + 16 * j + 16];
    var b := data[base .. base + BlockByteLen];
    forall i | 0 <= i < 8
      ensures c[..8][i] == b[8 * (2 * j) .. 8 * (2 * j) + 8][i]
      ensures c[8..][i] == b[8 * (2 * j + 1) .. 8 * (2 * j + 1) + 8][i]
    {
      assert c[i] == data[base + 16 * j + i];
      assert c[8 + i] == data[base + 16 * j + 8 + i];
    }
  }

  /** The window of eight registers holding schedule words `n .. n + 16` of `w` as pairs. */
  ghost predicate Window(x: seq<M128>, w: seq<Word>, n: nat)
    requires n + 16 <= |w|
  {
    |x| == 8 && forall p :: 0 <= p < 8 ==> x[p] == M128(w[n + 2 * p], w[n + 2 * p + 1])
  }

  /** `load_data_avx`: the block's sixteen words go into `x`, and the words plus their round
      constants into `ms`. */
  method LoadDataAvx(x: seq<M128>, ms: seq<Word>, block: Block, k: seq<Word>)
    returns (x': seq<M128>, ms': seq<Word>)
    requires |x| == 8 && |ms| == BlockWordsNum && |k| == RoundsNum
    ensures Window(x', BlockWords(block), 0)
    ensures ms' == AddKeys(BlockWords(block), k)
  {
    hide WrappingAdd, ShuffleEpi8, LoadU128, BlockWords;
    ghost var w := BlockWords(block);
    x', ms' := x, ms;
    for i := 0 to 8
      invariant |x'| == 8 && |ms'| == 16
      invariant forall p :: 0 <= p < i ==> x'[p] == M128(w[2 * p], w[2 * p + 1])
      invariant forall q :: 0 <= q < 2 * i ==> ms'[q] == WrappingAdd(w[q], k[q])
    {
      LoadChunk(block, 0, i);
      MasksSwapBytes();
      assert block[0 .. BlockByteLen] == block;
      x' := x'[i := LoadU128(Chunk(block, i))];
      x' := x'[i := ShuffleEpi8(x'[i], MaskAvx)];
      var y := AddEpi64(x'[i], LoadWords128(k, 2 * i));
      ms' := StoreWords128(ms', 2 * i, y);
    }
  }

  /** One schedule step on the window at `n` gives the window at `n + 2` and the keyed
      words `n + 16` and `n + 17`. */
  lemma UpdateXAvxStep(x: seq<M128>, w: seq<Word>, k: seq<Word>, n: nat)
    requires |w| == RoundsNum && |k| == RoundsNum && n + 18 <= RoundsNum
    requires Window(x, w, n) && Recurrence(w, n + 16) && Recurrence(w, n + 17)
    ensures Window(UpdateXAvx(x, LoadWords128(k, n + 16)).x, w, n + 2)
    ensures UpdateXAvx(x, LoadWords128(k, n + 16)).y == LoadWords128(AddKeys(w, k), n + 16)
  {
    hide ScheduleWord, WrappingAdd;
    var r := UpdateXAvx(x, LoadWords128(k, n + 16));
    assert r.x[7] == M128(w[n + 16], w[n + 17]);
    forall p | 0 <= p < 7
      ensures r.x[p] == M128(w[n + 2 + 2 * p], w[n + 2 + 2 * p + 1])
    {
      assert r.x[p] == r.x[..7][p] == x[p + 1];
    }
  }

  /** The circular schedule `ms` while rounds `base .. base + 16` run: the first `renewed`
      slots already hold the keyed words sixteen rounds further on. */
  ghost predicate KeyedSlots(ms: seq<Word>, ks: seq<Word>, base: nat, renewed: nat) {
    && |ms| == BlockWordsNum && renewed <= BlockWordsNum && base + BlockWordsNum + renewed <= |ks|
    && forall q :: 0 <= q < BlockWordsNum ==> ms[q] == ks[base + q + (if q < renewed then 16 else 0)]
  }

  /** With no slot refreshed, the circular schedule is a window of the keyed schedule. */
  lemma KeyedSlotsWindow(ms: seq<Word>, ks: seq<Word>, base: nat)
    requires base + BlockWordsNum <= |ks|
    ensures KeyedSlots(ms, ks, base, 0) <==> ms == ks[base .. base + BlockWordsNum]
  {
    if ms == ks[base .. base + BlockWordsNum] {
      assert forall q :: 0 <= q < BlockWordsNum ==> ms[q] == ks[base + q];
    }
  }

  /** The next two slots to refresh still hold the keyed words of the next two rounds. */
  lemma KeyedSlots0(ms: seq<Word>, ks: seq<Word>, base: nat, renewed: nat)
    requires KeyedSlots(ms, ks, base, renewed) && renewed + 2 <= BlockWordsNum
    ensures ms[renewed] == ks[base + renewed] && ms[renewed + 1] == ks[base + renewed + 1]
  {
  }

  /** Once every slot is refreshed, the next sixteen rounds begin with nothing refreshed. */
  lemma KeyedSlotsNext(ms: seq<Word>, ks: seq<Word>, base: nat)
    requires KeyedSlots(ms, ks, base, BlockWordsNum)
    ensures KeyedSlots(ms, ks, base + BlockWordsNum, 0)
  {
  }

  /** Storing the keyed pair `base + renewed + 16` in slots `renewed` and `renewed + 1`
      refreshes two more slots. */
  lemma KeyedSlotsStore(ms: seq<Word>, ks: seq<Word>, base: nat, renewed: nat, y: M128)
    requires KeyedSlots(ms, ks, base, renewed) && renewed + 2 <= BlockWordsNum
    requires base + renewed + 18 <= |ks| && y == LoadWords128(ks, base + renewed + 16)
    ensures KeyedSlots(StoreWords128(ms, renewed, y), ks, base, renewed + 2)
  {
    var ms' := StoreWords128(ms, renewed, y);
    forall q | 0 <= q < 16
      ensures ms'[q] == ks[base + q + (if q < renewed + 2 then 16 else 0)]
    {
      if q == renewed {
        assert ms'[q] == LoadWords128(ms', renewed).lo;
      } else if q == renewed + 1 {
        assert ms'[q] == LoadWords128(ms', renewed).hi;
      } else {
        assert ms'[q] == ms[q];
      }
    }
  }

  /** What holds after the rounds before `base + renewed` in `rounds_0_63_avx`: the state
      has taken those rounds, `x` holds the next sixteen schedule words and `ms` the keyed
      words of the next sixteen rounds. */
  ghost predicate AvxProgress(s0: State, w: seq<Word>, ks: seq<Word>, s: State, x: seq<M128>,
                              ms: seq<Word>, base: nat, renewed: nat)
  {
    && |w| == RoundsNum && |ks| == RoundsNum && base + renewed <= 64 && renewed <= BlockWordsNum
    && s == RunRounds(s0, ks[..base + renewed])
    && Window(x, w, base + renewed)
    && KeyedSlots(ms, ks, base, renewed)
  }

  /** The parts of `AvxProgress`, for the loop proofs that keep the predicate hidden and
      open it only where an iteration needs its parts. */
  lemma AvxProgressParts(s0: State, w: seq<Word>, ks: seq<Word>, s: State, x: seq<M128>,
                          ms: seq<Word>, base: nat, renewed: nat)
    ensures AvxProgress(s0, w, ks, s, x, ms, base, renewed) <==>
      && |w| == RoundsNum && |ks| == RoundsNum && base + renewed <= 64 && renewed <= BlockWordsNum
      && s == RunRounds(s0, ks[..base + renewed])
      && Window(x, w, base + renewed)
      && KeyedSlots(ms, ks, base, renewed)
  {
  }

  /** One iteration of the inner loop of `rounds_0_63_avx`: a schedule step and two rounds. */
  lemma AvxIteration(s0: State, w: seq<Word>, k: seq<Word>, s: State, x: seq<M128>,
                     ms: seq<Word>, base: nat, j: nat, renewed: nat, k64Idx: nat)
    requires |k| == RoundsNum && |w| == RoundsNum && renewed == 2 * j && renewed + 2 <= 16 && base + 16 <= 64
    requires k64Idx == base + renewed + 16
    requires forall t :: 16 <= t < RoundsNum ==> Recurrence(w, t)
    requires AvxProgress(s0, w, AddKeys(w, k), s, x, ms, base, renewed)
    ensures |x| == 8 && |ms| == BlockWordsNum
    ensures AvxProgress(s0, w, AddKeys(w, k), ShaRound(ShaRound(s, ms[2 * j]), ms[2 * j + 1]),
                        UpdateXAvx(x, LoadWords128(k, k64Idx)).x,
                        StoreWords128(ms, 2 * j, UpdateXAvx(x, LoadWords128(k, k64Idx)).y),
                        base, renewed + 2)
  {
    var ks := AddKeys(w, k);
    assert |x| == 8 && |ms| == BlockWordsNum;
    hide WrappingAdd, ShaRound, ScheduleWord, UpdateXAvx, AddKeys, Window, RunRounds,
      LoadWords128, StoreWords128, KeyedSlots, AvxProgress;
    AvxProgressParts(s0, w, ks, s, x, ms, base, renewed);
    var step := UpdateXAvx(x, LoadWords128(k, base + renewed + 16));
    var s' := ShaRound(ShaRound(s, ms[2 * j]), ms[2 * j + 1]);
    var ms' := StoreWords128(ms, 2 * j, step.y);
    UpdateXAvxStep(x, w, k, base + renewed);
    RunRoundsStep(s0, ks, base + renewed);
    RunRoundsStep(s0, ks, base + renewed + 1);
    KeyedSlots0(ms, ks, base, renewed);
    KeyedSlotsStore(ms, ks, base, renewed, step.y);
    AvxProgressParts(s0, w, ks, s', step.x, ms', base, renewed + 2);
  }

  /** One pass of the inner loop of `rounds_0_63_avx`: sixteen rounds from `base`, with the
      schedule stepped eight times. */
  method RoundsPassAvx(ghost s0: State, ghost w: seq<Word>, k: seq<Word>, ghost base: nat, k64Idx0: nat,
                       s1: State, x1: seq<M128>, ms1: seq<Word>)
    returns (s: State, x: seq<M128>, ms: seq<Word>, k64Idx: nat)
    requires |k| == RoundsNum && |w| == RoundsNum && base + 16 <= 64 && k64Idx0 == base + 16
    requires forall t :: 16 <= t < RoundsNum ==> Recurrence(w, t)
    requires AvxProgress(s0, w, AddKeys(w, k), s1, x1, ms1, base, 0)
    ensures AvxProgress(s0, w, AddKeys(w, k), s, x, ms, base, BlockWordsNum)
    ensures k64Idx == k64Idx0 + 16
  {
    hide ShaRound, UpdateXAvx, AddKeys, LoadWords128, StoreWords128, AvxProgress, Recurrence;
    s, x, ms, k64Idx := s1, x1, ms1, k64Idx0;
    ghost var renewed := 0;
    for j := 0 to 8
      invariant renewed == 2 * j && k64Idx == base + renewed + 16
      invariant AvxProgress(s0, w, AddKeys(w, k), s, x, ms, base, renewed)
    {
      AvxIteration(s0, w, k, s, x, ms, base, j, renewed, k64Idx);
      var y := UpdateXAvx(x, LoadWords128(k, k64Idx));
      s := ShaRound(s, ms[2 * j]);
      s := ShaRound(s, ms[2 * j + 1]);
      ms := StoreWords128(ms, 2 * j, y.y);
      x := y.x;
      k64Idx := k64Idx + 2;
      renewed := renewed + 2;
    }
  }

  /** `rounds_0_63_avx`: rounds 0 to 63, stepping the schedule two words at a time; `ms`
      ends up holding the keyed words of rounds 64 to 79. `w` is the block's schedule, of
      which `x` and `ms` hold the first sixteen words. */
  method Rounds0To63Avx(s0: State, x0: seq<M128>, ms0: seq<Word>, k: seq<Word>, ghost w: seq<Word>)
    returns (s: State, x: seq<M128>, ms: seq<Word>)
    requires |k| == RoundsNum && |w| == RoundsNum
    requires forall t :: 16 <= t < RoundsNum ==> Recurrence(w, t)
    requires Window(x0, w, 0) && ms0 == AddKeys(w, k)[..BlockWordsNum]
    ensures s == RunRounds(s0, AddKeys(w, k)[..64])
    ensures ms == AddKeys(w, k)[64..]
  {
    hide ShaRound, UpdateXAvx, AddKeys, LoadWords128, StoreWords128, AvxProgress, Recurrence,
      Window, RunRounds;
    ghost var ks := AddKeys(w, k);
    AvxStart(s0, w, ks, x0, ms0);
    s, x, ms := s0, x0, ms0;
    var k64Idx := BlockWordsNum;
    ghost var base := 0;
    for r := 0 to 4
      invariant base == 16 * r && k64Idx == base + 16
      invariant AvxProgress(s0, w, ks, s, x, ms, base, 0)
    {
      s, x, ms, k64Idx := RoundsPassAvx(s0, w, k, base, k64Idx, s, x, ms);
      AvxNextPass(s0, w, ks, s, x, ms, base);
      base := base + 16;
    }
    AvxDone(s0, w, ks, s, x, ms);
  }

  lemma AvxStart(s0: State, w: seq<Word>, ks: seq<Word>, x0: seq<M128>, ms0: seq<Word>)
    requires |w| == RoundsNum && |ks| == RoundsNum
    requires Window(x0, w, 0) && ms0 == ks[..BlockWordsNum]
    ensures AvxProgress(s0, w, ks, s0, x0, ms0, 0, 0)
  {
    KeyedSlotsWindow(ms0, ks, 0);
    RunRoundsNone(s0, ks);
  }

  lemma AvxNextPass(s0: State, w: seq<Word>, ks: seq<Word>, s: State, x: seq<M128>, ms: seq<Word>, base: nat)
    requires AvxProgress(s0, w, ks, s, x, ms, base, BlockWordsNum)
    ensures AvxProgress(s0, w, ks, s, x, ms, base + BlockWordsNum, 0)
  {
    KeyedSlotsNext(ms, ks, base);
  }

  lemma AvxDone(s0: State, w: seq<Word>, ks: seq<Word>, s: State, x: seq<M128>, ms: seq<Word>)
    requires AvxProgress(s0, w, ks, s, x, ms, 64, 0)
    ensures s == RunRounds(s0, ks[..64]) && ms == ks[64..]
  {
    KeyedSlotsWindow(ms, ks, 64);
  }

  /** `sha512_compress_x86_64_avx`: one block through the vectorised schedule and the
      scalar rounds is one block compressed as FIPS 180-4 specifies. */
  method Sha512CompressAvx(state: State, block: Block, k: seq<Word>) returns (r: State)
    requires |k| == RoundsNum
    ensures r == FipsCompressBlock(state, block, k)
  {
    hide FipsRounds, FeedForward, RunRounds, AddKeys, ShaRound, WrappingAdd, BlockWords;
    var ms := seq(BlockWordsNum, _ => 0);
    var x := seq(8, _ => Zero128);
    var current := state;
    ghost var w := Schedule(BlockWords(block));
    ghost var ks := AddKeys(w, k);
    x, ms := LoadDataAvx(x, ms, block, k);
    AddKeysPrefix(w, k, BlockWordsNum);
    current, x, ms := Rounds0To63Avx(current, x, ms, k, w);
    current := Rounds64To79(current, ms);
    RunRoundsSplit(state, ks, 64);
    KeyedRoundsCompress(state, block, k);
    r := AccumulateState(state, current);
  }
}
