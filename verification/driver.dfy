/**
 * `compress` and `sha512_compress_x86_64_avx2` (sha2/src/sha512/x86.rs): the wide driver
 * compresses a lone first block when the count is odd, then the remaining blocks two at a
 * time, two 128-byte blocks loaded from the 256 bytes of each pair into lanes 0 and 1.
 *
 * The wide loader is modelled with the chunk offsets of its two lanes as parameters, so
 * the same driver describes the loader as the source writes it (offsets 1 and 0) and as
 * it is evidently meant (offsets 0 and 8). `LaneBlocks` names the blocks a driver with
 * given offsets actually compresses.
 */
module Driver {
  import opened Words
  import opened Fips
  import opened Intrinsics
  import opened Rounds
  import opened Avx
  import opened Avx2

  /** The two blocks the wide loader hands to lanes 0 and 1 when it reads the 256 bytes of
      the pair `a`, `b` at chunk offsets `first` and `second`. */
  function PairBlocks(a: Block, b: Block, first: nat, second: nat): (r: seq<Block>)
    requires first <= 8 && second <= 8
    ensures |r| == 2
  {
    [BlockAt(PairBytes(a, b), first), BlockAt(PairBytes(a, b), second)]
  }

  /** The 256 bytes of the pair `a`, `b`, as the wide loader reads them. */
  function PairBytes(a: Block, b: Block): (r: seq<Byte>)
    ensures |r| == 2 * BlockByteLen && r[..BlockByteLen] == a && r[BlockByteLen..] == b
  {
    a + b
  }

  /** The blocks compressed for the pairs of `bs`, pair after pair. A count below two holds
      no pair. */
  function Pairs(bs: seq<Block>, first: nat, second: nat): (r: seq<Block>)
    requires first <= 8 && second <= 8
    ensures |bs| % 2 == 0 ==> |r| == |bs|
    decreases |bs|
  {
    if |bs| < 2 then []
    else Pairs(bs[..|bs| - 2], first, second) + PairBlocks(bs[|bs| - 2], bs[|bs| - 1], first, second)
  }

  /** The blocks the wide driver compresses, in order: the lone first block when the count
      is odd, then the blocks of every pair. */
  function LaneBlocks(blocks: seq<Block>, first: nat, second: nat): (r: seq<Block>)
    requires first <= 8 && second <= 8
    ensures |r| == |blocks|
  {
    blocks[..|blocks| % 2] + Pairs(blocks[|blocks| % 2..], first, second)
  }

  /** Read at offsets 0 and 8, a pair is the two blocks themselves. */
  lemma PairBlocksCorrected(a: Block, b: Block)
    ensures PairBlocks(a, b, 0, 8) == [a, b]
  {
    assert (a + b)[0 .. BlockByteLen] == a;
    assert (a + b)[128 .. 256] == b;
  }

  /** With offsets 0 and 8 every pair goes through unchanged. */
  lemma {:induction false} PairsCorrected(bs: seq<Block>)
    requires |bs| % 2 == 0
    ensures Pairs(bs, 0, 8) == bs
    decreases |bs|
  {
    if |bs| > 0 {
      var n := |bs| - 2;
      PairsCorrected(bs[..n]);
      PairBlocksCorrected(bs[n], bs[n + 1]);
      assert bs[..n] + [bs[n], bs[n + 1]] == bs;
    }
  }

  /** With offsets 0 and 8 the wide driver compresses exactly the blocks it is given. */
  lemma LaneBlocksCorrected(blocks: seq<Block>)
    ensures LaneBlocks(blocks, 0, 8) == blocks
  {
    var start := |blocks| % 2;
    PairsCorrected(blocks[start..]);
    assert blocks[..start] + blocks[start..] == blocks;
  }

  /** Read at the source's offsets, lane 0 gets the bytes 16..144 of the pair and lane 1
      gets the first block again. */
  lemma PairBlocksAsWritten(a: Block, b: Block)
    ensures PairBlocks(a, b, 1, 0) == [a[16..] + b[..16], a]
  {
    assert (a + b)[16 .. 144] == a[16..] + b[..16];
    assert (a + b)[0 .. BlockByteLen] == a;
  }

  /** At the source's offsets the second block of a pair matters only through its first
      sixteen bytes: two pairs that differ only past them compress alike. */
  lemma AsWrittenIgnoresSecondBlock(a: Block, b: Block, b': Block)
    requires b[..16] == b'[..16]
    ensures LaneBlocks([a, b], 1, 0) == LaneBlocks([a, b'], 1, 0)
  {
    PairBlocksAsWritten(a, b);
    PairBlocksAsWritten(a, b');
    assert [a, b][0..] == [a, b] && [a, b'][0..] == [a, b'];
    assert [a, b][..2 - 2] == [] && [a, b'][..2 - 2] == [];
  }

  /** A pair of distinct blocks the source's offsets do not compress as given: the second
      lane compresses the first block a second time. */
  lemma AsWrittenCounterexample()
    ensures var a: Block := seq(BlockByteLen, _ => 0);
            var b: Block := seq(BlockByteLen, _ => 1);
            LaneBlocks([a, b], 1, 0) != [a, b]
  {
    var a: Block := seq(BlockByteLen, _ => 0);
    var b: Block := seq(BlockByteLen, _ => 1);
    PairBlocksAsWritten(a, b);
    assert [a, b][0..] == [a, b];
    assert [a, b][..2 - 2] == [];
    assert LaneBlocks([a, b], 1, 0)[1] == a;
    assert a[0] != b[0];
  }

  /** At the source's offsets a pair is loaded as itself exactly when both blocks are the
      same block and that block repeats with period sixteen bytes; any other pair is not. */
  lemma AsWrittenPairExact(a: Block, b: Block)
    ensures PairBlocks(a, b, 1, 0) == [a, b] <==> a == b && a[16..] + a[..16] == a
  {
    PairBlocksAsWritten(a, b);
    if a == b && a[16..] + a[..16] == a {
      assert b[..16] == a[..16];
    }
    if PairBlocks(a, b, 1, 0) == [a, b] {
      assert [a[16..] + b[..16], a][1] == b;
    }
  }

  /** Compressing a two-block sequence is compressing one block, then the other. */
  lemma SoftCompressTwo(h: State, p: seq<Block>, k: seq<Word>)
    requires |p| == 2 && |k| == RoundsNum
    ensures SoftCompress(h, p, k) == FipsCompressBlock(FipsCompressBlock(h, p[0], k), p[1], k)
  {
    hide FipsCompressBlock;
    assert p[..1][..0] == [] && p[..1][0] == p[0];
    assert SoftCompress(h, p[..1], k) == FipsCompressBlock(h, p[0], k);
  }

  /** Adding one pair to the processed range adds that pair's blocks. */
  lemma PairsStep(blocks: seq<Block>, start: nat, i: nat, first: nat, second: nat)
    requires start <= i && i + 2 <= |blocks| && first <= 8 && second <= 8
    ensures Pairs(blocks[start..i + 2], first, second)
         == Pairs(blocks[start..i], first, second) + PairBlocks(blocks[i], blocks[i + 1], first, second)
  {
    hide PairBlocks;
    var c := blocks[start..i + 2];
    assert c[..|c| - 2] == blocks[start..i];
  }

  /** What the loader leaves behind is what `rounds_0_63_avx2` starts from: the first
      sixteen words of both schedules, and their keyed words in `ms` and `t2`. */
  lemma LoadedStart(x: seq<M256>, ms: seq<Word>, t2: seq<Word>, a: Block, b: Block, k: seq<Word>)
    requires |k| == RoundsNum && |t2| == RoundsNum
    requires Window2(x, BlockWords(a), BlockWords(b), 0)
    requires ms == AddKeys(BlockWords(a), k)
    requires t2[..BlockWordsNum] == AddKeys(BlockWords(b), k)
    ensures Window2(x, Schedule(BlockWords(a)), Schedule(BlockWords(b)), 0)
    ensures ms == AddKeys(Schedule(BlockWords(a)), k)[..BlockWordsNum]
    ensures t2[..BlockWordsNum] == AddKeys(Schedule(BlockWords(b)), k)[..BlockWordsNum]
  {
    hide WrappingAdd;
    var w := Schedule(BlockWords(a));
    var v := Schedule(BlockWords(b));
    AddKeysPrefix(w, k, BlockWordsNum);
    AddKeysPrefix(v, k, BlockWordsNum);
  }

  /** One iteration of the pair loop: load both blocks, run the first through
      `rounds_0_63_avx2` and `rounds_64_79`, feed it forward, then run the second through
      `process_second_block` from the new chaining value and feed it forward. */
  method CompressPair(state: State, x: seq<M256>, ms: seq<Word>, t2: seq<Word>, data: seq<Byte>,
                      k: seq<Word>, first: nat, second: nat)
    returns (r: State, x': seq<M256>, ms': seq<Word>, t2': seq<Word>)
    requires |x| == 8 && |ms| == BlockWordsNum && |t2| == RoundsNum && |k| == RoundsNum
    requires 16 * first + BlockByteLen <= |data| && 16 * second + BlockByteLen <= |data|
    ensures |x'| == 8 && |ms'| == BlockWordsNum && |t2'| == RoundsNum
    ensures r == FipsCompressBlock(FipsCompressBlock(state, BlockAt(data, first), k), BlockAt(data, second), k)
  {
    hide FipsRounds, FeedForward, RunRounds, AddKeys, ShaRound, WrappingAdd, BlockWords, BlockAt,
      Window2, Schedule, FipsCompressBlock;
    x', ms', t2' := LoadDataAvx2(x, ms, t2, data, k, first, second);
    ghost var a := BlockAt(data, first);
    ghost var b := BlockAt(data, second);
    ghost var w := Schedule(BlockWords(a));
    ghost var v := Schedule(BlockWords(b));
    LoadedStart(x', ms', t2', a, b, k);
    // First block
    var current := state;
    current, x', ms', t2' := Rounds0To63Avx2(current, x', ms', t2', k, w, v);
    current := Rounds64To79(current, ms');
    RunRoundsSplit(state, AddKeys(w, k), 64);
    KeyedRoundsCompress(state, a, k);
    var mid := AccumulateState(state, current);
    assert mid == FipsCompressBlock(state, a, k);
    // Second block
    current := mid;
    current := ProcessSecondBlock(current, t2');
    KeyedRoundsCompress(mid, b, k);
    r := AccumulateState(mid, current);
  }

  /** Before the first pair, the chain holds the lone leading block when the count is odd. */
  lemma LeadBlockChain(state: State, blocks: seq<Block>, k: seq<Word>, first: nat, second: nat,
                       start: nat, r: State)
    requires |k| == RoundsNum && first <= 8 && second <= 8 && start == |blocks| % 2
    requires r == if start == 1 then FipsCompressBlock(state, blocks[0], k) else state
    ensures r == SoftCompress(state, blocks[..start] + Pairs(blocks[start..start], first, second), k)
  {
    hide FipsCompressBlock;
    assert blocks[start..start] == [];
    assert blocks[..start] + Pairs(blocks[start..start], first, second) == blocks[..start];
    if start == 1 {
      assert blocks[..1][..0] == [];
    }
  }

  /** Once every pair is compressed, the chain covers all the blocks the driver loads. */
  lemma PairsChainDone(state: State, blocks: seq<Block>, k: seq<Word>, first: nat, second: nat)
    requires |k| == RoundsNum && first <= 8 && second <= 8
    ensures var start := |blocks| % 2;
      SoftCompress(state, blocks[..start] + Pairs(blocks[start..|blocks|], first, second), k)
      == SoftCompress(state, LaneBlocks(blocks, first, second), k)
  {
    hide FipsCompressBlock, SoftCompress, Pairs;
    assert blocks[|blocks| % 2..|blocks|] == blocks[|blocks| % 2..];
  }

  /** Compressing the next pair's two loaded blocks extends the chain by that pair. */
  lemma PairsChain(state: State, blocks: seq<Block>, k: seq<Word>, start: nat, i: nat,
                   first: nat, second: nat, data: seq<Byte>, r: State, r': State)
    requires |k| == RoundsNum && first <= 8 && second <= 8
    requires start <= i && i + 2 <= |blocks| && data == PairBytes(blocks[i], blocks[i + 1])
    requires r == SoftCompress(state, blocks[..start] + Pairs(blocks[start..i], first, second), k)
    requires r' == FipsCompressBlock(FipsCompressBlock(r, BlockAt(data, first), k), BlockAt(data, second), k)
    ensures r' == SoftCompress(state, blocks[..start] + Pairs(blocks[start..i + 2], first, second), k)
  {
    hide FipsCompressBlock, Pairs, SoftCompress;
    var done := blocks[..start] + Pairs(blocks[start..i], first, second);
    var pair := PairBlocks(blocks[i], blocks[i + 1], first, second);
    PairsStep(blocks, start, i, first, second);
    SoftCompressTwo(r, pair, k);
    SoftCompressAppend(state, done, pair, k);
    assert done + pair == blocks[..start] + Pairs(blocks[start..i + 2], first, second);
  }

  /** `sha512_compress_x86_64_avx2` with the wide loader reading its lanes at chunk offsets
      `first` and `second` of each pair: it compresses `LaneBlocks` of the input. `x`, `ms`
      and `t2` are allocated once and reused by every pair, as in the source. */
  method Sha512CompressAvx2With(state: State, blocks: seq<Block>, k: seq<Word>, first: nat, second: nat)
    returns (r: State)
    requires |k| == RoundsNum && first <= 8 && second <= 8
    ensures r == SoftCompress(state, LaneBlocks(blocks, first, second), k)
  {
    hide FipsCompressBlock, Pairs, PairBlocks, BlockAt, SoftCompress, LaneBlocks;
    r := state;
    var startBlock := 0;
    if |blocks| % 2 != 0 {
      r := Sha512CompressAvx(r, blocks[0], k);
      startBlock := startBlock + 1;
    }
    LeadBlockChain(state, blocks, k, first, second, startBlock, r);
    var ms := seq(BlockWordsNum, _ => 0);
    var t2 := seq(RoundsNum, _ => 0);
    var x := seq(8, _ => Zero256);
    var i := startBlock;
    while i < |blocks|
      invariant startBlock == |blocks| % 2 && startBlock <= i <= |blocks| && (i - startBlock) % 2 == 0
      invariant |x| == 8 && |ms| == BlockWordsNum && |t2| == RoundsNum
      invariant r == SoftCompress(state, blocks[..startBlock] + Pairs(blocks[startBlock..i], first, second), k)
      decreases |blocks| - i
    {
      var data := PairBytes(blocks[i], blocks[i + 1]);
      ghost var before := r;
      r, x, ms, t2 := CompressPair(r, x, ms, t2, data, k, first, second);
      PairsChain(state, blocks, k, startBlock, i, first, second, data, before, r);
      i := i + 2;
    }
    PairsChainDone(state, blocks, k, first, second);
  }

  /** `sha512_compress_x86_64_avx2` as the source writes it: lane 1 of register `i` is read
      from chunk `i` and lane 0 from chunk `i + 1` of the pair. */
  method Sha512CompressAvx2AsWritten(state: State, blocks: seq<Block>, k: seq<Word>) returns (r: State)
    requires |k| == RoundsNum
    ensures r == SoftCompress(state, LaneBlocks(blocks, 1, 0), k)
  {
    r := Sha512CompressAvx2With(state, blocks, k, 1, 0);
  }

  /** `sha512_compress_x86_64_avx2` with the loader corrected to read the first block of each
      pair into lane 0 and the second into lane 1: the blocks are compressed in order, as
      FIPS 180-4 chains them. */
  method Sha512CompressAvx2(state: State, blocks: seq<Block>, k: seq<Word>) returns (r: State)
    requires |k| == RoundsNum
    ensures r == SoftCompress(state, blocks, k)
  {
    r := Sha512CompressAvx2With(state, blocks, k, 0, 8);
    LaneBlocksCorrected(blocks);
  }

  /** `compress` as the source writes it: the AVX2 path when the processor has it, otherwise
      the portable compression, which is FIPS 180-4 itself. With AVX2 the blocks compressed
      are the ones the as-written loader reads, in general not the ones given. */
  method Compress(state: State, blocks: seq<Block>, k: seq<Word>, avx2Available: bool) returns (r: State)
    requires |k| == RoundsNum
    ensures avx2Available ==> r == SoftCompress(state, LaneBlocks(blocks, 1, 0), k)
    ensures !avx2Available ==> r == SoftCompress(state, blocks, k)
  {
    if avx2Available {
      r := Sha512CompressAvx2AsWritten(state, blocks, k);
    } else {
      r := SoftCompress(state, blocks, k);
    }
  }

  /** `compress` dispatching to the corrected wide path: either way the blocks are
      compressed in order. */
  method CompressCorrected(state: State, blocks: seq<Block>, k: seq<Word>, avx2Available: bool) returns (r: State)
    requires |k| == RoundsNum
    ensures r == SoftCompress(state, blocks, k)
  {
    if avx2Available {
      r := Sha512CompressAvx2(state, blocks, k);
    } else {
      r := SoftCompress(state, blocks, k);
    }
  }
}
