/**
 * The x86 vector registers and the SSE/AVX/AVX2 intrinsics the core uses, on 64-bit lanes.
 * A `__m128i` is two 64-bit lanes, lane `lo` at the lower address; a `__m256i` is two
 * 128-bit lanes. Memory is little-endian, as on every x86 processor.
 */
module Intrinsics {
  import opened Words

  /** `__m128i`: lane `lo` holds bytes 0..8 of the register, lane `hi` bytes 8..16. */
  datatype M128 = M128(lo: Word, hi: Word)

  /** `__m256i`: `lane0` is the low 128 bits, `lane1` the high 128 bits. */
  datatype M256 = M256(lane0: M128, lane1: M128)

  const Zero128: M128 := M128(0, 0)
  const Zero256: M256 := M256(Zero128, Zero128)

  /** The sixteen bytes of a register in memory order. */
  function Bytes(a: M128): (b: seq<Byte>)
    ensures |b| == 16
  {
    LittleEndianBytes(a.lo) + LittleEndianBytes(a.hi)
  }

  /** The register sixteen bytes of memory load into. */
  function FromBytes(b: seq<Byte>): M128
    requires |b| == 16
  {
    M128(LittleEndian64(b[..8]), LittleEndian64(b[8..]))
  }

  /** Storing a register loaded from sixteen bytes gives the bytes back. */
  lemma BytesFromBytes(b: seq<Byte>)
    requires |b| == 16
    ensures Bytes(FromBytes(b)) == b
  {
    LittleEndianBytesRoundTrip(b[..8]);
    LittleEndianBytesRoundTrip(b[8..]);
    assert b == b[..8] + b[8..];
  }

  /** `data.add(c)` on a `*const __m128i`: the `c`-th sixteen bytes from `data`. */
  function Chunk(data: seq<Byte>, c: nat): (r: seq<Byte>)
    requires 16 * c + 16 <= |data|
    ensures |r| == 16
  {
    data[16 * c .. 16 * c + 16]
  }

  /** `_mm_loadu_si128`: an unaligned load of sixteen bytes. */
  function LoadU128(mem: seq<Byte>): M128
    requires |mem| == 16
  {
    FromBytes(mem)
  }

  /** `_mm_loadu_si128` / `_mm_store_si128` on an array of `u64`: lane `lo` is word `p`. */
  function LoadWords128(a: seq<Word>, p: nat): M128
    requires p + 2 <= |a|
  {
    M128(a[p], a[p + 1])
  }

  /** `_mm256_loadu_si256` on an array of `u64`: four consecutive words, lowest first. */
  function LoadWords256(a: seq<Word>, p: nat): M256
    requires p + 4 <= |a|
  {
    M256(LoadWords128(a, p), LoadWords128(a, p + 2))
  }

  /** `_mm_store_si128` into an array of `u64`: words `p` and `p + 1` take the two lanes. */
  function StoreWords128(a: seq<Word>, p: nat, v: M128): (r: seq<Word>)
    requires p + 2 <= |a|
    ensures |r| == |a| && LoadWords128(r, p) == v
    ensures forall i :: 0 <= i < |a| && i != p && i != p + 1 ==> r[i] == a[i]
  {
    a[p := v.lo][p + 1 := v.hi]
  }

  /** The byte selection of `pshufb`: byte `j` of the result is zero when bit 7 of control
      byte `j` is set, and otherwise the source byte its low four bits name. */
  function Select(src: seq<Byte>, control: seq<Byte>): (r: seq<Byte>)
    requires |src| == 16 && |control| == 16
    ensures |r| == 16
  {
    seq(16, j requires 0 <= j < 16 =>
      if control[j] & 0x80 != 0 then 0 else src[(control[j] & 0x0F) as int])
  }

  /** `_mm_shuffle_epi8`. */
  function ShuffleEpi8(a: M128, mask: M128): M128 {
    FromBytes(Select(Bytes(a), Bytes(mask)))
  }

  /** `_mm256_shuffle_epi8`: the 128-bit shuffle within each lane. */
  function Mm256ShuffleEpi8(a: M256, mask: M256): M256 {
    M256(ShuffleEpi8(a.lane0, mask.lane0), ShuffleEpi8(a.lane1, mask.lane1))
  }

  /** `_mm_setr_epi32`: four 32-bit elements, the first at the lowest address. */
  function SetrEpi32(e0: bv32, e1: bv32, e2: bv32, e3: bv32): M128 {
    M128(((e1 as Word) << 32) | (e0 as Word), ((e3 as Word) << 32) | (e2 as Word))
  }

  /** `_mm256_set_epi64x`: four 64-bit elements, the first at the highest address. */
  function Mm256SetEpi64x(e3: Word, e2: Word, e1: Word, e0: Word): M256 {
    M256(M128(e0, e1), M128(e2, e3))
  }

  /** `_mm256_insertf128_si256::<IMM>`: replaces the lane bit 0 of `imm` names. */
  function Mm256InsertF128(a: M256, b: M128, imm: bv8): M256 {
    if imm & 1 == 0 then M256(b, a.lane1) else M256(a.lane0, b)
  }

  /** `_mm256_extracti128_si256::<IMM>`: the lane bit 0 of `imm` names. */
  function Mm256ExtractI128(a: M256, imm: bv8): M128 {
    if imm & 1 == 0 then a.lane0 else a.lane1
  }

  /** `_mm_add_epi64`: lane-wise addition modulo 2^64. */
  function AddEpi64(a: M128, b: M128): M128 {
    M128(WrappingAdd(a.lo, b.lo), WrappingAdd(a.hi, b.hi))
  }

  /** `_mm256_add_epi64`. */
  function Mm256AddEpi64(a: M256, b: M256): M256 {
    M256(AddEpi64(a.lane0, b.lane0), AddEpi64(a.lane1, b.lane1))
  }

  /** `_mm_alignr_epi8::<8>(a, b)`: bytes 8..24 of the 32-byte value `a:b`, that is the
      high lane of `b` followed by the low lane of `a`. */
  function AlignrEpi8By8(a: M128, b: M128): M128 {
    M128(b.hi, a.lo)
  }

  /** `_mm256_alignr_epi8::<8>`: the 128-bit alignment within each lane. */
  function Mm256AlignrEpi8By8(a: M256, b: M256): M256 {
    M256(AlignrEpi8By8(a.lane0, b.lane0), AlignrEpi8By8(a.lane1, b.lane1))
  }

  /** The shuffle control that reverses the bytes of each 64-bit lane. */
  const ByteSwapMask: M128 := M128(0x0001_0203_0405_0607, 0x0809_0A0B_0C0D_0E0F)

  /** `MASK` of `load_data_avx`. */
  const MaskAvx: M128 := SetrEpi32(0x0405_0607, 0x0001_0203, 0x0c0d_0e0f, 0x0809_0a0b)

  /** `MASK` of `load_data_avx2`. */
  const MaskAvx2: M256 := Mm256SetEpi64x(0x0809_0A0B_0C0D_0E0F, 0x0001_0203_0405_0607,
                                         0x0809_0A0B_0C0D_0E0F, 0x0001_0203_0405_0607)

  /** Both loaders use the same control, once per 128-bit lane for the wide one. */
  lemma MasksSwapBytes()
    ensures MaskAvx == ByteSwapMask
    ensures MaskAvx2 == M256(ByteSwapMask, ByteSwapMask)
  {
  }

  lemma ByteSwapMaskBytes()
    ensures Bytes(ByteSwapMask) == [7, 6, 5, 4, 3, 2, 1, 0, 15, 14, 13, 12, 11, 10, 9, 8]
  {
  }

  lemma SelectByteSwap(c: seq<Byte>)
    requires |c| == 16
    ensures Select(c, [7, 6, 5, 4, 3, 2, 1, 0, 15, 14, 13, 12, 11, 10, 9, 8])
         == [c[7], c[6], c[5], c[4], c[3], c[2], c[1], c[0], c[15], c[14], c[13], c[12], c[11], c[10], c[9], c[8]]
  {
  }

  lemma FromSwappedBytes(c: seq<Byte>)
    requires |c| == 16
    ensures FromBytes([c[7], c[6], c[5], c[4], c[3], c[2], c[1], c[0], c[15], c[14], c[13], c[12], c[11], c[10], c[9], c[8]])
         == M128(BigEndian64(c[..8]), BigEndian64(c[8..]))
  {
    var r := [c[7], c[6], c[5], c[4], c[3], c[2], c[1], c[0], c[15], c[14], c[13], c[12], c[11], c[10], c[9], c[8]];
    assert r[..8] == [c[..8][7], c[..8][6], c[..8][5], c[..8][4], c[..8][3], c[..8][2], c[..8][1], c[..8][0]];
    assert r[8..] == [c[8..][7], c[8..][6], c[8..][5], c[8..][4], c[8..][3], c[8..][2], c[8..][1], c[8..][0]];
    ReversedLittleEndianIsBigEndian(c[..8]);
    ReversedLittleEndianIsBigEndian(c[8..]);
  }

  /** Loading sixteen bytes and shuffling them with the byte-swap control reads two
      big-endian words: the loaders turn message bytes into message words. */
  lemma ByteSwapLoad(c: seq<Byte>)
    requires |c| == 16
    ensures ShuffleEpi8(LoadU128(c), ByteSwapMask) == M128(BigEndian64(c[..8]), BigEndian64(c[8..]))
  {
    BytesFromBytes(c);
    ByteSwapMaskBytes();
    SelectByteSwap(c);
    FromSwappedBytes(c);
  }
}
