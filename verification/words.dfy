/** Machine words, bytes, byte order and the size constants of the SHA-512 core. */
module Words {

  /** A `u8`. */
  type Byte = bv8

  /** A `u64`. Addition on `bv64` wraps modulo 2^64, exactly like Rust's `wrapping_add`. */
  type Word = bv64

  /** `SHA512_BLOCK_BYTE_LEN`: a message block is 128 bytes. */
  const BlockByteLen: nat := 128
  /** `SHA512_ROUNDS_NUM`: the number of rounds per block. */
  const RoundsNum: nat := 80
  /** `SHA512_HASH_BYTE_LEN`: the chaining value is 64 bytes. */
  const HashByteLen: nat := 64
  /** `size_of::<u64>()` */
  const WordByteLen: nat := 8
  /** `SHA512_HASH_WORDS_NUM`: words in the chaining value. */
  const HashWordsNum: nat := HashByteLen / WordByteLen
  /** `SHA512_BLOCK_WORDS_NUM`: words in one block, and slots in the live message schedule. */
  const BlockWordsNum: nat := BlockByteLen / WordByteLen

  /** Addition modulo 2^64 (section 3.2 of FIPS 180-4; Rust's `u64::wrapping_add`). */
  function WrappingAdd(a: Word, b: Word): Word {
    a + b
  }

  /** `State`: the eight 64-bit words of the chaining value or of its working copy. */
  type State = s: seq<Word> | |s| == HashWordsNum witness [0, 0, 0, 0, 0, 0, 0, 0]

  /** `[u8; 128]`: one message block. */
  type Block = b: seq<Byte> | |b| == BlockByteLen witness seq(128, _ => 0)

  /** The derived sizes have the values the rest of the code relies on. */
  lemma SizeConstants()
    ensures HashWordsNum == 8 && BlockWordsNum == 16 && RoundsNum == 5 * BlockWordsNum
  {
  }

  /** The eight bytes of a word in memory order on a little-endian machine. */
  function LittleEndianBytes(w: Word): (b: seq<Byte>)
    ensures |b| == 8
  {
    [ (w & 0xFF) as Byte, ((w >> 8) & 0xFF) as Byte,
      ((w >> 16) & 0xFF) as Byte, ((w >> 24) & 0xFF) as Byte,
      ((w >> 32) & 0xFF) as Byte, ((w >> 40) & 0xFF) as Byte,
      ((w >> 48) & 0xFF) as Byte, ((w >> 56) & 0xFF) as Byte ]
  }

  /** The word a little-endian machine reads from eight bytes of memory. */
  function LittleEndian64(b: seq<Byte>): Word
    requires |b| == 8
  {
    (b[0] as Word)
    | ((b[1] as Word) << 8)
    | ((b[2] as Word) << 16)
    | ((b[3] as Word) << 24)
    | ((b[4] as Word) << 32)
    | ((b[5] as Word) << 40)
    | ((b[6] as Word) << 48)
    | ((b[7] as Word) << 56)
  }

  /** The word eight bytes denote in big-endian order (section 3.1 of FIPS 180-4). */
  function BigEndian64(b: seq<Byte>): Word
    requires |b| == 8
  {
    ((b[0] as Word) << 56)
    | ((b[1] as Word) << 48)
    | ((b[2] as Word) << 40)
    | ((b[3] as Word) << 32)
    | ((b[4] as Word) << 24)
    | ((b[5] as Word) << 16)
    | ((b[6] as Word) << 8)
    | (b[7] as Word)
  }

  /** Loading eight bytes as a word and storing it back gives the bytes again. */
  lemma LittleEndianBytesRoundTrip(b: seq<Byte>)
    requires |b| == 8
    ensures LittleEndianBytes(LittleEndian64(b)) == b
  {
  }

  /** Reading eight bytes in reverse little-endian order is reading them big-endian. */
  lemma ReversedLittleEndianIsBigEndian(b: seq<Byte>)
    requires |b| == 8
    ensures LittleEndian64([b[7], b[6], b[5], b[4], b[3], b[2], b[1], b[0]]) == BigEndian64(b)
  {
  }

  /** The sixteen big-endian words of a block (section 5.2.2 of FIPS 180-4). */
  function BlockWords(block: Block): (w: seq<Word>)
    ensures |w| == BlockWordsNum
  {
    seq(16, i requires 0 <= i < 16 => BigEndian64(block[8 * i .. 8 * i + 8]))
  }
}
